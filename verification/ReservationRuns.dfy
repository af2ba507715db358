/**
 Reserving, recording and completing one deployment ceremony by any number of processes,
 with a crash or an error possible after every step. A crash leaves the lock file, a torn
 file or a half-finished completion behind; an operator may remove the lock of a dead owner.
 */
module ReservationRuns {
  import opened Basics
  import opened Reservation

  /** A file written in place: torn until its last byte is down. Torn bytes never parse. */
  datatype File<T> = Torn(writer: nat) | Whole(value: T)

  datatype Lock = Lock(token: nat, whole: bool)

  /** An operation run under the lock. */
  datatype Operation =
    | Recording(who: Identity, update: Update)
    | Completing(who: Identity, at: int)

  datatype Phase =
    | Idle
    // reserving, without the lock
    | CheckManifest(token: nat, initial: Record)
    | CheckArchive(token: nat, initial: Record)
    | Creating(token: nat, initial: Record)
    | WritingReservation(token: nat, initial: Record)
    | Unconfirmed(token: nat, initial: Record)     // complete; the second manifest check is to come
    | Withdrawing(token: nat)                      // that check failed: about to remove the file
    | ReadingBack(token: nat, initial: Record)
    // taking the lock
    | Locking(token: nat, op: Operation)
    | LockTorn(token: nat, op: Operation)
    // holding it
    | Holding(token: nat, op: Operation)
    | Replacing(token: nat, op: Operation, from: Record, next: Record)   // read, not yet replaced
    | ManifestRead(token: nat, op: Operation, digest: ManifestDigest)
    | ArchiveAbsent(token: nat, op: Operation, digest: ManifestDigest)
    | Archiving(token: nat, op: Operation, archive: Archive)
    | WritingArchive(token: nat, op: Operation, archive: Archive)
    | Archived(token: nat, op: Operation, archive: Archive)   // about to remove the reservation
    | Done(token: nat, op: Operation, result: Option<Archive>)
    | Returned(op: Operation, result: Option<Archive>)

  datatype System = System(
    manifest: Option<Manifest>,
    reservation: Option<File<Record>>,
    archive: Option<File<Archive>>,
    lock: Option<Lock>,
    nextToken: nat,
    successes: nat,             // reserve calls that have returned normally
    phases: seq<Phase>)

  predicate Init(s: System) {
    && s.manifest == None && s.reservation == None && s.archive == None && s.lock == None && s.successes == 0
    && forall p :: 0 <= p < |s.phases| ==> s.phases[p] == Idle
  }

  predicate FreshRecord(r: Record) {
    ValidRecord(r.identity, r) && r.generation == 0 && r.contracts == map[] && r.boards == map[]
  }

  datatype Action =
    | BeginReserve(initial: Record) | ManifestVacant | ArchiveVacant | CreateReservation | WriteReservation
    | Confirm | Refuse | CheckFails | Withdraw | ReadBack
    | BeginOperation(op: Operation) | CreateLock | WriteLock
    | ReadRecord | ReplaceRecord
    | ReadManifest | ReadArchive | ReadForArchive | CreateArchive | WriteArchive | RemoveReservation
    | Release
    | Fail                       // an error: a locked operation still releases its lock
    | Crash                      // the process dies and releases nothing
    | Recover                    // the operator removes the lock of an owner that is gone
    | PublishManifest(m: Manifest)

  predicate HoldsLock(phase: Phase) {
    || phase.Holding? || phase.Replacing? || phase.ManifestRead? || phase.ArchiveAbsent?
    || phase.Archiving? || phase.WritingArchive? || phase.Archived? || phase.Done?
  }

  function TokenOf(phase: Phase): Option<nat> {
    if phase.Idle? || phase.Returned? then None else Some(phase.token)
  }

  function WholeRecord(s: System): Option<Record> {
    if s.reservation.Some? && s.reservation.value.Whole? then Some(s.reservation.value.value) else None
  }

  function WholeArchive(s: System): Option<Archive> {
    if s.archive.Some? && s.archive.value.Whole? then Some(s.archive.value.value) else None
  }

  function To(s: System, p: nat, phase: Phase): System
    requires p < |s.phases|
  {
    s.(phases := s.phases[p := phase])
  }

  /** What a completion does when it finds an archive: accept it or stop. */
  function FoundArchive(s: System, who: Identity, a: Archive, digest: ManifestDigest): bool {
    match s.reservation
    case None => ValidArchive(who, a, digest, None)
    case Some(Torn(_)) => false
    case Some(Whole(r)) => ValidRecord(who, r) && ValidArchive(who, a, digest, Some(r))
  }

  function Step(s: System, p: nat, action: Action): (next: Option<System>)
    requires p < |s.phases|
    ensures next.Some? ==> |next.value.phases| == |s.phases|
  {
    var phase := s.phases[p];
    match action
    case BeginReserve(initial) =>
      if (phase.Idle? || phase.Returned?) && FreshRecord(initial)
      then Some(To(s.(nextToken := s.nextToken + 1), p, CheckManifest(s.nextToken, initial))) else None
    case ManifestVacant =>
      if phase.CheckManifest? && s.manifest == None then Some(To(s, p, CheckArchive(phase.token, phase.initial))) else None
    case ArchiveVacant =>
      if phase.CheckArchive? && s.archive == None then Some(To(s, p, Creating(phase.token, phase.initial))) else None
    case CreateReservation =>
      if phase.Creating? && s.reservation == None
      then Some(To(s.(reservation := Some(Torn(phase.token))), p, WritingReservation(phase.token, phase.initial))) else None
    case WriteReservation =>
      if !phase.WritingReservation? then None
      else
        var file := if s.reservation == Some(Torn(phase.token)) then Some(Whole(phase.initial)) else s.reservation;
        Some(To(s.(reservation := file), p, Unconfirmed(phase.token, phase.initial)))
    case Confirm =>
      if phase.Unconfirmed? && s.manifest == None then Some(To(s, p, ReadingBack(phase.token, phase.initial))) else None
    case Refuse =>
      if phase.Unconfirmed? && s.manifest.Some? then Some(To(s, p, Withdrawing(phase.token))) else None
    case CheckFails =>           // any other error of the second check
      if phase.Unconfirmed? then Some(To(s, p, Withdrawing(phase.token))) else None
    case Withdraw =>
      if phase.Withdrawing? then Some(To(s.(reservation := None), p, Idle)) else None
    case ReadBack =>
      if phase.ReadingBack? && WholeRecord(s).Some? && ValidRecord(phase.initial.identity, WholeRecord(s).value)
      then Some(To(s.(successes := s.successes + 1), p, Idle)) else None
    case BeginOperation(op) =>
      if phase.Idle? || phase.Returned?
      then Some(To(s.(nextToken := s.nextToken + 1), p, Locking(s.nextToken, op))) else None
    case CreateLock =>
      if phase.Locking? && s.lock == None
      then Some(To(s.(lock := Some(Lock(phase.token, false))), p, LockTorn(phase.token, phase.op))) else None
    case WriteLock =>
      if phase.LockTorn? && s.lock == Some(Lock(phase.token, false))
      then Some(To(s.(lock := Some(Lock(phase.token, true))), p, Holding(phase.token, phase.op))) else None
    case ReadRecord =>
      if !(phase.Holding? && phase.op.Recording?) then None
      else if WholeRecord(s).Some? && ValidRecord(phase.op.who, WholeRecord(s).value)
              && Updated(phase.op.who, WholeRecord(s).value, phase.op.update).Ok?
      then Some(To(s, p, Replacing(phase.token, phase.op, WholeRecord(s).value,
                                   Updated(phase.op.who, WholeRecord(s).value, phase.op.update).value)))
      else Some(To(s, p, Done(phase.token, phase.op, None)))
    case ReplaceRecord =>
      if phase.Replacing?
      then Some(To(s.(reservation := Some(Whole(phase.next))), p, Done(phase.token, phase.op, None))) else None
    case ReadManifest =>
      if !(phase.Holding? && phase.op.Completing?) then None
      else if s.manifest.Some? && Completable(phase.op.who, s.manifest.value)
      then Some(To(s, p, ManifestRead(phase.token, phase.op, ManifestSha256(s.manifest.value.text))))
      else Some(To(s, p, Done(phase.token, phase.op, None)))
    case ReadArchive =>
      if !phase.ManifestRead? then None
      else if s.archive == None then Some(To(s, p, ArchiveAbsent(phase.token, phase.op, phase.digest)))
      else if WholeArchive(s).Some? && FoundArchive(s, phase.op.who, WholeArchive(s).value, phase.digest)
      then Some(To(s, p, Archived(phase.token, phase.op, WholeArchive(s).value)))
      else Some(To(s, p, Done(phase.token, phase.op, None)))
    case ReadForArchive =>
      if !(phase.ArchiveAbsent? && phase.op.Completing?) then None
      else if WholeRecord(s).Some? && ValidRecord(phase.op.who, WholeRecord(s).value)
      then Some(To(s, p, Archiving(phase.token, phase.op, ArchiveOf(WholeRecord(s).value, phase.digest, phase.op.at))))
      else Some(To(s, p, Done(phase.token, phase.op, None)))
    case CreateArchive =>
      if !phase.Archiving? then None
      else if s.archive == None
      then Some(To(s.(archive := Some(Torn(phase.token))), p, WritingArchive(phase.token, phase.op, phase.archive)))
      else if WholeArchive(s).Some?
              && ValidArchive(phase.op.who, WholeArchive(s).value, phase.archive.manifestDigest, Some(phase.archive.record))
      then Some(To(s, p, Archived(phase.token, phase.op, phase.archive)))
      else Some(To(s, p, Done(phase.token, phase.op, None)))
    case WriteArchive =>
      if phase.WritingArchive? && s.archive == Some(Torn(phase.token))
      then Some(To(s.(archive := Some(Whole(phase.archive))), p, Archived(phase.token, phase.op, phase.archive))) else None
    case RemoveReservation =>
      if phase.Archived?
      then Some(To(s.(reservation := None), p, Done(phase.token, phase.op, Some(phase.archive)))) else None
    case Release =>
      if !phase.Done? then None
      else if s.lock == Some(Lock(phase.token, true))
      then Some(To(s.(lock := None), p, Returned(phase.op, phase.result)))
      else Some(To(s, p, Idle))
    case Fail =>
      if HoldsLock(phase) then Some(To(s, p, Done(phase.token, phase.op, None))) else Some(To(s, p, Idle))
    case Crash => Some(To(s, p, Idle))
    case Recover =>
      if s.lock.Some? && forall q :: 0 <= q < |s.phases| ==> TokenOf(s.phases[q]) != Some(s.lock.value.token)
      then Some(s.(lock := None)) else None
    case PublishManifest(m) => Some(s.(manifest := Some(m)))
  }

  ghost predicate Next(s: System, t: System) {
    exists p: nat, action :: p < |s.phases| && Step(s, p, action) == Some(t)
  }

  ghost predicate Run(states: seq<System>) {
    && |states| > 0 && Init(states[0])
    && forall k :: 0 <= k < |states| - 1 ==> Next(states[k], states[k + 1])
  }

  // ---- The invariant ---------------------------------------------------------------------------

  /** The process has put a reservation file of its own in place and not finished reserving. */
  predicate Creator(phase: Phase) {
    phase.WritingReservation? || phase.Unconfirmed? || phase.Withdrawing? || phase.ReadingBack?
  }

  /** A manifest is there, no reserve has succeeded, and none that is under way still can. */
  ghost predicate Doomed(s: System) {
    && s.manifest.Some? && s.successes == 0
    && forall p :: 0 <= p < |s.phases| ==> !s.phases[p].ReadingBack?
  }

  ghost predicate SoundTokens(s: System) {
    && (forall p :: 0 <= p < |s.phases| && TokenOf(s.phases[p]).Some? ==> TokenOf(s.phases[p]).value < s.nextToken)
    && (forall p, q :: 0 <= p < q < |s.phases| && TokenOf(s.phases[p]).Some? ==> TokenOf(s.phases[p]) != TokenOf(s.phases[q]))
    && (s.lock.Some? ==> s.lock.value.token < s.nextToken)
  }

  ghost predicate SoundLock(s: System) {
    forall p :: 0 <= p < |s.phases| ==>
      && (HoldsLock(s.phases[p]) ==> s.lock == Some(Lock(s.phases[p].token, true)))
      && (s.phases[p].LockTorn? ==> s.lock == Some(Lock(s.phases[p].token, false)))
  }

  /** The reservation file still holds exactly what a completion under way read from it. */
  ghost predicate Steady(s: System, r: Record) {
    WholeArchive(s).Some? || Doomed(s) || WholeRecord(s) == Some(r)
  }

  /** The replacement was computed from a valid record by the recording's update. */
  predicate Computed(op: Operation, from: Record, next: Record) {
    op.Recording? && ValidRecord(op.who, from) && Updated(op.who, from, op.update) == Ok(next)
  }

  ghost predicate SoundArchive(a: Archive) {
    ValidRecord(a.record.identity, a.record) && a.recordDigest == Sha256(a.record)
  }

  ghost predicate SoundPhase(s: System, phase: Phase) {
    match phase
    case WritingReservation(t, initial) => FreshRecord(initial)
    case Unconfirmed(_, initial) => FreshRecord(initial)
    case CheckManifest(_, initial) => FreshRecord(initial)
    case CheckArchive(_, initial) => FreshRecord(initial)
    case Creating(_, initial) => FreshRecord(initial)
    case Replacing(_, op, from, next) => Computed(op, from, next)
    case ManifestRead(_, op, _) => s.manifest.Some?
    case ArchiveAbsent(_, op, _) => s.manifest.Some? && s.archive == None
    case Archiving(_, op, a) => s.manifest.Some? && s.archive == None && SoundArchive(a) && Steady(s, a.record)
    case WritingArchive(t, op, a) =>
      s.manifest.Some? && s.archive == Some(Torn(t)) && SoundArchive(a) && Steady(s, a.record)
    case Archived(_, _, a) => WholeArchive(s) == Some(a)
    case Done(_, _, result) => result.Some? ==> WholeArchive(s) == result
    case Returned(_, result) => result.Some? ==> WholeArchive(s) == result
    case _ => true
  }

  ghost predicate SoundPhases(s: System) {
    forall p :: 0 <= p < |s.phases| ==> SoundPhase(s, s.phases[p])
  }

  ghost predicate SoundFiles(s: System) {
    && (WholeRecord(s).Some? ==> ValidRecord(WholeRecord(s).value.identity, WholeRecord(s).value))
    && (WholeArchive(s).Some? ==> SoundArchive(WholeArchive(s).value))
    && (s.archive.Some? ==> s.manifest.Some?)
  }

  /** Until an archive exists, at most one creator is at work and its file is in place. */
  ghost predicate SoundCreators(s: System) {
    WholeArchive(s).None? ==>
      && (forall p, q :: 0 <= p < q < |s.phases| ==> !(Creator(s.phases[p]) && Creator(s.phases[q])))
      && (forall p :: 0 <= p < |s.phases| && Creator(s.phases[p]) ==> s.reservation.Some? && s.successes == 0)
  }

  /** After a success, and until an archive exists, the reservation is there and complete. */
  ghost predicate Durable(s: System) {
    s.successes > 0 && WholeArchive(s).None? ==> WholeRecord(s).Some?
  }

  ghost predicate SoundSuccesses(s: System) {
    && s.successes <= 1
    && (forall p, q :: 0 <= p < q < |s.phases| ==> !(s.phases[p].ReadingBack? && s.phases[q].ReadingBack?))
    && (s.successes > 0 ==> forall p :: 0 <= p < |s.phases| ==> !s.phases[p].ReadingBack?)
  }

  ghost predicate Inv(s: System) {
    && SoundTokens(s) && SoundLock(s) && SoundPhases(s) && SoundFiles(s)
    && SoundCreators(s) && Durable(s) && SoundSuccesses(s)
  }

  lemma InitInv(s: System)
    requires Init(s)
    ensures Inv(s)
  {
  }

  // ---- One step ------------------------------------------------------------------------------------

  lemma StepShape(s: System, p: nat, action: Action, t: System)
    requires p < |s.phases| && Step(s, p, action) == Some(t)
    ensures |t.phases| == |s.phases| && s.nextToken <= t.nextToken
    ensures forall q :: 0 <= q < |s.phases| && q != p ==> t.phases[q] == s.phases[q]
    ensures action.Recover? || action.PublishManifest? ==> t.phases == s.phases
    ensures s.manifest.Some? ==> t.manifest.Some?
    ensures !action.PublishManifest? ==> t.manifest == s.manifest
    ensures action != CreateArchive && action != WriteArchive ==> t.archive == s.archive
    ensures action != ReadBack ==> t.successes == s.successes
  {
  }

  lemma StepTokens(s: System, p: nat, action: Action, t: System)
    requires p < |s.phases| && Step(s, p, action) == Some(t) && SoundTokens(s)
    ensures SoundTokens(t)
  {
    StepShape(s, p, action, t);
    OwnToken(s, p, action, t);
  }

  /** A token is drawn once, at the start, and kept to the end. */
  lemma OwnToken(s: System, p: nat, action: Action, t: System)
    requires p < |s.phases| && Step(s, p, action) == Some(t)
    ensures TokenOf(t.phases[p]).Some? ==>
              (TokenOf(t.phases[p]) == TokenOf(s.phases[p])
               || (TokenOf(t.phases[p]) == Some(s.nextToken) && t.nextToken == s.nextToken + 1))
    ensures t.lock.Some? ==> t.lock == s.lock || Some(t.lock.value.token) == TokenOf(s.phases[p])
  {
  }

  lemma StepLock(s: System, p: nat, action: Action, t: System)
    requires p < |s.phases| && Step(s, p, action) == Some(t) && SoundTokens(s) && SoundLock(s)
    ensures SoundLock(t)
  {
    StepShape(s, p, action, t);
    forall q | 0 <= q < |t.phases|
      ensures HoldsLock(t.phases[q]) ==> t.lock == Some(Lock(t.phases[q].token, true))
      ensures t.phases[q].LockTorn? ==> t.lock == Some(Lock(t.phases[q].token, false))
    {
      if q != p {
        assert TokenOf(s.phases[q]).Some? ==> TokenOf(s.phases[q]) != TokenOf(s.phases[p]);
        OthersLock(s, p, action, t, q);
      } else {
        OwnLock(s, p, action, t);
      }
    }
  }

  lemma OwnLock(s: System, p: nat, action: Action, t: System)
    requires p < |s.phases| && Step(s, p, action) == Some(t) && SoundLock(s)
    ensures HoldsLock(t.phases[p]) ==> t.lock == Some(Lock(t.phases[p].token, true))
    ensures t.phases[p].LockTorn? ==> t.lock == Some(Lock(t.phases[p].token, false))
  {
  }

  lemma OthersLock(s: System, p: nat, action: Action, t: System, q: nat)
    requires p < |s.phases| && q < |s.phases| && q != p && Step(s, p, action) == Some(t)
    requires SoundTokens(s) && SoundLock(s)
    ensures HoldsLock(s.phases[q]) || s.phases[q].LockTorn? ==> t.lock == s.lock
  {
    if HoldsLock(s.phases[q]) || s.phases[q].LockTorn? {
      assert s.lock.Some? && TokenOf(s.phases[q]) == Some(s.lock.value.token);
      assert TokenOf(s.phases[p]) != TokenOf(s.phases[q]);
    }
  }

  lemma DoomedStays(s: System, p: nat, action: Action, t: System)
    requires p < |s.phases| && Step(s, p, action) == Some(t) && Doomed(s)
    ensures Doomed(t)
  {
    StepShape(s, p, action, t);
    assert !s.phases[p].ReadingBack?;
    assert !t.phases[p].ReadingBack?;
  }

  /** A complete archive is never written again. */
  lemma ArchiveStays(s: System, p: nat, action: Action, t: System)
    requires p < |s.phases| && Step(s, p, action) == Some(t) && WholeArchive(s).Some?
    ensures t.archive == s.archive
  {
  }

  /** Only a lock holder replaces or archives; only a creator makes, writes or withdraws the file. */
  lemma StepReservation(s: System, p: nat, action: Action, t: System)
    requires p < |s.phases| && Step(s, p, action) == Some(t)
    ensures action in {ReplaceRecord, RemoveReservation, CreateArchive, WriteArchive} ==> HoldsLock(s.phases[p])
    ensures action == ReplaceRecord ==> s.phases[p].Replacing? && t.reservation == Some(Whole(s.phases[p].next))
    ensures action == RemoveReservation ==> s.phases[p].Archived? && t.reservation == None
    ensures action == Withdraw ==> s.phases[p].Withdrawing? && t.reservation == None
    ensures action == CreateReservation ==> s.reservation == None && t.reservation.Some? && WholeRecord(t).None?
    ensures action == WriteReservation ==> s.phases[p].WritingReservation?
    ensures action == WriteReservation ==>
              (t.reservation == s.reservation
               || (WholeRecord(s).None? && s.reservation.Some? && t.reservation == Some(Whole(s.phases[p].initial))))
    ensures action !in {ReplaceRecord, RemoveReservation, Withdraw, CreateReservation, WriteReservation} ==>
              t.reservation == s.reservation
  {
  }

  lemma WithdrawDooms(s: System, p: nat, t: System)
    requires p < |s.phases| && Step(s, p, Withdraw) == Some(t) && WholeArchive(s).None?
    requires SoundCreators(s) && s.manifest.Some?
    ensures Doomed(t)
  {
    StepShape(s, p, Withdraw, t);
    forall q | 0 <= q < |t.phases| ensures !t.phases[q].ReadingBack? {
      if q != p { NoOtherCreator(s, p, q); }
    }
  }

  lemma SteadyStays(s: System, p: nat, action: Action, t: System, r: Record)
    requires p < |s.phases| && Step(s, p, action) == Some(t)
    requires SoundCreators(s) && s.manifest.Some? && Steady(s, r)
    requires action != ReplaceRecord && action != RemoveReservation
    ensures Steady(t, r)
  {
    if WholeArchive(s).Some? {
      ArchiveStays(s, p, action, t);
    } else if Doomed(s) {
      DoomedStays(s, p, action, t);
    } else {
      StepReservation(s, p, action, t);
      if action == Withdraw { WithdrawDooms(s, p, t); }
    }
  }

  lemma OneHolder(s: System, p: nat, q: nat)
    requires p < |s.phases| && q < |s.phases| && p != q && SoundTokens(s) && SoundLock(s)
    ensures !(HoldsLock(s.phases[p]) && HoldsLock(s.phases[q]))
  {
    assert TokenOf(s.phases[p]).Some? && TokenOf(s.phases[q]).Some? ==> TokenOf(s.phases[p]) != TokenOf(s.phases[q]);
  }

  /** Another process's phase stays sound. */
  lemma OthersPhase(s: System, p: nat, action: Action, t: System, q: nat)
    requires Inv(s) && p < |s.phases| && q < |s.phases| && q != p && Step(s, p, action) == Some(t)
    ensures SoundPhase(t, s.phases[q])
  {
    if HoldsLock(s.phases[q]) {
      OthersHolder(s, p, action, t, q);
    } else {
      StepShape(s, p, action, t);
      assert SoundPhase(s, s.phases[q]);
      if WholeArchive(s).Some? { ArchiveStays(s, p, action, t); }
    }
  }

  /** While another process holds the lock, a step leaves the archive alone and the reservation steady. */
  lemma OutsideLock(s: System, p: nat, action: Action, t: System, q: nat)
    requires Inv(s) && p < |s.phases| && q < |s.phases| && q != p && Step(s, p, action) == Some(t)
    requires HoldsLock(s.phases[q])
    ensures t.archive == s.archive && action != ReplaceRecord && action != RemoveReservation
  {
    OneHolder(s, p, q);
    StepShape(s, p, action, t);
    StepReservation(s, p, action, t);
  }

  lemma OthersHolder(s: System, p: nat, action: Action, t: System, q: nat)
    requires Inv(s) && p < |s.phases| && q < |s.phases| && q != p && Step(s, p, action) == Some(t)
    requires HoldsLock(s.phases[q])
    ensures SoundPhase(t, s.phases[q])
  {
    StepShape(s, p, action, t);
    OutsideLock(s, p, action, t, q);
    HolderStays(s, p, action, t, s.phases[q]);
  }

  /** A phase inside the lock stays sound while archive and reservation do. */
  lemma HolderStays(s: System, p: nat, action: Action, t: System, phase: Phase)
    requires SoundPhases(s) && SoundCreators(s) && p < |s.phases| && Step(s, p, action) == Some(t)
    requires SoundPhase(s, phase) && HoldsLock(phase) && t.archive == s.archive && (s.manifest.Some? ==> t.manifest.Some?)
    requires action != ReplaceRecord && action != RemoveReservation
    ensures SoundPhase(t, phase)
  {
    match phase
    case Archiving(_, _, a) => SteadyStays(s, p, action, t, a.record);
    case WritingArchive(_, _, a) => SteadyStays(s, p, action, t, a.record);
    case _ =>
  }

  lemma OwnPhase(s: System, p: nat, action: Action, t: System)
    requires Inv(s) && p < |s.phases| && Step(s, p, action) == Some(t)
    ensures SoundPhase(t, t.phases[p])
  {
    match action
    case ReadRecord => ReadRecordPhase(s, p, t);
    case ReadArchive => ReadArchivePhase(s, p, t);
    case ReadForArchive => ReadForArchivePhase(s, p, t);
    case CreateArchive => CreateArchivePhase(s, p, t);
    case Recover => SamePhase(s, p, action, t);
    case PublishManifest(_) => SamePhase(s, p, action, t);
    case _ => if HoldsLock(s.phases[p]) { HolderPhase(s, p, action, t); } else { FreePhase(s, p, action, t); }
  }

  lemma HolderPhase(s: System, p: nat, action: Action, t: System)
    requires Inv(s) && p < |s.phases| && Step(s, p, action) == Some(t) && HoldsLock(s.phases[p])
    requires !action.ReadRecord? && !action.ReadArchive? && !action.ReadForArchive? && !action.CreateArchive?
    requires !action.Recover? && !action.PublishManifest?
    ensures SoundPhase(t, t.phases[p])
  {
    assert SoundPhase(s, s.phases[p]);
    HolderShape(s, p, action, t);
  }

  /** Where these steps inside the lock lead, and what they leave of the archive. */
  lemma HolderShape(s: System, p: nat, action: Action, t: System)
    requires p < |s.phases| && Step(s, p, action) == Some(t) && HoldsLock(s.phases[p])
    requires !action.ReadRecord? && !action.ReadArchive? && !action.ReadForArchive? && !action.CreateArchive?
    requires !action.Recover? && !action.PublishManifest?
    ensures t.manifest == s.manifest
    ensures match t.phases[p]
            case Idle => true
            case ManifestRead(_, _, _) => s.manifest.Some?
            case Archived(_, _, a) => t.archive == Some(Whole(a))
            case Done(_, _, result) =>
              result.Some? ==> s.phases[p].Archived? && result.value == s.phases[p].archive && t.archive == s.archive
            case Returned(_, result) =>
              s.phases[p].Done? && result == s.phases[p].result && t.archive == s.archive
            case _ => false
  {
  }

  lemma FreePhase(s: System, p: nat, action: Action, t: System)
    requires Inv(s) && p < |s.phases| && Step(s, p, action) == Some(t) && !HoldsLock(s.phases[p])
    requires !action.Recover? && !action.PublishManifest?
    ensures SoundPhase(t, t.phases[p])
  {
    assert SoundPhase(s, s.phases[p]);
  }

  lemma ReadArchivePhase(s: System, p: nat, t: System)
    requires Inv(s) && p < |s.phases| && Step(s, p, ReadArchive) == Some(t)
    ensures SoundPhase(t, t.phases[p])
  {
    assert SoundPhase(s, s.phases[p]);
  }

  lemma ReadForArchivePhase(s: System, p: nat, t: System)
    requires Inv(s) && p < |s.phases| && Step(s, p, ReadForArchive) == Some(t)
    ensures SoundPhase(t, t.phases[p])
  {
    assert SoundPhase(s, s.phases[p]);
  }

  lemma ReadRecordPhase(s: System, p: nat, t: System)
    requires Inv(s) && p < |s.phases| && Step(s, p, ReadRecord) == Some(t)
    ensures SoundPhase(t, t.phases[p])
  {
  }

  lemma CreateArchivePhase(s: System, p: nat, t: System)
    requires Inv(s) && p < |s.phases| && Step(s, p, CreateArchive) == Some(t)
    ensures SoundPhase(t, t.phases[p])
  {
    assert SoundPhase(s, s.phases[p]);
    SteadyStays(s, p, CreateArchive, t, s.phases[p].archive.record);
  }

  /** A step of the environment leaves every phase sound. */
  lemma SamePhase(s: System, p: nat, action: Action, t: System)
    requires Inv(s) && p < |s.phases| && Step(s, p, action) == Some(t)
    requires action.Recover? || action.PublishManifest?
    ensures SoundPhase(t, t.phases[p])
  {
    StepShape(s, p, action, t);
    assert SoundPhase(s, s.phases[p]);
    if HoldsLock(s.phases[p]) { HolderStays(s, p, action, t, s.phases[p]); }
  }

  lemma StepPhases(s: System, p: nat, action: Action, t: System)
    requires Inv(s) && p < |s.phases| && Step(s, p, action) == Some(t)
    ensures SoundPhases(t)
  {
    StepShape(s, p, action, t);
    forall q | 0 <= q < |t.phases| ensures SoundPhase(t, t.phases[q]) {
      if q == p { OwnPhase(s, p, action, t); } else { OthersPhase(s, p, action, t, q); }
    }
  }

  lemma ReplacementValid(op: Operation, from: Record, next: Record)
    requires Computed(op, from, next)
    ensures Recorded(op.who, from, op.update, next) && ValidRecord(next.identity, next)
  {
    UpdateKeeps(op.who, from, op.update);
  }

  lemma StepFiles(s: System, p: nat, action: Action, t: System)
    requires Inv(s) && p < |s.phases| && Step(s, p, action) == Some(t)
    ensures SoundFiles(t)
  {
    StepShape(s, p, action, t);
    StepArchive(s, p, action, t);
    StepRecord(s, p, action, t);
  }

  lemma StepArchive(s: System, p: nat, action: Action, t: System)
    requires Inv(s) && p < |s.phases| && Step(s, p, action) == Some(t)
    ensures WholeArchive(t).Some? ==> SoundArchive(WholeArchive(t).value)
    ensures t.archive.Some? ==> t.manifest.Some?
  {
    StepShape(s, p, action, t);
    assert SoundPhase(s, s.phases[p]);
  }

  lemma StepRecord(s: System, p: nat, action: Action, t: System)
    requires Inv(s) && p < |s.phases| && Step(s, p, action) == Some(t)
    ensures WholeRecord(t).Some? ==> ValidRecord(WholeRecord(t).value.identity, WholeRecord(t).value)
  {
    StepReservation(s, p, action, t);
    assert SoundPhase(s, s.phases[p]);
    if action == ReplaceRecord { ReplacementValid(s.phases[p].op, s.phases[p].from, s.phases[p].next); }
  }

  lemma NoOtherCreator(s: System, p: nat, q: nat)
    requires SoundCreators(s) && WholeArchive(s).None? && p < |s.phases| && q < |s.phases| && p != q
    ensures !(Creator(s.phases[p]) && Creator(s.phases[q]))
  {
    if p < q { assert !(Creator(s.phases[p]) && Creator(s.phases[q])); }
    else { assert !(Creator(s.phases[q]) && Creator(s.phases[p])); }
  }

  lemma OwnCreator(s: System, p: nat, action: Action, t: System)
    requires p < |s.phases| && Step(s, p, action) == Some(t) && Creator(t.phases[p])
    ensures Creator(s.phases[p]) || action == CreateReservation
    ensures action != Withdraw && action != ReadBack
  {
  }

  lemma StepCreators(s: System, p: nat, action: Action, t: System)
    requires Inv(s) && p < |s.phases| && Step(s, p, action) == Some(t)
    ensures SoundCreators(t)
  {
    StepShape(s, p, action, t);
    StepReservation(s, p, action, t);
    if WholeArchive(t).None? {
      if WholeArchive(s).Some? { ArchiveStays(s, p, action, t); }
      assert SoundPhase(s, s.phases[p]);
      forall q | 0 <= q < |t.phases| && Creator(t.phases[q])
        ensures Creator(s.phases[q]) || (q == p && action == CreateReservation)
        ensures t.reservation.Some? && t.successes == 0
      {
        if q == p { OwnCreator(s, p, action, t); } else { NoOtherCreator(s, p, q); }
      }
    }
  }

  lemma StepDurable(s: System, p: nat, action: Action, t: System)
    requires Inv(s) && p < |s.phases| && Step(s, p, action) == Some(t)
    ensures Durable(t)
  {
    StepShape(s, p, action, t);
    StepReservation(s, p, action, t);
    if WholeArchive(s).Some? { ArchiveStays(s, p, action, t); }
    assert SoundPhase(s, s.phases[p]);
  }

  lemma OwnReadingBack(s: System, p: nat, action: Action, t: System)
    requires p < |s.phases| && Step(s, p, action) == Some(t) && t.phases[p].ReadingBack?
    ensures s.phases[p].ReadingBack? || (action == Confirm && s.phases[p].Unconfirmed? && s.manifest == None)
    ensures action != ReadBack
  {
  }

  lemma StepSuccesses(s: System, p: nat, action: Action, t: System)
    requires Inv(s) && p < |s.phases| && Step(s, p, action) == Some(t)
    ensures SoundSuccesses(t)
  {
    StepShape(s, p, action, t);
    if t.phases[p].ReadingBack? { OwnReadingBack(s, p, action, t); }
    forall q | 0 <= q < |t.phases| && q != p
      ensures t.phases[q].ReadingBack? ==> !t.phases[p].ReadingBack? && action != ReadBack
    {
      if s.manifest == None { NoOtherCreator(s, p, q); }
      assert p < q ==> !(s.phases[p].ReadingBack? && s.phases[q].ReadingBack?);
      assert q < p ==> !(s.phases[q].ReadingBack? && s.phases[p].ReadingBack?);
    }
  }

  lemma StepInv(s: System, p: nat, action: Action, t: System)
    requires Inv(s) && p < |s.phases| && Step(s, p, action) == Some(t)
    ensures Inv(t)
  {
    StepTokens(s, p, action, t);
    StepLock(s, p, action, t);
    StepPhases(s, p, action, t);
    StepFiles(s, p, action, t);
    StepCreators(s, p, action, t);
    StepDurable(s, p, action, t);
    StepSuccesses(s, p, action, t);
  }

  lemma NextInv(s: System, t: System)
    requires Inv(s) && Next(s, t)
    ensures Inv(t)
  {
    var p: nat, action :| p < |s.phases| && Step(s, p, action) == Some(t);
    StepInv(s, p, action, t);
  }

  lemma {:induction false} RunInv(states: seq<System>, k: nat)
    requires Run(states) && k < |states|
    ensures Inv(states[k])
  {
    if k == 0 {
      InitInv(states[0]);
    } else {
      RunInv(states, k - 1);
      NextInv(states[k - 1], states[k]);
    }
  }

  // ---- Every run -----------------------------------------------------------------------------------

  /** No two processes are ever inside the lock. */
  lemma MutualExclusion(states: seq<System>, k: nat, p: nat, q: nat)
    requires Run(states) && k < |states| && p < |states[k].phases| && q < |states[k].phases| && p != q
    ensures !(HoldsLock(states[k].phases[p]) && HoldsLock(states[k].phases[q]))
  {
    RunInv(states, k);
    OneHolder(states[k], p, q);
  }

  /** The lock goes away only when its holder releases it, or by recovery once no process carries its token. */
  lemma LockRemoval(s: System, p: nat, action: Action, t: System)
    requires Inv(s) && p < |s.phases| && Step(s, p, action) == Some(t)
    requires s.lock.Some? && t.lock != s.lock
    ensures TokenOf(s.phases[p]) == Some(s.lock.value.token) || action == Recover
    ensures t.lock == None || (action == WriteLock && t.lock.value.token == s.lock.value.token)
    ensures action == Recover ==> forall q :: 0 <= q < |s.phases| ==> TokenOf(s.phases[q]) != Some(s.lock.value.token)
  {
  }

  lemma OneReservation(states: seq<System>, k: nat)
    requires Run(states) && k < |states|
    ensures states[k].successes <= 1
  {
    RunInv(states, k);
  }

  /** The deployment record that survives a crash now: the archived one, or else the reservation. */
  function Kept(s: System): Option<Record> {
    if WholeArchive(s).Some? then Some(WholeArchive(s).value.record) else WholeRecord(s)
  }

  /** The step was a recording that replaced exactly the record it had read. */
  ghost predicate ChangedBy(phase: Phase, before: Record, after: Record) {
    && phase.Replacing? && phase.op.Recording? && phase.from == before && after == phase.next
    && Updated(phase.op.who, before, phase.op.update) == Ok(after)
    && Recorded(phase.op.who, before, phase.op.update, after)
  }

  /** A replacement that continues the record by one recording. */
  predicate Fits(before: Record, after: Record) {
    Continues(before, after) && after.generation == before.generation + 1
  }

  /** Every recording under way has read the record that is kept now. */
  ghost predicate UpToDate(s: System) {
    WholeArchive(s).None? ==>
      forall p :: 0 <= p < |s.phases| && s.phases[p].Replacing? ==> Kept(s) == Some(s.phases[p].from)
  }

  /** Every recording under way is about to continue the record that is kept now. */
  ghost predicate AllFit(s: System) {
    WholeArchive(s).None? ==>
      forall p :: 0 <= p < |s.phases| && s.phases[p].Replacing? ==> Kept(s).Some? && Fits(Kept(s).value, s.phases[p].next)
  }

  lemma UpToDateFits(s: System)
    requires Inv(s) && UpToDate(s)
    ensures AllFit(s)
  {
    forall p | 0 <= p < |s.phases| && s.phases[p].Replacing? && WholeArchive(s).None?
      ensures Kept(s).Some? && Fits(Kept(s).value, s.phases[p].next)
    {
      assert SoundPhase(s, s.phases[p]);
      ReplacementValid(s.phases[p].op, s.phases[p].from, s.phases[p].next);
    }
  }

  /**
   After a success, only a recording that replaces the reservation before there is a complete archive
   changes the kept record; it puts there what it computed from the record it had read, which is one
   valid update of the kept record itself if that is what it had read.
   */
  lemma StepKeeps(s: System, p: nat, action: Action, t: System)
    requires Inv(s) && p < |s.phases| && Step(s, p, action) == Some(t) && s.successes > 0
    ensures t.successes > 0 && Kept(s).Some? && Kept(t).Some?
    ensures Kept(t) != Kept(s) ==> action == ReplaceRecord && WholeArchive(s).None?
    ensures action == ReplaceRecord && WholeArchive(s).None? ==>
              && Kept(t) == Some(s.phases[p].next)
              && (Kept(s).value == s.phases[p].from <==> ChangedBy(s.phases[p], Kept(s).value, Kept(t).value))
  {
    StepDurable(s, p, action, t);
    StepShape(s, p, action, t);
    if WholeArchive(s).Some? {
      ArchiveStays(s, p, action, t);
    } else if action == ReplaceRecord {
      ReplaceKeeps(s, p, t);
    } else {
      OtherKeeps(s, p, action, t);
    }
  }

  lemma ReplaceKeeps(s: System, p: nat, t: System)
    requires Inv(s) && p < |s.phases| && Step(s, p, ReplaceRecord) == Some(t) && WholeArchive(s).None?
    ensures Kept(t) == Some(s.phases[p].next)
    ensures ChangedBy(s.phases[p], s.phases[p].from, s.phases[p].next)
  {
    assert SoundPhase(s, s.phases[p]);
    ReplacementValid(s.phases[p].op, s.phases[p].from, s.phases[p].next);
  }

  lemma OtherKeeps(s: System, p: nat, action: Action, t: System)
    requires Inv(s) && p < |s.phases| && Step(s, p, action) == Some(t) && s.successes > 0
    requires WholeArchive(s).None? && action != ReplaceRecord
    ensures Kept(t) == Kept(s)
  {
    StepShape(s, p, action, t);
    StepReservation(s, p, action, t);
    assert SoundPhase(s, s.phases[p]);
    if action == WriteArchive { assert Steady(s, s.phases[p].archive.record); }
  }

  /** What the kept record was before the step that changed the reservation, its readers still have. */
  lemma OthersWait(s: System, p: nat, action: Action, t: System, q: nat)
    requires Inv(s) && p < |s.phases| && q < |s.phases| && q != p && Step(s, p, action) == Some(t)
    requires s.successes > 0 && WholeArchive(t).None? && s.phases[q].Replacing?
    ensures t.phases[q] == s.phases[q] && Kept(t) == Kept(s) && WholeArchive(s).None?
  {
    StepShape(s, p, action, t);
    OutsideLock(s, p, action, t, q);
    StepKeeps(s, p, action, t);
  }

  /** A recording that has just read, or still waits, has the kept record. */
  lemma OwnReplacing(s: System, p: nat, action: Action, t: System)
    requires Inv(s) && p < |s.phases| && Step(s, p, action) == Some(t) && s.successes > 0
    requires WholeArchive(t).None? && t.phases[p].Replacing?
    ensures WholeArchive(s).None? && Kept(t) == Kept(s)
    ensures if action == ReadRecord then Kept(t) == Some(t.phases[p].from) else t.phases[p] == s.phases[p]
  {
    StepKeeps(s, p, action, t);
    if WholeArchive(s).Some? { ArchiveStays(s, p, action, t); }
  }

  lemma StepUpToDate(s: System, p: nat, action: Action, t: System)
    requires Inv(s) && p < |s.phases| && Step(s, p, action) == Some(t) && s.successes > 0
    ensures UpToDate(s) ==> UpToDate(t)
  {
    StepShape(s, p, action, t);
    forall q | 0 <= q < |t.phases| && t.phases[q].Replacing? && WholeArchive(t).None?
      ensures UpToDate(s) ==> Kept(t) == Some(t.phases[q].from)
    {
      if q == p { OwnReplacing(s, p, action, t); } else { OthersWait(s, p, action, t, q); }
    }
  }

  lemma StepAllFit(s: System, p: nat, action: Action, t: System)
    requires Inv(s) && p < |s.phases| && Step(s, p, action) == Some(t) && s.successes > 0 && AllFit(s)
    ensures AllFit(t)
  {
    StepShape(s, p, action, t);
    forall q | 0 <= q < |t.phases| && t.phases[q].Replacing? && WholeArchive(t).None?
      ensures Kept(t).Some? && Fits(Kept(t).value, t.phases[q].next)
    {
      if q == p { OwnFits(s, p, action, t); } else { OthersWait(s, p, action, t, q); }
    }
  }

  lemma OwnFits(s: System, p: nat, action: Action, t: System)
    requires Inv(s) && p < |s.phases| && Step(s, p, action) == Some(t) && s.successes > 0 && AllFit(s)
    requires WholeArchive(t).None? && t.phases[p].Replacing?
    ensures Kept(t).Some? && Fits(Kept(t).value, t.phases[p].next)
  {
    OwnReplacing(s, p, action, t);
    if action == ReadRecord {
      ReadRecordPhase(s, p, t);
      ReplacementValid(t.phases[p].op, t.phases[p].from, t.phases[p].next);
    }
  }

  /** The step is a recording that replaces the reservation while there is no complete archive. */
  ghost predicate RecordingCounts(s: System, t: System) {
    WholeArchive(s).None? && exists p: nat :: p < |s.phases| && Step(s, p, ReplaceRecord) == Some(t)
  }

  /** The kept record stays, or is continued by the one recording that counts. */
  ghost predicate KeptBy(s: System, t: System) {
    && t.successes > 0 && Kept(s).Some? && Kept(t).Some?
    && (if RecordingCounts(s, t) then Fits(Kept(s).value, Kept(t).value) else Kept(t) == Kept(s))
  }

  lemma RecordingFits(s: System, t: System)
    requires Inv(s) && s.successes > 0 && AllFit(s) && RecordingCounts(s, t)
    ensures KeptBy(s, t)
  {
    var p: nat :| p < |s.phases| && Step(s, p, ReplaceRecord) == Some(t);
    StepKeeps(s, p, ReplaceRecord, t);
  }

  lemma NextKeeps(s: System, t: System)
    requires Inv(s) && Next(s, t) && s.successes > 0 && AllFit(s)
    ensures KeptBy(s, t) && AllFit(t)
  {
    var p: nat, action :| p < |s.phases| && Step(s, p, action) == Some(t);
    StepAllFit(s, p, action, t);
    if RecordingCounts(s, t) { RecordingFits(s, t); } else { StepKeeps(s, p, action, t); }
  }

  /** After a success the reservation disappears only once the archive of its record is complete. */
  lemma RemovedOnceArchived(s: System, p: nat, action: Action, t: System)
    requires Inv(s) && p < |s.phases| && Step(s, p, action) == Some(t) && s.successes > 0
    requires WholeRecord(s).Some? && WholeRecord(t).None?
    ensures WholeArchive(s).Some? && SoundArchive(WholeArchive(s).value) && t.archive == s.archive
  {
    StepReservation(s, p, action, t);
    assert SoundPhase(s, s.phases[p]);
    if WholeArchive(s).Some? { ArchiveStays(s, p, action, t); }
  }

  lemma RunKeeps(states: seq<System>, k: nat)
    requires Run(states) && k + 1 < |states| && states[k].successes > 0 && AllFit(states[k])
    ensures KeptBy(states[k], states[k + 1]) && AllFit(states[k + 1])
  {
    RunInv(states, k);
    NextKeeps(states[k], states[k + 1]);
  }

  lemma KeptNow(states: seq<System>, k: nat)
    requires Run(states) && k < |states| && states[k].successes > 0
    ensures Kept(states[k]).Some?
  {
    RunInv(states, k);
    assert Durable(states[k]);
  }

  lemma SuccessesGrow(states: seq<System>, k: nat)
    requires Run(states) && k + 1 < |states|
    ensures states[k].successes <= states[k + 1].successes
  {
    var s := states[k];
    assert Next(s, states[k + 1]);
    var p: nat, action :| p < |s.phases| && Step(s, p, action) == Some(states[k + 1]);
    StepShape(s, p, action, states[k + 1]);
  }

  lemma {:induction false} Ascending(states: seq<System>, k: nat, l: nat)
    requires k <= l < |states|
    requires forall i :: 0 <= i < |states| - 1 ==> states[i].successes <= states[i + 1].successes
    ensures states[k].successes <= states[l].successes
  {
    if k < l { Ascending(states, k, l - 1); }
  }

  lemma SuccessStays(states: seq<System>, k: nat, l: nat)
    requires Run(states) && k <= l < |states| && states[k].successes > 0
    ensures states[l].successes > 0
  {
    forall i | 0 <= i < |states| - 1 ensures states[i].successes <= states[i + 1].successes {
      SuccessesGrow(states, i);
    }
    Ascending(states, k, l);
  }

  /** How many steps between two points replaced the reservation by a recording while there was no complete archive. */
  ghost function Recordings(states: seq<System>, k: nat, l: nat): nat
    requires k <= l < |states|
    decreases l
  {
    if k == l then 0
    else Recordings(states, k, l - 1) + if RecordingCounts(states[l - 1], states[l]) then 1 else 0
  }

  /** Between two points the kept record is continued, its generation counting exactly the recordings. */
  ghost predicate NothingLost(states: seq<System>, k: nat, l: nat)
    requires k <= l < |states|
  {
    && Kept(states[k]).Some? && Kept(states[l]).Some?
    && Continues(Kept(states[k]).value, Kept(states[l]).value)
    && Kept(states[l]).value.generation == Kept(states[k]).value.generation + Recordings(states, k, l)
  }

  /**
   No lost update: from a success on, if the recordings under way at that point fit the kept record,
   any later kept record continues any earlier one, and its generation counts exactly the recordings
   in between. Recordings that come after the archive is complete are not among them: they do not
   reach it.
   */
  lemma NoLostUpdate(states: seq<System>, k: nat, l: nat)
    requires Run(states) && k <= l < |states| && states[k].successes > 0 && AllFit(states[k])
    ensures NothingLost(states, k, l) && AllFit(states[l])
  {
    KeptNow(states, k);
    forall i | k <= i < l && SafeFrom(states[i]) ensures KeptBy(states[i], states[i + 1]) && SafeFrom(states[i + 1]) {
      RunKeeps(states, i);
    }
    KeptThroughout(states, k, l);
  }

  /** What a recording is about is in the record: of the deployment's identity, and mined if the deployment is. */
  ghost predicate Holds(r: Record, update: Update) {
    && EntryOf(update, r).Some?
    && Get(EntryOf(update, r).value, "name") == Get(update.deployment, "name")
    && Get(EntryOf(update, r).value, "address") == Get(update.deployment, "address")
    && Get(EntryOf(update, r).value, "txHash") == Get(update.deployment, "txHash")
    && (Get(update.deployment, "state") == Some(Text("mined")) ==>
          Get(EntryOf(update, r).value, "state") == Some(Text("mined")))
  }

  lemma RecordedHolds(who: Identity, before: Record, update: Update, after: Record)
    requires Recorded(who, before, update, after) && ValidEntry(update.deployment)
    ensures Holds(after, update)
  {
    assert Overlaid(EntryOf(update, before), update.deployment, EntryOf(update, after).value);
    assert forall f :: f in IDENTITY_FIELDS ==> HasText(update.deployment, f);
  }

  lemma HoldsOn(earlier: Record, later: Record, update: Update)
    requires Holds(earlier, update) && Continues(earlier, later) && ValidEntry(update.deployment)
    ensures Holds(later, update)
  {
    assert forall f :: f in IDENTITY_FIELDS ==> HasText(update.deployment, f);
    if update.BoardContract? {
      assert BoardContinues(earlier.boards[update.problemId], later.boards[update.problemId]);
    }
    assert EntryContinues(EntryOf(update, earlier).value, EntryOf(update, later).value);
  }

  /**
   What is recorded stays recorded: once a recording has replaced the reservation before the archive
   is complete, with the recordings under way fitting, its deployment lies over what it had read, and
   every later kept record has an entry of that deployment's identity, mined if the deployment was.
   */
  lemma RecordedStays(states: seq<System>, k: nat, p: nat, l: nat)
    requires Run(states) && k < l < |states| && states[k].successes > 0 && AllFit(states[k])
    requires p < |states[k].phases| && Step(states[k], p, ReplaceRecord) == Some(states[k + 1])
    requires WholeArchive(states[k]).None?
    ensures var phase := states[k].phases[p];
            && phase.Replacing? && phase.op.Recording? && Kept(states[k + 1]).Some? && Kept(states[l]).Some?
            && Recorded(phase.op.who, phase.from, phase.op.update, Kept(states[k + 1]).value)
            && Holds(Kept(states[l]).value, phase.op.update)
  {
    RunInv(states, k);
    ReplacedHolds(states[k], p, states[k + 1]);
    RunKeeps(states, k);
    NoLostUpdate(states, k + 1, l);
    HoldsOn(Kept(states[k + 1]).value, Kept(states[l]).value, states[k].phases[p].op.update);
  }

  lemma ReplacedHolds(s: System, p: nat, t: System)
    requires Inv(s) && p < |s.phases| && Step(s, p, ReplaceRecord) == Some(t) && WholeArchive(s).None?
    ensures s.phases[p].Replacing? && s.phases[p].op.Recording? && Kept(t).Some?
    ensures var phase := s.phases[p];
            && Recorded(phase.op.who, phase.from, phase.op.update, Kept(t).value)
            && ValidEntry(phase.op.update.deployment) && Holds(Kept(t).value, phase.op.update)
  {
    assert SoundPhase(s, s.phases[p]);
    ReplaceKeeps(s, p, t);
    ComputedHolds(s.phases[p].op, s.phases[p].from, s.phases[p].next);
  }

  lemma ComputedHolds(op: Operation, from: Record, next: Record)
    requires Computed(op, from, next)
    ensures Recorded(op.who, from, op.update, next) && ValidEntry(op.update.deployment) && Holds(next, op.update)
  {
    RecordedValid(op, from, next);
    ReplacementValid(op, from, next);
    RecordedHolds(op.who, from, op.update, next);
  }

  lemma RecordedValid(op: Operation, from: Record, next: Record)
    requires op.Recording? && ValidRecord(op.who, from) && Updated(op.who, from, op.update) == Ok(next)
    ensures ValidEntry(op.update.deployment)
  {
  }

  /** A reserve has succeeded and the recordings under way fit. */
  ghost predicate SafeFrom(s: System) { s.successes > 0 && AllFit(s) }

  lemma {:induction false} KeptThroughout(states: seq<System>, k: nat, l: nat)
    requires k <= l < |states| && SafeFrom(states[k]) && Kept(states[k]).Some?
    requires forall i :: k <= i < l && SafeFrom(states[i]) ==> KeptBy(states[i], states[i + 1]) && SafeFrom(states[i + 1])
    ensures NothingLost(states, k, l) && SafeFrom(states[l])
    decreases l
  {
    if k == l {
      ContinuesSelf(Kept(states[k]).value);
    } else {
      KeptThroughout(states, k, l - 1);
      assert KeptBy(states[l - 1], states[l - 1 + 1]);
      OneMoreKept(states, k, l);
    }
  }

  lemma OneMoreKept(states: seq<System>, k: nat, l: nat)
    requires k < l < |states| && NothingLost(states, k, l - 1) && KeptBy(states[l - 1], states[l])
    ensures NothingLost(states, k, l)
  {
    if Kept(states[l]) != Kept(states[l - 1]) {
      ContinuesTransitive(Kept(states[k]).value, Kept(states[l - 1]).value, Kept(states[l]).value);
    }
  }

  /** Nothing is ever lost, however the run goes on. */
  ghost predicate NeverLost(states: seq<System>, k: nat)
    requires k < |states|
  {
    forall more, l :: Run(states + more) && k <= l < |states + more| ==> NothingLost(states + more, k, l)
  }

  lemma SamePast(states: seq<System>, more: seq<System>, k: nat)
    requires k < |states|
    ensures (states + more)[k] == states[k]
  {
  }

  lemma ExtendedRun(states: seq<System>, p: nat, action: Action, t: System)
    requires Run(states) && p < |states[|states| - 1].phases| && Step(states[|states| - 1], p, action) == Some(t)
    ensures Run(states + [t])
  {
    var more := states + [t];
    assert Next(states[|states| - 1], t);
    forall k | 0 <= k < |more| - 1 ensures Next(more[k], more[k + 1]) {
      if k < |states| - 1 { assert Next(states[k], states[k + 1]); }
    }
  }

  /** From a point after a success nothing is ever lost if and only if the recordings under way there fit. */
  lemma NeverLostExactly(states: seq<System>)
    requires Run(states) && states[|states| - 1].successes > 0
    ensures NeverLost(states, |states| - 1) <==> AllFit(states[|states| - 1])
  {
    var k := |states| - 1;
    var s := states[k];
    if AllFit(s) {
      forall more, l | Run(states + more) && k <= l < |states + more| ensures NothingLost(states + more, k, l) {
        SamePast(states, more, k);
        NoLostUpdate(states + more, k, l);
      }
    } else {
      RunInv(states, k);
      var p :| 0 <= p < |s.phases| && s.phases[p].Replacing? && !(Kept(s).Some? && Fits(Kept(s).value, s.phases[p].next));
      MisfitLoses(states, p);
    }
  }

  /** One step on, the misfit recording has replaced the kept record by one that does not continue it. */
  lemma MisfitLoses(states: seq<System>, p: nat)
    requires Run(states) && states[|states| - 1].successes > 0 && WholeArchive(states[|states| - 1]).None?
    requires p < |states[|states| - 1].phases| && states[|states| - 1].phases[p].Replacing?
    requires Kept(states[|states| - 1]).Some? ==>
               !Fits(Kept(states[|states| - 1]).value, states[|states| - 1].phases[p].next)
    ensures !NeverLost(states, |states| - 1)
  {
    var k := |states| - 1;
    var t := Step(states[k], p, ReplaceRecord).value;
    ExtendedRun(states, p, ReplaceRecord, t);
    RunInv(states, k);
    StepKeeps(states[k], p, ReplaceRecord, t);
    assert RecordingCounts(states[k], t);
    var longer := states + [t];
    assert longer[k] == states[k] && longer[k + 1] == t;
    assert Recordings(longer, k, k) == 0 && Recordings(longer, k, k + 1) == 1;
    assert !NothingLost(longer, k, k + 1);
  }

  /** No recording is under way until a reserve has returned. */
  ghost predicate Patient(states: seq<System>) {
    forall k :: 0 <= k < |states| && states[k].successes == 0 ==> NoneReplacing(states[k])
  }

  ghost predicate NoneReplacing(s: System) { forall p :: 0 <= p < |s.phases| ==> !s.phases[p].Replacing? }

  lemma FirstSuccess(s: System, t: System)
    requires Next(s, t) && s.successes == 0 && t.successes > 0
    requires NoneReplacing(s)
    ensures UpToDate(t)
  {
    var p: nat, action :| p < |s.phases| && Step(s, p, action) == Some(t);
    StepShape(s, p, action, t);
  }

  lemma NextUpToDate(s: System, t: System)
    requires Inv(s) && Next(s, t) && s.successes > 0 && UpToDate(s)
    ensures UpToDate(t)
  {
    var p: nat, action :| p < |s.phases| && Step(s, p, action) == Some(t);
    StepUpToDate(s, p, action, t);
  }

  /** From a success on, recordings that are up to date stay so: each replaces exactly the record it had read. */
  lemma {:induction false} UpToDateStays(states: seq<System>, k: nat, l: nat)
    requires Run(states) && k <= l < |states| && states[k].successes > 0 && UpToDate(states[k])
    ensures UpToDate(states[l])
  {
    if k < l {
      UpToDateStays(states, k, l - 1);
      SuccessStays(states, k, l - 1);
      RunInv(states, l - 1);
      NextUpToDate(states[l - 1], states[l]);
    }
  }

  /** If callers record only once a reserve has returned, no recording is ever out of date, and so nothing is ever lost. */
  lemma {:induction false} PatientUpToDate(states: seq<System>, k: nat)
    requires Run(states) && Patient(states) && k < |states| && states[k].successes > 0
    ensures UpToDate(states[k]) && AllFit(states[k])
  {
    RunInv(states, k);
    if states[k - 1].successes == 0 {
      assert Next(states[k - 1], states[k - 1 + 1]);
      FirstSuccess(states[k - 1], states[k]);
    } else {
      PatientUpToDate(states, k - 1);
      RunInv(states, k - 1);
      NextUpToDate(states[k - 1], states[k]);
    }
    UpToDateFits(states[k]);
  }

  /** Every crash point after a success leaves an intact valid reservation or an archive bound to its digest. */
  lemma NeverNothing(states: seq<System>, k: nat, l: nat)
    requires Run(states) && k <= l < |states| && states[k].successes > 0
    ensures || (WholeRecord(states[l]).Some? && ValidRecord(WholeRecord(states[l]).value.identity, WholeRecord(states[l]).value))
            || (WholeArchive(states[l]).Some? && SoundArchive(WholeArchive(states[l]).value))
  {
    SuccessStays(states, k, l);
    RunInv(states, l);
  }

  lemma NextArchive(states: seq<System>, k: nat)
    requires Run(states) && k + 1 < |states|
    ensures WholeArchive(states[k]).Some? ==> states[k + 1].archive == states[k].archive
  {
    var s, t := states[k], states[k + 1];
    assert Next(s, t);
    var p: nat, action :| p < |s.phases| && Step(s, p, action) == Some(t);
    if WholeArchive(s).Some? { ArchiveStays(s, p, action, t); }
  }

  lemma {:induction false} ArchiveFinal(states: seq<System>, k: nat, l: nat)
    requires Run(states) && k <= l < |states| && WholeArchive(states[k]).Some?
    ensures states[l].archive == states[k].archive
  {
    if k < l {
      ArchiveFinal(states, k, l - 1);
      NextArchive(states, l - 1);
    }
  }

  /** All completions that ever return, by any process, return one and the same complete archive. */
  lemma CompletionsAgree(states: seq<System>, k: nat, p: nat, l: nat, q: nat)
    requires Run(states) && k <= l < |states| && p < |states[k].phases| && q < |states[l].phases|
    requires states[k].phases[p].Returned? && states[k].phases[p].result.Some?
    requires states[l].phases[q].Returned? && states[l].phases[q].result.Some?
    ensures states[k].phases[p].result == states[l].phases[q].result == WholeArchive(states[l])
    ensures SoundArchive(states[k].phases[p].result.value)
  {
    RunInv(states, k);
    RunInv(states, l);
    assert SoundPhase(states[k], states[k].phases[p]) && SoundPhase(states[l], states[l].phases[q]);
    ArchiveFinal(states, k, l);
  }
}
