/**
 Any number of publisher processes working on one journal path, with crashes and errors
 at every point, restarts, and arbitrary interference with the build-metadata files.
 Each action below is atomic; the journal lock covers several of them.
 */
module PublicationRuns {
  import opened Basics
  import opened PublishJournal
  import Paths

  /** A call of one of the three locked journal operations. */
  datatype Operation =
    | ReserveOp(expected: Journal)
    | StartOp(journal: Journal, index: nat)
    | VerifyOp(journal: Journal, index: nat, metadataDigest: TextDigest, releaseRecord: string)

  /** Where a publisher process stands. */
  datatype Phase =
    | Stopped
    | Waiting(op: Operation)                     // about to take the journal lock
    | Holding(op: Operation)                     // lock held, nothing read yet
    | Replacing(op: Operation, next: Journal)    // checks passed, file not yet replaced
    | Replaced(op: Operation, next: Journal)     // file replaced, lock still held
    | AtBoard(journal: Journal, index: nat)      // head of the board loop
    | MayLaunch(journal: Journal, index: nat)    // build recorded as started, push not yet launched
    | BuildRunning(journal: Journal, index: nat)
    | HasMetadata(journal: Journal, index: nat)  // about to read the build metadata
    | Returned(journal: Journal)

  datatype System = System(
    roster: seq<string>,
    stored: Option<Journal>,        // the journal file
    metadata: map<nat, string>,     // build-metadata files by board index
    lock: Option<nat>,              // the publisher holding the journal lock
    phases: seq<Phase>,
    launches: seq<nat>)             // every registry push launched so far, by board index

  predicate Init(s: System) {
    && s.stored == None && s.lock == None && s.launches == []
    && forall p :: 0 <= p < |s.phases| ==> s.phases[p] == Stopped
  }

  function Attempted(roster: seq<string>, stored: Option<Journal>, op: Operation): Attempt {
    match op
    case ReserveOp(expected) => AttemptReserve(roster, stored, expected)
    case StartOp(j, i) => AttemptStart(roster, stored, j.hash, i)
    case VerifyOp(j, i, d, r) => AttemptVerify(roster, stored, j.hash, i, d, r)
  }

  /** The phase a publisher enters when a locked operation has answered with `journal`. */
  function AfterAnswer(op: Operation, journal: Journal): Phase {
    match op
    case ReserveOp(_) => AtBoard(journal, 0)
    case StartOp(_, i) => MayLaunch(journal, i)
    case VerifyOp(_, i, _, _) => AtBoard(journal, i + 1)
  }

  predicate Locked(phase: Phase) {
    phase.Holding? || phase.Replacing? || phase.Replaced?
  }

  function Unlock(lock: Option<nat>, p: nat): Option<nat> {
    if lock == Some(p) then None else lock
  }

  datatype Action =
    | Begin(expected: Journal)     // start or restart a publisher
    | Acquire                      // take the free journal lock
    | Decide                       // read the journal and check
    | Write                        // link or rename the new journal into place
    | Finish                       // read back, unlock, return
    | VisitPlanned                 // planned board, no metadata file, authority rechecked
    | VisitBuilding                // building board whose metadata file exists
    | VisitVerified                // verified board, registry agrees
    | Launch                       // start the registry push
    | BuildDone                    // the push ended, with or without metadata
    | Inspect(releaseRecord: string)
    | Complete                     // final unlocked read, all boards verified
    | Fail                         // crash, refusal or any error
    | Interfere(files: map<nat, string>)

  /** The effect of publisher `p` taking `action` in `s`; `None` when it is not enabled. */
  function Step(s: System, p: nat, action: Action): Option<System>
    requires p < |s.phases|
  {
    var phase := s.phases[p];
    match action
    case Begin(expected) =>
      if phase == Stopped && FreshPlan(s.roster, expected)
      then Some(s.(phases := s.phases[p := Waiting(ReserveOp(expected))])) else None
    case Acquire =>
      if phase.Waiting? && s.lock == None
      then Some(s.(lock := Some(p), phases := s.phases[p := Holding(phase.op)])) else None
    case Decide =>
      if !phase.Holding? then None else
      (match Attempted(s.roster, s.stored, phase.op)
       case Refuse(_) => Some(s.(lock := Unlock(s.lock, p), phases := s.phases[p := Stopped]))
       case Answer(j) => Some(s.(lock := Unlock(s.lock, p), phases := s.phases[p := AfterAnswer(phase.op, j)]))
       case Replace(j) => Some(s.(phases := s.phases[p := Replacing(phase.op, j)])))
    case Write =>
      if !phase.Replacing? || (phase.op.ReserveOp? && s.stored.Some?) then None
      else Some(s.(stored := Some(phase.next), phases := s.phases[p := Replaced(phase.op, phase.next)]))
    case Finish =>
      if phase.Replaced? && s.stored.Some? && ValidJournal(s.roster, s.stored.value)
      then Some(s.(lock := Unlock(s.lock, p), phases := s.phases[p := AfterAnswer(phase.op, s.stored.value)]))
      else None
    case VisitPlanned =>
      if phase.AtBoard? && phase.index < |phase.journal.body.boards|
         && phase.journal.body.boards[phase.index].state == Planned && phase.index !in s.metadata
      then Some(s.(phases := s.phases[p := Waiting(StartOp(phase.journal, phase.index))])) else None
    case VisitBuilding =>
      if phase.AtBoard? && phase.index < |phase.journal.body.boards|
         && phase.journal.body.boards[phase.index].state == Building && phase.index in s.metadata
      then Some(s.(phases := s.phases[p := HasMetadata(phase.journal, phase.index)])) else None
    case VisitVerified =>
      if phase.AtBoard? && phase.index < |phase.journal.body.boards|
         && phase.journal.body.boards[phase.index].state == Verified
      then Some(s.(phases := s.phases[p := AtBoard(phase.journal, phase.index + 1)])) else None
    case Launch =>
      if !phase.MayLaunch? then None
      else Some(s.(launches := s.launches + [phase.index],
                   phases := s.phases[p := BuildRunning(phase.journal, phase.index)]))
    case BuildDone =>
      if !phase.BuildRunning? then None
      else Some(s.(phases := s.phases[p := HasMetadata(phase.journal, phase.index)]))
    case Inspect(record) =>
      if phase.HasMetadata? && phase.index in s.metadata
      then Some(s.(phases := s.phases[p :=
             Waiting(VerifyOp(phase.journal, phase.index, Sha256Text(s.metadata[phase.index]), record))]))
      else None
    case Complete =>
      if phase.AtBoard? && phase.index == |phase.journal.body.boards|
         && s.stored.Some? && ValidJournal(s.roster, s.stored.value) && AllVerified(s.stored.value)
      then Some(s.(phases := s.phases[p := Returned(s.stored.value)])) else None
    case Fail => Some(s.(lock := Unlock(s.lock, p), phases := s.phases[p := Stopped]))
    case Interfere(files) => Some(s.(metadata := files))
  }

  predicate AllVerified(journal: Journal) {
    forall i :: 0 <= i < |journal.body.boards| ==> journal.body.boards[i].state == Verified
  }

  ghost predicate Next(s: System, t: System) {
    exists p: nat, action :: p < |s.phases| && Step(s, p, action) == Some(t)
  }

  ghost predicate Run(states: seq<System>) {
    && |states| > 0 && Init(states[0])
    && forall k :: 0 <= k < |states| - 1 ==> Next(states[k], states[k + 1])
  }

  // ---- The invariant --------------------------------------------------------------

  /** The right to push board `i`: the step to building is on disk and the push is still to come. */
  predicate Token(phase: Phase, i: nat) {
    || (phase.Replaced? && phase.op.StartOp? && phase.op.index == i)
    || (phase.MayLaunch? && phase.index == i)
  }

  /** A journal value a publisher remembers was once the content of the file. */
  ghost predicate Remembered(s: System, journal: Journal) {
    && ValidJournal(s.roster, journal)
    && s.stored.Some? && Continues(journal, s.stored.value)
  }

  ghost predicate BuildingAt(s: System, journal: Journal, index: nat) {
    Remembered(s, journal) && index < |s.roster| && journal.body.boards[index].state == Building
  }

  ghost predicate SoundOperation(s: System, op: Operation) {
    match op
    case ReserveOp(expected) => FreshPlan(s.roster, expected)
    case StartOp(j, i) => Remembered(s, j) && i < |s.roster|
    case VerifyOp(j, i, _, _) => BuildingAt(s, j, i)
  }

  ghost predicate SoundPhase(s: System, phase: Phase) {
    match phase
    case Stopped => true
    case Waiting(op) => SoundOperation(s, op)
    case Holding(op) => SoundOperation(s, op)
    case Replacing(op, next) => SoundOperation(s, op) && Attempted(s.roster, s.stored, op) == Replace(next)
    case Replaced(op, next) => s.stored == Some(next)
                               && (op.StartOp? ==> BuildingAt(s, next, op.index))
                               && (op.VerifyOp? ==> op.index < |s.roster|)
    case AtBoard(j, i) => Remembered(s, j) && i <= |s.roster|
    case MayLaunch(j, i) => BuildingAt(s, j, i)
    case BuildRunning(j, i) => BuildingAt(s, j, i)
    case HasMetadata(j, i) => BuildingAt(s, j, i)
    case Returned(j) => Remembered(s, j) && AllVerified(j)
  }

  ghost predicate SoundStore(s: System) {
    s.stored.Some? ==> ValidJournal(s.roster, s.stored.value) && Accounted(s.stored.value)
  }

  ghost predicate SoundPhases(s: System) {
    forall p :: 0 <= p < |s.phases| ==> SoundPhase(s, s.phases[p])
  }

  ghost predicate SoundLock(s: System) {
    forall p :: 0 <= p < |s.phases| ==> (Locked(s.phases[p]) <==> s.lock == Some(p))
  }

  ghost predicate Started(s: System, i: nat) {
    s.stored.Some? && i < |s.stored.value.body.boards| && s.stored.value.body.boards[i].state != Planned
  }

  ghost predicate SoundTokens(s: System) {
    && (forall p, i: nat :: 0 <= p < |s.phases| && Token(s.phases[p], i) ==> Started(s, i) && i !in s.launches)
    && (forall p, q, i: nat ::
          (0 <= p < |s.phases| && 0 <= q < |s.phases| && Token(s.phases[p], i) && Token(s.phases[q], i)) ==> p == q)
  }

  ghost predicate SoundLaunches(s: System) {
    && (forall k :: 0 <= k < |s.launches| ==> Started(s, s.launches[k]))
    && (forall k, l :: 0 <= k < l < |s.launches| ==> s.launches[k] != s.launches[l])
  }

  ghost predicate Inv(s: System) {
    SoundStore(s) && SoundPhases(s) && SoundLock(s) && SoundTokens(s) && SoundLaunches(s)
  }

  lemma InitInv(s: System)
    requires Init(s)
    ensures Inv(s)
  {
  }

  /** A phase stays sound while the journal file is unchanged. */
  lemma PhaseFrame(s: System, t: System, phase: Phase)
    requires SoundPhase(s, phase)
    requires t.roster == s.roster && t.stored == s.stored
    ensures SoundPhase(t, phase)
  {
  }

  lemma RememberedAdvance(s: System, t: System, journal: Journal)
    requires Remembered(s, journal)
    requires t.roster == s.roster && t.stored.Some? && Continues(s.stored.value, t.stored.value)
    ensures Remembered(t, journal)
  {
    ContinuesTransitive(journal, s.stored.value, t.stored.value);
  }

  /** A publisher outside the lock keeps a sound phase when the journal file moves on. */
  lemma PhaseAdvance(s: System, t: System, phase: Phase)
    requires SoundPhase(s, phase) && !Locked(phase)
    requires t.roster == s.roster && t.stored.Some?
    requires s.stored.Some? ==> Continues(s.stored.value, t.stored.value)
    ensures SoundPhase(t, phase)
  {
    match phase
    case Stopped =>
    case Waiting(ReserveOp(_)) =>
    case Waiting(StartOp(j, _)) => RememberedAdvance(s, t, j);
    case Waiting(VerifyOp(j, _, _, _)) => RememberedAdvance(s, t, j);
    case AtBoard(j, _) => RememberedAdvance(s, t, j);
    case MayLaunch(j, _) => RememberedAdvance(s, t, j);
    case BuildRunning(j, _) => RememberedAdvance(s, t, j);
    case HasMetadata(j, _) => RememberedAdvance(s, t, j);
    case Returned(j) => RememberedAdvance(s, t, j);
  }

  /** An accepted replacement is a valid, accounted continuation of the file. */
  lemma ReplacementSound(s: System, op: Operation, next: Journal)
    requires SoundStore(s) && SoundOperation(s, op)
    requires Attempted(s.roster, s.stored, op) == Replace(next)
    ensures ValidJournal(s.roster, next) && Accounted(next) && Continues(next, next)
    ensures s.stored.Some? ==> Continues(s.stored.value, next)
    ensures op.StartOp? ==> op.index < |s.roster| && !Started(s, op.index) && next.body.boards[op.index].state == Building
  {
    match op
    case ReserveOp(expected) => FreshRankSum(next.body.boards);
    case StartOp(j, i) => StartKeepsJournal(s.roster, s.stored.value, i);
    case VerifyOp(j, i, d, r) =>
      // The hash matched, so the file is exactly the journal in which the board was building.
      assert s.stored.value == j;
      VerifyKeepsJournal(s.roster, s.stored.value, i, d, r);
  }

  /** How one action of publisher `p` may change the system, the journal file apart. */
  lemma StepShape(s: System, p: nat, action: Action, t: System)
    requires p < |s.phases| && Step(s, p, action) == Some(t)
    ensures t.roster == s.roster && |t.phases| == |s.phases|
    ensures forall q :: 0 <= q < |s.phases| && q != p ==> t.phases[q] == s.phases[q]
    ensures action != Write ==> t.stored == s.stored
    ensures action != Launch ==> t.launches == s.launches
  {
  }

  lemma StepLock(s: System, p: nat, action: Action, t: System)
    requires p < |s.phases| && Step(s, p, action) == Some(t)
    requires SoundLock(s)
    ensures SoundLock(t)
  {
  }

  /** Tokens come into being only with the replacement of the file by a start operation. */
  lemma StepToken(s: System, p: nat, action: Action, t: System, i: nat)
    requires p < |s.phases| && Step(s, p, action) == Some(t) && action != Write
    requires |t.phases| == |s.phases| && Token(t.phases[p], i)
    requires s.phases[p].Holding? && s.phases[p].op.StartOp? ==>
               !Attempted(s.roster, s.stored, s.phases[p].op).Answer?
    ensures Token(s.phases[p], i) && action != Launch
  {
  }

  lemma WritePhases(s: System, p: nat, t: System)
    requires SoundStore(s) && SoundPhases(s) && SoundLock(s)
    requires p < |s.phases| && Step(s, p, Write) == Some(t)
    ensures SoundStore(t) && SoundPhases(t)
    ensures t.stored.Some? && (s.stored.Some? ==> Continues(s.stored.value, t.stored.value))
  {
    StepShape(s, p, Write, t);
    var phase := s.phases[p];
    assert SoundPhase(s, phase);
    ReplacementSound(s, phase.op, phase.next);
    forall q | 0 <= q < |t.phases| ensures SoundPhase(t, t.phases[q]) {
      if q != p {
        assert SoundPhase(s, s.phases[q]) && !Locked(s.phases[q]);
        PhaseAdvance(s, t, s.phases[q]);
      }
    }
  }

  lemma StartedStays(s: System, t: System, i: nat)
    requires Started(s, i) && t.stored.Some? && Continues(s.stored.value, t.stored.value)
    ensures Started(t, i)
  {
    assert BoardContinues(s.stored.value.body.boards[i], t.stored.value.body.boards[i]);
  }

  /** After the file was replaced a token is an old one, or that of the publisher that replaced it. */
  lemma WriteToken(s: System, p: nat, t: System, q: nat, i: nat)
    requires Inv(s) && p < |s.phases| && Step(s, p, Write) == Some(t)
    requires q < |t.phases| && Token(t.phases[q], i)
    ensures q != p ==> Started(s, i) && Token(s.phases[q], i)
    ensures q == p ==> !Started(s, i) && Started(t, i)
  {
    StepShape(s, p, Write, t);
    if q == p {
      assert SoundPhase(s, s.phases[p]);
      WritePhases(s, p, t);
      ReplacementSound(s, s.phases[p].op, s.phases[p].next);
    } else {
      assert Token(s.phases[q], i);
    }
  }

  lemma WriteStarted(s: System, p: nat, t: System, i: nat)
    requires Inv(s) && p < |s.phases| && Step(s, p, Write) == Some(t) && Started(s, i)
    ensures Started(t, i)
  {
    WritePhases(s, p, t);
    StartedStays(s, t, i);
  }

  /** Boards stay started, and only `p` may gain a token, for a board not started before. */
  ghost predicate TokensKept(s: System, p: nat, t: System) {
    && |t.phases| == |s.phases| && t.launches == s.launches && p < |t.phases|
    && (forall i: nat :: Started(s, i) ==> Started(t, i))
    && (forall i: nat :: Token(t.phases[p], i) ==> !Started(s, i) && Started(t, i))
    && (forall q, i: nat :: 0 <= q < |t.phases| && q != p && Token(t.phases[q], i) ==>
          Started(s, i) && Token(s.phases[q], i))
  }

  lemma TokensFrom(s: System, p: nat, t: System)
    requires SoundTokens(s) && SoundLaunches(s) && TokensKept(s, p, t)
    ensures SoundTokens(t) && SoundLaunches(t)
  {
    forall i: nat | i in s.launches ensures Started(s, i) {
      var k :| 0 <= k < |s.launches| && s.launches[k] == i;
    }
    forall q, r, i: nat
      | 0 <= q < |t.phases| && 0 <= r < |t.phases| && Token(t.phases[q], i) && Token(t.phases[r], i)
      ensures q == r
    {
      assert q == p <==> !Started(s, i);
      assert r == p <==> !Started(s, i);
    }
  }

  lemma WriteOwn(s: System, p: nat, t: System)
    requires Inv(s) && p < |s.phases| && Step(s, p, Write) == Some(t)
    ensures |t.phases| == |s.phases|
    ensures forall i: nat :: Token(t.phases[p], i) ==> !Started(s, i) && Started(t, i)
  {
    StepShape(s, p, Write, t);
    forall i: nat | Token(t.phases[p], i) ensures !Started(s, i) && Started(t, i) { WriteToken(s, p, t, p, i); }
  }

  lemma WriteOthers(s: System, p: nat, t: System)
    requires Inv(s) && p < |s.phases| && Step(s, p, Write) == Some(t)
    ensures forall q, i: nat :: 0 <= q < |t.phases| && q != p && Token(t.phases[q], i) ==>
              q < |s.phases| && Started(s, i) && Token(s.phases[q], i)
  {
    StepShape(s, p, Write, t);
    forall q, i: nat | 0 <= q < |t.phases| && q != p && Token(t.phases[q], i)
      ensures Started(s, i) && Token(s.phases[q], i)
    {
      WriteToken(s, p, t, q, i);
    }
  }

  lemma WriteKept(s: System, p: nat, t: System)
    requires Inv(s) && p < |s.phases| && Step(s, p, Write) == Some(t)
    ensures TokensKept(s, p, t)
  {
    StepShape(s, p, Write, t);
    WriteOwn(s, p, t);
    WriteOthers(s, p, t);
    forall i: nat | Started(s, i) ensures Started(t, i) { WriteStarted(s, p, t, i); }
  }

  lemma WriteTokens(s: System, p: nat, t: System)
    requires Inv(s) && p < |s.phases| && Step(s, p, Write) == Some(t)
    ensures SoundTokens(t) && SoundLaunches(t)
  {
    WriteKept(s, p, t);
    TokensFrom(s, p, t);
  }

  /** A phase reached without replacing the file is sound. */
  lemma OwnPhase(s: System, p: nat, action: Action, t: System)
    requires SoundStore(s) && p < |s.phases| && SoundPhase(s, s.phases[p])
    requires Step(s, p, action) == Some(t) && action != Write && action != Decide
    ensures SoundPhase(t, t.phases[p])
  {
    match action
    case Finish => FinishPhase(s, p, t);
    case Complete => assert Remembered(s, s.stored.value);
    case Begin(expected) =>
    case Acquire => PhaseFrame(s, t, Waiting(s.phases[p].op));
    case Fail =>
    case Interfere(_) => PhaseFrame(s, t, s.phases[p]);
    case _ => VisitPhase(s, p, action, t);
  }

  lemma FinishPhase(s: System, p: nat, t: System)
    requires SoundStore(s) && p < |s.phases| && SoundPhase(s, s.phases[p])
    requires Step(s, p, Finish) == Some(t)
    ensures SoundPhase(t, t.phases[p])
  {
    assert Continues(s.stored.value, s.stored.value);
    assert Remembered(s, s.stored.value);
  }

  lemma VisitPhase(s: System, p: nat, action: Action, t: System)
    requires p < |s.phases| && SoundPhase(s, s.phases[p])
    requires action.VisitPlanned? || action.VisitBuilding? || action.VisitVerified?
          || action.Launch? || action.BuildDone? || action.Inspect?
    requires Step(s, p, action) == Some(t)
    ensures SoundPhase(t, t.phases[p])
  {
    assert Remembered(s, s.phases[p].journal);
    assert Remembered(t, s.phases[p].journal);
  }

  lemma DecidePhase(s: System, p: nat, t: System)
    requires SoundStore(s) && p < |s.phases| && SoundPhase(s, s.phases[p])
    requires Step(s, p, Decide) == Some(t)
    ensures SoundPhase(t, t.phases[p])
    ensures s.phases[p].op.StartOp? ==> !Attempted(s.roster, s.stored, s.phases[p].op).Answer?
  {
    if s.stored.Some? {
      assert Continues(s.stored.value, s.stored.value);
    }
  }

  /** Every action but `Write` leaves the journal file alone. */
  lemma OtherPhases(s: System, p: nat, action: Action, t: System)
    requires Inv(s) && p < |s.phases| && Step(s, p, action) == Some(t) && action != Write
    ensures SoundStore(t) && SoundPhases(t)
  {
    StepShape(s, p, action, t);
    assert SoundPhase(s, s.phases[p]);
    if action == Decide { DecidePhase(s, p, t); } else { OwnPhase(s, p, action, t); }
    forall q | 0 <= q < |t.phases| ensures SoundPhase(t, t.phases[q]) {
      if q != p {
        assert SoundPhase(s, s.phases[q]);
        PhaseFrame(s, t, s.phases[q]);
      }
    }
  }

  lemma OtherTokens(s: System, p: nat, action: Action, t: System)
    requires Inv(s) && p < |s.phases| && Step(s, p, action) == Some(t) && action != Write
    ensures SoundTokens(t) && SoundLaunches(t)
  {
    StepShape(s, p, action, t);
    if action == Decide {
      assert SoundPhase(s, s.phases[p]);
      DecidePhase(s, p, t);
    }
    forall q, i: nat | 0 <= q < |t.phases| && Token(t.phases[q], i)
      ensures Token(s.phases[q], i) && (action == Launch ==> q != p)
    {
      if q == p { StepToken(s, p, action, t, i); }
    }
    if action == Launch {
      LaunchShape(s, p, t);
      var j: nat :| Token(s.phases[p], j) && t.launches == s.launches + [j];
      LaunchTokens(s, p, j, t);
    } else {
      QuietTokens(s, t);
    }
  }

  lemma QuietTokens(s: System, t: System)
    requires SoundTokens(s) && SoundLaunches(s) && t.stored == s.stored && |t.phases| == |s.phases|
    requires t.launches == s.launches
    requires forall q, i: nat :: 0 <= q < |t.phases| && Token(t.phases[q], i) ==> Token(s.phases[q], i)
    ensures SoundTokens(t) && SoundLaunches(t)
  {
    forall i: nat | Started(s, i) ensures Started(t, i) {}
  }

  lemma LaunchTokens(s: System, p: nat, j: nat, t: System)
    requires SoundTokens(s) && SoundLaunches(s) && t.stored == s.stored && |t.phases| == |s.phases|
    requires p < |s.phases| && Token(s.phases[p], j) && t.launches == s.launches + [j]
    requires forall q, i: nat :: 0 <= q < |t.phases| && Token(t.phases[q], i) ==> Token(s.phases[q], i) && q != p
    ensures SoundTokens(t) && SoundLaunches(t)
  {
    forall i: nat | Started(s, i) ensures Started(t, i) {}
  }

  lemma LaunchShape(s: System, p: nat, t: System)
    requires p < |s.phases| && Step(s, p, Launch) == Some(t)
    ensures exists i: nat :: Token(s.phases[p], i) && t.launches == s.launches + [i]
  {
    assert Token(s.phases[p], s.phases[p].index);
  }

  lemma StepInv(s: System, p: nat, action: Action, t: System)
    requires Inv(s) && p < |s.phases| && Step(s, p, action) == Some(t)
    ensures Inv(t)
    ensures s.stored.Some? ==> t.stored.Some? && Continues(s.stored.value, t.stored.value)
  {
    StepLock(s, p, action, t);
    if action == Write {
      WritePhases(s, p, t);
      WriteTokens(s, p, t);
    } else {
      StepShape(s, p, action, t);
      OtherPhases(s, p, action, t);
      OtherTokens(s, p, action, t);
      if s.stored.Some? { assert Continues(s.stored.value, s.stored.value); }
    }
  }

  lemma NextInv(s: System, t: System)
    requires Inv(s) && Next(s, t)
    ensures Inv(t)
    ensures s.stored.Some? ==> t.stored.Some? && Continues(s.stored.value, t.stored.value)
  {
    var p: nat, action :| p < |s.phases| && Step(s, p, action) == Some(t);
    StepInv(s, p, action, t);
  }

  lemma {:induction false} RunInv(states: seq<System>, k: nat)
    requires Run(states) && k < |states|
    ensures Inv(states[k])
  {
    if k == 0 {
      InitInv(states[0]);
    } else {
      RunInv(states, k - 1);
      NextInv(states[k - 1], states[k]);
    }
  }

  // ---- What holds over every run ----------------------------------------------------

  function Count(launches: seq<nat>, i: nat): nat {
    if launches == [] then 0 else (if launches[0] == i then 1 else 0) + Count(launches[1..], i)
  }

  lemma {:induction false} CountAbsent(launches: seq<nat>, i: nat)
    requires i !in launches
    ensures Count(launches, i) == 0
  {
    if launches != [] { CountAbsent(launches[1..], i); }
  }

  lemma {:induction false} CountDistinct(launches: seq<nat>, i: nat)
    requires forall k, l :: 0 <= k < l < |launches| ==> launches[k] != launches[l]
    ensures Count(launches, i) <= 1
  {
    if launches != [] {
      if launches[0] == i { CountAbsent(launches[1..], i); } else { CountDistinct(launches[1..], i); }
    }
  }

  /** For every board, every interleaving and every crash: at most one registry push. */
  lemma AtMostOneLaunch(states: seq<System>, k: nat, i: nat)
    requires Run(states) && k < |states|
    ensures Count(states[k].launches, i) <= 1
  {
    RunInv(states, k);
    CountDistinct(states[k].launches, i);
  }

  /** Board `i` has left `planned` and no live publisher is between the record and the push. */
  ghost predicate Spent(s: System, i: nat) {
    Started(s, i) && forall p :: 0 <= p < |s.phases| ==> !Token(s.phases[p], i)
  }

  lemma StartedStep(s: System, p: nat, action: Action, t: System, i: nat)
    requires Inv(s) && Started(s, i) && p < |s.phases| && Step(s, p, action) == Some(t)
    ensures Started(t, i)
  {
    StepInv(s, p, action, t);
    StartedStays(s, t, i);
  }

  /** The publisher that moved has not become the one to push a board already started. */
  lemma NoNewToken(s: System, p: nat, action: Action, t: System, i: nat)
    requires Inv(s) && Spent(s, i) && p < |s.phases| && Step(s, p, action) == Some(t)
    ensures !Token(t.phases[p], i)
  {
    assert SoundPhase(s, s.phases[p]);
    if action == Write {
      ReplacementSound(s, s.phases[p].op, s.phases[p].next);
    } else if Token(t.phases[p], i) {
      if action == Decide { DecidePhase(s, p, t); }
      StepToken(s, p, action, t, i);
    }
  }

  lemma StepSpent(s: System, p: nat, action: Action, t: System, i: nat)
    requires Inv(s) && Spent(s, i) && p < |s.phases| && Step(s, p, action) == Some(t)
    ensures Spent(t, i) && Count(t.launches, i) == Count(s.launches, i)
  {
    StepShape(s, p, action, t);
    StartedStep(s, p, action, t, i);
    NoNewToken(s, p, action, t, i);
    SpentLaunches(s, p, action, t, i);
  }

  lemma SpentLaunches(s: System, p: nat, action: Action, t: System, i: nat)
    requires Inv(s) && Spent(s, i) && p < |s.phases| && Step(s, p, action) == Some(t)
    ensures Count(t.launches, i) == Count(s.launches, i)
  {
    StepShape(s, p, action, t);
    if action == Launch {
      LaunchShape(s, p, t);
      var j: nat :| Token(s.phases[p], j) && t.launches == s.launches + [j];
      CountAppend(s.launches, j, i);
    }
  }

  lemma {:induction false} CountAppend(launches: seq<nat>, last: nat, i: nat)
    ensures Count(launches + [last], i) == Count(launches, i) + (if last == i then 1 else 0)
  {
    if launches == [] {
      assert launches + [last] == [last];
    } else {
      CountAppend(launches[1..], last, i);
      assert (launches + [last])[1..] == launches[1..] + [last];
    }
  }

  /**
   A board left `building` whose publisher is gone, with or without a metadata file, is
   never built again, whatever publishers do afterwards.
   */
  lemma {:induction false} NeverBuiltAgain(states: seq<System>, k: nat, l: nat, i: nat)
    requires Run(states) && k <= l < |states| && Spent(states[k], i)
    ensures Spent(states[l], i) && Count(states[l].launches, i) == Count(states[k].launches, i)
    decreases l
  {
    if k < l {
      NeverBuiltAgain(states, k, l - 1, i);
      RunInv(states, l - 1);
      assert Next(states[l - 1], states[l]);
      var p: nat, action :| p < |states[l - 1].phases| && Step(states[l - 1], p, action) == Some(states[l]);
      StepSpent(states[l - 1], p, action, states[l], i);
    }
  }

  /** In every reachable state the generation is the sum of the board ranks. */
  lemma GenerationIsRankSum(states: seq<System>, k: nat)
    requires Run(states) && k < |states| && states[k].stored.Some?
    ensures ValidJournal(states[k].roster, states[k].stored.value)
    ensures states[k].stored.value.body.generation == RankSum(states[k].stored.value.body.boards)
  {
    RunInv(states, k);
  }

  lemma NextForward(states: seq<System>, k: nat)
    requires Run(states) && k + 1 < |states|
    ensures states[k].stored.Some? ==>
              states[k + 1].stored.Some? && Continues(states[k].stored.value, states[k + 1].stored.value)
  {
    RunInv(states, k);
    NextInv(states[k], states[k + 1]);
  }

  /** Once written, the journal only moves forward: same plan, ranks rise, verified boards are frozen. */
  lemma {:induction false} JournalMovesForward(states: seq<System>, k: nat, l: nat)
    requires Run(states) && k <= l < |states| && states[k].stored.Some?
    ensures states[l].stored.Some? && Continues(states[k].stored.value, states[l].stored.value)
    decreases l
  {
    if k < l {
      JournalMovesForward(states, k, l - 1);
      NextForward(states, l - 1);
      ContinuesTransitive(states[k].stored.value, states[l - 1].stored.value, states[l].stored.value);
    }
  }

  /** No ABA: equal hashes at two moments mean the same journal at both and at every moment between. */
  lemma EqualHashMeansUnchanged(states: seq<System>, k: nat, m: nat, l: nat)
    requires Run(states) && k <= m <= l < |states|
    requires states[k].stored.Some? && states[l].stored.Some?
    requires states[k].stored.value.hash == states[l].stored.value.hash
    ensures states[k].stored == states[m].stored == states[l].stored
  {
    RunInv(states, k);
    RunInv(states, l);
    JournalMovesForward(states, k, m);
    JournalMovesForward(states, m, l);
    RunInv(states, m);
  }

  /** A publisher that returns has seen every board verified, and the journal never changes after that. */
  lemma ReturnedJournalIsFinal(states: seq<System>, k: nat, l: nat, p: nat)
    requires Run(states) && k <= l < |states| && p < |states[k].phases|
    requires states[k].phases[p].Returned?
    ensures AllVerified(states[k].phases[p].journal)
    ensures states[l].stored.Some? && states[l].stored.value.body.boards == states[k].phases[p].journal.body.boards
  {
    RunInv(states, k);
    JournalMovesForward(states, k, l);
    var journal := states[k].phases[p].journal;
    ContinuesTransitive(journal, states[k].stored.value, states[l].stored.value);
    forall i | 0 <= i < |journal.body.boards|
      ensures states[l].stored.value.body.boards[i] == journal.body.boards[i]
    {
      assert BoardContinues(journal.body.boards[i], states[l].stored.value.body.boards[i]);
    }
  }

  // ---- The protocol can get there --------------------------------------------------------------------

  ghost function Steps(): (System, System) -> bool { (s: System, t: System) => Next(s, t) }

  /** Some steps lead from `s` to `t`. */
  ghost predicate Leads(s: System, t: System) { Paths.Leads(Steps(), s, t) }

  lemma Stay(s: System)
    ensures Leads(s, s)
  {
    Paths.Stay(Steps(), s);
  }

  /** One more step, by publisher 0. */
  lemma Go(s: System, t: System, action: Action) returns (u: System)
    requires Leads(s, t) && t.phases != [] && Step(t, 0, action).Some?
    ensures Step(t, 0, action) == Some(u) && Leads(s, u)
  {
    u := Step(t, 0, action).value;
    assert Next(t, u);
    Paths.Extended(Steps(), s, t, u);
  }

  lemma ReservePath(s: System, plan: Journal) returns (t: System)
    requires s == System(s.roster, None, map[], None, [Stopped], []) && FreshPlan(s.roster, plan)
    ensures t == s.(stored := Some(plan), phases := [AtBoard(plan, 0)]) && Leads(s, t)
  {
    Stay(s);
    var s1 := Go(s, s, Begin(plan));
    var s2 := Go(s, s1, Acquire);
    var s3 := Go(s, s2, Decide);
    var s4 := Go(s, s3, Write);
    t := Go(s, s4, Finish);
    assert t.phases == [AtBoard(plan, 0)];
  }

  lemma StartPath(s: System, plan: Journal) returns (t: System, started: Journal)
    requires s == System(s.roster, Some(plan), map[], None, [AtBoard(plan, 0)], [])
    requires FreshPlan(s.roster, plan) && s.roster != []
    ensures AttemptStart(s.roster, Some(plan), plan.hash, 0) == Replace(started) && ValidJournal(s.roster, started)
    ensures t == s.(stored := Some(started), phases := [Replaced(StartOp(plan, 0), started)], lock := Some(0))
    ensures Leads(s, t)
  {
    Stay(s);
    var s1 := Go(s, s, VisitPlanned);
    var s2 := Go(s, s1, Acquire);
    started := AttemptStart(s.roster, Some(plan), plan.hash, 0).journal;
    StartKeepsJournal(s.roster, plan, 0);
    var s3 := Go(s, s2, Decide);
    t := Go(s, s3, Write);
    assert t.phases == [Replaced(StartOp(plan, 0), started)];
  }

  lemma LaunchPath(s: System, plan: Journal, started: Journal) returns (t: System)
    requires s == System(s.roster, Some(started), map[], Some(0), [Replaced(StartOp(plan, 0), started)], [])
    requires ValidJournal(s.roster, started)
    ensures t == s.(lock := None, phases := [BuildRunning(started, 0)], launches := [0]) && Leads(s, t)
  {
    Stay(s);
    var s1 := Go(s, s, Finish);
    t := Go(s, s1, Launch);
    assert t.phases == [BuildRunning(started, 0)] && t.launches == [0];
  }

  /** From the record of a started build to the inspection of what it pushed. */
  lemma PushPath(s: System, from: Journal, j: Journal, i: nat, text: string, record: string) returns (t: System)
    requires s.phases == [Replaced(StartOp(from, i), j)] && s.stored == Some(j) && s.lock == Some(0) && ValidJournal(s.roster, j)
    ensures t == s.(lock := None, metadata := map[i := text], launches := s.launches + [i],
                    phases := [Waiting(VerifyOp(j, i, Sha256Text(text), record))])
    ensures Leads(s, t)
  {
    Stay(s);
    var s1 := Go(s, s, Finish);
    var s2 := Go(s, s1, Launch);
    var s3 := Go(s, s2, BuildDone);
    var s4 := Go(s, s3, Interfere(map[i := text]));
    t := Go(s, s4, Inspect(record));
    assert t.phases == [Waiting(VerifyOp(j, i, Sha256Text(text), record))];
  }

  /** From a planned board to the record of its started build. */
  lemma BeginPath(s: System, j: Journal, i: nat) returns (t: System, started: Journal)
    requires s.phases == [AtBoard(j, i)] && s.stored == Some(j) && s.lock == None && ValidJournal(s.roster, j)
    requires i < |s.roster| && j.body.boards[i].state == Planned && i !in s.metadata
    ensures Moved(j, started, i, j.body.boards[i].(state := Building)) && ValidJournal(s.roster, started)
    ensures t == s.(stored := Some(started), lock := Some(0), phases := [Replaced(StartOp(j, i), started)]) && Leads(s, t)
  {
    StartExactly(s.roster, Some(j), j.hash, i);
    StartKeepsJournal(s.roster, j, i);
    started := AttemptStart(s.roster, Some(j), j.hash, i).journal;
    Stay(s);
    var s1 := Go(s, s, VisitPlanned);
    var s2 := Go(s, s1, Acquire);
    var s3 := Go(s, s2, Decide);
    t := Go(s, s3, Write);
    assert t.phases == [Replaced(StartOp(j, i), started)];
  }

  /** And from the inspection to the next board. */
  lemma VerifyPath(s: System, j: Journal, i: nat, digest: TextDigest, record: string) returns (t: System, verified: Journal)
    requires s.phases == [Waiting(VerifyOp(j, i, digest, record))] && s.stored == Some(j) && s.lock == None
    requires ValidJournal(s.roster, j) && i < |s.roster| && j.body.boards[i].state == Building
    ensures Moved(j, verified, i, Board(j.body.boards[i].identity, Verified, Some(digest), Some(record)))
    ensures ValidJournal(s.roster, verified)
    ensures t == s.(stored := Some(verified), phases := [AtBoard(verified, i + 1)]) && Leads(s, t)
  {
    VerifyExactly(s.roster, Some(j), j.hash, i, digest, record);
    VerifyKeepsJournal(s.roster, j, i, digest, record);
    verified := AttemptVerify(s.roster, Some(j), j.hash, i, digest, record).journal;
    Stay(s);
    var s1 := Go(s, s, Acquire);
    var s2 := Go(s, s1, Decide);
    var s3 := Go(s, s2, Write);
    t := Go(s, s3, Finish);
    assert t.phases == [AtBoard(verified, i + 1)];
  }

  /** The boards up to `i` are verified with this evidence, the others still planned. */
  ghost predicate DoneUpTo(j: Journal, i: nat, text: string, record: string) {
    forall k :: 0 <= k < |j.body.boards| ==>
      if k < i then j.body.boards[k].state == Verified && HasEvidence(j.body.boards[k], Sha256Text(text), record)
      else j.body.boards[k].state == Planned
  }

  lemma BoardPath(s: System, j: Journal, i: nat, text: string, record: string) returns (t: System, next: Journal)
    requires s.phases == [AtBoard(j, i)] && s.stored == Some(j) && s.lock == None && ValidJournal(s.roster, j)
    requires i < |s.roster| && DoneUpTo(j, i, text, record) && i !in s.metadata
    ensures ValidJournal(s.roster, next) && SamePlan(j, next) && DoneUpTo(next, i + 1, text, record)
    ensures t == s.(stored := Some(next), metadata := map[i := text], launches := s.launches + [i], phases := [AtBoard(next, i + 1)])
    ensures Leads(s, t)
  {
    var s1, started := BeginPath(s, j, i);
    var s2 := PushPath(s1, j, started, i, text, record);
    t, next := VerifyPath(s2, started, i, Sha256Text(text), record);
    Paths.Joined(Steps(), s, s1, s2);
    Paths.Joined(Steps(), s, s2, t);
  }

  function Counting(n: nat): seq<nat> { seq(n, i => i) }

  lemma {:induction false} BoardsLead(s: System, plan: Journal, i: nat, text: string, record: string) returns (t: System, done: Journal)
    requires s == System(s.roster, Some(plan), map[], None, [AtBoard(plan, 0)], []) && FreshPlan(s.roster, plan)
    requires i <= |s.roster|
    ensures ValidJournal(s.roster, done) && SamePlan(plan, done) && DoneUpTo(done, i, text, record)
    ensures t == s.(stored := Some(done), metadata := t.metadata, launches := Counting(i), phases := [AtBoard(done, i)])
    ensures i !in t.metadata && Leads(s, t)
  {
    if i == 0 {
      t, done := s, plan;
      Stay(s);
      assert Counting(0) == [];
    } else {
      var u, before := BoardsLead(s, plan, i - 1, text, record);
      t, done := BoardPath(u, before, i - 1, text, record);
      Paths.Joined(Steps(), s, u, t);
      assert Counting(i) == Counting(i - 1) + [i - 1];
    }
  }

  lemma LedIsRun(s: System, t: System) returns (states: seq<System>)
    requires Init(s) && Leads(s, t)
    ensures Run(states) && states[0] == s && states[|states| - 1] == t
  {
    states :| Paths.Linked(Steps(), states) && states[0] == s && states[|states| - 1] == t;
    forall k | 0 <= k < |states| - 1 ensures Next(states[k], states[k + 1]) {
      assert Steps()(states[k], states[k + 1]);
    }
  }

  /**
   Every release can be published: for every fresh plan and every outcome of the builds, some run
   pushes each board once, in order, records that outcome for each and returns the journal.
   */
  lemma PublicationReachable(roster: seq<string>, plan: Journal, text: string, record: string) returns (states: seq<System>)
    requires FreshPlan(roster, plan)
    ensures Run(states)
    ensures var t := states[|states| - 1];
            && t.stored.Some? && t.phases == [Returned(t.stored.value)] && t.lock == None
            && SamePlan(plan, t.stored.value) && t.stored.value.body.generation == 2 * |roster|
            && t.launches == Counting(|roster|)
            && forall i :: 0 <= i < |roster| ==>
                 && t.stored.value.body.boards[i].state == Verified
                 && HasEvidence(t.stored.value.body.boards[i], Sha256Text(text), record)
  {
    var s := System(roster, None, map[], None, [Stopped], []);
    var s1 := ReservePath(s, plan);
    var s2, done := BoardsLead(s1, plan, |roster|, text, record);
    Paths.Joined(Steps(), s, s1, s2);
    var t := Go(s, s2, Complete);
    states := LedIsRun(s, t);
    GenerationIsRankSum(states, |states| - 1);
    AllVerifiedSum(done.body.boards);
    assert t.phases == [Returned(done)];
  }

  lemma {:induction false} AllVerifiedSum(boards: seq<Board>)
    requires forall i :: 0 <= i < |boards| ==> boards[i].state == Verified
    ensures RankSum(boards) == 2 * |boards|
  {
    if boards != [] { AllVerifiedSum(boards[1..]); }
  }

  /** For every fresh plan with a board, some run launches that board's push and stops there. */
  lemma LaunchReachable(roster: seq<string>, plan: Journal) returns (states: seq<System>)
    requires FreshPlan(roster, plan) && roster != []
    ensures Run(states) && states[|states| - 1].launches == [0]
  {
    var s := System(roster, None, map[], None, [Stopped], []);
    var s1 := ReservePath(s, plan);
    var s2, started := StartPath(s1, plan);
    var t := LaunchPath(s2, plan, started);
    Paths.Joined(Steps(), s, s1, s2);
    Paths.Joined(Steps(), s, s2, t);
    states := LedIsRun(s, t);
  }
}
