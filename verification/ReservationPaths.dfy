/**
 Runs of the reservation protocol that exist: it can succeed, a repeated completion succeeds
 exactly when it should, and a recording at the wrong moment can stop all completions.
 */
module ReservationPaths {
  import opened Basics
  import opened Reservation
  import opened ReservationRuns
  import Paths

  ghost function Steps(): (System, System) -> bool { (s: System, t: System) => Next(s, t) }

  /** Some steps lead from `s` to `t`. */
  ghost predicate Leads(s: System, t: System) { Paths.Leads(Steps(), s, t) }

  lemma Stay(s: System)
    ensures Leads(s, s)
  {
    Paths.Stay(Steps(), s);
  }

  lemma Joined(s: System, t: System, u: System)
    requires Leads(s, t) && Leads(t, u)
    ensures Leads(s, u)
  {
    Paths.Joined(Steps(), s, t, u);
  }

  /** One more step, by process `p`. */
  lemma Go(s: System, t: System, p: nat, action: Action) returns (u: System)
    requires Leads(s, t) && p < |t.phases| && Step(t, p, action).Some?
    ensures Step(t, p, action) == Some(u) && Leads(s, u)
  {
    u := Step(t, p, action).value;
    assert Next(t, u);
    Paths.Extended(Steps(), s, t, u);
  }

  /** What is led to from an initial state ends a run. */
  lemma LedIsRun(s: System, t: System) returns (states: seq<System>)
    requires Init(s) && Leads(s, t)
    ensures Run(states) && states[0] == s && states[|states| - 1] == t
  {
    states :| Paths.Linked(Steps(), states) && states[0] == s && states[|states| - 1] == t;
    forall k | 0 <= k < |states| - 1 ensures Next(states[k], states[k + 1]) {
      assert Steps()(states[k], states[k + 1]);
    }
  }

  ghost function At(s: System, p: nat, phase: Phase): System
    requires p < |s.phases|
  {
    s.(phases := s.phases[p := phase])
  }

  predicate Free(phase: Phase) { phase.Idle? || phase.Returned? }

  // ---- Pieces ----------------------------------------------------------------------------------

  lemma StartPath(s: System, p: nat, r: Record) returns (t: System)
    requires p < |s.phases| && Free(s.phases[p]) && FreshRecord(r)
    requires s.manifest == None && s.archive == None && s.reservation == None
    ensures t == At(s, p, Unconfirmed(s.nextToken, r)).(reservation := Some(Whole(r)), nextToken := s.nextToken + 1)
    ensures Leads(s, t)
  {
    Stay(s);
    var s1 := Go(s, s, p, BeginReserve(r));
    var s2 := Go(s, s1, p, ManifestVacant);
    var s3 := Go(s, s2, p, ArchiveVacant);
    var s4 := Go(s, s3, p, CreateReservation);
    t := Go(s, s4, p, WriteReservation);
    assert t.phases == s.phases[p := Unconfirmed(s.nextToken, r)];
  }

  lemma ConfirmPath(s: System, p: nat, n: nat, r: Record) returns (t: System)
    requires p < |s.phases| && s.phases[p] == Unconfirmed(n, r) && FreshRecord(r)
    requires s.manifest == None && s.reservation == Some(Whole(r))
    ensures t == At(s, p, Idle).(successes := s.successes + 1) && Leads(s, t)
  {
    Stay(s);
    var s1 := Go(s, s, p, Confirm);
    t := Go(s, s1, p, ReadBack);
    assert t.phases == s.phases[p := Idle];
  }

  lemma PublishPath(s: System, m: Manifest) returns (t: System)
    requires s.phases != []
    ensures t == s.(manifest := Some(m)) && Leads(s, t)
  {
    Stay(s);
    t := Go(s, s, 0, PublishManifest(m));
  }

  lemma RefusePath(s: System, p: nat, n: nat, r: Record) returns (t: System)
    requires p < |s.phases| && s.phases[p] == Unconfirmed(n, r) && s.manifest.Some?
    ensures t == At(s, p, Withdrawing(n)) && Leads(s, t)
  {
    Stay(s);
    t := Go(s, s, p, Refuse);
  }

  lemma FailPath(s: System, p: nat, n: nat, r: Record) returns (t: System)
    requires p < |s.phases| && s.phases[p] == Unconfirmed(n, r)
    ensures t == At(s, p, Withdrawing(n)) && Leads(s, t)
  {
    Stay(s);
    t := Go(s, s, p, CheckFails);
  }

  lemma WithdrawPath(s: System, p: nat, n: nat) returns (t: System)
    requires p < |s.phases| && s.phases[p] == Withdrawing(n)
    ensures t == At(s, p, Idle).(reservation := None) && Leads(s, t)
  {
    Stay(s);
    t := Go(s, s, p, Withdraw);
  }

  lemma LockPath(s: System, p: nat, op: Operation) returns (t: System)
    requires p < |s.phases| && Free(s.phases[p]) && s.lock == None
    ensures t == At(s, p, Holding(s.nextToken, op)).(lock := Some(Lock(s.nextToken, true)), nextToken := s.nextToken + 1)
    ensures Leads(s, t)
  {
    Stay(s);
    var s1 := Go(s, s, p, BeginOperation(op));
    var s2 := Go(s, s1, p, CreateLock);
    t := Go(s, s2, p, WriteLock);
    assert t.phases == s.phases[p := Holding(s.nextToken, op)];
  }

  lemma ArchivePath(s: System, p: nat, n: nat, op: Operation, r: Record, m: Manifest) returns (t: System)
    requires p < |s.phases| && s.phases[p] == Holding(n, op) && s.archive == None
    requires op.Completing? && op.who == r.identity && ValidRecord(r.identity, r) && Completable(r.identity, m)
    requires s.manifest == Some(m) && s.reservation == Some(Whole(r))
    ensures t == At(s, p, Archiving(n, op, ArchiveOf(r, ManifestSha256(m.text), op.at))) && Leads(s, t)
  {
    Stay(s);
    var s1 := Go(s, s, p, ReadManifest);
    var s2 := Go(s, s1, p, ReadArchive);
    t := Go(s, s2, p, ReadForArchive);
    assert t.phases == s.phases[p := Archiving(n, op, ArchiveOf(r, ManifestSha256(m.text), op.at))];
  }

  lemma WritePath(s: System, p: nat, n: nat, op: Operation, a: Archive) returns (t: System)
    requires p < |s.phases| && s.phases[p] == Archiving(n, op, a) && s.archive == None
    ensures t == At(s, p, Archived(n, op, a)).(archive := Some(Whole(a))) && Leads(s, t)
  {
    Stay(s);
    var s1 := Go(s, s, p, CreateArchive);
    t := Go(s, s1, p, WriteArchive);
    assert t.phases == s.phases[p := Archived(n, op, a)];
  }

  lemma RemovePath(s: System, p: nat, n: nat, op: Operation, a: Archive) returns (t: System)
    requires p < |s.phases| && s.phases[p] == Archived(n, op, a) && s.lock == Some(Lock(n, true))
    ensures t == At(s, p, Returned(op, Some(a))).(reservation := None, lock := None) && Leads(s, t)
  {
    Stay(s);
    var s1 := Go(s, s, p, RemoveReservation);
    t := Go(s, s1, p, Release);
    assert t.phases == s.phases[p := Returned(op, Some(a))];
  }

  /** The process dies inside the lock, and the lock of its token is recovered. */
  lemma DiePath(s: System, p: nat, n: nat) returns (t: System)
    requires p < |s.phases| && s.lock == Some(Lock(n, true))
    requires forall q :: 0 <= q < |s.phases| && q != p ==> TokenOf(s.phases[q]) != Some(n)
    ensures t == At(s, p, Idle).(lock := None) && Leads(s, t)
  {
    Stay(s);
    var s1 := Go(s, s, p, Crash);
    assert forall q :: 0 <= q < |s1.phases| ==> TokenOf(s1.phases[q]) != Some(n);
    t := Go(s, s1, p, Recover);
  }

  lemma ReadPath(s: System, p: nat, n: nat, op: Operation, r: Record, next: Record) returns (t: System)
    requires p < |s.phases| && s.phases[p] == Holding(n, op) && op.Recording? && s.reservation == Some(Whole(r))
    requires ValidRecord(op.who, r) && Updated(op.who, r, op.update) == Ok(next)
    ensures t == At(s, p, Replacing(n, op, r, next)) && Leads(s, t)
  {
    ReadStep(s, p, n, op, r, next);
    Stay(s);
    t := Go(s, s, p, ReadRecord);
  }

  lemma ReadStep(s: System, p: nat, n: nat, op: Operation, r: Record, next: Record)
    requires p < |s.phases| && s.phases[p] == Holding(n, op) && op.Recording? && s.reservation == Some(Whole(r))
    requires ValidRecord(op.who, r) && Updated(op.who, r, op.update) == Ok(next)
    ensures Step(s, p, ReadRecord) == Some(At(s, p, Replacing(n, op, r, next)))
  {
  }

  lemma ReplacePath(s: System, p: nat, n: nat, op: Operation, r: Record, next: Record) returns (t: System)
    requires p < |s.phases| && s.phases[p] == Replacing(n, op, r, next) && s.lock == Some(Lock(n, true))
    ensures t == At(s, p, Returned(op, None)).(reservation := Some(Whole(next)), lock := None) && Leads(s, t)
  {
    Stay(s);
    var s1 := Go(s, s, p, ReplaceRecord);
    t := Go(s, s1, p, Release);
    assert t.phases == s.phases[p := Returned(op, None)];
  }

  // ---- The protocol can succeed ------------------------------------------------------------------

  function Start(processes: nat): System {
    System(None, None, None, None, 0, 0, seq(processes, i => Idle))
  }

  lemma ReserveLeads(s: System, p: nat, r: Record) returns (t: System)
    requires p < |s.phases| && s.phases[p] == Idle && FreshRecord(r)
    requires s.manifest == None && s.archive == None && s.reservation == None
    ensures t == s.(reservation := Some(Whole(r)), nextToken := s.nextToken + 1, successes := s.successes + 1)
    ensures Leads(s, t)
  {
    var s1 := StartPath(s, p, r);
    t := ConfirmPath(s1, p, s.nextToken, r);
    Joined(s, s1, t);
    assert t.phases == s.phases;
  }

  /** From a whole reservation and no archive, a completion gets as far as the complete archive. */
  lemma ArchiveLeads(s: System, p: nat, op: Operation, r: Record, m: Manifest) returns (t: System)
    requires p < |s.phases| && Free(s.phases[p]) && s.lock == None && s.archive == None
    requires op.Completing? && op.who == r.identity && ValidRecord(r.identity, r) && Completable(r.identity, m)
    requires s.manifest == Some(m) && s.reservation == Some(Whole(r))
    ensures var a := ArchiveOf(r, ManifestSha256(m.text), op.at);
            t == At(s, p, Archived(s.nextToken, op, a)).(
                   archive := Some(Whole(a)), lock := Some(Lock(s.nextToken, true)), nextToken := s.nextToken + 1)
    ensures Leads(s, t)
  {
    var a := ArchiveOf(r, ManifestSha256(m.text), op.at);
    var s1 := LockPath(s, p, op);
    var s2 := ArchivePath(s1, p, s.nextToken, op, r, m);
    t := WritePath(s2, p, s.nextToken, op, a);
    Joined(s, s1, s2);
    Joined(s, s2, t);
    assert t.phases == s.phases[p := Archived(s.nextToken, op, a)];
  }

  /** Some run reserves, completes, returns the archive of its record and leaves no reservation and no lock. */
  lemma CompletionReachable(r: Record, m: Manifest, at: int) returns (states: seq<System>)
    requires FreshRecord(r) && m.pendingSetup && m.identity == r.identity
    ensures Run(states)
    ensures var t, a := states[|states| - 1], Archive(r, at, ManifestSha256(m.text), Sha256(r));
            && t.phases == [Returned(Completing(r.identity, at), Some(a))] && t.successes == 1
            && t.archive == Some(Whole(a)) && t.reservation == None && t.lock == None
  {
    var op := Completing(r.identity, at);
    var s := Start(1);
    var s1 := ReserveLeads(s, 0, r);
    var s2 := PublishPath(s1, m);
    var s3 := ArchiveLeads(s2, 0, op, r, m);
    var t := RemovePath(s3, 0, s2.nextToken, op, ArchiveOf(r, ManifestSha256(m.text), at));
    Joined(s, s1, s2);
    Joined(s, s2, s3);
    Joined(s, s3, t);
    states := LedIsRun(s, t);
  }

  // ---- Repeating a completion ----------------------------------------------------------------------

  /** The archive can be taken over: it is for this manifest and identity, and the reservation is gone or its own. */
  predicate Repeatable(s: System, who: Identity, a: Archive, m: Manifest) {
    && a.manifestDigest == ManifestSha256(m.text) && a.record.identity == who
    && (s.reservation == None || s.reservation == Some(Whole(a.record)))
  }

  lemma FoundExactly(s: System, who: Identity, a: Archive, m: Manifest)
    requires SoundArchive(a)
    ensures FoundArchive(s, who, a, ManifestSha256(m.text)) <==> Repeatable(s, who, a, m)
  {
  }

  lemma FindPath(s: System, p: nat, n: nat, op: Operation, a: Archive, m: Manifest) returns (t: System)
    requires p < |s.phases| && s.phases[p] == Holding(n, op) && op.Completing?
    requires SoundArchive(a) && s.archive == Some(Whole(a)) && s.manifest == Some(m) && Completable(op.who, m)
    ensures t == At(s, p, if Repeatable(s, op.who, a, m) then Archived(n, op, a) else Done(n, op, None)) && Leads(s, t)
  {
    FoundExactly(s, op.who, a, m);
    Stay(s);
    var s1 := Go(s, s, p, ReadManifest);
    t := Go(s, s1, p, ReadArchive);
    assert t.phases == s.phases[p := if Repeatable(s, op.who, a, m) then Archived(n, op, a) else Done(n, op, None)];
  }

  lemma GiveUpPath(s: System, p: nat, n: nat, op: Operation) returns (t: System)
    requires p < |s.phases| && s.phases[p] == Done(n, op, None) && s.lock == Some(Lock(n, true))
    ensures t == At(s, p, Returned(op, None)).(lock := None) && Leads(s, t)
  {
    Stay(s);
    t := Go(s, s, p, Release);
  }

  /**
   Repeating a completion once an archive is complete and the lock is free, from lock to release:
   it returns exactly that archive and leaves no reservation when the archive can be taken over,
   and otherwise returns nothing and leaves archive and reservation as they were.
   */
  lemma RepeatedCompletion(s: System, p: nat, op: Operation, a: Archive, m: Manifest) returns (t: System)
    requires Inv(s) && p < |s.phases| && Free(s.phases[p]) && s.lock == None && op.Completing?
    requires s.archive == Some(Whole(a)) && s.manifest == Some(m) && Completable(op.who, m)
    ensures Leads(s, t) && t.archive == s.archive && t.manifest == s.manifest && t.lock == None
    ensures t.phases == s.phases[p := Returned(op, if Repeatable(s, op.who, a, m) then Some(a) else None)]
    ensures t.reservation == if Repeatable(s, op.who, a, m) then None else s.reservation
  {
    var s1 := LockPath(s, p, op);
    var s2 := FindPath(s1, p, s.nextToken, op, a, m);
    if Repeatable(s, op.who, a, m) {
      t := RemovePath(s2, p, s.nextToken, op, a);
    } else {
      t := GiveUpPath(s2, p, s.nextToken, op);
    }
    Joined(s, s1, s2);
    Joined(s, s2, t);
  }

  // ---- A recording that gets in between --------------------------------------------------------------

  /** A recording from lock to release. */
  lemma RecordLeads(s: System, p: nat, op: Operation, r: Record, next: Record) returns (t: System)
    requires p < |s.phases| && Free(s.phases[p]) && s.lock == None && op.Recording? && s.reservation == Some(Whole(r))
    requires ValidRecord(op.who, r) && Updated(op.who, r, op.update) == Ok(next)
    ensures t == At(s, p, Returned(op, None)).(reservation := Some(Whole(next)), nextToken := s.nextToken + 1)
    ensures Leads(s, t)
  {
    var n := s.nextToken;
    var s1 := LockPath(s, p, op);
    var s2 := ReadPath(s1, p, n, op, r, next);
    t := ReplacePath(s2, p, n, op, r, next);
    Joined(s, s1, s2);
    Joined(s, s2, t);
    assert t.phases == s.phases[p := Returned(op, None)];
  }

  /** From a whole reservation, a recording and then a completion of what it made. */
  lemma RecordAndCompleteLeads(s: System, p: nat, op: Operation, done: Operation, r: Record, next: Record, m: Manifest)
    returns (t: System)
    requires p < |s.phases| && Free(s.phases[p]) && s.lock == None && s.archive == None && s.reservation == Some(Whole(r))
    requires op.Recording? && Updated(op.who, r, op.update) == Ok(next) && ValidRecord(op.who, r)
    requires ValidRecord(next.identity, next) && Completable(next.identity, m)
    requires done.Completing? && done.who == next.identity
    ensures Leads(s, t) && t.phases == s.phases[p := Returned(done, Some(ArchiveOf(next, ManifestSha256(m.text), done.at)))]
    ensures t.archive == Some(Whole(ArchiveOf(next, ManifestSha256(m.text), done.at)))
    ensures t.reservation == None && t.lock == None && t.successes == s.successes
  {
    var s1 := RecordLeads(s, p, op, r, next);
    var s2 := PublishPath(s1, m);
    var s3 := ArchiveLeads(s2, p, done, next, m);
    t := RemovePath(s3, p, s2.nextToken, done, ArchiveOf(next, ManifestSha256(m.text), done.at));
    Joined(s, s1, s2);
    Joined(s, s2, s3);
    Joined(s, s3, t);
  }

  /**
   Some run reserves, records and completes: for every valid entry and known key the archive it
   returns holds the reserved record with just that entry in it, as written.
   */
  lemma RecordingReachable(r: Record, update: Update, m: Manifest, at: int) returns (states: seq<System>)
    requires FreshRecord(r) && m.pendingSetup && m.identity == r.identity && ValidEntry(update.deployment)
    requires if update.Contract? then update.key in CONTRACT_KEYS else update.problemId >= 1 && update.key in BOARD_KEYS
    ensures Run(states)
    ensures var t := states[|states| - 1];
            && WholeArchive(t).Some? && t.phases == [Returned(Completing(r.identity, at), WholeArchive(t))]
            && t.reservation == None && t.lock == None && t.successes == 1
            && var a := WholeArchive(t).value;
               && a.publishedAt == at && a.manifestDigest == ManifestSha256(m.text) && a.recordDigest == Sha256(a.record)
               && Recorded(r.identity, r, update, a.record)
  {
    UpdatedExactly(r.identity, r, update);
    UpdateKeeps(r.identity, r, update);
    var next := Updated(r.identity, r, update).value;
    var s := Start(1);
    var s1 := ReserveLeads(s, 0, r);
    var t := RecordAndCompleteLeads(s1, 0, Recording(r.identity, update), Completing(r.identity, at), r, next, m);
    Joined(s, s1, t);
    states := LedIsRun(s, t);
  }

  /** A completion that dies once its archive is complete, and a recording after the lock is recovered. */
  lemma InterruptedLeads(s: System, p: nat, done: Operation, op: Operation, r: Record, next: Record, m: Manifest)
    returns (t: System)
    requires Inv(s) && p < |s.phases| && Free(s.phases[p]) && s.lock == None && s.archive == None
    requires done.Completing? && done.who == r.identity && ValidRecord(r.identity, r) && Completable(r.identity, m)
    requires op.Recording? && op.who == r.identity && Updated(r.identity, r, op.update) == Ok(next)
    requires s.manifest == Some(m) && s.reservation == Some(Whole(r))
    ensures t == At(s, p, Returned(op, None)).(
                   archive := Some(Whole(ArchiveOf(r, ManifestSha256(m.text), done.at))),
                   reservation := Some(Whole(next)), nextToken := s.nextToken + 2)
    ensures Leads(s, t)
  {
    var s1 := ArchiveLeads(s, p, done, r, m);
    assert forall q :: 0 <= q < |s.phases| && q != p ==> TokenOf(s.phases[q]) != Some(s.nextToken);
    var s2 := DiePath(s1, p, s.nextToken);
    t := RecordLeads(s2, p, op, r, next);
    Joined(s, s1, s2);
    Joined(s, s2, t);
    assert t.phases == s.phases[p := Returned(op, None)];
  }

  /** A first entry for a fresh record. */
  const BROADCAST: Entry :=
    map["name" := Text("pool"), "address" := Text("0x0"), "txHash" := Text("0x1"), "state" := Text("broadcast"),
        "blockNumber" := Null]

  lemma FirstRecording(r: Record)
    requires FreshRecord(r)
    ensures Updated(r.identity, r, Contract("pool", BROADCAST, 0)).Ok?
    ensures var next := Updated(r.identity, r, Contract("pool", BROADCAST, 0)).value;
            && ValidRecord(r.identity, next) && next.identity == r.identity && next.generation == 1
            && next.reservedAt == r.reservedAt
  {
    ValidBroadcast();
    UpdatedExactly(r.identity, r, Contract("pool", BROADCAST, 0));
    UpdateKeeps(r.identity, r, Contract("pool", BROADCAST, 0));
  }

  lemma ValidBroadcast()
    ensures ValidEntry(BROADCAST)
  {
    assert BROADCAST.Keys == {"name", "address", "txHash", "state", "blockNumber"};
  }

  /** A completion that dies, overtaken by a first recording: archive and reservation no longer fit. */
  lemma OvertakenLeads(s: System, p: nat, done: Operation, r: Record, m: Manifest) returns (t: System)
    requires Inv(s) && p < |s.phases| && Free(s.phases[p]) && s.lock == None && s.archive == None
    requires done.Completing? && done.who == r.identity && FreshRecord(r) && Completable(r.identity, m)
    requires s.manifest == Some(m) && s.reservation == Some(Whole(r))
    ensures var a := ArchiveOf(r, ManifestSha256(m.text), done.at);
            && Leads(s, t) && t.archive == Some(Whole(a)) && t.manifest == s.manifest && t.lock == None
            && t.successes == s.successes && WholeRecord(t).Some? && WholeRecord(t).value.generation == 1
            && OutOfStep(t.reservation, a) && !Repeatable(t, r.identity, a, m)
    ensures |t.phases| == |s.phases| && t.phases[p].Returned?
    ensures forall q :: 0 <= q < |s.phases| && q != p ==> t.phases[q] == s.phases[q]
  {
    FirstRecording(r);
    var update := Contract("pool", BROADCAST, 0);
    t := InterruptedLeads(s, p, done, Recording(r.identity, update), r, Updated(r.identity, r, update).value, m);
  }

  /**
   Reachable after a success: the archive is complete, the lock free, no reserve under way, and a
   recording has moved the reservation past the archived record. No completion accepts that pair.
   */
  lemma BlockedReachable(r: Record, m: Manifest, at: int) returns (states: seq<System>)
    requires FreshRecord(r) && Completable(r.identity, m)
    ensures Run(states)
    ensures var t, a := states[|states| - 1], ArchiveOf(r, ManifestSha256(m.text), at);
            && t.successes == 1 && t.manifest == Some(m) && t.lock == None && |t.phases| == 1 && t.phases[0].Returned?
            && t.archive == Some(Whole(a)) && WholeRecord(t).Some? && WholeRecord(t).value.generation == 1
            && OutOfStep(t.reservation, a) && !Repeatable(t, r.identity, a, m)
  {
    var s := Start(1);
    var s1 := ReserveLeads(s, 0, r);
    var s2 := PublishPath(s1, m);
    Joined(s, s1, s2);
    states := LedIsRun(s, s2);
    RunInv(states, |states| - 1);
    var t := OvertakenLeads(s2, 0, Completing(r.identity, at), r, m);
    Joined(s, s2, t);
    states := LedIsRun(s, t);
  }

  /** A run through `t` to `u`, and where on it `t` is. */
  lemma RunThrough(s: System, t: System, u: System) returns (states: seq<System>, k: nat)
    requires Init(s) && Leads(s, t) && Leads(t, u)
    ensures Run(states) && k < |states| && states[k] == t && states[|states| - 1] == u
  {
    states, k := Paths.Through(Steps(), s, t, u);
    forall i | 0 <= i < |states| - 1 ensures Next(states[i], states[i + 1]) {
      assert Steps()(states[i], states[i + 1]);
    }
  }

  /**
   The same with a reserve still under way that has yet to withdraw its file: that file is the
   reservation the recording moved on, its withdrawal removes it, and then completion succeeds.
   */
  lemma WithdrawalUnblocks(r: Record, m: Manifest, at: int) returns (states: seq<System>, k: nat)
    requires FreshRecord(r) && Completable(r.identity, m)
    ensures Run(states) && k < |states|
    ensures var s, a := states[k], ArchiveOf(r, ManifestSha256(m.text), at);
            && s.archive == Some(Whole(a)) && s.lock == None && s.manifest == Some(m)
            && OutOfStep(s.reservation, a) && !Repeatable(s, r.identity, a, m)
            && |s.phases| == 2 && s.phases[0].Withdrawing? && s.phases[1].Returned?
    ensures var t := states[|states| - 1];
            |t.phases| == 2 && t.phases[1] == Returned(Completing(r.identity, at), Some(ArchiveOf(r, ManifestSha256(m.text), at)))
  {
    var op, a := Completing(r.identity, at), ArchiveOf(r, ManifestSha256(m.text), at);
    var s := Start(2);
    var s1 := WithdrawingLeads(s, r, m);
    states := LedIsRun(s, s1);
    RunInv(states, |states| - 1);
    var s2 := OvertakenLeads(s1, 1, op, r, m);
    Joined(s, s1, s2);
    var t := UnblockedLeads(s, s2, op, a, m);
    states, k := RunThrough(s, s2, t);
  }

  /** The withdrawal, and a completion after it. */
  lemma UnblockedLeads(start: System, s: System, op: Operation, a: Archive, m: Manifest) returns (t: System)
    requires Init(start) && Leads(start, s) && |s.phases| == 2 && s.phases[0] == Withdrawing(0) && s.phases[1].Returned?
    requires s.lock == None && s.archive == Some(Whole(a)) && s.manifest == Some(m)
    requires op.Completing? && op.who == a.record.identity && Completable(op.who, m) && a.manifestDigest == ManifestSha256(m.text)
    ensures Leads(s, t) && |t.phases| == 2 && t.phases[1] == Returned(op, Some(a))
  {
    var s1 := WithdrawPath(s, 0, 0);
    Joined(start, s, s1);
    var states := LedIsRun(start, s1);
    RunInv(states, |states| - 1);
    t := RepeatedCompletion(s1, 1, op, a, m);
    Joined(s, s1, t);
  }

  /** Process 0 has reserved but found a manifest on its second look. */
  lemma WithdrawingLeads(s: System, r: Record, m: Manifest) returns (t: System)
    requires s == Start(2) && FreshRecord(r)
    ensures t == At(s, 0, Withdrawing(0)).(manifest := Some(m), reservation := Some(Whole(r)), nextToken := 1)
    ensures Leads(s, t)
  {
    var s1 := StartPath(s, 0, r);
    var s2 := PublishPath(s1, m);
    t := RefusePath(s2, 0, 0, r);
    Joined(s, s1, s2);
    Joined(s, s2, t);
    assert t.phases == s.phases[0 := Withdrawing(0)];
  }

  // ---- A recording of a record that was withdrawn ----------------------------------------------------

  /** Process 1 reads the reservation of process 0, which has not looked for a manifest a second time. */
  lemma EarlyReadLeads(s: System, r: Record, op: Operation, next: Record) returns (t: System)
    requires s == Start(2) && FreshRecord(r) && Computed(op, r, next)
    ensures t == s.(reservation := Some(Whole(r)), lock := Some(Lock(1, true)), nextToken := 2,
                    phases := [Unconfirmed(0, r), Replacing(1, op, r, next)])
    ensures Leads(s, t)
  {
    var s1 := StartPath(s, 0, r);
    var s2 := LockPath(s1, 1, op);
    t := ReadPath(s2, 1, 1, op, r, next);
    Joined(s, s1, s2);
    Joined(s, s2, t);
    assert t.phases == [Unconfirmed(0, r), Replacing(1, op, r, next)];
  }

  /** That second look fails, though there is no manifest, and the file is withdrawn. */
  lemma WithdrawnLeads(s: System, r: Record, op: Operation, next: Record) returns (t: System)
    requires s == Start(2) && FreshRecord(r) && Computed(op, r, next)
    ensures t == s.(lock := Some(Lock(1, true)), nextToken := 2, phases := [Idle, Replacing(1, op, r, next)])
    ensures Leads(s, t)
  {
    var s1 := EarlyReadLeads(s, r, op, next);
    var s2 := FailPath(s1, 0, 0, r);
    t := WithdrawPath(s2, 0, 0);
    Joined(s, s1, s2);
    Joined(s, s2, t);
    assert t.phases == [Idle, Replacing(1, op, r, next)];
  }

  /**
   Updates can be lost: a recording that read a reservation before its reserve returned, and that
   outlives the withdrawal of that reservation, replaces what a later reserve put there.
   */
  lemma LostUpdateReachable(r: Record, later: Record) returns (states: seq<System>, k: nat)
    requires FreshRecord(r) && FreshRecord(later) && later.identity == r.identity && later.reservedAt != r.reservedAt
    ensures Run(states) && k < |states| && states[k].successes == 1 && Kept(states[k]) == Some(later)
    ensures var t := states[|states| - 1];
            && t.successes == 1 && t.manifest == None && t.archive == None && t.lock == None
            && Kept(t).Some? && !Continues(later, Kept(t).value) && Kept(t).value.reservedAt == r.reservedAt
    ensures !UpToDate(states[k]) && !AllFit(states[k])
  {
    FirstRecording(r);
    var update := Contract("pool", BROADCAST, 0);
    var op, next := Recording(r.identity, update), Updated(r.identity, r, update).value;
    ReplacementValid(op, r, next);
    var s := Start(2);
    var s1 := WithdrawnLeads(s, r, op, next);
    var s2 := ReserveLeads(s1, 0, later);
    var t := ReplacePath(s2, 1, 1, op, r, next);
    Joined(s, s1, s2);
    states, k := RunThrough(s, s2, t);
  }

  // ---- Blocked for good --------------------------------------------------------------------------------

  /** The reservation neither is nor can become the archived record: it is torn, or differs and is as far on. */
  predicate OutOfStep(reservation: Option<File<Record>>, a: Archive) {
    match reservation
    case None => false
    case Some(Torn(_)) => true
    case Some(Whole(r)) => r != a.record && r.generation >= a.record.generation
  }

  /** No process is about to remove or replace the reservation by something in step. */
  ghost predicate Harmless(phase: Phase, a: Archive) {
    && !Creator(phase) && !phase.Archived? && (phase.Done? ==> phase.result == None)
    && (phase.Replacing? ==> phase.next.generation > a.record.generation)
  }

  ghost predicate Stuck(s: System, a: Archive) {
    && s.archive == Some(Whole(a)) && OutOfStep(s.reservation, a)
    && forall p :: 0 <= p < |s.phases| ==> Harmless(s.phases[p], a)
  }

  lemma StuckPhase(s: System, p: nat, action: Action, t: System, a: Archive)
    requires Inv(s) && Stuck(s, a) && p < |s.phases| && Step(s, p, action) == Some(t)
    ensures Harmless(t.phases[p], a)
  {
    assert Harmless(s.phases[p], a);
    NotArchiving(s, p, a);
    if action == ReadRecord {
      StuckRead(s, p, t, a);
    } else if s.phases[p].ManifestRead? {
      StuckFound(s, p, a);
    }
  }

  lemma NotArchiving(s: System, p: nat, a: Archive)
    requires Inv(s) && p < |s.phases| && s.archive == Some(Whole(a))
    ensures !s.phases[p].ArchiveAbsent? && !s.phases[p].Archiving? && !s.phases[p].WritingArchive?
  {
    assert SoundPhase(s, s.phases[p]);
  }

  lemma StuckRead(s: System, p: nat, t: System, a: Archive)
    requires Inv(s) && Stuck(s, a) && p < |s.phases| && Step(s, p, ReadRecord) == Some(t)
    ensures Harmless(t.phases[p], a)
  {
    if t.phases[p].Replacing? { UpdateKeeps(s.phases[p].op.who, WholeRecord(s).value, s.phases[p].op.update); }
  }

  lemma StuckFound(s: System, p: nat, a: Archive)
    requires Inv(s) && Stuck(s, a) && p < |s.phases| && s.phases[p].ManifestRead?
    ensures !FoundArchive(s, s.phases[p].op.who, a, s.phases[p].digest)
  {
    assert SoundArchive(a);
  }

  lemma StuckReservation(s: System, p: nat, action: Action, t: System, a: Archive)
    requires Inv(s) && Stuck(s, a) && p < |s.phases| && Step(s, p, action) == Some(t)
    ensures t.archive == s.archive && OutOfStep(t.reservation, a)
  {
    assert Harmless(s.phases[p], a);
    ArchiveStays(s, p, action, t);
    StepReservation(s, p, action, t);
  }

  lemma StepStuck(s: System, p: nat, action: Action, t: System, a: Archive)
    requires Inv(s) && Stuck(s, a) && p < |s.phases| && Step(s, p, action) == Some(t)
    ensures Stuck(t, a)
  {
    StepShape(s, p, action, t);
    StuckPhase(s, p, action, t, a);
    StuckReservation(s, p, action, t, a);
    forall q | 0 <= q < |t.phases| ensures Harmless(t.phases[q], a) {
      assert q != p ==> t.phases[q] == s.phases[q] && Harmless(s.phases[q], a);
    }
  }

  lemma NextStuck(states: seq<System>, k: nat, a: Archive)
    requires Run(states) && k + 1 < |states| && Stuck(states[k], a)
    ensures Stuck(states[k + 1], a)
  {
    RunInv(states, k);
    var s, t := states[k], states[k + 1];
    assert Next(s, t);
    var p: nat, action :| p < |s.phases| && Step(s, p, action) == Some(t);
    StepStuck(s, p, action, t, a);
  }

  lemma {:induction false} StuckStays(states: seq<System>, k: nat, l: nat, a: Archive)
    requires Run(states) && k <= l < |states| && Stuck(states[k], a)
    ensures Stuck(states[l], a)
  {
    if k < l {
      StuckStays(states, k, l - 1, a);
      NextStuck(states, l - 1, a);
    }
  }

  lemma FreeLockStuck(s: System, a: Archive)
    requires Inv(s) && s.archive == Some(Whole(a)) && s.lock == None && OutOfStep(s.reservation, a)
    requires forall p :: 0 <= p < |s.phases| ==> !Creator(s.phases[p])
    ensures Stuck(s, a)
  {
    forall p | 0 <= p < |s.phases| ensures Harmless(s.phases[p], a) { assert !HoldsLock(s.phases[p]); }
  }

  /**
   Once the archive is complete, the lock free, no reserve under way and the reservation out of step
   with the archive, that is for good: the reservation stays, the archive stays, and at every later
   point no process has taken the archive over or is about to return it.
   */
  lemma BlockedForGood(states: seq<System>, k: nat, l: nat, a: Archive)
    requires Run(states) && k <= l < |states|
    requires states[k].archive == Some(Whole(a)) && states[k].lock == None && OutOfStep(states[k].reservation, a)
    requires forall p :: 0 <= p < |states[k].phases| ==> !Creator(states[k].phases[p])
    ensures states[l].archive == Some(Whole(a)) && OutOfStep(states[l].reservation, a)
    ensures forall p :: 0 <= p < |states[l].phases| ==>
              !states[l].phases[p].Archived? && (states[l].phases[p].Done? ==> states[l].phases[p].result == None)
  {
    RunInv(states, k);
    FreeLockStuck(states[k], a);
    StuckStays(states, k, l, a);
    assert forall p :: 0 <= p < |states[l].phases| ==> Harmless(states[l].phases[p], a);
  }
}
