/**
 The verifier executor's admission protocol: one accept loop, one worker and auxiliary
 threads that share a set of active keys, a bounded queue and a counting semaphore.
 Every action below is one atomic step of one thread; a run interleaves them freely.
 */
module Executor {
  import opened Basics
  import Paths

  type Conn = nat

  datatype Role = Operator | Rerun

  /** The fields of a request that admission looks at; an absent or non-string field is `None`. */
  datatype Request = Request(requestId: Option<string>, requestHash: Option<string>)

  datatype Job = Job(conn: Conn, request: Request, boardId: string, role: Role)

  datatype Key = Key(boardId: string, identity: string)

  const QUEUE_BOUND: nat := 1024
  const SLOTS: nat := 64

  function ActiveExecutionKey(job: Job): Result<Key> {
    match if job.role == Rerun then job.request.requestHash else job.request.requestId
    case None => Err("executor request has no active identity")
    case Some(identity) => Ok(Key(job.boardId, identity))
  }

  /** An operator's job is known by its request id and a rerun by its request hash, each on its own board. */
  lemma KeyExactly(job: Job)
    ensures job.role == Operator ==>
              if job.request.requestId.Some? then ActiveExecutionKey(job) == Ok(Key(job.boardId, job.request.requestId.value))
              else ActiveExecutionKey(job).Err?
    ensures job.role == Rerun ==>
              if job.request.requestHash.Some? then ActiveExecutionKey(job) == Ok(Key(job.boardId, job.request.requestHash.value))
              else ActiveExecutionKey(job).Err?
  {
  }

  datatype Acceptor =
    | Listening
    | Reading(conn: Conn)     // accepted; reading the frame and authorising the peer
    | Admitted(job: Job)      // key added to the active set, not yet queued
    | SlotHeld(conn: Conn)    // semaphore taken, auxiliary thread not yet started
    | Rejecting(conn: Conn)   // an error is to be answered and the connection closed

  datatype Worker =
    | Idle
    | Executing(job: Job)
    | Discarded(job: Job)     // answered, key dropped, connection not yet closed
    | Dead                    // the answer could not be serialised; the thread is gone

  datatype Server = Server(
    next: Conn,               // the number of connections accepted so far
    acceptor: Acceptor,
    active: set<Key>,
    pending: seq<Job>,
    worker: Worker,
    auxiliaries: set<Conn>,   // auxiliary threads that own their connection
    releasing: nat,           // auxiliary threads that closed it and still hold their slot
    free: nat,                // free semaphore slots
    leaked: nat,              // slots taken for threads that could not be started
    closed: seq<Conn>)        // connections closed, in order

  predicate Init(s: Server) {
    s == Server(0, Listening, {}, [], Idle, {}, 0, SLOTS, 0, [])
  }

  datatype Action =
    | Accept
    | Refuse                    // any error while reading, authorising or finding a slot
    | Duplicate(job: Job)       // key already active: answer and close at once
    | Admit(job: Job)
    | Enqueue
    | QueueFull
    | TakeSlot
    | StartThread
    | StartFails
    | CloseRefused
    | Get
    | Discard
    | CloseExecuted(dies: bool)
    | CloseAuxiliary(conn: Conn)
    | Release

  function Step(s: Server, action: Action): Option<Server> {
    match action
    case Accept =>
      if s.acceptor == Listening then Some(s.(acceptor := Reading(s.next), next := s.next + 1)) else None
    case Refuse =>
      if s.acceptor.Reading? then Some(s.(acceptor := Rejecting(s.acceptor.conn))) else None
    case Duplicate(job) =>
      if s.acceptor == Reading(job.conn) && ActiveExecutionKey(job).Ok? && ActiveExecutionKey(job).value in s.active
      then Some(s.(acceptor := Listening, closed := s.closed + [job.conn])) else None
    case Admit(job) =>
      if s.acceptor == Reading(job.conn) && ActiveExecutionKey(job).Ok? && ActiveExecutionKey(job).value !in s.active
      then Some(s.(acceptor := Admitted(job), active := s.active + {ActiveExecutionKey(job).value})) else None
    case Enqueue =>
      if s.acceptor.Admitted? && |s.pending| < QUEUE_BOUND
      then Some(s.(acceptor := Listening, pending := s.pending + [s.acceptor.job])) else None
    case QueueFull =>
      if s.acceptor.Admitted? && |s.pending| >= QUEUE_BOUND
      then Some(s.(acceptor := Rejecting(s.acceptor.job.conn), active := Without(s.active, s.acceptor.job))) else None
    case TakeSlot =>
      if s.acceptor.Reading? && s.free > 0
      then Some(s.(acceptor := SlotHeld(s.acceptor.conn), free := s.free - 1)) else None
    case StartThread =>
      if s.acceptor.SlotHeld?
      then Some(s.(acceptor := Listening, auxiliaries := s.auxiliaries + {s.acceptor.conn})) else None
    case StartFails =>
      if s.acceptor.SlotHeld?
      then Some(s.(acceptor := Rejecting(s.acceptor.conn), leaked := s.leaked + 1)) else None
    case CloseRefused =>
      if s.acceptor.Rejecting?
      then Some(s.(acceptor := Listening, closed := s.closed + [s.acceptor.conn])) else None
    case Get =>
      if s.worker == Idle && s.pending != []
      then Some(s.(worker := Executing(s.pending[0]), pending := s.pending[1..])) else None
    case Discard =>
      if s.worker.Executing?
      then Some(s.(worker := Discarded(s.worker.job), active := Without(s.active, s.worker.job))) else None
    case CloseExecuted(dies) =>
      if s.worker.Discarded?
      then Some(s.(worker := if dies then Dead else Idle, closed := s.closed + [s.worker.job.conn])) else None
    case CloseAuxiliary(conn) =>
      if conn in s.auxiliaries
      then Some(s.(auxiliaries := s.auxiliaries - {conn}, releasing := s.releasing + 1, closed := s.closed + [conn]))
      else None
    case Release =>
      if s.releasing > 0 then Some(s.(releasing := s.releasing - 1, free := s.free + 1)) else None
  }

  function Without(active: set<Key>, job: Job): set<Key> {
    match ActiveExecutionKey(job)
    case Ok(key) => active - {key}
    case Err(_) => active
  }

  ghost predicate Next(s: Server, t: Server) { exists action :: Step(s, action) == Some(t) }

  ghost predicate Run(states: seq<Server>) {
    && |states| > 0 && Init(states[0])
    && forall k :: 0 <= k < |states| - 1 ==> Next(states[k], states[k + 1])
  }

  // ---- The invariant ---------------------------------------------------------------------

  function HasKey(job: Job, key: Key): nat {
    if ActiveExecutionKey(job) == Ok(key) then 1 else 0
  }

  function KeyCount(jobs: seq<Job>, key: Key): nat {
    if jobs == [] then 0 else HasKey(jobs[0], key) + KeyCount(jobs[1..], key)
  }

  function ConnCount(jobs: seq<Job>, c: Conn): nat {
    if jobs == [] then 0 else (if jobs[0].conn == c then 1 else 0) + ConnCount(jobs[1..], c)
  }

  function Occurrences(conns: seq<Conn>, c: Conn): nat {
    if conns == [] then 0 else (if conns[0] == c then 1 else 0) + Occurrences(conns[1..], c)
  }

  lemma {:induction false} KeyCountAppend(jobs: seq<Job>, job: Job, key: Key)
    ensures KeyCount(jobs + [job], key) == KeyCount(jobs, key) + HasKey(job, key)
  {
    if jobs != [] {
      KeyCountAppend(jobs[1..], job, key);
      assert (jobs + [job])[1..] == jobs[1..] + [job];
    }
  }

  lemma {:induction false} ConnCountAppend(jobs: seq<Job>, job: Job, c: Conn)
    ensures ConnCount(jobs + [job], c) == ConnCount(jobs, c) + (if job.conn == c then 1 else 0)
  {
    if jobs != [] {
      ConnCountAppend(jobs[1..], job, c);
      assert (jobs + [job])[1..] == jobs[1..] + [job];
    }
  }

  lemma {:induction false} OccurrencesAppend(conns: seq<Conn>, conn: Conn, c: Conn)
    ensures Occurrences(conns + [conn], c) == Occurrences(conns, c) + (if conn == c then 1 else 0)
  {
    if conns != [] {
      OccurrencesAppend(conns[1..], conn, c);
      assert (conns + [conn])[1..] == conns[1..] + [conn];
    }
  }

  /** How many jobs queued, being executed or about to be queued carry `key`. */
  function Held(s: Server, key: Key): nat {
    KeyCount(s.pending, key)
    + (if s.worker.Executing? then HasKey(s.worker.job, key) else 0)
    + (if s.acceptor.Admitted? then HasKey(s.acceptor.job, key) else 0)
  }

  function AcceptorConn(a: Acceptor): Option<Conn> {
    match a
    case Listening => None
    case Reading(c) => Some(c)
    case Admitted(job) => Some(job.conn)
    case SlotHeld(c) => Some(c)
    case Rejecting(c) => Some(c)
  }

  function WorkerConn(w: Worker): Option<Conn> {
    if w.Executing? || w.Discarded? then Some(w.job.conn) else None
  }

  /** How many threads and queue places own connection `c`. */
  function Owners(s: Server, c: Conn): nat {
    (if AcceptorConn(s.acceptor) == Some(c) then 1 else 0)
    + ConnCount(s.pending, c)
    + (if WorkerConn(s.worker) == Some(c) then 1 else 0)
    + (if c in s.auxiliaries then 1 else 0)
  }

  predicate Keyed(job: Job) { ActiveExecutionKey(job).Ok? }

  ghost predicate KeysSound(s: Server) {
    forall key :: Held(s, key) == if key in s.active then 1 else 0
  }

  ghost predicate JobsKeyed(s: Server) {
    && (forall i :: 0 <= i < |s.pending| ==> Keyed(s.pending[i]))
    && (s.worker.Executing? ==> Keyed(s.worker.job))
    && (s.acceptor.Admitted? ==> Keyed(s.acceptor.job))
  }

  ghost predicate ConnsSound(s: Server) {
    forall c: Conn :: Owners(s, c) + Occurrences(s.closed, c) == if c < s.next then 1 else 0
  }

  ghost predicate SlotsSound(s: Server) {
    |s.auxiliaries| + s.releasing + s.free + s.leaked + (if s.acceptor.SlotHeld? then 1 else 0) == SLOTS
  }

  ghost predicate Inv(s: Server) {
    KeysSound(s) && JobsKeyed(s) && ConnsSound(s) && SlotsSound(s) && |s.pending| <= QUEUE_BOUND
  }

  lemma InitInv(s: Server)
    requires Init(s)
    ensures Inv(s)
  {
  }

  lemma StepKey(s: Server, action: Action, t: Server, key: Key)
    requires Step(s, action) == Some(t)
    requires Held(s, key) == if key in s.active then 1 else 0
    ensures Held(t, key) == if key in t.active then 1 else 0
  {
    match action
    case Enqueue => KeyCountAppend(s.pending, s.acceptor.job, key);
    case _ =>
  }

  lemma StepConn(s: Server, action: Action, t: Server, c: Conn)
    requires Step(s, action) == Some(t)
    requires Owners(s, c) + Occurrences(s.closed, c) == if c < s.next then 1 else 0
    ensures Owners(t, c) + Occurrences(t.closed, c) == if c < t.next then 1 else 0
  {
    match action
    case Enqueue => ConnCountAppend(s.pending, s.acceptor.job, c);
    case Duplicate(job) => OccurrencesAppend(s.closed, job.conn, c);
    case CloseRefused => OccurrencesAppend(s.closed, s.acceptor.conn, c);
    case CloseExecuted(_) => OccurrencesAppend(s.closed, s.worker.job.conn, c);
    case CloseAuxiliary(conn) => OccurrencesAppend(s.closed, conn, c);
    case _ =>
  }

  lemma HeldConnIsAcceptors(s: Server)
    requires ConnsSound(s) && s.acceptor.SlotHeld?
    ensures s.acceptor.conn !in s.auxiliaries
  {
    assert Owners(s, s.acceptor.conn) <= 1;
  }

  lemma StepSlots(s: Server, action: Action, t: Server)
    requires SlotsSound(s) && Step(s, action) == Some(t)
    requires s.acceptor.SlotHeld? ==> s.acceptor.conn !in s.auxiliaries
    ensures SlotsSound(t)
  {
  }

  lemma StepInv(s: Server, action: Action, t: Server)
    requires Inv(s) && Step(s, action) == Some(t)
    ensures Inv(t)
  {
    forall key ensures Held(t, key) == if key in t.active then 1 else 0 {
      assert Held(s, key) == if key in s.active then 1 else 0;
      StepKey(s, action, t, key);
    }
    forall c: Conn ensures Owners(t, c) + Occurrences(t.closed, c) == if c < t.next then 1 else 0 {
      assert Owners(s, c) + Occurrences(s.closed, c) == if c < s.next then 1 else 0;
      StepConn(s, action, t, c);
    }
    if s.acceptor.SlotHeld? { HeldConnIsAcceptors(s); }
    StepSlots(s, action, t);
  }

  lemma NextInv(s: Server, t: Server)
    requires Inv(s) && Next(s, t)
    ensures Inv(t)
  {
    var action :| Step(s, action) == Some(t);
    StepInv(s, action, t);
  }

  lemma {:induction false} RunInv(states: seq<Server>, k: nat)
    requires Run(states) && k < |states|
    ensures Inv(states[k])
  {
    if k == 0 {
      InitInv(states[0]);
    } else {
      RunInv(states, k - 1);
      NextInv(states[k - 1], states[k]);
    }
  }

  // ---- What holds in every reachable state --------------------------------------------------

  /** The jobs whose key is active: queued, being executed, or on their way into the queue. */
  function InFlight(s: Server): seq<Job> {
    s.pending
    + (if s.worker.Executing? then [s.worker.job] else [])
    + (if s.acceptor.Admitted? then [s.acceptor.job] else [])
  }

  lemma {:induction false} KeyCountMember(jobs: seq<Job>, i: nat, key: Key)
    requires i < |jobs| && ActiveExecutionKey(jobs[i]) == Ok(key)
    ensures KeyCount(jobs, key) >= 1
  {
    if i > 0 { KeyCountMember(jobs[1..], i - 1, key); }
  }

  lemma {:induction false} KeyCountTwice(jobs: seq<Job>, i: nat, j: nat, key: Key)
    requires i < j < |jobs| && ActiveExecutionKey(jobs[i]) == Ok(key) && ActiveExecutionKey(jobs[j]) == Ok(key)
    ensures KeyCount(jobs, key) >= 2
  {
    if i == 0 { KeyCountMember(jobs[1..], j - 1, key); } else { KeyCountTwice(jobs[1..], i - 1, j - 1, key); }
  }

  lemma {:induction false} KeyCountWitness(jobs: seq<Job>, key: Key) returns (i: nat)
    requires KeyCount(jobs, key) >= 1
    ensures i < |jobs| && ActiveExecutionKey(jobs[i]) == Ok(key)
  {
    if ActiveExecutionKey(jobs[0]) == Ok(key) {
      i := 0;
    } else {
      i := KeyCountWitness(jobs[1..], key);
      i := i + 1;
    }
  }

  lemma InFlightCount(s: Server, key: Key)
    ensures KeyCount(InFlight(s), key) == Held(s, key)
  {
    var queued := s.pending + (if s.worker.Executing? then [s.worker.job] else []);
    if s.worker.Executing? { KeyCountAppend(s.pending, s.worker.job, key); } else { assert queued == s.pending; }
    if s.acceptor.Admitted? { KeyCountAppend(queued, s.acceptor.job, key); } else { assert InFlight(s) == queued; }
  }

  /** A key is active exactly when some job in flight carries it. */
  lemma ActiveMeansInFlight(states: seq<Server>, k: nat, key: Key)
    requires Run(states) && k < |states|
    ensures key in states[k].active <==>
      exists i :: 0 <= i < |InFlight(states[k])| && ActiveExecutionKey(InFlight(states[k])[i]) == Ok(key)
  {
    RunInv(states, k);
    var jobs := InFlight(states[k]);
    InFlightCount(states[k], key);
    if key in states[k].active {
      var i := KeyCountWitness(jobs, key);
    }
    if i :| 0 <= i < |jobs| && ActiveExecutionKey(jobs[i]) == Ok(key) {
      KeyCountMember(jobs, i, key);
    }
  }

  /** No two jobs in flight share a key, and the queue stays within its bound. */
  lemma InFlightDistinct(states: seq<Server>, k: nat, i: nat, j: nat)
    requires Run(states) && k < |states| && i < j < |InFlight(states[k])|
    ensures ActiveExecutionKey(InFlight(states[k])[i]) != ActiveExecutionKey(InFlight(states[k])[j])
    ensures |states[k].pending| <= 1024
  {
    RunInv(states, k);
    var jobs := InFlight(states[k]);
    assert Keyed(jobs[i]) && Keyed(jobs[j]);
    var key := ActiveExecutionKey(jobs[i]).value;
    InFlightCount(states[k], key);
    if ActiveExecutionKey(jobs[j]) == Ok(key) { KeyCountTwice(jobs, i, j, key); }
  }

  /**
   A request whose job has an identity is admitted exactly when no job in flight has that identity on
   that board, and otherwise answered as a duplicate.
   */
  lemma AdmissionExactly(states: seq<Server>, k: nat, job: Job)
    requires Run(states) && k < |states| && states[k].acceptor == Reading(job.conn) && ActiveExecutionKey(job).Ok?
    ensures var taken := exists i :: 0 <= i < |InFlight(states[k])|
                           && ActiveExecutionKey(InFlight(states[k])[i]) == ActiveExecutionKey(job);
            && (Step(states[k], Admit(job)).Some? <==> !taken)
            && (Step(states[k], Duplicate(job)).Some? <==> taken)
  {
    ActiveMeansInFlight(states, k, ActiveExecutionKey(job).value);
  }

  // ---- The queue is a queue ---------------------------------------------------------------------

  ghost predicate Queues(s: Server, t: Server) { Step(s, Enqueue) == Some(t) }

  ghost predicate Takes(s: Server, t: Server) { Step(s, Get) == Some(t) }

  /** The jobs that have been queued so far, in order. */
  ghost function Queued(states: seq<Server>, k: nat): seq<Job>
    requires k < |states|
  {
    if k == 0 then []
    else Queued(states, k - 1) + if Queues(states[k - 1], states[k]) then [states[k - 1].acceptor.job] else []
  }

  /** The jobs that the worker has begun so far, in order. */
  ghost function Begun(states: seq<Server>, k: nat): seq<Job>
    requires k < |states|
  {
    if k == 0 then []
    else Begun(states, k - 1) + if Takes(states[k - 1], states[k]) then [states[k].worker.job] else []
  }

  lemma StepQueue(s: Server, t: Server)
    requires Next(s, t)
    ensures !(Queues(s, t) && Takes(s, t))
    ensures Queues(s, t) ==> t.pending == s.pending + [s.acceptor.job]
    ensures Takes(s, t) ==> t.worker.Executing? && s.pending == [t.worker.job] + t.pending
    ensures !Queues(s, t) && !Takes(s, t) ==> t.pending == s.pending
  {
    var action :| Step(s, action) == Some(t);
  }

  /** Jobs are begun in the order in which they were queued, and the queue holds those not begun. */
  lemma {:induction false} FirstInFirstOut(states: seq<Server>, k: nat)
    requires Run(states) && k < |states|
    ensures Queued(states, k) == Begun(states, k) + states[k].pending
  {
    if k > 0 {
      FirstInFirstOut(states, k - 1);
      assert Next(states[k - 1], states[k - 1 + 1]);
      StepQueue(states[k - 1], states[k]);
    }
  }

  /** Every accepted connection has exactly one owner or has been closed exactly once, never both. */
  lemma ConnectionsConserved(states: seq<Server>, k: nat, c: Conn)
    requires Run(states) && k < |states|
    ensures Owners(states[k], c) + Occurrences(states[k].closed, c) == if c < states[k].next then 1 else 0
  {
    RunInv(states, k);
  }

  /** When nothing is in progress every accepted connection has been closed once and no key is left behind. */
  lemma QuietMeansClean(states: seq<Server>, k: nat, c: Conn, key: Key)
    requires Run(states) && k < |states|
    requires states[k].acceptor == Listening && states[k].pending == [] && states[k].auxiliaries == {}
    requires states[k].worker == Idle || states[k].worker == Dead
    ensures Occurrences(states[k].closed, c) == if c < states[k].next then 1 else 0
    ensures key !in states[k].active
  {
    RunInv(states, k);
    assert Owners(states[k], c) == 0 && Held(states[k], key) == 0;
  }

  /** The slots in use or free: auxiliary threads, one being handed over, and the semaphore's count. */
  function Capacity(s: Server): nat {
    |s.auxiliaries| + s.releasing + (if s.acceptor.SlotHeld? then 1 else 0) + s.free
  }

  /** At every point the slots in use or free are the 64 less those lost to threads that could not be started. */
  lemma SlotsConserved(states: seq<Server>, k: nat)
    requires Run(states) && k < |states|
    ensures Capacity(states[k]) + states[k].leaked == 64
    ensures |states[k].auxiliaries| + states[k].releasing <= 64
  {
    RunInv(states, k);
  }

  lemma StepLeak(s: Server, action: Action, t: Server)
    requires Step(s, action) == Some(t)
    ensures t.leaked == s.leaked + (if action == StartFails then 1 else 0)
  {
  }

  ghost predicate FailedStart(s: Server, t: Server) { Step(s, StartFails) == Some(t) }

  /** How many thread starts failed between two points of a run. */
  ghost function FailedStarts(states: seq<Server>, k: nat, l: nat): nat
    requires k <= l < |states|
    decreases l
  {
    if k == l then 0
    else FailedStarts(states, k, l - 1) + if FailedStart(states[l - 1], states[l]) then 1 else 0
  }

  lemma NextLeak(s: Server, t: Server)
    requires Next(s, t)
    ensures t.leaked == s.leaked + if FailedStart(s, t) then 1 else 0
  {
    var action :| Step(s, action) == Some(t);
    StepLeak(s, action, t);
    if FailedStart(s, t) { StepLeak(s, StartFails, t); }
  }

  lemma {:induction false} LeaksAdd(states: seq<Server>, k: nat, l: nat)
    requires k <= l < |states|
    requires forall i :: k <= i < l ==> states[i + 1].leaked == states[i].leaked + if FailedStart(states[i], states[i + 1]) then 1 else 0
    ensures states[l].leaked == states[k].leaked + FailedStarts(states, k, l)
    decreases l
  {
    if k < l { LeaksAdd(states, k, l - 1); }
  }

  lemma LeaksAreFailedStarts(states: seq<Server>, k: nat, l: nat)
    requires Run(states) && k <= l < |states|
    ensures states[l].leaked == states[k].leaked + FailedStarts(states, k, l)
  {
    forall i | k <= i < l
      ensures states[i + 1].leaked == states[i].leaked + if FailedStart(states[i], states[i + 1]) then 1 else 0
    {
      NextLeak(states[i], states[i + 1]);
    }
    LeaksAdd(states, k, l);
  }

  /**
   Every failed thread start costs one slot for the rest of the run: at any later point fewer slots
   are in use or free, by exactly the failures in between. In particular, after one failure 64
   auxiliary threads are never in service again.
   */
  lemma CapacityLost(states: seq<Server>, k: nat, l: nat)
    requires Run(states) && k <= l < |states|
    ensures Capacity(states[l]) == Capacity(states[k]) - FailedStarts(states, k, l)
    ensures states[k].leaked > 0 ==> |states[l].auxiliaries| + states[l].releasing <= 64 - states[k].leaked < 64
  {
    SlotsConserved(states, k);
    SlotsConserved(states, l);
    LeaksAreFailedStarts(states, k, l);
  }

  /** With all slots lost no auxiliary thread exists, and none is ever given a slot again. */
  lemma ExhaustedForGood(states: seq<Server>, k: nat, l: nat)
    requires Run(states) && k <= l < |states| && states[k].leaked == 64
    ensures states[l].auxiliaries == {} && Step(states[l], TakeSlot) == None
  {
    SlotsConserved(states, l);
    LeaksAreFailedStarts(states, k, l);
  }

  // ---- Losing slots can happen --------------------------------------------------------------

  function FailedRequests(n: nat): seq<Conn> {
    seq(n, i => i)
  }

  /** Where the server stands after `n` control requests whose threads could not be started. */
  function AfterFailures(n: nat): Server
    requires n <= SLOTS
  {
    Server(n, Listening, {}, [], Idle, {}, 0, SLOTS - n, n, FailedRequests(n))
  }

  ghost function Steps(): (Server, Server) -> bool { (s: Server, t: Server) => Next(s, t) }

  lemma Go(s: Server, t: Server, action: Action) returns (u: Server)
    requires Paths.Leads(Steps(), s, t) && Step(t, action).Some?
    ensures Step(t, action) == Some(u) && Paths.Leads(Steps(), s, u)
  {
    u := Step(t, action).value;
    assert Next(t, u);
    Paths.Extended(Steps(), s, t, u);
  }

  lemma {:induction false} FailuresLead(n: nat)
    requires n <= SLOTS
    ensures Paths.Leads(Steps(), AfterFailures(0), AfterFailures(n))
  {
    if n == 0 {
      Paths.Stay(Steps(), AfterFailures(0));
    } else {
      FailuresLead(n - 1);
      var s1 := Go(AfterFailures(0), AfterFailures(n - 1), Accept);
      var s2 := Go(AfterFailures(0), s1, TakeSlot);
      var s3 := Go(AfterFailures(0), s2, StartFails);
      var s4 := Go(AfterFailures(0), s3, CloseRefused);
      assert FailedRequests(n) == FailedRequests(n - 1) + [n - 1];
    }
  }

  lemma LedIsRun(s: Server, t: Server) returns (states: seq<Server>)
    requires Init(s) && Paths.Leads(Steps(), s, t)
    ensures Run(states) && states[0] == s && states[|states| - 1] == t
  {
    states :| Paths.Linked(Steps(), states) && states[0] == s && states[|states| - 1] == t;
    forall k | 0 <= k < |states| - 1 ensures Next(states[k], states[k + 1]) {
      assert Steps()(states[k], states[k + 1]);
    }
  }

  lemma RunThrough(s: Server, t: Server, u: Server) returns (states: seq<Server>, k: nat)
    requires Init(s) && Paths.Leads(Steps(), s, t) && Paths.Leads(Steps(), t, u)
    ensures Run(states) && k < |states| && states[k] == t && states[|states| - 1] == u
  {
    states, k := Paths.Through(Steps(), s, t, u);
    forall i | 0 <= i < |states| - 1 ensures Next(states[i], states[i + 1]) {
      assert Steps()(states[i], states[i + 1]);
    }
  }

  lemma BeginLeads(job: Job) returns (t: Server)
    requires job.conn == 0 && ActiveExecutionKey(job).Ok?
    ensures t == Server(1, Listening, {ActiveExecutionKey(job).value}, [], Executing(job), {}, 0, 64, 0, [])
    ensures Paths.Leads(Steps(), AfterFailures(0), t)
  {
    var s := AfterFailures(0);
    assert FailedRequests(0) == [];
    Paths.Stay(Steps(), s);
    var s1 := Go(s, s, Accept);
    var s2 := Go(s, s1, Admit(job));
    var s3 := Go(s, s2, Enqueue);
    assert s3.pending == [job];
    t := Go(s, s3, Get);
  }

  lemma FinishLeads(s: Server, job: Job) returns (t: Server)
    requires job.conn == 0 && ActiveExecutionKey(job).Ok?
    requires s == Server(1, Listening, {ActiveExecutionKey(job).value}, [], Executing(job), {}, 0, 64, 0, [])
    ensures t == Server(1, Listening, {}, [], Idle, {}, 0, 64, 0, [0]) && Paths.Leads(Steps(), s, t)
  {
    Paths.Stay(Steps(), s);
    var s1 := Go(s, s, Discard);
    t := Go(s, s1, CloseExecuted(false));
    assert t.active == {};
  }

  /** Some run takes a job from its connection to its answer and leaves nothing behind. */
  lemma JobServed(job: Job) returns (states: seq<Server>)
    requires job.conn == 0
    requires if job.role == Rerun then job.request.requestHash.Some? else job.request.requestId.Some?
    ensures Run(states) && states[|states| - 1] == Server(1, Listening, {}, [], Idle, {}, 0, 64, 0, [0])
    ensures exists k :: 0 <= k < |states| && states[k].worker == Executing(job)
  {
    var s := BeginLeads(job);
    var t := FinishLeads(s, job);
    var k: nat;
    assert FailedRequests(0) == [];
    states, k := RunThrough(AfterFailures(0), s, t);
    assert states[k].worker == Executing(job);
  }

  /** Some run answers a control request on a thread of its own and gives the slot back. */
  lemma ControlServed() returns (states: seq<Server>)
    ensures Run(states) && states[|states| - 1] == Server(1, Listening, {}, [], Idle, {}, 0, 64, 0, [0])
    ensures exists k :: 0 <= k < |states| && states[k].auxiliaries == {0} && states[k].free == 63
  {
    var s := AfterFailures(0);
    assert FailedRequests(0) == [];
    Paths.Stay(Steps(), s);
    var s1 := Go(s, s, Accept);
    var s2 := Go(s, s1, TakeSlot);
    var s3 := Go(s, s2, StartThread);
    Paths.Stay(Steps(), s3);
    var s4 := Go(s3, s3, CloseAuxiliary(0));
    var t := Go(s3, s4, Release);
    var k: nat;
    states, k := RunThrough(s, s3, t);
    assert states[k].auxiliaries == {0} && states[k].free == 63;
    assert t.auxiliaries == {};
  }

  // ---- The queue can fill ---------------------------------------------------------------------

  function Name(n: nat): string { seq(n, i => 'x') }

  function JobNumber(n: nat): Job { Job(n, Request(Some(Name(n)), None), "board", Operator) }

  /** Where the server stands with `n` different jobs queued and its worker idle. */
  function Filled(n: nat): Server {
    Server(n, Listening, set i: nat | i < n :: Key("board", Name(i)), seq(n, i requires 0 <= i => JobNumber(i)), Idle,
           {}, 0, 64, 0, [])
  }

  lemma NamesDiffer(n: nat)
    ensures Key("board", Name(n)) !in Filled(n).active
  {
    forall i: nat | i < n ensures Name(i) != Name(n) { assert |Name(i)| == i && |Name(n)| == n; }
  }

  lemma {:induction false} FillLeads(n: nat)
    requires n <= 1024
    ensures Paths.Leads(Steps(), Filled(0), Filled(n))
  {
    if n == 0 {
      Paths.Stay(Steps(), Filled(0));
    } else {
      FillLeads(n - 1);
      NamesDiffer(n - 1);
      var s1 := Go(Filled(0), Filled(n - 1), Accept);
      var s2 := Go(Filled(0), s1, Admit(JobNumber(n - 1)));
      var s3 := Go(Filled(0), s2, Enqueue);
      assert s3.pending == Filled(n).pending;
      assert s3.active == Filled(n).active;
    }
  }

  /** The queue can hold 1024 jobs, and the next one is turned away with its key dropped again. */
  lemma QueueFills() returns (states: seq<Server>)
    ensures Run(states) && |states[|states| - 1].pending| == 1024
    ensures var t := states[|states| - 1];
            && Key("board", Name(1024)) !in t.active && t.closed == [1024] && t.next == 1025 && t.acceptor == Listening
  {
    FillLeads(1024);
    NamesDiffer(1024);
    var s := Filled(0);
    var s1 := Go(s, Filled(1024), Accept);
    var s2 := Go(s, s1, Admit(JobNumber(1024)));
    var s3 := Go(s, s2, QueueFull);
    var t := Go(s, s3, CloseRefused);
    assert s.active == {} && s.pending == [];
    states := LedIsRun(s, t);
  }

  /** For every number up to 64 there is a run that loses that many slots, all of them in the end. */
  lemma FailuresReachable(n: nat) returns (states: seq<Server>)
    requires n <= 64
    ensures Run(states) && states[|states| - 1] == AfterFailures(n)
  {
    FailuresLead(n);
    assert FailedRequests(0) == [];
    states := LedIsRun(AfterFailures(0), AfterFailures(n));
  }
}
