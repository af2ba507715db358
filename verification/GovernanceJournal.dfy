/**
 The governance operation journal: a fixed plan of timelock operations with the evidence
 observed for each. SHA-256 and Keccak-256 are free constructors, hence injective.
 */
module GovernanceJournal {
  import opened Basics

  /** The bytes behind a hex string. */
  datatype Bytes = Raw(n: nat) | Keccak(target: Bytes, value: string, data: Bytes, salt: Bytes)

  /** A hex string: its bytes and the way its letters are cased. `bytes` is its lower-case form. */
  datatype Hex = Hex(bytes: Bytes, casing: nat)

  /** A state as JavaScript holds it: the text it is, or the text that another value is converted to as a key. */
  datatype OpState = OpState(key: string, isText: bool)

  const PLANNED: OpState := OpState("planned", true)
  const PENDING: OpState := OpState("pending", true)
  const EXECUTED: OpState := OpState("executed", true)

  predicate Known(state: OpState) { state == PLANNED || state == PENDING || state == EXECUTED }

  /** The properties every plain object inherits. */
  const INHERITED: set<string> := {
    "constructor", "__defineGetter__", "__defineSetter__", "hasOwnProperty", "__lookupGetter__", "__lookupSetter__",
    "isPrototypeOf", "propertyIsEnumerable", "toString", "valueOf", "__proto__", "toLocaleString"
  }

  /** What the table of states holds under a key. */
  datatype Slot = Number(n: nat) | Inherited(key: string) | Missing

  function SlotOf(state: OpState): Slot {
    match state.key
    case "planned" => Number(0)
    case "pending" => Number(1)
    case "executed" => Number(2)
    case key => if key in INHERITED then Inherited(key) else Missing
  }

  /** `state in STATES`, which looks at inherited properties too. */
  predicate InStates(state: OpState) { SlotOf(state) != Missing }

  /** `STATES[a] < STATES[b]`: numbers compare, two inherited values do as their texts, `lower` says how, and a mixture never does. */
  predicate Below(a: OpState, b: OpState, lower: bool) {
    match (SlotOf(a), SlotOf(b))
    case (Number(m), Number(n)) => m < n
    case (Inherited(x), Inherited(y)) => lower && x != y
    case _ => false
  }

  datatype BuilderDigest = BuilderSha256(builder: string)

  datatype Fallback = Fallback(
    operationId: Hex, salt: Hex, requiredConfirmations: string, delaySeconds: string, transactionBuilder: string)

  datatype FallbackDigest = FallbackSha256(fallback: Fallback)

  /** The immutable part of an operation. */
  datatype Plan = Plan(
    sequence: int, title: string, operationClass: string,
    target: Hex, value: string, data: Hex, salt: Hex, operationId: Hex,
    fallbackOperationId: Option<Hex>, dependsOn: seq<Hex>,
    requiredConfirmations: string, delaySeconds: string,
    transactionBuilder: string, transactionBuilderDigest: BuilderDigest,
    overrideFallback: Option<Fallback>, overrideFallbackDigest: Option<FallbackDigest>)

  datatype Operation = Operation(
    plan: Plan, state: OpState, observedOperationId: Option<Hex>, scheduleTxHash: Option<Hex>,
    executeTxHash: Option<Hex>, blockNumber: Option<int>, blockHash: Option<Hex>)

  datatype Policy = Policy(threshold: string, overrideThreshold: string, delaySeconds: string, overrideDelaySeconds: string)

  datatype Header = Header(
    schema: string, chainId: int, timelock: Hex, deploymentCommit: string, governance: Policy,
    deploymentConfigHash: Hex, releaseBindingDigest: string, expectedTimelockCodeHash: Hex)

  datatype View = View(header: Header, plans: seq<Plan>)

  datatype PlanDigest = Sha256(view: View)

  datatype Journal = Journal(header: Header, generation: int, operations: seq<Operation>, planDigest: PlanDigest)

  const SCHEMA := "p42-prizes/governance-operation-journal/v2"
  /** The largest length of a JavaScript array. */
  const MAX_ARRAY: nat := 0xFFFF_FFFF

  function ImmutableView(j: Journal): View {
    View(j.header, seq(|j.operations|, i requires 0 <= i < |j.operations| => j.operations[i].plan))
  }

  function Rank(state: OpState): nat {
    if state == EXECUTED then 2 else if state == PENDING then 1 else 0
  }

  // ---- Validation -----------------------------------------------------------------------

  predicate SafeInteger(n: int) { -(MAX_SAFE_INTEGER as int) <= n <= MAX_SAFE_INTEGER }

  predicate Candidate(plan: Plan, id: Hex) {
    || id.bytes == plan.operationId.bytes
    || (plan.fallbackOperationId.Some? && id.bytes == plan.fallbackOperationId.value.bytes)
  }

  predicate FallbackConsistent(plan: Plan) {
    match plan.overrideFallback
    case None => plan.fallbackOperationId.None? && plan.overrideFallbackDigest.None?
    case Some(f) =>
      && f.operationId.bytes == Keccak(plan.target.bytes, plan.value, plan.data.bytes, f.salt.bytes)
      && plan.fallbackOperationId.Some? && plan.fallbackOperationId.value.bytes == f.operationId.bytes
      && plan.overrideFallbackDigest == Some(FallbackSha256(f))
  }

  predicate PlanConsistent(plan: Plan, index: nat) {
    && plan.sequence == index + 1
    && plan.title != ""
    && plan.operationClass in {"standard", "override"}
    && plan.operationId.bytes == Keccak(plan.target.bytes, plan.value, plan.data.bytes, plan.salt.bytes)
    && plan.transactionBuilderDigest == BuilderSha256(plan.transactionBuilder)
    && FallbackConsistent(plan)
    && plan.value == "0"
  }

  predicate EvidenceConsistent(op: Operation) {
    && InStates(op.state)
    && (op.state == PLANNED ==>
          && op.observedOperationId.None? && op.scheduleTxHash.None? && op.executeTxHash.None?
          && op.blockNumber.None? && op.blockHash.None?)
    && (op.state == PENDING ==>
          && op.observedOperationId.Some? && op.scheduleTxHash.Some? && op.executeTxHash.None?
          && op.blockNumber.None? && op.blockHash.None?
          && Candidate(op.plan, op.observedOperationId.value))
    && (op.state == EXECUTED ==>
          && op.observedOperationId.Some? && op.scheduleTxHash.Some? && op.executeTxHash.Some? && op.blockHash.Some?
          && Candidate(op.plan, op.observedOperationId.value)
          && op.blockNumber.Some? && 0 <= op.blockNumber.value && SafeInteger(op.blockNumber.value))
  }

  ghost predicate IdBefore(operations: seq<Operation>, i: nat, id: Bytes) {
    exists j :: 0 <= j < i < |operations| && operations[j].plan.operationId.bytes == id
  }

  /** The identifier is new at its place and every dependency names an earlier operation. */
  ghost predicate OrderedAt(operations: seq<Operation>, i: nat)
    requires i < |operations|
  {
    && !IdBefore(operations, i, operations[i].plan.operationId.bytes)
    && forall d :: 0 <= d < |operations[i].plan.dependsOn| ==>
         IdBefore(operations, i, operations[i].plan.dependsOn[d].bytes)
  }

  ghost predicate ValidOperations(operations: seq<Operation>) {
    && 1 <= |operations|
    && forall i :: 0 <= i < |operations| ==>
         PlanConsistent(operations[i].plan, i) && EvidenceConsistent(operations[i]) && OrderedAt(operations, i)
  }

  /** The validation loop: one pass that grows the set of identifiers seen so far. */
  method AssertOperations(operations: seq<Operation>) returns (ok: bool)
    ensures ok <==> ValidOperations(operations)
  {
    if |operations| < 1 { return false; }
    var ids: set<Bytes> := {};
    for i := 0 to |operations|
      invariant ids == set j | 0 <= j < i :: operations[j].plan.operationId.bytes
      invariant forall j :: 0 <= j < i ==>
        PlanConsistent(operations[j].plan, j) && EvidenceConsistent(operations[j]) && OrderedAt(operations, j)
    {
      var op := operations[i];
      forall id ensures id in ids <==> IdBefore(operations, i, id) {}
      var known := forall d :: 0 <= d < |op.plan.dependsOn| ==> op.plan.dependsOn[d].bytes in ids;
      if !PlanConsistent(op.plan, i) || !known || op.plan.operationId.bytes in ids || !EvidenceConsistent(op) {
        return false;
      }
      ids := ids + {op.plan.operationId.bytes};
    }
    ok := true;
  }

  // ---- Dependencies are acyclic -----------------------------------------------------------

  ghost predicate DependsDirectly(operations: seq<Operation>, i: nat, j: nat) {
    && i < |operations| && j < |operations|
    && exists d :: 0 <= d < |operations[i].plan.dependsOn|
         && operations[i].plan.dependsOn[d].bytes == operations[j].plan.operationId.bytes
  }

  ghost predicate DependencyPath(operations: seq<Operation>, path: seq<nat>) {
    |path| > 0 && forall k :: 0 <= k < |path| - 1 ==> DependsDirectly(operations, path[k], path[k + 1])
  }

  lemma DirectIsEarlier(operations: seq<Operation>, i: nat, j: nat)
    requires ValidOperations(operations) && DependsDirectly(operations, i, j)
    ensures j < i
  {
    var d :| 0 <= d < |operations[i].plan.dependsOn|
      && operations[i].plan.dependsOn[d].bytes == operations[j].plan.operationId.bytes;
    assert OrderedAt(operations, i) && OrderedAt(operations, j);
    assert IdBefore(operations, i, operations[j].plan.operationId.bytes);
    var k :| 0 <= k < i && operations[k].plan.operationId.bytes == operations[j].plan.operationId.bytes;
    assert !(k < j);
    assert OrderedAt(operations, k);
  }

  /** Along every dependency path the plan positions fall, so no operation depends on itself. */
  lemma {:induction false} DependenciesAcyclic(operations: seq<Operation>, path: seq<nat>)
    requires ValidOperations(operations) && DependencyPath(operations, path) && |path| > 1
    ensures path[|path| - 1] < path[0]
  {
    assert DependsDirectly(operations, path[0], path[1]);
    DirectIsEarlier(operations, path[0], path[1]);
    if |path| > 2 {
      var rest := path[1..];
      forall k | 0 <= k < |rest| - 1 ensures DependsDirectly(operations, rest[k], rest[k + 1]) {
        assert DependsDirectly(operations, path[k + 1], path[k + 2]);
      }
      DependenciesAcyclic(operations, rest);
    }
  }

  // ---- The journal -------------------------------------------------------------------------

  predicate PolicyMatches(policy: Policy, plan: Plan) {
    && plan.requiredConfirmations == (if plan.operationClass == "override" then policy.overrideThreshold else policy.threshold)
    && plan.delaySeconds == (if plan.operationClass == "override" then policy.overrideDelaySeconds else policy.delaySeconds)
    && (plan.overrideFallback.Some? ==>
          && plan.overrideFallback.value.requiredConfirmations == policy.overrideThreshold
          && plan.overrideFallback.value.delaySeconds == policy.overrideDelaySeconds)
  }

  ghost predicate ValidJournal(j: Journal) {
    && j.header.schema == SCHEMA && SafeInteger(j.header.chainId) && 1 <= j.header.chainId
    && ValidOperations(j.operations) && |j.operations| <= MAX_ARRAY
    && (forall i :: 0 <= i < |j.operations| ==> PolicyMatches(j.header.governance, j.operations[i].plan))
    && j.planDigest == Sha256(ImmutableView(j))
    && 0 <= j.generation && SafeInteger(j.generation)
  }

  /** An observation; a null field is `None`. */
  datatype Evidence = Evidence(
    operationId: Hex, state: OpState, observedOperationId: Option<Hex>, scheduleTxHash: Option<Hex>,
    executeTxHash: Option<Hex>, blockNumber: Option<int>, blockHash: Option<Hex>)

  /** `lower` is how two inherited values compare, should it come to that. */
  datatype Call = Call(planDigest: PlanDigest, index: int, evidence: Evidence, lower: bool)

  function GetOr<T>(o: Option<T>, default: Option<T>): Option<T> {
    if o.Some? then o else default
  }

  /** The operation with the observed fields and state in place. */
  function Patched(op: Operation, e: Evidence): Operation {
    var observed := GetOr(e.observedOperationId, Some(e.operationId));
    if e.state == PLANNED then Operation(op.plan, PLANNED, None, None, None, None, None)
    else if e.state == PENDING then Operation(op.plan, PENDING, observed, e.scheduleTxHash, None, None, None)
    else Operation(op.plan, e.state, observed, GetOr(e.scheduleTxHash, op.scheduleTxHash),
                   e.executeTxHash, e.blockNumber, e.blockHash)
  }

  /** Equal in everything but the state. */
  predicate SameEvidence(a: Operation, b: Operation) { a.(state := b.state) == b }

  function Replaced(j: Journal, index: nat, op: Operation): Journal
    requires index < |j.operations|
  {
    j.(operations := j.operations[index := op], generation := j.generation + 1)
  }

  /** What recording one observation does to the stored journal. */
  ghost function Observe(j: Journal, call: Call): Result<Journal> {
    if j.planDigest != call.planDigest then Err("governance operation plan changed during continuation")
    else if !(0 <= call.index < |j.operations|) then Err("governance observation operation mismatch")
    else
      var op := j.operations[call.index];
      var e := call.evidence;
      if e.operationId.bytes != op.plan.operationId.bytes then Err("governance observation operation mismatch")
      else if !InStates(e.state) || Below(e.state, op.state, call.lower) then Err("governance observation cannot regress")
      else
        var patched := Patched(op, e);
        if SlotOf(e.state) == SlotOf(op.state) then
          if !SameEvidence(patched, op) then Err("governance observation conflicts with durable evidence") else Ok(j)
        else
          var next := Replaced(j, call.index, patched);
          if !ValidJournal(next) then Err("governance operation journal is invalid") else Ok(next)
  }

  predicate IsState(state: OpState, key: string) { state == OpState(key, true) }

  /**
   What an observation makes of an operation: nothing for a planned one, for a pending one the id
   seen on chain, or else the operation's own, and its schedule hash; otherwise all evidence, with the
   stored schedule hash where the observation has none.
   */
  predicate ObservedFields(was: Operation, e: Evidence, now: Operation) {
    && now.plan == was.plan && now.state == e.state
    && now.observedOperationId ==
         (if IsState(e.state, "planned") then None
          else if e.observedOperationId.Some? then e.observedOperationId else Some(e.operationId))
    && now.scheduleTxHash ==
         (if IsState(e.state, "planned") then None
          else if IsState(e.state, "pending") || e.scheduleTxHash.Some? then e.scheduleTxHash else was.scheduleTxHash)
    && (IsState(e.state, "planned") || IsState(e.state, "pending") ==>
          now.executeTxHash == None && now.blockNumber == None && now.blockHash == None)
    && (!IsState(e.state, "planned") && !IsState(e.state, "pending") ==>
          now.executeTxHash == e.executeTxHash && now.blockNumber == e.blockNumber && now.blockHash == e.blockHash)
  }

  /** What a successful observation leaves: one operation observed, the rest of the journal as it was. */
  ghost predicate Observed(j: Journal, call: Call, next: Journal) {
    && 0 <= call.index < |j.operations| && next.header == j.header && next.planDigest == j.planDigest
    && |next.operations| == |j.operations|
    && (forall i :: 0 <= i < |j.operations| && i != call.index ==> next.operations[i] == j.operations[i])
    && var was, now, e := j.operations[call.index], next.operations[call.index], call.evidence;
       && ObservedFields(was, e, now.(state := e.state))
       && (if SlotOf(e.state) == SlotOf(was.state) then now == was && next.generation == j.generation
           else now.state == e.state && next.generation == j.generation + 1)
  }

  /** Every successful observation stores the fields of its evidence, whatever state it names. */
  lemma ObservedStores(j: Journal, call: Call)
    requires Observe(j, call).Ok?
    ensures Observed(j, call, Observe(j, call).value)
  {
  }

  /** The evidence a state needs, given the schedule hash on file. */
  predicate Complete(plan: Plan, e: Evidence, schedule: Option<Hex>) {
    var id := if e.observedOperationId.Some? then e.observedOperationId.value else e.operationId;
    && (IsState(e.state, "pending") || IsState(e.state, "executed") ==>
          || id.bytes == plan.operationId.bytes
          || (plan.fallbackOperationId.Some? && id.bytes == plan.fallbackOperationId.value.bytes))
    && (IsState(e.state, "pending") ==> e.scheduleTxHash.Some?)
    && (IsState(e.state, "executed") ==>
          && (e.scheduleTxHash.Some? || schedule.Some?) && e.executeTxHash.Some? && e.blockHash.Some?
          && e.blockNumber.Some? && 0 <= e.blockNumber.value <= 9_007_199_254_740_991)
  }

  /** Where the three states stand in the order of observation. */
  function StateRank(state: OpState): int {
    if IsState(state, "planned") then 0 else if IsState(state, "pending") then 1
    else if IsState(state, "executed") then 2 else -1
  }

  /**
   An observation of one of the three states succeeds exactly when it is for this plan and this
   operation, and either repeats what is stored or names a later state with complete evidence.
   */
  lemma ObservedExactly(j: Journal, call: Call)
    requires ValidJournal(j) && AllKnown(j.operations) && StateRank(call.evidence.state) >= 0
    ensures Observe(j, call).Ok? <==>
              && j.planDigest == call.planDigest && 0 <= call.index < |j.operations|
              && var op, e := j.operations[call.index], call.evidence;
                 && e.operationId.bytes == op.plan.operationId.bytes
                 && (|| ObservedFields(op, e, op)
                     || (&& StateRank(op.state) < StateRank(e.state) && Complete(op.plan, e, op.scheduleTxHash)
                         && j.generation < 9_007_199_254_740_991))
  {
    if 0 <= call.index < |j.operations| {
      var op, e := j.operations[call.index], call.evidence;
      KnownSlots(e.state, op.state);
      RepeatedExactly(op, e);
      if Rank(op.state) < Rank(e.state) {
        ReplacedValid(j, call.index, Patched(op, e));
        CompleteExactly(op, e);
      }
    }
  }

  lemma RepeatedExactly(op: Operation, e: Evidence)
    ensures ObservedFields(op, e, op) <==> e.state == op.state && SameEvidence(Patched(op, e), op)
  {
  }

  lemma CompleteExactly(op: Operation, e: Evidence)
    requires Known(e.state) && Rank(op.state) < Rank(e.state)
    ensures EvidenceConsistent(Patched(op, e)) <==> Complete(op.plan, e, op.scheduleTxHash)
  {
  }

  /** The journal file while one runner holds its lock. */
  class JournalFile {
    var record: Journal

    constructor (record: Journal)
      ensures this.record == record
    {
      this.record := record;
    }

    method RecordObservation(call: Call) returns (r: Result<Journal>)
      requires ValidJournal(record)
      modifies this
      ensures ValidJournal(record)
      ensures match Observe(old(record), call)
              case Ok(next) => r == Ok(next) && record == next && Observed(old(record), call, record)
              case Err(_) => r.Err? && record == old(record)
    {
      if record.planDigest != call.planDigest { return Err("governance operation plan changed during continuation"); }
      if !(0 <= call.index < |record.operations|) { return Err("governance observation operation mismatch"); }
      var op := record.operations[call.index];
      var e := call.evidence;
      if e.operationId.bytes != op.plan.operationId.bytes { return Err("governance observation operation mismatch"); }
      if !InStates(e.state) || Below(e.state, op.state, call.lower) { return Err("governance observation cannot regress"); }
      var patched := Patched(op, e);
      if SlotOf(e.state) == SlotOf(op.state) {
        if !SameEvidence(patched, op) { return Err("governance observation conflicts with durable evidence"); }
        return Ok(record);
      }
      var next := Replaced(record, call.index, patched);
      ReplacedValid(record, call.index, patched);
      var valid := EvidenceConsistent(patched) && SafeInteger(next.generation);
      if !valid { return Err("governance operation journal is invalid"); }
      record := next;
      r := Ok(record);
    }
  }

  /** After one operation's evidence changed, only that evidence and the counter need checking again. */
  lemma ReplacedValid(j: Journal, index: nat, op: Operation)
    requires ValidJournal(j) && index < |j.operations| && op.plan == j.operations[index].plan
    ensures ImmutableView(Replaced(j, index, op)) == ImmutableView(j)
    ensures ValidJournal(Replaced(j, index, op)) <==> EvidenceConsistent(op) && SafeInteger(j.generation + 1)
  {
    var next := Replaced(j, index, op);
    assert forall i :: 0 <= i < |j.operations| ==> next.operations[i].plan == j.operations[i].plan;
    assert ImmutableView(next) == ImmutableView(j);
    forall i: nat, id ensures IdBefore(next.operations, i, id) <==> IdBefore(j.operations, i, id) {
      if IdBefore(j.operations, i, id) { IdBeforeFrame(j.operations, next.operations, i, id); }
      if IdBefore(next.operations, i, id) { IdBeforeFrame(next.operations, j.operations, i, id); }
    }
    forall i | 0 <= i < |j.operations| ensures OrderedAt(next.operations, i) {
      assert OrderedAt(j.operations, i);
    }
    assert next.operations[index] == op;
    forall i | 0 <= i < |next.operations| && i != index
      ensures PlanConsistent(next.operations[i].plan, i) && EvidenceConsistent(next.operations[i])
    {
      assert next.operations[i] == j.operations[i];
    }
  }

  lemma IdBeforeFrame(a: seq<Operation>, b: seq<Operation>, i: nat, id: Bytes)
    requires |a| == |b| && forall k :: 0 <= k < |a| ==> a[k].plan == b[k].plan
    requires IdBefore(a, i, id)
    ensures IdBefore(b, i, id)
  {
    var k :| 0 <= k < i < |a| && a[k].plan.operationId.bytes == id;
    assert b[k].plan.operationId.bytes == id;
  }

  // ---- What one observation keeps -----------------------------------------------------------

  function RankSum(operations: seq<Operation>): nat {
    if operations == [] then 0 else Rank(operations[0].state) + RankSum(operations[1..])
  }

  function Started(operations: seq<Operation>): nat {
    if operations == [] then 0 else (if operations[0].state == PLANNED then 0 else 1) + Started(operations[1..])
  }

  lemma {:induction false} CountsUpdate(operations: seq<Operation>, index: nat, op: Operation)
    requires index < |operations|
    ensures RankSum(operations[index := op])
         == RankSum(operations) - Rank(operations[index].state) + Rank(op.state)
    ensures Started(operations[index := op])
         == Started(operations) - (if operations[index].state == PLANNED then 0 else 1)
            + (if op.state == PLANNED then 0 else 1)
  {
    var updated := operations[index := op];
    if index == 0 {
      assert updated[1..] == operations[1..];
    } else {
      CountsUpdate(operations[1..], index - 1, op);
      assert updated[1..] == operations[1..][index - 1 := op];
    }
  }

  lemma {:induction false} RankSumBound(operations: seq<Operation>)
    ensures RankSum(operations) <= 2 * |operations|
  {
    if operations != [] { RankSumBound(operations[1..]); }
  }

  ghost predicate AllKnown(operations: seq<Operation>) {
    forall i :: 0 <= i < |operations| ==> Known(operations[i].state)
  }

  /** A journal of the three states in which every success so far raised some rank: started <= generation <= ranks. */
  ghost predicate Balanced(j: Journal) {
    ValidJournal(j) && AllKnown(j.operations) && Started(j.operations) <= j.generation <= RankSum(j.operations)
  }

  /** `b` continues `a`: the plan is untouched, no rank falls, executed evidence is final. */
  ghost predicate Continues(a: Journal, b: Journal) {
    && b.planDigest == a.planDigest && ImmutableView(b) == ImmutableView(a)
    && |b.operations| == |a.operations| && a.generation <= b.generation
    && forall i :: 0 <= i < |a.operations| ==> OperationContinues(a.operations[i], b.operations[i])
  }

  predicate OperationContinues(a: Operation, b: Operation) {
    && a.plan == b.plan && Rank(a.state) <= Rank(b.state)
    && (a.state == EXECUTED ==> b == a)
  }

  lemma ContinuesTransitive(a: Journal, b: Journal, c: Journal)
    requires Continues(a, b) && Continues(b, c)
    ensures Continues(a, c)
  {
    forall i | 0 <= i < |a.operations| ensures OperationContinues(a.operations[i], c.operations[i]) {
      assert OperationContinues(a.operations[i], b.operations[i]);
      assert OperationContinues(b.operations[i], c.operations[i]);
    }
  }

  /** A rise in rank with consistent evidence keeps the accounts. */
  lemma ReplacedContinues(j: Journal, index: nat, op: Operation)
    requires Balanced(j) && index < |j.operations| && op.plan == j.operations[index].plan
    requires EvidenceConsistent(op) && Known(op.state) && Rank(j.operations[index].state) < Rank(op.state)
    ensures Balanced(Replaced(j, index, op)) && Continues(j, Replaced(j, index, op))
  {
    RankSumBound(j.operations);
    ReplacedValid(j, index, op);
    CountsUpdate(j.operations, index, op);
    var next := Replaced(j, index, op);
    forall i | 0 <= i < |j.operations| ensures OperationContinues(j.operations[i], next.operations[i]) {
      assert i != index ==> next.operations[i] == j.operations[i];
    }
  }

  /** A call that names one of the three states, or nothing that is in the table. */
  predicate Ordinary(call: Call) { Known(call.evidence.state) || !InStates(call.evidence.state) }

  /** A successful ordinary observation either changes nothing or raises one rank. */
  ghost predicate Advance(j: Journal, call: Call, next: Journal) {
    && 0 <= call.index < |j.operations| && Known(call.evidence.state)
    && var op := j.operations[call.index];
       var patched := Patched(op, call.evidence);
       || (next == j && patched == op)
       || (next == Replaced(j, call.index, patched) && EvidenceConsistent(patched)
           && Rank(op.state) < Rank(patched.state))
  }

  lemma KnownSlots(a: OpState, b: OpState)
    requires Known(a) && Known(b)
    ensures SlotOf(a) == Number(Rank(a)) && (SlotOf(a) == SlotOf(b) <==> a == b)
    ensures forall lower :: Below(a, b, lower) <==> Rank(a) < Rank(b)
  {
  }

  lemma ObserveAdvances(j: Journal, call: Call)
    requires ValidJournal(j) && AllKnown(j.operations) && Ordinary(call) && Observe(j, call).Ok?
    ensures Advance(j, call, Observe(j, call).value)
  {
    var op := j.operations[call.index];
    KnownSlots(call.evidence.state, op.state);
    if call.evidence.state != op.state { ReplacedValid(j, call.index, Patched(op, call.evidence)); }
  }

  lemma AdvanceContinues(j: Journal, call: Call, next: Journal)
    requires Balanced(j) && Advance(j, call, next)
    ensures Balanced(next) && Continues(j, next)
    ensures next == j || next.generation == j.generation + 1
  {
    if next != j {
      ReplacedContinues(j, call.index, Patched(j.operations[call.index], call.evidence));
    }
  }

  /** One ordinary success raises the generation by exactly one, or changes nothing at all. */
  lemma ObserveContinues(j: Journal, call: Call)
    requires Balanced(j) && Ordinary(call) && Observe(j, call).Ok?
    ensures var next := Observe(j, call).value;
            && Balanced(next) && Continues(j, next)
            && (next == j || next.generation == j.generation + 1)
  {
    ObserveAdvances(j, call);
    AdvanceContinues(j, call, Observe(j, call).value);
  }

  /**
   The three states are needed: a successful observation keeps the journal's promises if and only if
   it names one of them or changes nothing.
   */
  lemma PromisesExactly(j: Journal, call: Call)
    requires Balanced(j) && Observe(j, call).Ok?
    ensures var next := Observe(j, call).value;
            Balanced(next) && Continues(j, next) <==> Known(call.evidence.state) || next == j
  {
    var next := Observe(j, call).value;
    if Known(call.evidence.state) {
      ObserveContinues(j, call);
    } else if next != j {
      assert next.operations[call.index].state == call.evidence.state;
    } else {
      ContinuesSelf(j);
    }
  }

  lemma ContinuesSelf(j: Journal)
    ensures Continues(j, j)
  {
  }

  // ---- Runs ----------------------------------------------------------------------------------

  /** The journal after one call, successful or not. */
  ghost function After(j: Journal, call: Call): (k: Journal)
    ensures |k.operations| == |j.operations|
  {
    match Observe(j, call)
    case Ok(next) => next
    case Err(_) => j
  }

  ghost function AfterAll(j: Journal, calls: seq<Call>): (k: Journal)
    ensures |k.operations| == |j.operations|
    decreases |calls|
  {
    if calls == [] then j else AfterAll(After(j, calls[0]), calls[1..])
  }

  ghost predicate Fresh(j: Journal) {
    ValidJournal(j) && j.generation == 0 && forall i :: 0 <= i < |j.operations| ==> j.operations[i].state == PLANNED
  }

  lemma {:induction false} FreshCounts(operations: seq<Operation>)
    requires forall i :: 0 <= i < |operations| ==> operations[i].state == PLANNED
    ensures RankSum(operations) == 0 && Started(operations) == 0
  {
    if operations != [] { FreshCounts(operations[1..]); }
  }

  ghost predicate AllOrdinary(calls: seq<Call>) { forall i :: 0 <= i < |calls| ==> Ordinary(calls[i]) }

  /** Whatever is observed in whatever order, as long as the calls are ordinary the journal only moves forward. */
  lemma {:induction false} RunContinues(j: Journal, calls: seq<Call>)
    requires Balanced(j) && AllOrdinary(calls)
    ensures Balanced(AfterAll(j, calls)) && Continues(j, AfterAll(j, calls))
    decreases |calls|
  {
    if calls != [] {
      var next := After(j, calls[0]);
      if Observe(j, calls[0]).Ok? { ObserveContinues(j, calls[0]); }
      RunContinues(next, calls[1..]);
      ContinuesTransitive(j, next, AfterAll(j, calls));
    }
  }

  /** From a fresh journal: started operations <= generation <= sum of ranks <= 2n, in every run of ordinary calls. */
  lemma RunAccounting(j: Journal, calls: seq<Call>)
    requires Fresh(j) && AllOrdinary(calls)
    ensures var k := AfterAll(j, calls);
            && ValidJournal(k) && k.planDigest == j.planDigest && ImmutableView(k) == ImmutableView(j)
            && Started(k.operations) <= k.generation <= RankSum(k.operations) <= 2 * |j.operations|
  {
    FreshCounts(j.operations);
    RunContinues(j, calls);
    RankSumBound(AfterAll(j, calls).operations);
  }

  /** An operation seen executed keeps exactly that evidence for the rest of the run. */
  lemma ExecutedIsFinal(j: Journal, earlier: seq<Call>, later: seq<Call>, i: nat)
    requires Balanced(j) && i < |j.operations| && AllOrdinary(earlier) && AllOrdinary(later)
    requires AfterAll(j, earlier).operations[i].state == EXECUTED
    ensures AfterAll(AfterAll(j, earlier), later).operations[i] == AfterAll(j, earlier).operations[i]
  {
    RunContinues(j, earlier);
    RunContinues(AfterAll(j, earlier), later);
    assert OperationContinues(AfterAll(j, earlier).operations[i], AfterAll(AfterAll(j, earlier), later).operations[i]);
  }

  /** An executed operation whose observed state is an inherited property's name. */
  function InheritedCall(j: Journal, i: nat, name: string, txHash: Hex): Call
    requires i < |j.operations|
  {
    Call(j.planDigest, i, Evidence(j.operations[i].plan.operationId, OpState(name, true), None, Some(txHash), None, None, None), false)
  }

  function PlannedCall(j: Journal, i: nat): Call
    requires i < |j.operations|
  {
    Call(j.planDigest, i, Evidence(j.operations[i].plan.operationId, PLANNED, None, None, None, None, None), false)
  }

  /**
   What the other calls can do: two of them take an executed operation back to planned. The first
   names an inherited property as the state, which is neither below nor equal to any of the three
   and puts any evidence in place; the second then is not below that.
   */
  lemma InheritedStateErases(j: Journal, i: nat, name: string, txHash: Hex)
    requires Balanced(j) && i < |j.operations| && j.operations[i].state == EXECUTED && name in INHERITED
    requires j.generation + 2 <= MAX_SAFE_INTEGER
    ensures var k := After(j, InheritedCall(j, i, name, txHash));
            && ValidJournal(k) && k.operations[i].state == OpState(name, true) && k.operations[i].scheduleTxHash == Some(txHash)
            && k.operations[i].executeTxHash == None
            && var l := After(k, PlannedCall(k, i));
               ValidJournal(l) && l.operations[i].state == PLANNED && l.operations[i].executeTxHash == None
  {
    var first := InheritedCall(j, i, name, txHash);
    InheritedSlot(name);
    ReplacedValid(j, i, Patched(j.operations[i], first.evidence));
    PlannedErases(After(j, first), i);
  }

  lemma PlannedErases(k: Journal, i: nat)
    requires ValidJournal(k) && i < |k.operations| && SlotOf(k.operations[i].state).Inherited? && k.generation < MAX_SAFE_INTEGER
    ensures var l := After(k, PlannedCall(k, i));
            ValidJournal(l) && l.operations[i].state == PLANNED && l.operations[i].executeTxHash == None
  {
    ReplacedValid(k, i, Patched(k.operations[i], PlannedCall(k, i).evidence));
  }

  lemma InheritedSlot(name: string)
    requires name in INHERITED
    ensures SlotOf(OpState(name, true)) == Inherited(name)
  {
    assert "planned" !in INHERITED && "pending" !in INHERITED && "executed" !in INHERITED;
  }

  /** Recording the same evidence a second time changes nothing, not even the generation. */
  lemma ReplayIsNoOp(j: Journal, call: Call)
    requires ValidJournal(j) && Observe(j, call).Ok?
    ensures Observe(Observe(j, call).value, call) == Ok(Observe(j, call).value)
  {
    var next := Observe(j, call).value;
    if next != j {
      var patched := Patched(j.operations[call.index], call.evidence);
      ReplacedValid(j, call.index, patched);
      assert next.operations[call.index] == patched;
    }
  }

  /** The header of a call that the journal accepts, whatever the evidence says. */
  predicate Addressed(j: Journal, call: Call) {
    && j.planDigest == call.planDigest && 0 <= call.index < |j.operations|
    && call.evidence.operationId.bytes == j.operations[call.index].plan.operationId.bytes
  }

  /** Observing is advancing: the outcome depends on the journal only through the addressed operation. */
  lemma AdvanceIsObserved(j: Journal, call: Call, next: Journal)
    requires Balanced(j) && Addressed(j, call) && Advance(j, call, next)
    ensures Observe(j, call) == Ok(next)
  {
    AdvanceContinues(j, call, next);
    KnownSlots(call.evidence.state, j.operations[call.index].state);
  }

  /** Observations of distinct operations commute: either order succeeds with one and the same journal. */
  lemma ObservationsCommute(j: Journal, a: Call, b: Call)
    requires Balanced(j) && a.index != b.index && Ordinary(a) && Ordinary(b)
    requires Observe(j, a).Ok? && Observe(j, b).Ok?
    ensures Observe(Observe(j, a).value, b).Ok?
    ensures Observe(Observe(j, a).value, b) == Observe(Observe(j, b).value, a)
  {
    ObserveAdvances(j, a);
    ObserveAdvances(j, b);
    var ja, jb := Observe(j, a).value, Observe(j, b).value;
    assert Addressed(j, a) && Addressed(j, b);
    var both := AdvanceBoth(j, a, ja, b, jb);
    AdvanceContinues(j, a, ja);
    AdvanceContinues(j, b, jb);
    AdvanceIsObserved(ja, b, both);
    AdvanceIsObserved(jb, a, both);
  }

  lemma AdvanceBoth(j: Journal, a: Call, ja: Journal, b: Call, jb: Journal) returns (both: Journal)
    requires Advance(j, a, ja) && Advance(j, b, jb) && a.index != b.index
    requires Addressed(j, a) && Addressed(j, b)
    ensures Advance(ja, b, both) && Advance(jb, a, both)
    ensures Addressed(ja, b) && Addressed(jb, a)
  {
    var pa, pb := Patched(j.operations[a.index], a.evidence), Patched(j.operations[b.index], b.evidence);
    both := if jb == j then ja else Replaced(ja, b.index, pb);
    assert ja.operations[b.index] == j.operations[b.index];
    assert jb.operations[a.index] == j.operations[a.index];
    if ja != j && jb != j {
      assert j.operations[a.index := pa][b.index := pb] == j.operations[b.index := pb][a.index := pa];
      assert both == Replaced(jb, a.index, pa);
    }
  }

  // ---- Reserving the journal -------------------------------------------------------------------

  /** Reserving: create the file, or accept an existing journal only if it carries the same plan. */
  ghost function Reserve(stored: Option<Journal>, expected: Journal): Result<Journal> {
    if !ValidJournal(expected) then Err("malformed governance operation journal")
    else match stored
      case None => Ok(expected)
      case Some(current) =>
        if !ValidJournal(current) then Err("malformed governance operation journal")
        else if current.planDigest != expected.planDigest || ImmutableView(current) != ImmutableView(expected)
        then Err("existing governance journal conflicts with operation plan")
        else Ok(current)
  }

  /** A journal is created exactly when there is none, and then it is the valid journal that was asked for. */
  lemma ReserveCreates(expected: Journal)
    ensures Reserve(None, expected).Ok? <==> ValidJournal(expected)
    ensures ValidJournal(expected) ==> Reserve(None, expected) == Ok(expected)
  {
  }

  /** A restart resumes the journal it left, with all evidence, and no other plan can take it over. */
  lemma ReserveResumes(initial: Journal, calls: seq<Call>, other: Journal)
    requires Fresh(initial) && AllOrdinary(calls) && ValidJournal(other)
    ensures Reserve(Some(AfterAll(initial, calls)), other).Ok? <==> ImmutableView(other) == ImmutableView(initial)
    ensures Reserve(Some(AfterAll(initial, calls)), other).Ok? ==>
              Reserve(Some(AfterAll(initial, calls)), other).value == AfterAll(initial, calls)
  {
    FreshCounts(initial.operations);
    RunContinues(initial, calls);
  }
}
