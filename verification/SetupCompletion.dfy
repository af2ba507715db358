/**
 Completing a governance setup: the checks a snapshot must contain, the evidence each operation
 must have, and the manifest that results. Role acceptance signatures and the configuration hash
 are not part of this model.
 */
module SetupCompletion {
  import opened Basics
  import opened OperationEvidence

  datatype Problem = Problem(problemId: string, registerTxHash: Option<string>, registerBlock: Option<int>, frozen: bool)

  datatype Transaction = Transaction(operation: Operation, status: string, evidence: Option<Evidence>)

  datatype Manifest = Manifest(
    multiBoard: bool, production: bool, status: string, contractKeys: seq<string>, problems: seq<Problem>,
    setup: seq<Transaction>, completedAt: Option<string>, completionBlock: Option<int>, checks: seq<Check>)

  datatype BlockPoint = BlockPoint(number: int, hash: string)

  datatype BlockEvidence = BlockEvidence(
    blockNumber: int, blockHash: string, primaryHash: string, secondaryHash: string,
    primaryOperator: string, secondaryOperator: string, timestamp: int)

  datatype Snapshot = Snapshot(
    checks: seq<Check>, operations: seq<Evidence>, checkedBlock: int, checkedAt: string,
    anchor: Option<BlockPoint>, blockEvidence: Option<BlockEvidence>)

  const COMPLETE_STATUS: string := "governance-setup-complete"
  const CHILD_KEYS: seq<string> := ["pool", "ledger", "submissions", "challenges", "registry"]
  const ALL_KEYS: seq<string> := ["timelock", "rolloverVault"] + CHILD_KEYS
  const BOARD_KEYS: seq<string> := ["pool", "ledger", "submissions", "challenges"]
  const PAUSE_KEYS: seq<string> := ["ledger", "submissions", "challenges"]

  // ---- Required checks -----------------------------------------------------------------------------

  function Prefixed(prefix: string, names: seq<string>): seq<string> {
    seq(|names|, i requires 0 <= i < |names| => prefix + names[i])
  }

  function BoardChecks(problemId: string): seq<string> {
    var p := "board/" + problemId;
    Prefixed("runtime." + p + ".", BOARD_KEYS)
    + Prefixed("owner." + p + ".", BOARD_KEYS)
    + Prefixed("objective." + p, [".registry", ".problemId", ".packageHash", ".programId", ".quorumProgramId"])
    + Prefixed("config." + p, [".pool", ".ledger", ".submissions", ".challenges"])
    + Prefixed("wiring." + p, [".poolLedger", ".ledgerCreditRecorder", ".ledgerRolloverDestination",
                               ".poolSubmissionManager", ".submissionChallengeManager", ".poolRegistry"])
    + Prefixed("problem." + p, [".registeredPinsAndConfig", ".frozen"])
    + Prefixed("pauseTarget." + p + ".", PAUSE_KEYS)
    + Prefixed("funding." + p, [".fundingArmedFalse", ".acceptingFundsFalse"])
  }

  function AllBoardChecks(problems: seq<Problem>): seq<string> {
    if problems == [] then [] else BoardChecks(problems[0].problemId) + AllBoardChecks(problems[1..])
  }

  function OperationChecks(setup: seq<Transaction>): seq<string> {
    seq(|setup|, i requires 0 <= i < |setup| => "operation." + setup[i].operation.operationId)
  }

  const GOVERNANCE: seq<string> := ["governance.signers", "governance.threshold", "governance.delay",
    "governance.overrideDelay", "governance.operationGracePeriod", "governance.guardian"]

  const SHARED: seq<string> :=
    ["owner.registry", "objectiveVerifier.quorum", "objectiveVerifier.codehash.quorum", "objectiveVerifier.codehash.runtime"]
    + GOVERNANCE + ["registry.problemCount"]

  function RequiredChecks(m: Manifest): seq<string> {
    if m.multiBoard then
      Prefixed("runtime.", m.contractKeys) + SHARED + AllBoardChecks(m.problems) + OperationChecks(m.setup)
    else
      Prefixed("runtime.", ALL_KEYS) + Prefixed("owner.", CHILD_KEYS) + GOVERNANCE
      + ["config.pool", "config.ledger", "config.submissions", "config.challenges",
         "wiring.poolLedger", "wiring.ledgerCreditRecorder", "wiring.ledgerRolloverDestination",
         "wiring.poolSubmissionManager", "wiring.submissionChallengeManager", "wiring.poolRegistry",
         "problem.registeredPinsAndConfig", "problem.frozen"]
      + Prefixed("pauseTarget.", PAUSE_KEYS) + ["funding.fundingArmedFalse", "funding.acceptingFundsFalse"]
      + OperationChecks(m.setup)
  }

  /** The name is the prefix and one of the words. */
  ghost predicate Named(name: string, prefix: string, words: set<string>) {
    exists x :: x in words && name == prefix + x
  }

  /** The names every governance setup is checked for. */
  predicate GovernanceName(name: string) {
    name in {"governance.signers", "governance.threshold", "governance.delay", "governance.overrideDelay",
             "governance.operationGracePeriod", "governance.guardian"}
  }

  ghost predicate OperationName(m: Manifest, name: string) {
    exists i :: 0 <= i < |m.setup| && name == "operation." + m.setup[i].operation.operationId
  }

  /** The names required of a manifest with a single board. */
  ghost predicate SingleName(m: Manifest, name: string) {
    || Named(name, "runtime.", {"timelock", "rolloverVault", "pool", "ledger", "submissions", "challenges", "registry"})
    || Named(name, "owner.", {"pool", "ledger", "submissions", "challenges", "registry"})
    || GovernanceName(name)
    || name in {"config.pool", "config.ledger", "config.submissions", "config.challenges"}
    || name in {"wiring.poolLedger", "wiring.ledgerCreditRecorder", "wiring.ledgerRolloverDestination",
                "wiring.poolSubmissionManager", "wiring.submissionChallengeManager", "wiring.poolRegistry"}
    || name in {"problem.registeredPinsAndConfig", "problem.frozen"}
    || Named(name, "pauseTarget.", {"ledger", "submissions", "challenges"})
    || name in {"funding.fundingArmedFalse", "funding.acceptingFundsFalse"}
    || OperationName(m, name)
  }

  /** The names required of one board of several. */
  ghost predicate BoardName(problemId: string, name: string) {
    var p := "board/" + problemId;
    || Named(name, "runtime." + p + ".", {"pool", "ledger", "submissions", "challenges"})
    || Named(name, "owner." + p + ".", {"pool", "ledger", "submissions", "challenges"})
    || Named(name, "objective." + p, {".registry", ".problemId", ".packageHash", ".programId", ".quorumProgramId"})
    || Named(name, "config." + p, {".pool", ".ledger", ".submissions", ".challenges"})
    || Named(name, "wiring." + p, {".poolLedger", ".ledgerCreditRecorder", ".ledgerRolloverDestination",
                                   ".poolSubmissionManager", ".submissionChallengeManager", ".poolRegistry"})
    || Named(name, "problem." + p, {".registeredPinsAndConfig", ".frozen"})
    || Named(name, "pauseTarget." + p + ".", {"ledger", "submissions", "challenges"})
    || Named(name, "funding." + p, {".fundingArmedFalse", ".acceptingFundsFalse"})
  }

  /** The names required of a manifest with several boards. */
  ghost predicate MultiName(m: Manifest, name: string) {
    || (exists i :: 0 <= i < |m.contractKeys| && name == "runtime." + m.contractKeys[i])
    || name in {"owner.registry", "objectiveVerifier.quorum", "objectiveVerifier.codehash.quorum",
                "objectiveVerifier.codehash.runtime", "registry.problemCount"}
    || GovernanceName(name)
    || (exists i :: 0 <= i < |m.problems| && BoardName(m.problems[i].problemId, name))
    || OperationName(m, name)
  }

  lemma PrefixedMember(prefix: string, names: seq<string>, words: set<string>, name: string)
    requires forall x :: x in names <==> x in words
    ensures name in Prefixed(prefix, names) <==> Named(name, prefix, words)
  {
    if Named(name, prefix, words) {
      var x :| x in words && name == prefix + x;
      var i :| 0 <= i < |names| && names[i] == x;
      assert Prefixed(prefix, names)[i] == name;
    }
  }

  lemma OperationMember(m: Manifest, name: string)
    ensures name in OperationChecks(m.setup) <==> OperationName(m, name)
  {
    if OperationName(m, name) {
      var i :| 0 <= i < |m.setup| && name == "operation." + m.setup[i].operation.operationId;
      assert OperationChecks(m.setup)[i] == name;
    }
  }

  lemma BoardMember(problemId: string, name: string)
    ensures name in BoardChecks(problemId) <==> BoardName(problemId, name)
  {
    var p := "board/" + problemId;
    PrefixedMember("runtime." + p + ".", BOARD_KEYS, {"pool", "ledger", "submissions", "challenges"}, name);
    PrefixedMember("owner." + p + ".", BOARD_KEYS, {"pool", "ledger", "submissions", "challenges"}, name);
    PrefixedMember("objective." + p, [".registry", ".problemId", ".packageHash", ".programId", ".quorumProgramId"],
                   {".registry", ".problemId", ".packageHash", ".programId", ".quorumProgramId"}, name);
    PrefixedMember("config." + p, [".pool", ".ledger", ".submissions", ".challenges"],
                   {".pool", ".ledger", ".submissions", ".challenges"}, name);
    PrefixedMember("wiring." + p, [".poolLedger", ".ledgerCreditRecorder", ".ledgerRolloverDestination",
                                   ".poolSubmissionManager", ".submissionChallengeManager", ".poolRegistry"],
                   {".poolLedger", ".ledgerCreditRecorder", ".ledgerRolloverDestination",
                    ".poolSubmissionManager", ".submissionChallengeManager", ".poolRegistry"}, name);
    PrefixedMember("problem." + p, [".registeredPinsAndConfig", ".frozen"], {".registeredPinsAndConfig", ".frozen"}, name);
    PrefixedMember("pauseTarget." + p + ".", PAUSE_KEYS, {"ledger", "submissions", "challenges"}, name);
    PrefixedMember("funding." + p, [".fundingArmedFalse", ".acceptingFundsFalse"],
                   {".fundingArmedFalse", ".acceptingFundsFalse"}, name);
  }

  lemma {:induction false} BoardsMember(problems: seq<Problem>, name: string)
    ensures name in AllBoardChecks(problems) <==> exists i :: 0 <= i < |problems| && BoardName(problems[i].problemId, name)
  {
    if problems != [] {
      BoardMember(problems[0].problemId, name);
      BoardsMember(problems[1..], name);
      assert forall i :: 1 <= i < |problems| ==> problems[i] == problems[1..][i - 1];
    }
  }

  /** Exactly which names are required. */
  lemma RequiredExactly(m: Manifest, name: string)
    ensures name in RequiredChecks(m) <==> if m.multiBoard then MultiName(m, name) else SingleName(m, name)
  {
    OperationMember(m, name);
    if m.multiBoard { MultiMember(m, name); } else { SingleMember(m, name); }
  }

  lemma InAny(a: seq<string>, b: seq<string>, c: seq<string>, d: seq<string>, name: string)
    ensures name in a + b + c + d <==> name in a || name in b || name in c || name in d
  {
  }

  lemma SharedMember(name: string)
    ensures name in GOVERNANCE <==> GovernanceName(name)
    ensures name in SHARED <==>
              GovernanceName(name)
              || name in {"owner.registry", "objectiveVerifier.quorum", "objectiveVerifier.codehash.quorum",
                          "objectiveVerifier.codehash.runtime", "registry.problemCount"}
  {
    InAny(["owner.registry", "objectiveVerifier.quorum", "objectiveVerifier.codehash.quorum",
           "objectiveVerifier.codehash.runtime"], GOVERNANCE, ["registry.problemCount"], [], name);
  }

  lemma RuntimeMember(keys: seq<string>, name: string)
    ensures name in Prefixed("runtime.", keys) <==> exists i :: 0 <= i < |keys| && name == "runtime." + keys[i]
  {
    if i :| 0 <= i < |keys| && name == "runtime." + keys[i] { assert Prefixed("runtime.", keys)[i] == name; }
  }

  lemma MultiMember(m: Manifest, name: string)
    requires m.multiBoard && (name in OperationChecks(m.setup) <==> OperationName(m, name))
    ensures name in RequiredChecks(m) <==> MultiName(m, name)
  {
    BoardsMember(m.problems, name);
    SharedMember(name);
    RuntimeMember(m.contractKeys, name);
    InAny(Prefixed("runtime.", m.contractKeys), SHARED, AllBoardChecks(m.problems), OperationChecks(m.setup), name);
  }

  lemma BoardWordMember(name: string)
    ensures name in ["config.pool", "config.ledger", "config.submissions", "config.challenges",
                     "wiring.poolLedger", "wiring.ledgerCreditRecorder", "wiring.ledgerRolloverDestination",
                     "wiring.poolSubmissionManager", "wiring.submissionChallengeManager", "wiring.poolRegistry",
                     "problem.registeredPinsAndConfig", "problem.frozen"]
         <==> || name in {"config.pool", "config.ledger", "config.submissions", "config.challenges"}
              || name in {"wiring.poolLedger", "wiring.ledgerCreditRecorder", "wiring.ledgerRolloverDestination",
                          "wiring.poolSubmissionManager", "wiring.submissionChallengeManager", "wiring.poolRegistry"}
              || name in {"problem.registeredPinsAndConfig", "problem.frozen"}
  {
  }

  lemma SingleMember(m: Manifest, name: string)
    requires !m.multiBoard && (name in OperationChecks(m.setup) <==> OperationName(m, name))
    ensures name in RequiredChecks(m) <==> SingleName(m, name)
  {
    PrefixedMember("runtime.", ALL_KEYS,
                   {"timelock", "rolloverVault", "pool", "ledger", "submissions", "challenges", "registry"}, name);
    PrefixedMember("owner.", CHILD_KEYS, {"pool", "ledger", "submissions", "challenges", "registry"}, name);
    PrefixedMember("pauseTarget.", PAUSE_KEYS, {"ledger", "submissions", "challenges"}, name);
    SharedMember(name);
    BoardWordMember(name);
    var words := ["config.pool", "config.ledger", "config.submissions", "config.challenges",
                  "wiring.poolLedger", "wiring.ledgerCreditRecorder", "wiring.ledgerRolloverDestination",
                  "wiring.poolSubmissionManager", "wiring.submissionChallengeManager", "wiring.poolRegistry",
                  "problem.registeredPinsAndConfig", "problem.frozen"];
    var funding := ["funding.fundingArmedFalse", "funding.acceptingFundsFalse"];
    var first := Prefixed("runtime.", ALL_KEYS) + Prefixed("owner.", CHILD_KEYS) + GOVERNANCE + words;
    InAny(Prefixed("runtime.", ALL_KEYS), Prefixed("owner.", CHILD_KEYS), GOVERNANCE, words, name);
    InAny(first, Prefixed("pauseTarget.", PAUSE_KEYS), funding, OperationChecks(m.setup), name);
  }

  // ---- Assessment -------------------------------------------------------------------------------------

  /** The entry a `Map` built from the list holds: the last of that name. */
  function LastCheck(checks: seq<Check>, name: string): Option<Check> {
    if checks == [] then None
    else if checks[|checks| - 1].name == name then Some(checks[|checks| - 1])
    else LastCheck(checks[..|checks| - 1], name)
  }

  function LastEvidence(operations: seq<Evidence>, id: string): Option<Evidence> {
    if operations == [] then None
    else if Lower(operations[|operations| - 1].operationId) == Lower(id) then Some(operations[|operations| - 1])
    else LastEvidence(operations[..|operations| - 1], id)
  }

  predicate HexDigit(c: char) { '0' <= c <= '9' || 'a' <= c <= 'f' || 'A' <= c <= 'F' }

  /** `0x` and 64 hexadecimal digits. */
  predicate IsHash(s: string) {
    |s| == 66 && s[0] == '0' && s[1] == 'x' && forall i :: 2 <= i < |s| ==> HexDigit(s[i])
  }

  /** The ids whose execution counts for an operation; empty ones are dropped. */
  function AllowedIds(op: Operation): seq<string> {
    (if op.operationId != "" then [Lower(op.operationId)] else [])
    + (if op.fallback.Some? && op.fallback.value != "" then [Lower(op.fallback.value)] else [])
  }

  predicate SoundEvidence(op: Operation, e: Evidence) {
    && e.state == "executed"
    && Lower(if e.executedOperationId.Some? then e.executedOperationId.value else "null") in AllowedIds(op)
    && e.txHash.Some? && IsHash(e.txHash.value)
    && e.blockNumber.Some? && 0 <= e.blockNumber.value <= MAX_SAFE_INTEGER
  }

  /** The entry of this name after which no other has it. */
  predicate LastNamed(checks: seq<Check>, name: string, i: nat) {
    i < |checks| && checks[i].name == name && forall j :: i < j < |checks| ==> checks[j].name != name
  }

  /** The last entry of a name decides. */
  lemma {:induction false} LastCheckExactly(checks: seq<Check>, name: string)
    ensures LastCheck(checks, name).None? <==> forall i :: 0 <= i < |checks| ==> checks[i].name != name
    ensures LastCheck(checks, name).Some? ==>
              exists i: nat :: LastNamed(checks, name, i) && checks[i] == LastCheck(checks, name).value
  {
    if checks != [] {
      var last := |checks| - 1;
      if checks[last].name == name {
        assert LastNamed(checks, name, last);
      } else {
        LastCheckExactly(checks[..last], name);
        if LastCheck(checks, name).Some? {
          var i: nat :| LastNamed(checks[..last], name, i) && checks[..last][i] == LastCheck(checks, name).value;
          assert LastNamed(checks, name, i);
        }
      }
    }
  }

  /** The evidence of this id after which no other has it. */
  predicate LastOfId(operations: seq<Evidence>, id: string, i: nat) {
    && i < |operations| && SameId(operations[i].operationId, id)
    && forall j :: i < j < |operations| ==> !SameId(operations[j].operationId, id)
  }

  /** The last evidence of an operation decides, whatever the case of the letters in its id. */
  lemma {:induction false} LastEvidenceExactly(operations: seq<Evidence>, id: string)
    ensures LastEvidence(operations, id).None? <==>
              forall i :: 0 <= i < |operations| ==> !SameId(operations[i].operationId, id)
    ensures LastEvidence(operations, id).Some? ==>
              exists i: nat :: LastOfId(operations, id, i) && operations[i] == LastEvidence(operations, id).value
  {
    if operations != [] {
      var last := |operations| - 1;
      LowerExactly(operations[last].operationId, id);
      if SameId(operations[last].operationId, id) {
        assert LastOfId(operations, id, last);
      } else {
        LastEvidenceExactly(operations[..last], id);
        EvidenceBefore(operations, id);
      }
    }
  }

  lemma EvidenceBefore(operations: seq<Evidence>, id: string)
    requires operations != [] && !SameId(operations[|operations| - 1].operationId, id)
    ensures forall i: nat :: LastOfId(operations[..|operations| - 1], id, i) ==> LastOfId(operations, id, i)
  {
  }

  /** The id is the operation's own or its fallback's; an empty one never counts. */
  predicate OwnId(op: Operation, id: string) {
    || (op.operationId != "" && SameId(id, op.operationId))
    || (op.fallback.Some? && op.fallback.value != "" && SameId(id, op.fallback.value))
  }

  /** What evidence of execution must say. */
  lemma SoundExactly(op: Operation, e: Evidence)
    ensures SoundEvidence(op, e) <==>
              && e.state == "executed"
              && OwnId(op, if e.executedOperationId.Some? then e.executedOperationId.value else "null")
              && e.txHash.Some? && |e.txHash.value| == 66 && e.txHash.value[..2] == "0x"
              && (forall i :: 2 <= i < 66 ==>
                    var c := e.txHash.value[i]; '0' <= c <= '9' || 'a' <= c <= 'f' || 'A' <= c <= 'F')
              && e.blockNumber.Some? && 0 <= e.blockNumber.value <= 9_007_199_254_740_991
  {
    var id := if e.executedOperationId.Some? then e.executedOperationId.value else "null";
    LowerExactly(id, op.operationId);
    if op.fallback.Some? { LowerExactly(id, op.fallback.value); }
  }

  datatype Assessment = Assessment(complete: bool, checks: seq<Check>)

  function NamedCheck(s: Snapshot, name: string): Check {
    var c := LastCheck(s.checks, name); if c.Some? then c.value else Check(name, false)
  }

  function EvidenceCheck(s: Snapshot, op: Operation): Check {
    var e := LastEvidence(s.operations, op.operationId);
    Check("evidence." + op.operationId, e.Some? && SoundEvidence(op, e.value))
  }

  function NamedChecks(s: Snapshot, names: seq<string>): seq<Check> {
    seq(|names|, k requires 0 <= k < |names| => NamedCheck(s, names[k]))
  }

  function EvidenceChecks(s: Snapshot, setup: seq<Transaction>): seq<Check> {
    seq(|setup|, k requires 0 <= k < |setup| => EvidenceCheck(s, setup[k].operation))
  }

  function AssessedChecks(m: Manifest, s: Snapshot): seq<Check> {
    NamedChecks(s, RequiredChecks(m)) + EvidenceChecks(s, m.setup)
  }

  method AddNamedChecks(s: Snapshot, names: seq<string>) returns (checks: seq<Check>)
    ensures checks == NamedChecks(s, names)
  {
    checks := [];
    for i := 0 to |names|
      invariant checks == NamedChecks(s, names[..i])
    {
      checks := checks + [NamedCheck(s, names[i])];
    }
    assert names[..|names|] == names;
  }

  method AddEvidenceChecks(s: Snapshot, setup: seq<Transaction>, before: seq<Check>) returns (checks: seq<Check>)
    ensures checks == before + EvidenceChecks(s, setup)
  {
    checks := before;
    for i := 0 to |setup|
      invariant checks == before + EvidenceChecks(s, setup[..i])
    {
      checks := checks + [EvidenceCheck(s, setup[i].operation)];
    }
    assert setup[..|setup|] == setup;
  }

  method Every(checks: seq<Check>) returns (all: bool)
    ensures all <==> forall c :: c in checks ==> c.ok
  {
    all := true;
    for i := 0 to |checks|
      invariant all <==> forall c :: c in checks[..i] ==> c.ok
    {
      assert checks[..i + 1] == checks[..i] + [checks[i]];
      all := all && checks[i].ok;
    }
    assert checks[..|checks|] == checks;
  }

  /** One check per required name, then one per operation. */
  method AssessSetupCompletion(m: Manifest, s: Snapshot) returns (a: Assessment)
    ensures a.checks == AssessedChecks(m, s)
    ensures a.complete <==> Complete(m, s)
    ensures a.complete <==> forall c :: c in a.checks ==> c.ok
  {
    var checks := AddNamedChecks(s, RequiredChecks(m));
    checks := AddEvidenceChecks(s, m.setup, checks);
    var complete := Every(checks);
    CompleteExactly(m, s);
    a := Assessment(complete, checks);
  }

  predicate CheckPassed(s: Snapshot, name: string) {
    LastCheck(s.checks, name).Some? && LastCheck(s.checks, name).value.ok
  }

  predicate OperationProven(s: Snapshot, op: Operation) {
    var e := LastEvidence(s.operations, op.operationId);
    e.Some? && SoundEvidence(op, e.value)
  }

  ghost predicate AllPassed(s: Snapshot, names: seq<string>) {
    forall name :: name in names ==> CheckPassed(s, name)
  }

  ghost predicate AllProven(s: Snapshot, setup: seq<Transaction>) {
    forall i :: 0 <= i < |setup| ==> OperationProven(s, setup[i].operation)
  }

  ghost predicate Complete(m: Manifest, s: Snapshot) {
    AllPassed(s, RequiredChecks(m)) && AllProven(s, m.setup)
  }

  ghost predicate AllOk(checks: seq<Check>) { forall c :: c in checks ==> c.ok }

  lemma NamedExactly(s: Snapshot, names: seq<string>)
    ensures AllOk(NamedChecks(s, names)) <==> AllPassed(s, names)
  {
    var checks := NamedChecks(s, names);
    assert forall i :: 0 <= i < |names| ==> checks[i] == NamedCheck(s, names[i]) && checks[i] in checks;
    assert forall i :: 0 <= i < |names| ==> (checks[i].ok <==> CheckPassed(s, names[i]));
  }

  lemma ProvenExactly(s: Snapshot, setup: seq<Transaction>)
    ensures AllOk(EvidenceChecks(s, setup)) <==> AllProven(s, setup)
  {
    var checks := EvidenceChecks(s, setup);
    assert forall i :: 0 <= i < |setup| ==> checks[i] == EvidenceCheck(s, setup[i].operation) && checks[i] in checks;
    assert forall i :: 0 <= i < |setup| ==> (checks[i].ok <==> OperationProven(s, setup[i].operation));
  }

  /** Complete means: every required name is there, true in its last entry, and every operation is proven. */
  lemma CompleteExactly(m: Manifest, s: Snapshot)
    ensures (forall c :: c in AssessedChecks(m, s) ==> c.ok) <==> Complete(m, s)
  {
    NamedExactly(s, RequiredChecks(m));
    ProvenExactly(s, m.setup);
    assert AllOk(AssessedChecks(m, s)) <==> AllOk(NamedChecks(s, RequiredChecks(m))) && AllOk(EvidenceChecks(s, m.setup));
  }

  /** One check per required name in order, then one per operation, each named and judged. */
  lemma AssessedExactly(m: Manifest, s: Snapshot)
    ensures var names, checks := RequiredChecks(m), AssessedChecks(m, s);
            && |checks| == |names| + |m.setup|
            && (forall k :: 0 <= k < |names| ==> checks[k] == Check(names[k], CheckPassed(s, names[k])))
            && (forall k :: 0 <= k < |m.setup| ==>
                  checks[|names| + k] == Check("evidence." + m.setup[k].operation.operationId,
                                               OperationProven(s, m.setup[k].operation)))
  {
    var names := RequiredChecks(m);
    forall k | 0 <= k < |names| ensures NamedCheck(s, names[k]) == Check(names[k], CheckPassed(s, names[k])) {
      LastCheckExactly(s.checks, names[k]);
    }
  }

  // ---- Completion ---------------------------------------------------------------------------------------

  /** What completion gets beside the snapshot. */
  datatype Inputs = Inputs(packetDigest: bool, rolesAccepted: bool, isoTime: int -> string)

  predicate CanonicalBlock(s: Snapshot, iso: int -> string) {
    && s.blockEvidence.Some? && s.anchor.Some?
    && var b := s.blockEvidence.value;
       && b.blockNumber == s.checkedBlock == s.anchor.value.number
       && Lower(b.blockHash) == Lower(s.anchor.value.hash)
       && b.primaryHash == b.secondaryHash == b.blockHash && b.primaryOperator != b.secondaryOperator
       && 0 <= b.timestamp <= MAX_SAFE_INTEGER && s.checkedAt == iso(b.timestamp)
  }

  function Registration(setup: seq<Transaction>, tag: string): Option<Transaction> {
    if setup == [] then None
    else if setup[0].operation.tag == tag then Some(setup[0])
    else Registration(setup[1..], tag)
  }

  /** The first transaction of a tag is the registration. */
  lemma {:induction false} RegistrationExactly(setup: seq<Transaction>, tag: string)
    ensures Registration(setup, tag).None? <==> forall i :: 0 <= i < |setup| ==> setup[i].operation.tag != tag
    ensures Registration(setup, tag).Some? ==>
              exists i :: 0 <= i < |setup| && setup[i] == Registration(setup, tag).value && setup[i].operation.tag == tag
                && forall j :: 0 <= j < i ==> setup[j].operation.tag != tag
    decreases |setup|, 1
  {
    if setup != [] {
      var rest := setup[1..];
      assert forall i :: 0 <= i < |rest| ==> rest[i] == setup[i + 1];
      assert forall i :: 1 <= i < |setup| ==> setup[i] == rest[i - 1];
      if setup[0].operation.tag != tag { FirstOfRest(setup, tag); }
    }
  }

  lemma {:induction false} FirstOfRest(setup: seq<Transaction>, tag: string)
    requires setup != [] && setup[0].operation.tag != tag
    ensures Registration(setup, tag).None? <==> forall i :: 0 <= i < |setup| ==> setup[i].operation.tag != tag
    ensures Registration(setup, tag).Some? ==>
              exists i :: 0 <= i < |setup| && setup[i] == Registration(setup, tag).value && setup[i].operation.tag == tag
                && forall j :: 0 <= j < i ==> setup[j].operation.tag != tag
    decreases |setup|, 0
  {
    var rest := setup[1..];
    assert forall i :: 0 <= i < |rest| ==> rest[i] == setup[i + 1];
    assert forall i :: 1 <= i < |setup| ==> setup[i] == rest[i - 1];
    RegistrationExactly(rest, tag);
    if Registration(rest, tag).Some? {
      var i :| 0 <= i < |rest| && rest[i] == Registration(rest, tag).value && rest[i].operation.tag == tag
        && forall j :: 0 <= j < i ==> rest[j].operation.tag != tag;
      assert setup[i + 1] == Registration(setup, tag).value;
      forall j | 0 <= j < i + 1 ensures setup[j].operation.tag != tag { if j > 0 { assert setup[j] == rest[j - 1]; } }
    }
  }

  function RegistrationTag(m: Manifest, p: Problem): string {
    if m.multiBoard then "board/" + p.problemId + ".registry.register" else "registry.register"
  }

  function Registered(p: Problem, t: Transaction): Problem
    requires t.evidence.Some?
  {
    p.(registerTxHash := t.evidence.value.txHash, registerBlock := t.evidence.value.blockNumber, frozen := true)
  }

  /** The transaction as completion rewrites it. */
  function ExecutedTransaction(s: Snapshot, t: Transaction): Transaction {
    t.(status := "executed", evidence := LastEvidence(s.operations, t.operation.operationId))
  }

  /** The manifest has a registration operation for the problem. */
  predicate HasRegistration(m: Manifest, p: Problem) {
    Registration(m.setup, if m.multiBoard then "board/" + p.problemId + ".registry.register" else "registry.register").Some?
  }

  predicate AllRegistered(m: Manifest) {
    if m.multiBoard then forall i :: 0 <= i < |m.problems| ==> HasRegistration(m, m.problems[i])
    else m.problems != [] && HasRegistration(m, m.problems[0])
  }

  /** The problem carries the evidence of its registration and is frozen. */
  predicate RegisteredAs(m: Manifest, setup: seq<Transaction>, before: Problem, after: Problem) {
    var tag := if m.multiBoard then "board/" + before.problemId + ".registry.register" else "registry.register";
    var t := Registration(setup, tag);
    && t.Some? && t.value.evidence.Some? && after.problemId == before.problemId && after.frozen
    && after.registerTxHash == t.value.evidence.value.txHash && after.registerBlock == t.value.evidence.value.blockNumber
  }

  /** Multi-board manifests register every problem, the others only the first. */
  predicate RegisteredProblems(m: Manifest, setup: seq<Transaction>, problems: seq<Problem>) {
    && |problems| == |m.problems|
    && forall i :: 0 <= i < |problems| ==>
         if m.multiBoard || i == 0 then RegisteredAs(m, setup, m.problems[i], problems[i])
         else problems[i] == m.problems[i]
  }

  lemma {:induction false} RegistrationKept(s: Snapshot, setup: seq<Transaction>, done: seq<Transaction>, tag: string)
    requires |done| == |setup| && forall i :: 0 <= i < |setup| ==> done[i] == ExecutedTransaction(s, setup[i])
    ensures Registration(done, tag).Some? <==> Registration(setup, tag).Some?
    ensures Registration(done, tag).Some? ==> Registration(done, tag).value in done
  {
    if setup != [] && setup[0].operation.tag != tag { RegistrationKept(s, setup[1..], done[1..], tag); }
  }

  predicate ProductionReady(m: Manifest, s: Snapshot, inputs: Inputs) {
    && (m.multiBoard && m.production ==>
          CanonicalBlock(s, inputs.isoTime) && inputs.packetDigest && inputs.rolesAccepted)
    && (m.production ==> s.anchor.Some? && s.anchor.value.number == s.checkedBlock)
  }

  /** Every operation rewritten with sound evidence of its execution. */
  ghost predicate Executes(m: Manifest, s: Snapshot, setup: seq<Transaction>) {
    && |setup| == |m.setup|
    && forall i :: 0 <= i < |setup| ==>
         && setup[i].operation == m.setup[i].operation && setup[i].status == "executed"
         && setup[i].evidence == LastEvidence(s.operations, m.setup[i].operation.operationId)
         && setup[i].evidence.Some? && SoundEvidence(m.setup[i].operation, setup[i].evidence.value)
  }

  /** What a completed manifest is. */
  ghost predicate CompletedFrom(m: Manifest, s: Snapshot, done: Manifest) {
    && done.status == "governance-setup-complete" && done.completionBlock == Some(s.checkedBlock) && done.completedAt == Some(s.checkedAt)
    && done.checks == AssessedChecks(m, s) && AllOk(done.checks)
    && Executes(m, s, done.setup) && RegisteredProblems(m, done.setup, done.problems)
  }

  method CompleteSetupManifest(m: Manifest, s: Snapshot, inputs: Inputs) returns (r: Result<Manifest>)
    ensures r.Ok? <==> Complete(m, s) && ProductionReady(m, s, inputs) && AllRegistered(m)
    ensures r.Ok? ==> CompletedFrom(m, s, r.value)
  {
    var checks := PassedChecks(m, s);
    if checks.None? { return Err("governance setup is incomplete; refusing completion"); }
    var refusal := RefuseProduction(m, s, inputs);
    if refusal.Some? { return Err(refusal.value); }
    var setup := ExecuteSetup(m, s);
    var problems := Register(m, s, setup);
    if problems.Err? { return Err(problems.reason); }
    return Ok(m.(status := COMPLETE_STATUS, completedAt := Some(s.checkedAt), completionBlock := Some(s.checkedBlock),
                 checks := checks.value, setup := setup, problems := problems.value));
  }

  /** The assessed checks, if the setup is complete. */
  method PassedChecks(m: Manifest, s: Snapshot) returns (r: Option<seq<Check>>)
    ensures r.Some? <==> Complete(m, s)
    ensures r.Some? ==> r.value == AssessedChecks(m, s) && AllOk(r.value) && AllProven(s, m.setup)
  {
    var assessment := AssessSetupCompletion(m, s);
    r := if assessment.complete then Some(assessment.checks) else None;
  }

  method RefuseProduction(m: Manifest, s: Snapshot, inputs: Inputs) returns (r: Option<string>)
    ensures r.None? <==> ProductionReady(m, s, inputs)
  {
    if m.multiBoard && m.production {
      if !CanonicalBlock(s, inputs.isoTime) { return Some("production completion requires a canonical finalized block"); }
      if !inputs.packetDigest { return Some("production governance completion requires a pinned role acceptance packet"); }
      if !inputs.rolesAccepted { return Some("deployment role acceptances are invalid"); }
    }
    if m.production && !(s.anchor.Some? && s.anchor.value.number == s.checkedBlock) {
      return Some("production completion requires a matching finalized anchor");
    }
    return None;
  }

  method ExecuteSetup(m: Manifest, s: Snapshot) returns (setup: seq<Transaction>)
    requires AllProven(s, m.setup)
    ensures Executes(m, s, setup)
  {
    setup := seq(|m.setup|, i requires 0 <= i < |m.setup| => ExecutedTransaction(s, m.setup[i]));
    assert forall i :: 0 <= i < |m.setup| ==> OperationProven(s, m.setup[i].operation);
  }

  /** A problem takes the evidence of its registration, found among the executed transactions. */
  method RegisterOne(m: Manifest, ghost s: Snapshot, setup: seq<Transaction>, p: Problem) returns (r: Option<Problem>)
    requires Executes(m, s, setup)
    ensures r.Some? <==> HasRegistration(m, p)
    ensures r.Some? ==> RegisteredAs(m, setup, p, r.value)
  {
    var tag := RegistrationTag(m, p);
    RegistrationKept(s, m.setup, setup, tag);
    var registration := Registration(setup, tag);
    if registration.None? { return None; }
    ghost var i :| 0 <= i < |setup| && setup[i] == registration.value;
    return Some(Registered(p, registration.value));
  }

  method Register(m: Manifest, ghost s: Snapshot, setup: seq<Transaction>) returns (r: Result<seq<Problem>>)
    requires Executes(m, s, setup)
    ensures r.Ok? <==> AllRegistered(m)
    ensures r.Ok? ==> RegisteredProblems(m, setup, r.value)
  {
    if m.multiBoard {
      r := RegisterAll(m, s, setup);
    } else {
      if m.problems == [] { return Err("the manifest has no problem"); }
      var first := RegisterOne(m, s, setup, m.problems[0]);
      if first.None? { return Err("the manifest has no registration operation"); }
      return Ok([first.value] + m.problems[1..]);
    }
  }

  method RegisterAll(m: Manifest, ghost s: Snapshot, setup: seq<Transaction>) returns (r: Result<seq<Problem>>)
    requires Executes(m, s, setup) && m.multiBoard
    ensures r.Ok? <==> AllRegistered(m)
    ensures r.Ok? ==> RegisteredProblems(m, setup, r.value)
  {
    var problems: seq<Problem> := [];
    for i := 0 to |m.problems|
      invariant RegisteredUpTo(m, setup, problems, i)
    {
      var problem := RegisterOne(m, s, setup, m.problems[i]);
      if problem.None? { return Err("multi-board manifest is missing a registration operation"); }
      OneMoreRegistered(m, setup, problems, i, problem.value);
      problems := problems + [problem.value];
    }
    return Ok(problems);
  }

  ghost predicate RegisteredUpTo(m: Manifest, setup: seq<Transaction>, problems: seq<Problem>, i: nat) {
    && |problems| == i <= |m.problems|
    && (forall k :: 0 <= k < i ==> HasRegistration(m, m.problems[k]))
    && (forall k :: 0 <= k < i ==> RegisteredAs(m, setup, m.problems[k], problems[k]))
  }

  lemma OneMoreRegistered(m: Manifest, setup: seq<Transaction>, problems: seq<Problem>, i: nat, p: Problem)
    requires i < |m.problems| && RegisteredUpTo(m, setup, problems, i)
    requires HasRegistration(m, m.problems[i]) && RegisteredAs(m, setup, m.problems[i], p)
    ensures RegisteredUpTo(m, setup, problems + [p], i + 1)
  {
    assert forall k :: 0 <= k < i ==> (problems + [p])[k] == problems[k];
  }

  // ---- With the collectors' snapshot ---------------------------------------------------------------------

  lemma {:induction false} LastEvidenceAt(operations: seq<Evidence>, id: string) returns (j: nat)
    requires LastEvidence(operations, id).Some?
    ensures j < |operations| && operations[j] == LastEvidence(operations, id).value
  {
    var last := |operations| - 1;
    if Lower(operations[last].operationId) == Lower(id) { j := last; } else { j := LastEvidenceAt(operations[..last], id); }
  }

  /** One of the operation's own ids was executed on chain, once. */
  ghost predicate ExecutedOnChain(op: Operation, events: seq<Event>, stateOf: string -> int) {
    exists id :: Lower(id) in AllowedIds(op) && ExecutedOnce(id, events, stateOf)
  }

  /**
   If the snapshot's operations are what a collector gathers for the manifest, completion proves of
   every operation that its primary or its fallback was executed on chain exactly once.
   */
  lemma CompleteMeansExecuted(
    m: Manifest, s: Snapshot, operations: seq<Operation>, events: seq<Event>, stateOf: string -> int,
    collected: seq<Collected>, i: nat)
    requires Complete(m, s) && i < |m.setup| && EvidenceOf(operations, events, stateOf, collected)
    requires |s.operations| == |collected| && forall k :: 0 <= k < |collected| ==> s.operations[k] == collected[k].operation
    ensures ExecutedOnChain(m.setup[i].operation, events, stateOf)
  {
    var op := m.setup[i].operation;
    assert OperationProven(s, op);
    var j := LastEvidenceAt(s.operations, op.operationId);
    ExecutedExactly(operations[j], events, stateOf);
    var id := s.operations[j].executedOperationId.value;
    assert Lower(id) in AllowedIds(op) && ExecutedOnce(id, events, stateOf);
  }

  // ---- The check no collector makes ---------------------------------------------------------------------

  /** The names of the checks the multi-board collector makes about one board. */
  function CollectedBoardChecks(problemId: string, contractKeys: seq<string>): seq<string> {
    var p := "board/" + problemId;
    Prefixed("objective." + p, [".registry", ".problemId", ".packageHash", ".guestElfSha256", ".programVKey",
                                ".guestElfSha256.quorum", ".quorumProgramId"])
    + Prefixed("runtime." + p + ".", contractKeys)
    + Prefixed("owner." + p + ".", BOARD_KEYS)
    + Prefixed("config." + p, [".pool", ".ledger", ".submissions", ".challenges"])
    + Prefixed("wiring." + p, [".poolLedger", ".ledgerCreditRecorder", ".ledgerRolloverDestination",
                               ".poolSubmissionManager", ".submissionChallengeManager", ".poolRegistry"])
    + Prefixed("problem." + p, [".registeredPinsAndConfig", ".frozen"])
    + Prefixed("pauseTarget." + p + ".", PAUSE_KEYS)
    + Prefixed("funding." + p, [".fundingArmedFalse", ".acceptingFundsFalse"])
  }

  function CollectedChecks(m: Manifest, boards: seq<(Problem, seq<string>)>): seq<string> {
    Prefixed("runtime.", m.contractKeys) + SHARED + CollectedOfBoards(boards) + OperationChecks(m.setup)
  }

  function CollectedOfBoards(boards: seq<(Problem, seq<string>)>): seq<string> {
    if boards == [] then []
    else CollectedBoardChecks(boards[0].0.problemId, boards[0].1) + CollectedOfBoards(boards[1..])
  }

  const PROGRAM_ID: string := ".programId"

  predicate IsProgramIdCheck(name: string) {
    |name| >= 20 && name[..10] == "objective." && name[|name| - 10..] == PROGRAM_ID
  }

  ghost predicate NoneIsProgramId(names: seq<string>) {
    forall i :: 0 <= i < |names| ==> !IsProgramIdCheck(names[i])
  }

  lemma OtherStart(prefix: string, names: seq<string>)
    requires |prefix| >= 2 && (prefix[0] != 'o' || prefix[1] != 'b')
    ensures NoneIsProgramId(Prefixed(prefix, names))
  {
    assert "objective."[0] == 'o' && "objective."[1] == 'b';
    forall i | 0 <= i < |names| ensures !IsProgramIdCheck(Prefixed(prefix, names)[i]) {
      var name := Prefixed(prefix, names)[i];
      assert name[0] == prefix[0] && name[1] == prefix[1];
      assert |name| >= 20 ==> name[..10][0] == name[0] && name[..10][1] == name[1];
    }
  }

  /** The suffix does not end as `.programId` does. */
  predicate OtherEnd(suffix: string) {
    if |suffix| >= 10 then suffix[|suffix| - 10..] != PROGRAM_ID else suffix != PROGRAM_ID[10 - |suffix|..]
  }

  lemma OtherEnds(prefix: string, names: seq<string>)
    requires forall i :: 0 <= i < |names| ==> OtherEnd(names[i])
    ensures NoneIsProgramId(Prefixed(prefix, names))
  {
    forall i | 0 <= i < |names| ensures !IsProgramIdCheck(Prefixed(prefix, names)[i]) {
      var suffix, name := names[i], Prefixed(prefix, names)[i];
      if |suffix| >= 10 {
        assert name[|name| - 10..] == suffix[|suffix| - 10..];
      } else {
        assert |name| >= 10 ==> name[|name| - 10..][10 - |suffix|..] == suffix;
      }
    }
  }

  lemma NoneConcat(a: seq<string>, b: seq<string>)
    requires NoneIsProgramId(a) && NoneIsProgramId(b)
    ensures NoneIsProgramId(a + b)
  {
  }

  lemma ObjectiveChecks(p: string)
    ensures NoneIsProgramId(Prefixed(p, [".registry", ".problemId", ".packageHash", ".guestElfSha256", ".programVKey",
                                         ".guestElfSha256.quorum", ".quorumProgramId"]))
  {
    var names := [".registry", ".problemId", ".packageHash", ".guestElfSha256", ".programVKey",
                  ".guestElfSha256.quorum", ".quorumProgramId"];
    assert ".registry"[8] != PROGRAM_ID[1..][8];
    assert ".problemId"[0..][6] != PROGRAM_ID[6];
    assert ".packageHash"[2..][9] != PROGRAM_ID[9];
    assert ".guestElfSha256"[5..][9] != PROGRAM_ID[9];
    assert ".programVKey"[2..][9] != PROGRAM_ID[9];
    assert ".guestElfSha256.quorum"[12..][9] != PROGRAM_ID[9];
    assert ".quorumProgramId"[6..][1] != PROGRAM_ID[1];
    OtherEnds(p, names);
  }

  lemma BoardNeverProgramId(problemId: string, contractKeys: seq<string>)
    ensures NoneIsProgramId(CollectedBoardChecks(problemId, contractKeys))
  {
    var p := "board/" + problemId;
    ObjectiveChecks("objective." + p);
    OtherStart("runtime." + p + ".", contractKeys);
    OtherStart("owner." + p + ".", BOARD_KEYS);
    OtherStart("config." + p, [".pool", ".ledger", ".submissions", ".challenges"]);
    OtherStart("wiring." + p, [".poolLedger", ".ledgerCreditRecorder", ".ledgerRolloverDestination",
                               ".poolSubmissionManager", ".submissionChallengeManager", ".poolRegistry"]);
    OtherStart("problem." + p, [".registeredPinsAndConfig", ".frozen"]);
    OtherStart("pauseTarget." + p + ".", PAUSE_KEYS);
    OtherStart("funding." + p, [".fundingArmedFalse", ".acceptingFundsFalse"]);
  }

  lemma {:induction false} BoardsNeverProgramId(boards: seq<(Problem, seq<string>)>)
    ensures NoneIsProgramId(CollectedOfBoards(boards))
  {
    if boards != [] {
      BoardNeverProgramId(boards[0].0.problemId, boards[0].1);
      BoardsNeverProgramId(boards[1..]);
      NoneConcat(CollectedBoardChecks(boards[0].0.problemId, boards[0].1), CollectedOfBoards(boards[1..]));
    }
  }

  lemma {:induction false} BoardCheckRequired(problems: seq<Problem>, i: nat)
    requires i < |problems|
    ensures "objective." + ("board/" + problems[i].problemId) + PROGRAM_ID in AllBoardChecks(problems)
  {
    if i == 0 {
      var p := "board/" + problems[0].problemId;
      var names := [".registry", ".problemId", ".packageHash", ".programId", ".quorumProgramId"];
      assert Prefixed("objective." + p, names)[3] == "objective." + p + PROGRAM_ID;
      ObjectiveRequired(problems[0].problemId);
    } else {
      BoardCheckRequired(problems[1..], i - 1);
    }
  }

  lemma ObjectiveRequired(problemId: string)
    ensures "objective." + ("board/" + problemId) + PROGRAM_ID in BoardChecks(problemId)
  {
    var p := "board/" + problemId;
    var names := [".registry", ".problemId", ".packageHash", ".programId", ".quorumProgramId"];
    assert Prefixed("objective." + p, names)[3] == "objective." + p + PROGRAM_ID;
    assert "objective." + p + PROGRAM_ID in Prefixed("objective." + p, names);
  }

  lemma {:induction false} UnnamedMissing(checks: seq<Check>, name: string)
    requires forall i :: 0 <= i < |checks| ==> checks[i].name != name
    ensures LastCheck(checks, name) == None
  {
    if checks != [] { UnnamedMissing(checks[..|checks| - 1], name); }
  }

  lemma CollectedNeverProgramId(m: Manifest, boards: seq<(Problem, seq<string>)>)
    ensures NoneIsProgramId(CollectedChecks(m, boards))
  {
    OtherStart("runtime.", m.contractKeys);
    SharedNeverProgramId();
    BoardsNeverProgramId(boards);
    var ids := seq(|m.setup|, i requires 0 <= i < |m.setup| => m.setup[i].operation.operationId);
    OtherStart("operation.", ids);
    assert Prefixed("operation.", ids) == OperationChecks(m.setup);
    NoneConcat(Prefixed("runtime.", m.contractKeys), SHARED);
    NoneConcat(Prefixed("runtime.", m.contractKeys) + SHARED, CollectedOfBoards(boards));
    NoneConcat(Prefixed("runtime.", m.contractKeys) + SHARED + CollectedOfBoards(boards), OperationChecks(m.setup));
  }

  lemma SharedNeverProgramId()
    ensures NoneIsProgramId(SHARED)
  {
    assert forall i :: 0 <= i < |SHARED| ==> |SHARED[i]| >= 10 && SHARED[i][9] != '.';
    assert "objective."[9] == '.';
    forall i | 0 <= i < |SHARED| ensures !IsProgramIdCheck(SHARED[i]) {
      assert SHARED[i][..10][9] == SHARED[i][9];
    }
  }

  /**
   The multi-board collector names its check `programVKey`; completion requires `programId`. So no
   snapshot made only of collected checks completes a manifest with a problem, whatever they say.
   */
  lemma CollectedNeverCompletes(m: Manifest, s: Snapshot, boards: seq<(Problem, seq<string>)>)
    requires m.multiBoard && m.problems != []
    requires forall i :: 0 <= i < |s.checks| ==> s.checks[i].name in CollectedChecks(m, boards)
    ensures !Complete(m, s)
  {
    var name := "objective." + ("board/" + m.problems[0].problemId) + PROGRAM_ID;
    CollectedNeverProgramId(m, boards);
    ProgramIdName(m.problems[0].problemId);
    forall i | 0 <= i < |s.checks| ensures s.checks[i].name != name {
      var names := CollectedChecks(m, boards);
      var k :| 0 <= k < |names| && names[k] == s.checks[i].name;
      assert !IsProgramIdCheck(names[k]);
    }
    UnnamedMissing(s.checks, name);
    BoardCheckRequired(m.problems, 0);
    BoardNamesRequired(m, name);
    assert !CheckPassed(s, name);
  }

  lemma BoardNamesRequired(m: Manifest, name: string)
    requires m.multiBoard && name in AllBoardChecks(m.problems)
    ensures name in RequiredChecks(m)
  {
  }

  lemma ProgramIdName(problemId: string)
    ensures IsProgramIdCheck("objective." + ("board/" + problemId) + PROGRAM_ID)
  {
    var name := "objective." + ("board/" + problemId) + PROGRAM_ID;
    assert |name| == 10 + (6 + |problemId|) + 10;
    assert name[..10] == "objective.";
    assert name[|name| - 10..] == PROGRAM_ID;
  }
}
