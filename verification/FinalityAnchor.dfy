/**
 Finality anchors read from two RPC operators, and the recheck that only lets them move forward.
 What the endpoints answer is input.
 */
module FinalityAnchor {
  import opened Basics

  datatype Point = Point(number: nat, hash: string)

  /** The trusted evidence about the two endpoints; `detail` is everything beside their operators. */
  datatype RpcEvidence = RpcEvidence(primary: string, secondary: string, detail: string)

  datatype Anchor = Anchor(
    finalized: Point, safe: Point, l1Origin: Point, l1Finalized: Point, operators: seq<string>, rpc: RpcEvidence)

  // ---- Collecting --------------------------------------------------------------------------------

  /** One endpoint's answers, already read as canonical quantities and hashes. */
  datatype Answers = Answers(
    chainId: int, finalized: Point, safe: Point, finalizedL2: Point, finalizedL1: Point, origin: Point)

  datatype Observation = Observation(operatorId: string, finalized: Point, safe: Point, l1Origin: Point, finalizedL1: Point)

  const BASE_SEPOLIA: int := 84532

  function Observe(operatorId: string, a: Answers): Result<Observation> {
    if a.chainId != BASE_SEPOLIA then Err("not Base Sepolia")
    else if a.finalized.number != a.finalizedL2.number || a.finalized.hash != a.finalizedL2.hash then
      Err("finalized tag disagrees with optimism_syncStatus")
    else if a.safe.number < a.finalized.number then Err("safe anchor is behind finalized")
    else if a.origin.number > a.finalizedL1.number then Err("finalized L2 origin is not finalized on L1")
    else Ok(Observation(operatorId, a.finalized, a.safe, a.origin, a.finalizedL1))
  }

  function Agreed(first: Observation, second: Observation, rpc: RpcEvidence): Result<Anchor> {
    if first.finalized != second.finalized then Err("RPCs disagree on finalized anchor")
    else if first.safe != second.safe then Err("RPCs disagree on safe anchor")
    else if first.l1Origin != second.l1Origin then Err("RPCs disagree on l1Origin anchor")
    else if first.finalizedL1 != second.finalizedL1 then Err("RPCs disagree on finalizedL1 anchor")
    else Ok(Anchor(first.finalized, first.safe, first.l1Origin, first.finalizedL1, [first.operatorId, second.operatorId], rpc))
  }

  function Collect(a: Answers, b: Answers, rpc: RpcEvidence): Result<Anchor> {
    match (Observe(rpc.primary, a), Observe(rpc.secondary, b))
    case (Ok(first), Ok(second)) => Agreed(first, second, rpc)
    case _ => Err("an endpoint's observation was refused")
  }

  predicate Related(a: Anchor) {
    && a.safe.number >= a.finalized.number && a.l1Origin.number <= a.l1Finalized.number
    && a.operators == [a.rpc.primary, a.rpc.secondary]
  }

  /** Whatever is collected, both operators said in full. */
  lemma CollectedIsAgreed(a: Answers, b: Answers, rpc: RpcEvidence)
    ensures Collect(a, b, rpc).Ok? <==>
              && a.chainId == 84532 && b.chainId == 84532
              && a.finalized == b.finalized == a.finalizedL2 == b.finalizedL2 && a.safe == b.safe
              && a.origin == b.origin && a.finalizedL1 == b.finalizedL1
              && a.safe.number >= a.finalized.number && a.origin.number <= a.finalizedL1.number
    ensures Collect(a, b, rpc).Ok? ==>
              Collect(a, b, rpc).value == Anchor(b.finalized, b.safe, b.origin, b.finalizedL1, [rpc.primary, rpc.secondary], rpc)
    ensures Collect(a, b, rpc).Ok? ==> Related(Collect(a, b, rpc).value)
  {
  }

  // ---- Rechecking ----------------------------------------------------------------------------------

  /** What the two endpoints now report at a block number, if they report a block at all. */
  datatype Endpoints = Endpoints(rpc: RpcEvidence, primary: nat -> Option<string>, secondary: nat -> Option<string>)

  predicate Bound(a: Anchor) { a.operators == [a.rpc.primary, a.rpc.secondary] }

  function CheckDimension(before: Point, after: Point): Result<()> {
    if after.number < before.number then Err("anchor downgraded during recheck")
    else if after.number == before.number && after.hash != before.hash then Err("anchor hash changed during recheck")
    else Ok(())
  }

  predicate StillThere(e: Endpoints, p: Point) {
    e.primary(p.number) == Some(p.hash) && e.secondary(p.number) == Some(p.hash)
  }

  function Validate(previous: Anchor, current: Anchor, endpoints: Option<Endpoints>): Result<Anchor> {
    if !Bound(previous) || !Bound(current) then Err("RPC authority binding is invalid")
    else if previous.rpc != current.rpc then Err("RPC authority changed without an authenticated rotation")
    else if endpoints.Some? && current.rpc != endpoints.value.rpc then
      Err("RPC authority does not match configured endpoints")
    else if CheckDimension(previous.finalized, current.finalized).Err? then Err("l2.finalized")
    else if CheckDimension(previous.safe, current.safe).Err? then Err("l2.safe")
    else if CheckDimension(previous.l1Origin, current.l1Origin).Err? then Err("l1.origin")
    else if CheckDimension(previous.l1Finalized, current.l1Finalized).Err? then Err("l1.finalized")
    else if endpoints.Some? && !StillThere(endpoints.value, previous.finalized) then Err("L2 finalized anchor reorged")
    else if endpoints.Some? && !StillThere(endpoints.value, previous.safe) then Err("L2 safe anchor reorged")
    else if current.safe.number < current.finalized.number || current.l1Origin.number > current.l1Finalized.number then
      Err("finality anchor cross-relations failed during recheck")
    else Ok(current)
  }

  function Recheck(a: Answers, b: Answers, endpoints: Endpoints, previous: Anchor): Result<Anchor> {
    match Collect(a, b, endpoints.rpc)
    case Err(e) => Err(e)
    case Ok(current) => Validate(previous, current, Some(endpoints))
  }

  /** Nothing goes back, and a number once anchored keeps its hash. */
  predicate Advances(before: Point, after: Point) {
    before.number <= after.number && (before.number == after.number ==> before == after)
  }

  predicate Follows(previous: Anchor, current: Anchor) {
    && Advances(previous.finalized, current.finalized) && Advances(previous.safe, current.safe)
    && Advances(previous.l1Origin, current.l1Origin) && Advances(previous.l1Finalized, current.l1Finalized)
    && current.rpc == previous.rpc && current.operators == previous.operators
  }

  /** One accepted step of a long-lived process: some endpoints, some answers. */
  ghost predicate Accepted(previous: Anchor, current: Anchor) {
    exists a, b, e :: Recheck(a, b, e, previous) == Ok(current)
  }

  lemma AcceptedFollows(previous: Anchor, current: Anchor)
    requires Accepted(previous, current)
    ensures Follows(previous, current) && Related(current)
  {
  }

  ghost predicate Run(anchors: seq<Anchor>) {
    |anchors| > 0 && forall k :: 0 <= k < |anchors| - 1 ==> Accepted(anchors[k], anchors[k + 1])
  }

  lemma FollowsTransitive(a: Anchor, b: Anchor, c: Anchor)
    requires Follows(a, b) && Follows(b, c)
    ensures Follows(a, c)
  {
  }

  lemma {:induction false} ChainAdvances(anchors: seq<Anchor>, i: nat, j: nat)
    requires i <= j < |anchors|
    requires forall k :: 0 <= k < |anchors| - 1 ==> Follows(anchors[k], anchors[k + 1])
    ensures Follows(anchors[i], anchors[j])
  {
    if i < j {
      ChainAdvances(anchors, i, j - 1);
      assert Follows(anchors[j - 1], anchors[j - 1 + 1]);
      FollowsTransitive(anchors[i], anchors[j - 1], anchors[j]);
    }
  }

  lemma RunStep(anchors: seq<Anchor>, k: nat)
    requires Run(anchors) && k + 1 < |anchors|
    ensures Follows(anchors[k], anchors[k + 1]) && Related(anchors[k + 1])
  {
    AcceptedFollows(anchors[k], anchors[k + 1]);
  }

  /** Between any two anchors of a run, not only neighbours. */
  lemma RunAdvances(anchors: seq<Anchor>, i: nat, j: nat)
    requires Run(anchors) && i <= j < |anchors|
    ensures Follows(anchors[i], anchors[j])
    ensures i < j ==> Related(anchors[j])
  {
    forall k | 0 <= k < |anchors| - 1 ensures Follows(anchors[k], anchors[k + 1]) { RunStep(anchors, k); }
    ChainAdvances(anchors, i, j);
    if i < j { RunStep(anchors, j - 1); }
  }

  /** Apart from what the endpoints say at that moment, a recheck may skip any number of steps. */
  lemma SkippingAccepted(anchors: seq<Anchor>, i: nat, j: nat)
    requires Run(anchors) && i < j < |anchors|
    ensures Validate(anchors[i], anchors[j], None) == Ok(anchors[j])
    ensures Follows(anchors[j], anchors[i]) ==> anchors[i] == anchors[j]
  {
    RunAdvances(anchors, i, j);
    assert Accepted(anchors[i], anchors[i + 1]);
    BoundBefore(anchors[i], anchors[i + 1]);
  }

  lemma BoundBefore(previous: Anchor, current: Anchor)
    requires Accepted(previous, current)
    ensures Bound(previous)
  {
  }

  /** Exactly when a recheck of given anchors is accepted, endpoints included. */
  lemma ValidateExactly(previous: Anchor, current: Anchor, e: Endpoints)
    ensures Validate(previous, current, Some(e)).Ok? <==>
              && Follows(previous, current) && Related(current) && e.rpc == current.rpc
              && StillThere(e, previous.finalized) && StillThere(e, previous.safe)
  {
  }

  /** Without endpoints to ask, the same but for what they would say; the anchor accepted is the current one. */
  lemma ValidateWithoutEndpoints(previous: Anchor, current: Anchor)
    ensures Validate(previous, current, None).Ok? <==> Follows(previous, current) && Related(current)
    ensures Validate(previous, current, None).Ok? ==> Validate(previous, current, None).value == current
  {
  }
}
