/**
 Evidence that a timelock operation was executed: once from an index of all execution events,
 once by asking for each candidate's events. What the chain holds is input.
 */
module OperationEvidence {
  import opened Basics

  function LowerChar(c: char): char { if 'A' <= c <= 'Z' then c + 32 as char else c }

  /** `toLowerCase` on the ASCII text of a hexadecimal id. */
  function Lower(s: string): (r: string)
    ensures |r| == |s| && forall i :: 0 <= i < |s| ==> r[i] == LowerChar(s[i])
  {
    seq(|s|, i requires 0 <= i < |s| => LowerChar(s[i]))
  }

  datatype Event = Event(id: string, txHash: string, blockNumber: int)

  datatype Operation = Operation(operationId: string, operationClass: string, fallback: Option<string>, tag: string)

  datatype Candidate = Candidate(operationId: string, operationClass: string)

  datatype CandidateEvidence = CandidateEvidence(candidate: Candidate, state: int, events: seq<Event>)

  datatype Check = Check(name: string, ok: bool)

  /** What the snapshot records about one operation. */
  datatype Evidence = Evidence(
    operationId: string, executedOperationId: Option<string>, executedOperationClass: Option<string>,
    state: string, txHash: Option<string>, blockNumber: Option<int>)

  datatype Collected = Collected(check: Check, actual: seq<(string, int, nat)>, operation: Evidence)

  const EXECUTED: int := 2

  function Candidates(op: Operation): seq<Candidate> {
    [Candidate(op.operationId, op.operationClass)]
    + (if op.fallback.Some? then [Candidate(op.fallback.value, "override")] else [])
  }

  /** The events for one id, as the node's filter on the indexed id returns them. */
  function Query(events: seq<Event>, id: string): seq<Event> {
    if events == [] then []
    else (if Lower(events[0].id) == Lower(id) then [events[0]] else []) + Query(events[1..], id)
  }

  function Queried(candidates: seq<Candidate>, events: seq<Event>, stateOf: string -> int): seq<CandidateEvidence> {
    seq(|candidates|, i requires 0 <= i < |candidates| =>
      CandidateEvidence(candidates[i], stateOf(candidates[i].operationId), Query(events, candidates[i].operationId)))
  }

  predicate Executed(c: CandidateEvidence) { c.state == EXECUTED && |c.events| == 1 }

  function ExecutedOf(candidates: seq<CandidateEvidence>): seq<CandidateEvidence> {
    if candidates == [] then []
    else (if Executed(candidates[0]) then [candidates[0]] else []) + ExecutedOf(candidates[1..])
  }

  lemma {:induction false} ExecutedMember(candidates: seq<CandidateEvidence>, c: CandidateEvidence)
    ensures c in ExecutedOf(candidates) <==> c in candidates && Executed(c)
  {
    if candidates != [] {
      ExecutedMember(candidates[1..], c);
      assert c in candidates <==> c == candidates[0] || c in candidates[1..];
    }
  }

  function Assemble(op: Operation, candidates: seq<CandidateEvidence>): Collected {
    var executed := ExecutedOf(candidates);
    var actual := seq(|candidates|, i requires 0 <= i < |candidates| =>
      (candidates[i].candidate.operationId, candidates[i].state, |candidates[i].events|));
    var name := "operation." + op.operationId;
    if |executed| != 1 then
      Collected(Check(name, false), actual, Evidence(op.operationId, None, None, "incomplete", None, None))
    else
      ExecutedMember(candidates, executed[0]);
      var x := executed[0];
      Collected(Check(name, true), actual,
        Evidence(op.operationId, Some(x.candidate.operationId), Some(x.candidate.operationClass), "executed",
                 Some(x.events[0].txHash), Some(x.events[0].blockNumber)))
  }

  // ---- The two collectors -------------------------------------------------------------------------

  function Indexed(index: map<string, seq<Event>>, key: string): seq<Event> {
    if key in index then index[key] else []
  }

  lemma {:induction false} QueryMore(events: seq<Event>, e: Event, id: string)
    ensures Query(events + [e], id) == Query(events, id) + if Lower(e.id) == Lower(id) then [e] else []
  {
    if events == [] {
      assert ([e])[1..] == [];
      assert events + [e] == [e];
    } else {
      assert (events + [e])[1..] == events[1..] + [e];
      QueryMore(events[1..], e, id);
    }
  }

  /** One pass over the log: afterwards the entry for any id is what a query for that id returns. */
  method IndexEvents(events: seq<Event>) returns (index: map<string, seq<Event>>)
    ensures forall id :: Indexed(index, Lower(id)) == Query(events, id)
  {
    index := map[];
    for k := 0 to |events|
      invariant forall id :: Indexed(index, Lower(id)) == Query(events[..k], id)
    {
      var key := Lower(events[k].id);
      ghost var before := index;
      index := index[key := Indexed(index, key) + [events[k]]];
      assert events[..k + 1] == events[..k] + [events[k]];
      forall id ensures Indexed(index, Lower(id)) == Query(events[..k + 1], id) {
        QueryMore(events[..k], events[k], id);
        assert Indexed(before, Lower(id)) == Query(events[..k], id);
      }
    }
    assert events[..|events|] == events;
  }

  ghost predicate EvidenceOf(
    operations: seq<Operation>, events: seq<Event>, stateOf: string -> int, collected: seq<Collected>)
  {
    && |collected| == |operations|
    && forall k :: 0 <= k < |operations| ==>
         collected[k] == Assemble(operations[k], Queried(Candidates(operations[k]), events, stateOf))
  }

  method LookUp(candidates: seq<Candidate>, index: map<string, seq<Event>>, ghost events: seq<Event>, stateOf: string -> int)
    returns (found: seq<CandidateEvidence>)
    requires forall id :: Indexed(index, Lower(id)) == Query(events, id)
    ensures found == Queried(candidates, events, stateOf)
  {
    found := [];
    for i := 0 to |candidates|
      invariant found == Queried(candidates[..i], events, stateOf)
    {
      var id := candidates[i].operationId;
      found := found + [CandidateEvidence(candidates[i], stateOf(id), Indexed(index, Lower(id)))];
    }
    assert candidates[..|candidates|] == candidates;
  }

  method CollectIndexed(operations: seq<Operation>, events: seq<Event>, stateOf: string -> int)
    returns (collected: seq<Collected>)
    ensures EvidenceOf(operations, events, stateOf, collected)
  {
    var index := IndexEvents(events);
    collected := [];
    for k := 0 to |operations|
      invariant EvidenceOf(operations[..k], events, stateOf, collected)
    {
      var found := LookUp(Candidates(operations[k]), index, events, stateOf);
      collected := collected + [Assemble(operations[k], found)];
    }
    assert operations[..|operations|] == operations;
  }

  method CollectByQuery(operations: seq<Operation>, events: seq<Event>, stateOf: string -> int)
    returns (collected: seq<Collected>)
    ensures EvidenceOf(operations, events, stateOf, collected)
  {
    collected := [];
    for k := 0 to |operations|
      invariant EvidenceOf(operations[..k], events, stateOf, collected)
    {
      var candidates := Candidates(operations[k]);
      var found: seq<CandidateEvidence> := [];
      for i := 0 to |candidates|
        invariant found == Queried(candidates[..i], events, stateOf)
      {
        var id := candidates[i].operationId;
        found := found + [CandidateEvidence(candidates[i], stateOf(id), Query(events, id))];
        assert found == Queried(candidates[..i + 1], events, stateOf);
      }
      assert candidates[..|candidates|] == candidates;
      collected := collected + [Assemble(operations[k], found)];
    }
    assert operations[..|operations|] == operations;
  }

  /** The ids are the same but for the case of their letters. */
  predicate SameId(a: string, b: string) { |a| == |b| && forall i :: 0 <= i < |a| ==> SameLetter(a[i], b[i]) }

  predicate SameLetter(a: char, b: char) {
    a == b || ('A' <= a <= 'Z' && b as int == a as int + 32) || ('A' <= b <= 'Z' && a as int == b as int + 32)
  }

  lemma LowerExactly(a: string, b: string)
    ensures Lower(a) == Lower(b) <==> SameId(a, b)
  {
    if Lower(a) == Lower(b) {
      forall i | 0 <= i < |a| ensures SameLetter(a[i], b[i]) { assert Lower(a)[i] == Lower(b)[i]; }
    }
  }

  /** A query finds the events of its id, in the order of the log, whatever the case of letters. */
  lemma QueryExactly(events: seq<Event>, e: Event, id: string)
    ensures Query([], id) == []
    ensures Query(events + [e], id) == Query(events, id) + if SameId(e.id, id) then [e] else []
  {
    QueryMore(events, e, id);
    LowerExactly(e.id, id);
  }

  /** The log and the timelock say that `id` was executed, once. */
  ghost predicate ExecutedOnce(id: string, events: seq<Event>, stateOf: string -> int) {
    stateOf(id) == 2 && |Query(events, id)| == 1
  }

  /** An operation counts as executed exactly when one, and not both, of its candidates was. */
  lemma ExecutedExactly(op: Operation, events: seq<Event>, stateOf: string -> int)
    ensures var c := Assemble(op, Queried(Candidates(op), events, stateOf));
            var primary := ExecutedOnce(op.operationId, events, stateOf);
            var override := op.fallback.Some? && ExecutedOnce(op.fallback.value, events, stateOf);
            && (c.check.ok <==> primary != override)
            && c.check.name == "operation." + op.operationId && c.operation.operationId == op.operationId
            && c.operation.state == (if c.check.ok then "executed" else "incomplete")
            && (!c.check.ok ==>
                  && c.operation.executedOperationId == None && c.operation.executedOperationClass == None
                  && c.operation.txHash == None && c.operation.blockNumber == None)
            && c.actual == [(op.operationId, stateOf(op.operationId), |Query(events, op.operationId)|)]
                           + (if op.fallback.None? then []
                              else [(op.fallback.value, stateOf(op.fallback.value), |Query(events, op.fallback.value)|)])
            && (c.check.ok ==>
                  && c.operation.executedOperationId == Some(if primary then op.operationId else op.fallback.value)
                  && c.operation.executedOperationClass == Some(if primary then op.operationClass else "override")
                  && c.operation.txHash == Some(Query(events, c.operation.executedOperationId.value)[0].txHash)
                  && c.operation.blockNumber == Some(Query(events, c.operation.executedOperationId.value)[0].blockNumber))
  {
    var found := Queried(Candidates(op), events, stateOf);
    assert Executed(found[0]) <==> ExecutedOnce(op.operationId, events, stateOf);
    if op.fallback.Some? {
      assert Executed(found[1]) <==> ExecutedOnce(op.fallback.value, events, stateOf);
      assert found == [found[0], found[1]];
      ExecutedOfTwo(found[0], found[1]);
    } else {
      assert found == [found[0]];
      ExecutedOfOne(found[0]);
    }
  }

  lemma ExecutedOfOne(a: CandidateEvidence)
    ensures ExecutedOf([a]) == if Executed(a) then [a] else []
  {
    assert [a][1..] == [];
  }

  lemma ExecutedOfTwo(a: CandidateEvidence, b: CandidateEvidence)
    ensures ExecutedOf([a, b]) == (if Executed(a) then [a] else []) + (if Executed(b) then [b] else [])
  {
    assert [a, b][1..] == [b];
    ExecutedOfOne(b);
  }
}
