/** Subordinate-ID files: one pass over the sorted ranges decides whether any two overlap. */
module SubordinateRanges {
  import opened Basics
  import opened Ordering

  const MIN_SUBORDINATE_COUNT: int := 65_536

  /** A row `owner:start:count`, before and after its numbers are checked. */
  datatype Range = Range(owner: Text, start: int, count: int) {
    function End(): int { start + count }
    predicate Valid() { start >= 0 && count >= 1 }
    predicate Contains(id: int) { start <= id < End() }
  }

  /** The ids that come one after the other from `start` on. */
  function Consecutive(start: int, count: nat): set<int>
    decreases count
  {
    if count == 0 then {} else {start} + Consecutive(start + 1, count - 1)
  }

  /** A range holds exactly its `count` ids from `start` on. */
  lemma HoldsExactly(r: Range)
    requires r.count >= 1
    ensures forall id :: r.Contains(id) <==> id in Consecutive(r.start, r.count)
    ensures |Consecutive(r.start, r.count)| == r.count
  {
    ConsecutiveIds(r.start, r.count);
  }

  lemma {:induction false} ConsecutiveIds(start: int, count: nat)
    ensures forall id :: id in Consecutive(start, count) <==> start <= id < start + count
    ensures |Consecutive(start, count)| == count
    decreases count
  {
    if count > 0 { ConsecutiveIds(start + 1, count - 1); }
  }

  /** How many of the ranges hold an ID. */
  function Holders(ranges: seq<Range>, id: int): nat {
    if ranges == [] then 0 else Holders(ranges[1..], id) + if ranges[0].Contains(id) then 1 else 0
  }

  ghost predicate NoSharedId(ranges: seq<Range>) { forall id :: Holders(ranges, id) <= 1 }

  ghost predicate PairwiseDisjoint(ranges: seq<Range>) {
    forall i, j :: 0 <= i < j < |ranges| ==> Apart(ranges[i], ranges[j])
  }

  ghost predicate Apart(a: Range, b: Range) { forall id :: !(a.Contains(id) && b.Contains(id)) }

  lemma {:induction false} HoldersAt(ranges: seq<Range>, i: nat, id: int)
    requires i < |ranges| && ranges[i].Contains(id)
    ensures Holders(ranges, id) >= 1
  {
    if i > 0 { HoldersAt(ranges[1..], i - 1, id); }
  }

  lemma {:induction false} TwoHolders(ranges: seq<Range>, i: nat, j: nat, id: int)
    requires i < j < |ranges| && ranges[i].Contains(id) && ranges[j].Contains(id)
    ensures Holders(ranges, id) >= 2
  {
    if i == 0 { HoldersAt(ranges[1..], j - 1, id); } else { TwoHolders(ranges[1..], i - 1, j - 1, id); }
  }

  lemma {:induction false} AtMostOne(ranges: seq<Range>, id: int)
    requires PairwiseDisjoint(ranges)
    ensures Holders(ranges, id) <= 1
  {
    if ranges != [] {
      AtMostOne(ranges[1..], id);
      if Holders(ranges[1..], id) > 0 {
        var j := HolderIndex(ranges[1..], id);
        assert Apart(ranges[0], ranges[j + 1]);
      }
    }
  }

  lemma {:induction false} HolderIndex(ranges: seq<Range>, id: int) returns (j: nat)
    requires Holders(ranges, id) > 0
    ensures j < |ranges| && ranges[j].Contains(id)
  {
    if ranges[0].Contains(id) { j := 0; } else { j := HolderIndex(ranges[1..], id); j := j + 1; }
  }

  /** No ID has two holders exactly when the ranges are pairwise disjoint. */
  lemma DisjointIffNoSharedId(ranges: seq<Range>)
    ensures PairwiseDisjoint(ranges) <==> NoSharedId(ranges)
  {
    if PairwiseDisjoint(ranges) {
      forall id ensures Holders(ranges, id) <= 1 { AtMostOne(ranges, id); }
    }
    if NoSharedId(ranges) {
      forall i, j | 0 <= i < j < |ranges| ensures Apart(ranges[i], ranges[j]) {
        forall id ensures !(ranges[i].Contains(id) && ranges[j].Contains(id)) {
          assert Holders(ranges, id) <= 1;
          if ranges[i].Contains(id) && ranges[j].Contains(id) { TwoHolders(ranges, i, j, id); }
        }
      }
    }
  }

  // ---- Sorting ---------------------------------------------------------------------------------

  type Keyed = seq<(Text, Range)>

  /** `(start, end, owner)` as one text: numbers and strings compare the same way. */
  function Key(r: Range): Text { [r.start, r.End()] + r.owner }

  function WithKeys(ranges: seq<Range>): Keyed { seq(|ranges|, i requires 0 <= i < |ranges| => (Key(ranges[i]), ranges[i])) }

  function Values(keyed: Keyed): seq<Range> { seq(|keyed|, i requires 0 <= i < |keyed| => keyed[i].1) }

  function Ordered(ranges: seq<Range>): seq<Range> { Values(Sort(WithKeys(ranges))) }

  lemma {:induction false} InsertHolders(x: (Text, Range), s: Keyed, id: int)
    ensures Holders(Values(Insert(x, s)), id) == Holders(Values(s), id) + if x.1.Contains(id) then 1 else 0
  {
    if s == [] {
      assert Values([x]) == [x.1];
    } else if Less(s[0].0, x.0) {
      InsertHolders(x, s[1..], id);
      assert Values([s[0]] + Insert(x, s[1..]))[1..] == Values(Insert(x, s[1..]));
      assert Values(s)[1..] == Values(s[1..]);
    } else {
      assert Values([x] + s)[1..] == Values(s);
    }
  }

  lemma {:induction false} SortHolders(s: Keyed, id: int)
    ensures Holders(Values(Sort(s)), id) == Holders(Values(s), id)
  {
    if s != [] {
      SortHolders(s[1..], id);
      InsertHolders(s[0], Sort(s[1..]), id);
      assert Values(s)[1..] == Values(s[1..]);
    }
  }

  lemma OrderedFacts(ranges: seq<Range>)
    requires forall i :: 0 <= i < |ranges| ==> ranges[i].Valid()
    ensures |Ordered(ranges)| == |ranges|
    ensures forall i :: 0 <= i < |Ordered(ranges)| ==> Ordered(ranges)[i].Valid()
    ensures forall i, j :: 0 <= i < j < |Ordered(ranges)| ==> Ordered(ranges)[i].start <= Ordered(ranges)[j].start
    ensures NoSharedId(Ordered(ranges)) <==> NoSharedId(ranges)
  {
    var keyed := WithKeys(ranges);
    var sorted := Sort(keyed);
    SortIsSorted(keyed);
    forall i | 0 <= i < |sorted| ensures sorted[i].1 in ranges && sorted[i].0 == Key(sorted[i].1) {
      assert sorted[i] in sorted;
      SortMember(keyed, sorted[i]);
    }
    forall i, j | 0 <= i < j < |sorted| ensures sorted[i].1.start <= sorted[j].1.start {
      assert !Less(sorted[j].0, sorted[i].0);
      assert sorted[i].0[0] == sorted[i].1.start && sorted[j].0[0] == sorted[j].1.start;
    }
    assert Values(keyed) == ranges;
    forall id ensures Holders(Ordered(ranges), id) == Holders(ranges, id) { SortHolders(keyed, id); }
  }

  // ---- The scan -----------------------------------------------------------------------------------

  /** In start order, neighbours that are apart keep all apart. */
  lemma {:induction false} NeighboursSuffice(s: seq<Range>, i: nat, j: nat)
    requires i < j < |s| && forall k :: 0 <= k < |s| ==> s[k].Valid()
    requires forall k :: 0 <= k < |s| - 1 ==> s[k].End() <= s[k + 1].start
    ensures s[i].End() <= s[j].start
  {
    if i + 1 < j { NeighboursSuffice(s, i, j - 1); }
  }

  method NoOverlap(ranges: seq<Range>) returns (apart: bool)
    requires ranges != [] && forall i :: 0 <= i < |ranges| ==> ranges[i].Valid()
    ensures apart <==> PairwiseDisjoint(ranges)
  {
    var ordered := Ordered(ranges);
    OrderedFacts(ranges);
    DisjointIffNoSharedId(ranges);
    DisjointIffNoSharedId(ordered);
    var previous := ordered[0];
    for i := 1 to |ordered|
      invariant previous == ordered[i - 1]
      invariant forall k :: 0 <= k < i - 1 ==> ordered[k].End() <= ordered[k + 1].start
    {
      var current := ordered[i];
      if current.start < previous.End() {
        assert previous.Contains(current.start) && current.Contains(current.start);
        assert !Apart(ordered[i - 1], ordered[i]);
        return false;
      }
      previous := current;
    }
    forall i, j | 0 <= i < j < |ordered| ensures Apart(ordered[i], ordered[j]) { NeighboursSuffice(ordered, i, j); }
    return true;
  }

  /** The ranges of one owner, in file order. */
  function OwnedBy(ranges: seq<Range>, user: Text): seq<Range> {
    if ranges == [] then []
    else (if ranges[0].owner == user then [ranges[0]] else []) + OwnedBy(ranges[1..], user)
  }

  lemma {:induction false} OwnedByMember(ranges: seq<Range>, user: Text, r: Range)
    ensures r in OwnedBy(ranges, user) <==> r in ranges && r.owner == user
  {
    if ranges != [] {
      OwnedByMember(ranges[1..], user, r);
      assert r in ranges <==> r == ranges[0] || r in ranges[1..];
    }
  }

  /** Accepts exactly a file of valid, pairwise disjoint ranges with one full-sized range for the user. */
  method ValidateSubordinateIdFile(rows: seq<Range>, user: Text) returns (r: Result<seq<Range>>)
    ensures r.Ok? <==>
              && rows != [] && (forall i :: 0 <= i < |rows| ==> rows[i].Valid()) && PairwiseDisjoint(rows)
              && |OwnedBy(rows, user)| == 1 && OwnedBy(rows, user)[0].count == 65536
    ensures r.Ok? ==> r.value == OwnedBy(rows, user)
    ensures r.Ok? ==> forall row :: row in rows && row.owner == user <==> row == r.value[0]
  {
    for i := 0 to |rows|
      invariant forall k :: 0 <= k < i ==> rows[k].Valid()
    {
      if rows[i].start < 0 || rows[i].count < 1 { return Err("subordinate-ID range is invalid"); }
    }
    if rows == [] { return Err("no subordinate-ID ranges are provisioned"); }
    var apart := NoOverlap(rows);
    if !apart { return Err("subordinate-ID ranges overlap"); }
    var owned := OwnedBy(rows, user);
    if |owned| != 1 || owned[0].count != MIN_SUBORDINATE_COUNT { return Err("user requires exactly one full range"); }
    forall row ensures row in rows && row.owner == user <==> row == owned[0] { OwnedByMember(rows, user, row); }
    return Ok(owned);
  }
}
