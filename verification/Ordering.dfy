/**
 Strings as sequences of code units, their lexicographic order, and sorting by a string
 key. JavaScript and Python both compare strings this way.
 */
module Ordering {
  type Text = seq<int>

  /** `a` comes strictly before `b`. */
  predicate Less(a: Text, b: Text) {
    b != [] && (a == [] || a[0] < b[0] || (a[0] == b[0] && Less(a[1..], b[1..])))
  }

  /** The first difference is at `k`, and `a` has the smaller unit there. */
  ghost predicate SmallerAt(a: Text, b: Text, k: nat) {
    k < |a| && k < |b| && a[..k] == b[..k] && a[k] < b[k]
  }

  /** What the order means: a proper prefix comes first, otherwise the smaller unit at the first difference. */
  lemma {:induction false} LessExactly(a: Text, b: Text)
    ensures Less(a, b) <==> (|a| < |b| && a == b[..|a|]) || exists k: nat :: SmallerAt(a, b, k)
  {
    if a != [] && b != [] {
      if a[0] == b[0] {
        LessExactly(a[1..], b[1..]);
        if k: nat :| SmallerAt(a[1..], b[1..], k) {
          assert a[..k + 1] == [a[0]] + a[1..][..k] && b[..k + 1] == [b[0]] + b[1..][..k];
          assert SmallerAt(a, b, k + 1);
        }
        if k: nat :| SmallerAt(a, b, k) {
          assert k > 0;
          assert a[1..][..k - 1] == a[..k][1..] && b[1..][..k - 1] == b[..k][1..];
          assert SmallerAt(a[1..], b[1..], k - 1);
        }
        assert a == [a[0]] + a[1..];
        assert |a| <= |b| ==> b[..|a|] == [b[0]] + b[1..][..|a| - 1];
      } else {
        assert a[0] < b[0] ==> SmallerAt(a, b, 0);
        assert forall k: nat :: SmallerAt(a, b, k) && k > 0 ==> a[..k][0] == b[..k][0];
      }
    }
  }

  lemma {:induction false} LessIrreflexive(a: Text)
    ensures !Less(a, a)
  {
    if a != [] { LessIrreflexive(a[1..]); }
  }

  lemma {:induction false} LessTransitive(a: Text, b: Text, c: Text)
    requires Less(a, b) && Less(b, c)
    ensures Less(a, c)
  {
    if a != [] && a[0] == b[0] && b[0] == c[0] {
      LessTransitive(a[1..], b[1..], c[1..]);
    }
  }

  lemma {:induction false} LessTotal(a: Text, b: Text)
    ensures Less(a, b) || Less(b, a) || a == b
  {
    if a != [] && b != [] && a[0] == b[0] {
      LessTotal(a[1..], b[1..]);
      if a[1..] == b[1..] {
        assert a == [a[0]] + a[1..] == [b[0]] + b[1..] == b;
      }
    }
  }

  lemma LessAsymmetric(a: Text, b: Text)
    requires Less(a, b)
    ensures !Less(b, a) && a != b
  {
    LessIrreflexive(a);
    if Less(b, a) { LessTransitive(a, b, a); }
  }

  // ---- Sorting pairs by their key ---------------------------------------------------

  /** No element comes after one with a smaller key. */
  ghost predicate Sorted<V>(s: seq<(Text, V)>) {
    forall i, j :: 0 <= i < j < |s| ==> !Less(s[j].0, s[i].0)
  }

  ghost predicate DistinctKeys<V>(s: seq<(Text, V)>) {
    forall i, j :: 0 <= i < j < |s| ==> s[i].0 != s[j].0
  }

  function Insert<V>(x: (Text, V), s: seq<(Text, V)>): seq<(Text, V)> {
    if s == [] then [x]
    else if Less(s[0].0, x.0) then [s[0]] + Insert(x, s[1..])
    else [x] + s
  }

  function Sort<V>(s: seq<(Text, V)>): seq<(Text, V)> {
    if s == [] then [] else Insert(s[0], Sort(s[1..]))
  }

  lemma {:induction false} InsertElements<V>(x: (Text, V), s: seq<(Text, V)>)
    ensures multiset(Insert(x, s)) == multiset{x} + multiset(s)
    ensures |Insert(x, s)| == |s| + 1
  {
    if s != [] {
      assert s == [s[0]] + s[1..];
      if Less(s[0].0, x.0) { InsertElements(x, s[1..]); }
    }
  }

  lemma InsertMember<V>(x: (Text, V), s: seq<(Text, V)>, y: (Text, V))
    ensures y in Insert(x, s) <==> y == x || y in s
  {
    InsertElements(x, s);
    assert y in multiset(Insert(x, s)) <==> y in multiset{x} + multiset(s);
    assert y in multiset(s) <==> y in s;
    assert y in multiset(Insert(x, s)) <==> y in Insert(x, s);
  }

  lemma {:induction false} InsertSorted<V>(x: (Text, V), s: seq<(Text, V)>)
    requires Sorted(s)
    ensures Sorted(Insert(x, s))
  {
    if s == [] {
    } else if Less(s[0].0, x.0) {
      InsertSorted(x, s[1..]);
      var r := Insert(x, s[1..]);
      forall j | 0 <= j < |r| ensures !Less(r[j].0, s[0].0) {
        InsertMember(x, s[1..], r[j]);
        if r[j] == x { LessAsymmetric(s[0].0, x.0); } else { assert r[j] in s[1..]; }
      }
    } else {
      forall j | 0 <= j < |s| ensures !Less(s[j].0, x.0) {
        if Less(s[j].0, x.0) && j > 0 {
          LessTotal(s[0].0, s[j].0);
          if Less(s[0].0, s[j].0) { LessTransitive(s[0].0, s[j].0, x.0); }
        }
      }
    }
  }

  lemma {:induction false} SortIsSorted<V>(s: seq<(Text, V)>)
    ensures Sorted(Sort(s)) && multiset(Sort(s)) == multiset(s) && |Sort(s)| == |s|
  {
    if s != [] {
      SortIsSorted(s[1..]);
      InsertSorted(s[0], Sort(s[1..]));
      InsertElements(s[0], Sort(s[1..]));
      assert s == [s[0]] + s[1..];
    }
  }

  lemma SortMember<V>(s: seq<(Text, V)>, y: (Text, V))
    ensures y in Sort(s) <==> y in s
  {
    SortIsSorted(s);
    assert y in multiset(Sort(s)) <==> y in multiset(s);
  }

  lemma {:induction false} SortDistinct<V>(s: seq<(Text, V)>)
    requires DistinctKeys(s)
    ensures DistinctKeys(Sort(s))
  {
    if s != [] {
      SortDistinct(s[1..]);
      var r := Sort(s[1..]);
      forall y | y in r ensures y.0 != s[0].0 {
        SortMember(s[1..], y);
        var k :| 0 <= k < |s[1..]| && s[1..][k] == y;
        assert s[k + 1] == y;
      }
      InsertDistinct(s[0], r);
    }
  }

  lemma {:induction false} InsertDistinct<V>(x: (Text, V), s: seq<(Text, V)>)
    requires DistinctKeys(s) && forall y :: y in s ==> y.0 != x.0
    ensures DistinctKeys(Insert(x, s))
  {
    if s != [] && Less(s[0].0, x.0) {
      InsertDistinct(x, s[1..]);
      var r := Insert(x, s[1..]);
      forall j | 0 <= j < |r| ensures r[j].0 != s[0].0 {
        InsertMember(x, s[1..], r[j]);
        if r[j] != x {
          var k :| 0 <= k < |s[1..]| && s[1..][k] == r[j];
          assert s[k + 1] == r[j];
        }
      }
    }
  }

  /** A sorted sequence with distinct keys is determined by its set of elements. */
  lemma {:induction false} SortedUnique<V>(a: seq<(Text, V)>, b: seq<(Text, V)>)
    requires Sorted(a) && Sorted(b) && DistinctKeys(a) && DistinctKeys(b)
    requires forall y :: y in a <==> y in b
    ensures a == b
  {
    assert b != [] ==> b[0] in b;
    if a != [] {
      assert a[0] in a && a[0] in b;
      assert b != [] && b[0] in b && b[0] in a;
      HeadUnique(a, b);
      assert a == [a[0]] + a[1..] && b == [b[0]] + b[1..];
      forall y ensures y in a[1..] <==> y in b[1..] {
        TailMember(a, y);
        TailMember(b, y);
      }
      SortedUnique(a[1..], b[1..]);
    }
  }

  lemma TailMember<V>(a: seq<(Text, V)>, y: (Text, V))
    requires a != [] && DistinctKeys(a)
    ensures y in a[1..] <==> y in a && y != a[0]
  {
    if y in a[1..] {
      var k :| 0 <= k < |a[1..]| && a[1..][k] == y;
      assert a[k + 1] == y;
    }
    if y in a && y != a[0] {
      var k :| 0 <= k < |a| && a[k] == y;
      assert a[1..][k - 1] == y;
    }
  }

  lemma HeadUnique<V>(a: seq<(Text, V)>, b: seq<(Text, V)>)
    requires a != [] && b != [] && Sorted(a) && Sorted(b) && DistinctKeys(a)
    requires a[0] in b && b[0] in a
    ensures a[0] == b[0]
  {
    var i :| 0 <= i < |a| && a[i] == b[0];
    var j :| 0 <= j < |b| && b[j] == a[0];
    LessTotal(a[0].0, b[0].0);
  }

  // ---- Mapping the values of pairs ----------------------------------------------------

  function MapValues<V, W>(s: seq<(Text, V)>, f: V -> W): (r: seq<(Text, W)>)
    ensures |r| == |s|
  {
    seq(|s|, i requires 0 <= i < |s| => (s[i].0, f(s[i].1)))
  }

  lemma {:induction false} InsertMap<V, W>(x: (Text, V), s: seq<(Text, V)>, f: V -> W)
    ensures Insert((x.0, f(x.1)), MapValues(s, f)) == MapValues(Insert(x, s), f)
  {
    if s != [] {
      assert MapValues(s, f)[1..] == MapValues(s[1..], f);
      InsertMap(x, s[1..], f);
    }
    InsertElements(x, s);
  }

  /** Sorting by key does not look at the values. */
  lemma {:induction false} SortMap<V, W>(s: seq<(Text, V)>, f: V -> W)
    ensures Sort(MapValues(s, f)) == MapValues(Sort(s), f)
  {
    if s != [] {
      assert MapValues(s, f)[1..] == MapValues(s[1..], f);
      SortMap(s[1..], f);
      InsertMap(s[0], Sort(s[1..]), f);
    }
  }
}
