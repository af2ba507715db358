/**
 Version comparison for dependency advisories: the constructor's check, `<` as written, the
 comparisons derived from it, and the precedence of section 11 of Semantic Versioning 2.0.0.
 */
module SemVer {
  import opened Basics
  import opened Ordering

  /** `raw` also carries the build metadata, which no comparison looks at. */
  datatype Version = Version(raw: Text, major: nat, minor: nat, patch: nat, prerelease: seq<Text>)

  const ZERO: int := 48

  predicate IsDigit(c: int) { 48 <= c <= 57 }

  predicate IdentifierUnit(c: int) { IsDigit(c) || 65 <= c <= 90 || 97 <= c <= 122 || c == 45 }

  /** What the grammar lets through as a pre-release identifier. */
  predicate Identifier(t: Text) { t != [] && forall i :: 0 <= i < |t| ==> IdentifierUnit(t[i]) }

  /** `str.isdigit` on an identifier. */
  predicate Numeric(t: Text) { t != [] && forall i :: 0 <= i < |t| ==> IsDigit(t[i]) }

  predicate LeadingZero(t: Text) { Numeric(t) && |t| > 1 && t[0] == ZERO }

  predicate Valid(v: Version) {
    forall i :: 0 <= i < |v.prerelease| ==> Identifier(v.prerelease[i]) && !LeadingZero(v.prerelease[i])
  }

  /** The constructor, from the groups the grammar matched. */
  function Construct(raw: Text, major: nat, minor: nat, patch: nat, prerelease: seq<Text>): (r: Result<Version>)
    requires forall i :: 0 <= i < |prerelease| ==> Identifier(prerelease[i])
    ensures r.Ok? <==> forall i :: 0 <= i < |prerelease| ==> !LeadingZero(prerelease[i])
    ensures r.Ok? ==> Valid(r.value) && r.value.prerelease == prerelease
  {
    if exists i :: 0 <= i < |prerelease| && LeadingZero(prerelease[i]) then Err("invalid numeric prerelease identifier")
    else Ok(Version(raw, major, minor, patch, prerelease))
  }

  function Number(t: Text): nat
    requires Numeric(t) || t == []
  {
    if t == [] then 0 else Number(t[..|t| - 1]) * 10 + (t[|t| - 1] - ZERO)
  }

  /** A numeral is read in base ten. */
  lemma NumberExactly(t: Text, c: int)
    requires (t == [] || Numeric(t)) && 48 <= c <= 57
    ensures Number([c]) == c - 48 && Number(t + [c]) == 10 * Number(t) + (c - 48)
  {
    assert [c][..0] == [] && (t + [c])[..|t|] == t;
  }

  // ---- The comparisons as written ------------------------------------------------------------------

  predicate Eq(a: Version, b: Version) {
    (a.major, a.minor, a.patch) == (b.major, b.minor, b.patch) && a.prerelease == b.prerelease
  }

  predicate IdentifierLt(left: Text, right: Text) {
    if Numeric(left) && Numeric(right) then Number(left) < Number(right)
    else if Numeric(left) != Numeric(right) then Numeric(left)
    else Less(left, right)
  }

  predicate PrereleaseLt(l: seq<Text>, r: seq<Text>) {
    if l == [] || r == [] then |l| < |r|
    else if l[0] == r[0] then PrereleaseLt(l[1..], r[1..])
    else IdentifierLt(l[0], r[0])
  }

  predicate Lt(a: Version, b: Version) {
    if (a.major, a.minor, a.patch) != (b.major, b.minor, b.patch) then
      a.major < b.major || (a.major == b.major && (a.minor < b.minor || (a.minor == b.minor && a.patch < b.patch)))
    else if a.prerelease == [] then false
    else if b.prerelease == [] then true
    else PrereleaseLt(a.prerelease, b.prerelease)
  }

  // `functools.total_ordering` fills these in
  predicate Gt(a: Version, b: Version) { !Lt(a, b) && !Eq(a, b) }
  predicate Le(a: Version, b: Version) { Lt(a, b) || Eq(a, b) }
  predicate Ge(a: Version, b: Version) { !Lt(a, b) }

  // ---- Numerals --------------------------------------------------------------------------------------

  lemma {:induction false} NumberPositive(t: Text)
    requires Numeric(t) && t[0] != ZERO
    ensures Number(t) > 0
  {
    if |t| > 1 { NumberPositive(t[..|t| - 1]); }
  }

  /** Without leading zeros, numerals with the same value are the same text. */
  lemma {:induction false} NumeralUnique(s: Text, t: Text)
    requires Numeric(s) && Numeric(t) && !LeadingZero(s) && !LeadingZero(t) && Number(s) == Number(t)
    ensures s == t
  {
    var m, n := |s| - 1, |t| - 1;
    assert Number(s) == Number(s[..m]) * 10 + (s[m] - ZERO) && Number(t) == Number(t[..n]) * 10 + (t[n] - ZERO);
    assert Number(s[..m]) == Number(t[..n]) && s[m] == t[n];
    if m > 0 { NumberPositive(s[..m]); }
    if n > 0 { NumberPositive(t[..n]); }
    if m > 0 && n > 0 { NumeralUnique(s[..m], t[..n]); }
    assert s == s[..m] + [s[m]] && t == t[..n] + [t[n]];
  }

  // ---- A strict total order ----------------------------------------------------------------------------

  predicate Accepted(ids: seq<Text>) {
    forall i :: 0 <= i < |ids| ==> Identifier(ids[i]) && !LeadingZero(ids[i])
  }

  lemma IdentifierTotal(l: Text, r: Text)
    requires l != r && !LeadingZero(l) && !LeadingZero(r)
    ensures IdentifierLt(l, r) <==> !IdentifierLt(r, l)
  {
    if Numeric(l) && Numeric(r) {
      if Number(l) == Number(r) { NumeralUnique(l, r); }
    } else {
      LessTotal(l, r);
      if Less(l, r) { LessAsymmetric(l, r); }
    }
  }

  lemma IdentifierTransitive(a: Text, b: Text, c: Text)
    requires IdentifierLt(a, b) && IdentifierLt(b, c)
    ensures IdentifierLt(a, c)
  {
    if !Numeric(a) && !Numeric(b) && !Numeric(c) { LessTransitive(a, b, c); }
  }

  lemma {:induction false} PrereleaseTotal(l: seq<Text>, r: seq<Text>)
    requires Accepted(l) && Accepted(r) && l != r
    ensures PrereleaseLt(l, r) <==> !PrereleaseLt(r, l)
  {
    if l != [] && r != [] {
      if l[0] == r[0] {
        assert l == [l[0]] + l[1..] && r == [r[0]] + r[1..];
        PrereleaseTotal(l[1..], r[1..]);
      } else {
        IdentifierTotal(l[0], r[0]);
      }
    }
  }

  lemma {:induction false} PrereleaseIrreflexive(l: seq<Text>)
    ensures !PrereleaseLt(l, l)
  {
    if l != [] { PrereleaseIrreflexive(l[1..]); }
  }

  lemma IdentifierIrreflexive(l: Text)
    ensures !IdentifierLt(l, l)
  {
    LessIrreflexive(l);
  }

  lemma {:induction false} PrereleaseTransitive(a: seq<Text>, b: seq<Text>, c: seq<Text>)
    requires Accepted(a) && Accepted(b) && Accepted(c) && PrereleaseLt(a, b) && PrereleaseLt(b, c)
    ensures PrereleaseLt(a, c)
  {
    if a != [] && b != [] && c != [] {
      if a[0] == b[0] && b[0] == c[0] {
        PrereleaseTransitive(a[1..], b[1..], c[1..]);
      } else if a[0] != b[0] && b[0] != c[0] {
        IdentifierTransitive(a[0], b[0], c[0]);
        if a[0] == c[0] { IdentifierIrreflexive(a[0]); }
      }
    }
  }

  /** Exactly one of less, equal and greater; and `>` is `<` the other way round. */
  lemma Trichotomy(a: Version, b: Version)
    requires Valid(a) && Valid(b)
    ensures Lt(a, b) ==> !Lt(b, a) && !Eq(a, b)
    ensures Lt(a, b) || Lt(b, a) || Eq(a, b)
    ensures Gt(a, b) <==> Lt(b, a)
    ensures Ge(a, b) <==> Le(b, a)
  {
    PrereleaseIrreflexive(a.prerelease);
    if a.prerelease != b.prerelease { PrereleaseTotal(a.prerelease, b.prerelease); }
  }

  lemma Transitivity(a: Version, b: Version, c: Version)
    requires Valid(a) && Valid(b) && Valid(c) && Lt(a, b) && Lt(b, c)
    ensures Lt(a, c)
  {
    if (a.major, a.minor, a.patch) == (b.major, b.minor, b.patch) == (c.major, c.minor, c.patch) && c.prerelease != [] {
      PrereleaseTransitive(a.prerelease, b.prerelease, c.prerelease);
    }
  }

  /** Without the constructor's check, the derived `>` would hold both ways. */
  lemma LeadingZeroBreaksOrder(l: Text, r: Text, a: Version, b: Version)
    requires Numeric(l) && Numeric(r) && Number(l) == Number(r) && l != r
    requires a == Version([], 1, 0, 0, [l]) && b == Version([], 1, 0, 0, [r])
    ensures Gt(a, b) && Gt(b, a)
    ensures !Valid(a) || !Valid(b)
  {
    if !LeadingZero(l) && !LeadingZero(r) { NumeralUnique(l, r); }
  }

  // ---- Section 11 -----------------------------------------------------------------------------------------

  /** Rules 4.1 to 4.3: numeric identifiers by value and below all others, the rest in ASCII order. */
  ghost predicate IdentifierPrecedes(x: Text, y: Text) {
    || (Numeric(x) && Numeric(y) && Number(x) < Number(y))
    || (Numeric(x) && !Numeric(y))
    || (!Numeric(x) && !Numeric(y) && Less(x, y))
  }

  ghost predicate SamePrecedence(x: Text, y: Text) {
    x == y || (Numeric(x) && Numeric(y) && Number(x) == Number(y))
  }

  /** Rule 4: the first difference decides; without one, the larger set of fields wins. */
  ghost predicate DiffersAt(l: seq<Text>, r: seq<Text>, k: nat) {
    && k < |l| && k < |r| && IdentifierPrecedes(l[k], r[k])
    && forall i :: 0 <= i < k ==> SamePrecedence(l[i], r[i])
  }

  ghost predicate FieldsPrecede(l: seq<Text>, r: seq<Text>) {
    || (exists k: nat :: DiffersAt(l, r, k))
    || (|l| < |r| && forall i :: 0 <= i < |l| ==> SamePrecedence(l[i], r[i]))
  }

  /** Rules 2 and 3. */
  ghost predicate Precedes(a: Version, b: Version) {
    || a.major < b.major
    || (a.major == b.major && a.minor < b.minor)
    || (a.major == b.major && a.minor == b.minor && a.patch < b.patch)
    || (a.major == b.major && a.minor == b.minor && a.patch == b.patch
        && a.prerelease != [] && (b.prerelease == [] || FieldsPrecede(a.prerelease, b.prerelease)))
  }

  lemma SamePrecedenceSame(x: Text, y: Text)
    requires SamePrecedence(x, y) && !LeadingZero(x) && !LeadingZero(y)
    ensures x == y
  {
    if x != y { NumeralUnique(x, y); }
  }

  lemma FieldsPrecedeTail(l: seq<Text>, r: seq<Text>)
    requires l != [] && r != [] && l[0] == r[0]
    ensures FieldsPrecede(l, r) <==> FieldsPrecede(l[1..], r[1..])
  {
    if k: nat :| DiffersAt(l, r, k) {
      IdentifierIrreflexive(l[0]);
      assert k > 0;
      assert DiffersAt(l[1..], r[1..], k - 1);
    }
    if k: nat :| DiffersAt(l[1..], r[1..], k) {
      assert forall i :: 1 <= i < k + 1 ==> l[i] == l[1..][i - 1] && r[i] == r[1..][i - 1];
      assert DiffersAt(l, r, k + 1);
    }
    if |l| < |r| && forall i :: 0 <= i < |l[1..]| ==> SamePrecedence(l[1..][i], r[1..][i]) {
      assert forall i :: 1 <= i < |l| ==> l[i] == l[1..][i - 1] && r[i] == r[1..][i - 1];
    }
  }

  lemma {:induction false} FieldsDecide(l: seq<Text>, r: seq<Text>)
    requires Accepted(l) && Accepted(r)
    ensures PrereleaseLt(l, r) <==> FieldsPrecede(l, r)
  {
    if l != [] && r != [] {
      if l[0] == r[0] {
        FieldsPrecedeTail(l, r);
        FieldsDecide(l[1..], r[1..]);
      } else {
        if SamePrecedence(l[0], r[0]) { SamePrecedenceSame(l[0], r[0]); }
        assert IdentifierPrecedes(l[0], r[0]) ==> DiffersAt(l, r, 0);
      }
    }
  }

  /** The code's order is the standard's. */
  lemma LtIsPrecedence(a: Version, b: Version)
    requires Valid(a) && Valid(b)
    ensures Lt(a, b) <==> Precedes(a, b)
  {
    FieldsDecide(a.prerelease, b.prerelease);
  }

  // ---- Ranges -------------------------------------------------------------------------------------------------

  datatype Constraint = Constraint(lower: Option<Version>, lowerInclusive: bool, upper: Option<Version>, upperInclusive: bool)

  predicate ValidConstraint(c: Constraint) {
    (c.lower.Some? ==> Valid(c.lower.value)) && (c.upper.Some? ==> Valid(c.upper.value))
  }

  function InRange(v: Version, c: Constraint): bool {
    if c.lower.Some? && (Lt(v, c.lower.value) || (Eq(v, c.lower.value) && !c.lowerInclusive)) then false
    else if c.upper.Some? && (Gt(v, c.upper.value) || (Eq(v, c.upper.value) && !c.upperInclusive)) then false
    else true
  }

  lemma EqRespects(a: Version, b: Version, c: Version)
    requires Eq(a, b)
    ensures (Lt(a, c) <==> Lt(b, c)) && (Lt(c, a) <==> Lt(c, b)) && (Eq(a, c) <==> Eq(b, c))
  {
  }

  /** A range is the interval between its ends, in the standard's order. */
  lemma RangeMeans(v: Version, c: Constraint)
    requires Valid(v) && ValidConstraint(c)
    ensures InRange(v, c) <==>
            && (c.lower.Some? ==> Precedes(c.lower.value, v) || (Eq(v, c.lower.value) && c.lowerInclusive))
            && (c.upper.Some? ==> Precedes(v, c.upper.value) || (Eq(v, c.upper.value) && c.upperInclusive))
  {
    if c.lower.Some? {
      Trichotomy(v, c.lower.value);
      LtIsPrecedence(c.lower.value, v);
    }
    if c.upper.Some? {
      Trichotomy(v, c.upper.value);
      LtIsPrecedence(v, c.upper.value);
    }
  }

  lemma LeTransitive(a: Version, b: Version, c: Version)
    requires Valid(a) && Valid(b) && Valid(c) && Le(a, b) && Le(b, c)
    ensures Le(a, c)
    ensures Eq(a, c) ==> Eq(a, b)
  {
    if Eq(a, b) { EqRespects(a, b, c); }
    else if Eq(b, c) { EqRespects(b, c, a); }
    else { Transitivity(a, b, c); Trichotomy(a, c); }
  }

  /** Between two versions in a range there is none outside it. */
  lemma RangeConvex(a: Version, b: Version, c: Version, range: Constraint)
    requires Valid(a) && Valid(b) && Valid(c) && ValidConstraint(range)
    requires Le(a, b) && Le(b, c) && InRange(a, range) && InRange(c, range)
    ensures InRange(b, range)
  {
    if range.lower.Some? {
      var low := range.lower.value;
      Trichotomy(a, low);
      Trichotomy(b, low);
      LeTransitive(low, a, b);
    }
    if range.upper.Some? {
      var high := range.upper.value;
      Trichotomy(c, high);
      Trichotomy(b, high);
      LeTransitive(b, c, high);
    }
  }
}
