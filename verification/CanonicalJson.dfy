/**
 The canonical JSON printer under every plan digest, and its sibling that also accepts
 bigints. Text is a sequence of UTF-16 code units.
 */
module CanonicalJson {
  import opened Ordering

  // ---- Values -----------------------------------------------------------------------

  /**
   A finite number, as ECMAScript's Number::toString sees it: the shortest decimal digits
   d1..dk and the exponent n of 0.d1..dk * 10^n.
   */
  datatype Number = Zero | NegativeZero | Decimal(negative: bool, digits: seq<int>, exponent: int)

  datatype Json =
    | Null
    | Bool(b: bool)
    | Num(n: Number)
    | BigInt(i: int)
    | Str(s: Text)
    | Array(items: seq<Json>)
    | Object(fields: seq<(Text, Json)>)   // in insertion order

  predicate ValidNumber(n: Number) {
    n.Decimal? ==>
      && n.digits != []
      && (forall i :: 0 <= i < |n.digits| ==> 0 <= n.digits[i] <= 9)
      && n.digits[0] != 0 && n.digits[|n.digits| - 1] != 0
  }

  predicate ValidText(t: Text) {
    forall i :: 0 <= i < |t| ==> 0 <= t[i] < 0x1_0000
  }

  /** Numbers and strings are well formed and no object repeats a key. */
  ghost predicate Valid(v: Json) {
    match v
    case Num(n) => ValidNumber(n)
    case Str(s) => ValidText(s)
    case Array(items) => forall i :: 0 <= i < |items| ==> Valid(items[i])
    case Object(fields) =>
      && DistinctKeys(fields)
      && forall i :: 0 <= i < |fields| ==> ValidText(fields[i].0) && Valid(fields[i].1)
    case _ => true
  }

  /** Neither bigints nor negative zeros, which print like other values. */
  ghost predicate Distinguished(v: Json) {
    match v
    case BigInt(_) => false
    case Num(n) => n != NegativeZero
    case Array(items) => forall i :: 0 <= i < |items| ==> Distinguished(items[i])
    case Object(fields) => forall i :: 0 <= i < |fields| ==> Distinguished(fields[i].1)
    case _ => true
  }

  /** A well-formed value that is told apart from all others. */
  ghost predicate Plain(v: Json) { Valid(v) && Distinguished(v) }

  // ---- Printing the leaves ------------------------------------------------------------

  const QUOTE := 34
  const BACKSLASH := 92
  const COMMA := 44
  const COLON := 58
  const OPEN_BRACKET := 91
  const CLOSE_BRACKET := 93
  const OPEN_BRACE := 123
  const CLOSE_BRACE := 125
  const MINUS := 45
  const PLUS := 43
  const DOT := 46
  const EXPONENT := 101
  const DIGIT_ZERO := 48

  const NULL: Text := [110, 117, 108, 108]
  const TRUE: Text := [116, 114, 117, 101]
  const FALSE: Text := [102, 97, 108, 115, 101]

  function DigitText(digits: seq<int>): (t: Text)
    ensures |t| == |digits|
    ensures forall i :: 0 <= i < |digits| ==> t[i] == DIGIT_ZERO + digits[i]
  {
    seq(|digits|, i requires 0 <= i < |digits| => DIGIT_ZERO + digits[i])
  }

  function Zeros(n: nat): (t: Text)
    ensures |t| == n && forall i :: 0 <= i < n ==> t[i] == DIGIT_ZERO
  {
    seq(n, i => DIGIT_ZERO)
  }

  function NatText(n: nat): Text {
    if n < 10 then [DIGIT_ZERO + n] else NatText(n / 10) + [DIGIT_ZERO + n % 10]
  }

  function IntText(i: int): Text {
    if i < 0 then [MINUS] + NatText(-i) else NatText(i)
  }

  /** Sign and magnitude of an exponent, after its letter. */
  function ExponentTail(e: int): Text {
    [if e > 0 then PLUS else MINUS] + NatText(if e < 0 then -e else e)
  }

  function ExponentText(e: int): Text {
    [EXPONENT] + ExponentTail(e)
  }

  /** ECMAScript's Number::toString in base ten, of the digits `d` and the exponent `n`. */
  function Layout(d: Text, n: int): Text {
    var k := |d|;
    if k <= n <= 21 then d + Zeros(n - k)
    else if 0 < n <= 21 then d[..n] + [DOT] + d[n..]
    else if -6 < n <= 0 then [DIGIT_ZERO, DOT] + Zeros(-n) + d
    else Mantissa(d) + ExponentText(n - 1)
  }

  function Mantissa(d: Text): Text {
    if |d| <= 1 then d else d[..1] + [DOT] + d[1..]
  }

  function NumberText(n: Number): Text {
    match n
    case Zero => [DIGIT_ZERO]
    case NegativeZero => [DIGIT_ZERO]
    case Decimal(negative, digits, exponent) =>
      (if negative then [MINUS] else []) + Layout(DigitText(digits), exponent)
  }

  function HexDigit(d: int): int {
    if d < 10 then 48 + d else 87 + d
  }

  function Hex4(u: int): Text {
    [HexDigit(u / 4096), HexDigit(u / 256 % 16), HexDigit(u / 16 % 16), HexDigit(u % 16)]
  }

  predicate HighSurrogate(u: int) { 0xD800 <= u <= 0xDBFF }
  predicate LowSurrogate(u: int) { 0xDC00 <= u <= 0xDFFF }

  /** JSON.stringify of one code unit that is not half of a surrogate pair. */
  function EscapeUnit(u: int): Text {
    if u == QUOTE then [BACKSLASH, QUOTE]
    else if u == BACKSLASH then [BACKSLASH, BACKSLASH]
    else if u == 8 then [BACKSLASH, 98]
    else if u == 12 then [BACKSLASH, 102]
    else if u == 10 then [BACKSLASH, 110]
    else if u == 13 then [BACKSLASH, 114]
    else if u == 9 then [BACKSLASH, 116]
    else if u < 32 || HighSurrogate(u) || LowSurrogate(u) then [BACKSLASH, 117] + Hex4(u)
    else [u]
  }

  function Escape(s: Text): Text {
    if s == [] then []
    else if |s| > 1 && HighSurrogate(s[0]) && LowSurrogate(s[1]) then s[..2] + Escape(s[2..])
    else EscapeUnit(s[0]) + Escape(s[1..])
  }

  /** JSON.stringify of a string. */
  function Quote(s: Text): Text {
    [QUOTE] + Escape(s) + [QUOTE]
  }

  // ---- The printer ----------------------------------------------------------------------

  function Join(parts: seq<Text>): Text {
    if parts == [] then []
    else if |parts| == 1 then parts[0]
    else parts[0] + [COMMA] + Join(parts[1..])
  }

  function FieldTexts(pairs: seq<(Text, Text)>): seq<Text> {
    seq(|pairs|, i requires 0 <= i < |pairs| => Quote(pairs[i].0) + [COLON] + pairs[i].1)
  }

  /** The printer: object keys in code-unit order, no white space; a bigint as its decimal string. */
  function Canonical(v: Json): Text
    decreases v
  {
    match v
    case Null => NULL
    case Bool(b) => if b then TRUE else FALSE
    case Num(n) => NumberText(n)
    case BigInt(i) => Quote(IntText(i))
    case Str(s) => Quote(s)
    case Array(items) =>
      [OPEN_BRACKET]
        + Join(seq(|items|, i requires 0 <= i < |items| => Canonical(items[i]))) + [CLOSE_BRACKET]
    case Object(fields) =>
      var printed := seq(|fields|, i requires 0 <= i < |fields| => (fields[i].0, Canonical(fields[i].1)));
      [OPEN_BRACE] + Join(FieldTexts(Sort(printed))) + [CLOSE_BRACE]
  }

  /** The index of the field with this key, or -1. */
  function Find(fields: seq<(Text, Json)>, key: Text): (j: int)
    ensures -1 <= j < |fields|
    ensures j >= 0 ==> fields[j].0 == key
    ensures j < 0 ==> forall i :: 0 <= i < |fields| ==> fields[i].0 != key
  {
    if fields == [] then -1
    else if fields[0].0 == key then 0
    else
      var j := Find(fields[1..], key);
      if j < 0 then -1 else j + 1
  }

  /** Equality of values as trees in which an object is a map from keys to values. */
  ghost predicate Same(v: Json, w: Json)
    decreases v
  {
    match (v, w)
    case (Array(a), Array(b)) => |a| == |b| && forall i :: 0 <= i < |a| ==> Same(a[i], b[i])
    case (Object(f), Object(g)) =>
      && (forall j :: 0 <= j < |g| ==> Find(f, g[j].0) >= 0)
      && (forall i :: 0 <= i < |f| ==>
            var j := Find(g, f[i].0); j >= 0 && Same(f[i].1, g[j].1))
    case _ => v == w
  }

  // ---- A printer that keeps the order it is given --------------------------------------

  /** The value with the fields of every object in key order. */
  function Normalize(v: Json): Json
    decreases v
  {
    match v
    case Array(items) => Array(seq(|items|, i requires 0 <= i < |items| => Normalize(items[i])))
    case Object(fields) =>
      Object(Sort(seq(|fields|, i requires 0 <= i < |fields| => (fields[i].0, Normalize(fields[i].1)))))
    case _ => v
  }

  function Print(v: Json): Text
    decreases v, 1
  {
    match v
    case Null => NULL
    case Bool(b) => if b then TRUE else FALSE
    case Num(n) => NumberText(n)
    case BigInt(i) => Quote(IntText(i))
    case Str(s) => Quote(s)
    case Array(items) => [OPEN_BRACKET] + PrintItems(items) + [CLOSE_BRACKET]
    case Object(fields) => [OPEN_BRACE] + PrintFields(fields) + [CLOSE_BRACE]
  }

  function PrintItems(items: seq<Json>): Text
    decreases items, 0
  {
    if items == [] then []
    else if |items| == 1 then Print(items[0])
    else Print(items[0]) + [COMMA] + PrintItems(items[1..])
  }

  function PrintFields(fields: seq<(Text, Json)>): Text
    decreases fields, 0
  {
    if fields == [] then []
    else
      var field := fields[0];
      assert field.1 < field;
      var first := Quote(field.0) + [COLON] + Print(field.1);
      if |fields| == 1 then first else first + [COMMA] + PrintFields(fields[1..])
  }

  lemma {:induction false} JoinItems(items: seq<Json>)
    ensures Join(seq(|items|, i requires 0 <= i < |items| => Print(items[i]))) == PrintItems(items)
  {
    var parts := seq(|items|, i requires 0 <= i < |items| => Print(items[i]));
    if |items| > 1 {
      JoinItems(items[1..]);
      assert parts[1..] == seq(|items[1..]|, i requires 0 <= i < |items[1..]| => Print(items[1..][i]));
    }
  }

  lemma {:induction false} JoinFields(fields: seq<(Text, Json)>)
    ensures Join(FieldTexts(MapValues(fields, Print))) == PrintFields(fields)
  {
    if |fields| > 1 {
      JoinFields(fields[1..]);
      assert FieldTexts(MapValues(fields, Print))[1..] == FieldTexts(MapValues(fields[1..], Print));
    }
  }

  /** Printing with sorted keys is printing the normalised value in its own order. */
  lemma {:induction false} CanonicalIsPrint(v: Json)
    ensures Canonical(v) == Print(Normalize(v))
    decreases v
  {
    match v
    case Array(items) =>
      forall i | 0 <= i < |items| ensures Canonical(items[i]) == Print(Normalize(items[i])) {
        CanonicalIsPrint(items[i]);
      }
      var normal := Normalize(v).items;
      assert seq(|items|, i requires 0 <= i < |items| => Canonical(items[i]))
          == seq(|normal|, i requires 0 <= i < |normal| => Print(normal[i]));
      JoinItems(normal);
    case Object(fields) =>
      forall i | 0 <= i < |fields| ensures Canonical(fields[i].1) == Print(Normalize(fields[i].1)) {
        CanonicalIsPrint(fields[i].1);
      }
      var normal := seq(|fields|, i requires 0 <= i < |fields| => (fields[i].0, Normalize(fields[i].1)));
      var printed := seq(|fields|, i requires 0 <= i < |fields| => (fields[i].0, Canonical(fields[i].1)));
      assert printed == MapValues(normal, Print);
      SortMap(normal, Print);
      JoinFields(Sort(normal));
    case _ =>
  }

  // ---- Equality up to field order is equality of normalised values -----------------------

  lemma NormalMember(fields: seq<(Text, Json)>, i: int)
    requires 0 <= i < |fields|
    ensures (fields[i].0, Normalize(fields[i].1)) in Normalize(Object(fields)).fields
  {
    var normal := seq(|fields|, i requires 0 <= i < |fields| => (fields[i].0, Normalize(fields[i].1)));
    assert normal[i] in normal;
    SortMember(normal, normal[i]);
  }

  lemma NormalOrigin(fields: seq<(Text, Json)>, y: (Text, Json)) returns (i: int)
    requires y in Normalize(Object(fields)).fields
    ensures 0 <= i < |fields| && y.0 == fields[i].0 && y.1 == Normalize(fields[i].1)
  {
    var normal := seq(|fields|, i requires 0 <= i < |fields| => (fields[i].0, Normalize(fields[i].1)));
    SortMember(normal, y);
    i :| 0 <= i < |normal| && normal[i] == y;
  }

  lemma NormalSorted(fields: seq<(Text, Json)>)
    requires DistinctKeys(fields)
    ensures Sorted(Normalize(Object(fields)).fields) && DistinctKeys(Normalize(Object(fields)).fields)
  {
    var normal := seq(|fields|, i requires 0 <= i < |fields| => (fields[i].0, Normalize(fields[i].1)));
    assert DistinctKeys(normal);
    SortIsSorted(normal);
    SortDistinct(normal);
  }

  lemma {:induction false} SameMeansNormal(v: Json, w: Json)
    requires Valid(v) && Valid(w)
    ensures Same(v, w) <==> Normalize(v) == Normalize(w)
    decreases v
  {
    match (v, w)
    case (Array(a), Array(b)) =>
      var na, nb := Normalize(v).items, Normalize(w).items;
      assert |na| == |a| && |nb| == |b|;
      if |a| == |b| {
        forall i | 0 <= i < |a| ensures Same(a[i], b[i]) <==> na[i] == nb[i] {
          SameMeansNormal(a[i], b[i]);
        }
        if Same(v, w) { assert na == nb; }
      }
    case (Object(f), Object(g)) =>
      assert FieldsAgree(f, g) by {
        forall i, j | 0 <= i < |f| && 0 <= j < |g|
          ensures Same(f[i].1, g[j].1) <==> Normalize(f[i].1) == Normalize(g[j].1)
        {
          SameMeansNormal(f[i].1, g[j].1);
        }
      }
      SameObjects(f, g);
    case _ =>
  }

  /** Normalisation agrees with sameness on every pair of field values. */
  ghost predicate FieldsAgree(f: seq<(Text, Json)>, g: seq<(Text, Json)>) {
    forall i, j :: 0 <= i < |f| && 0 <= j < |g| ==>
      (Same(f[i].1, g[j].1) <==> Normalize(f[i].1) == Normalize(g[j].1))
  }

  lemma SameObjects(f: seq<(Text, Json)>, g: seq<(Text, Json)>)
    requires DistinctKeys(f) && DistinctKeys(g) && FieldsAgree(f, g)
    ensures Same(Object(f), Object(g)) <==> Normalize(Object(f)) == Normalize(Object(g))
  {
    if Same(Object(f), Object(g)) {
      NormalSorted(f);
      NormalSorted(g);
      forall y ensures y in Normalize(Object(f)).fields <==> y in Normalize(Object(g)).fields {
        if y in Normalize(Object(f)).fields { SameLeft(f, g, y); }
        if y in Normalize(Object(g)).fields { SameRight(f, g, y); }
      }
      SortedUnique(Normalize(Object(f)).fields, Normalize(Object(g)).fields);
    }
    if Normalize(Object(f)) == Normalize(Object(g)) {
      forall i | 0 <= i < |f|
        ensures Find(g, f[i].0) >= 0 && Same(f[i].1, g[Find(g, f[i].0)].1)
      {
        var j := Partner(f, g, i);
        assert Find(g, f[i].0) == j;
        assert Same(f[i].1, g[j].1);
      }
      forall j | 0 <= j < |g| ensures Find(f, g[j].0) >= 0 {
        var i := Partner(g, f, j);
      }
    }
  }

  lemma SameLeft(f: seq<(Text, Json)>, g: seq<(Text, Json)>, y: (Text, Json))
    requires FieldsAgree(f, g) && Same(Object(f), Object(g)) && y in Normalize(Object(f)).fields
    ensures y in Normalize(Object(g)).fields
  {
    var i := NormalOrigin(f, y);
    var j := Find(g, f[i].0);
    assert Same(f[i].1, g[j].1);
    NormalMember(g, j);
  }

  lemma SameRight(f: seq<(Text, Json)>, g: seq<(Text, Json)>, y: (Text, Json))
    requires DistinctKeys(g)
    requires FieldsAgree(f, g) && Same(Object(f), Object(g)) && y in Normalize(Object(g)).fields
    ensures y in Normalize(Object(f)).fields
  {
    var j := NormalOrigin(g, y);
    var i := Find(f, g[j].0);
    assert Find(g, f[i].0) == j;
    assert Same(f[i].1, g[j].1);
    NormalMember(f, i);
  }

  /** The field of `g` that normalises to the same pair as field `i` of `f`. */
  lemma Partner(f: seq<(Text, Json)>, g: seq<(Text, Json)>, i: int) returns (j: int)
    requires Normalize(Object(f)) == Normalize(Object(g)) && 0 <= i < |f|
    ensures 0 <= j < |g| && f[i].0 == g[j].0 && Normalize(f[i].1) == Normalize(g[j].1)
  {
    NormalMember(f, i);
    j := NormalOrigin(g, (f[i].0, Normalize(f[i].1)));
  }

  // ---- Unique readability of the leaves ---------------------------------------------------

  predicate NumberUnit(u: int) {
    DIGIT_ZERO <= u <= DIGIT_ZERO + 9 || u == MINUS || u == PLUS || u == DOT || u == EXPONENT
  }

  /** What may follow a value: nothing, or a unit that cannot continue a number. */
  predicate Ends(rest: Text) {
    rest == [] || !NumberUnit(rest[0])
  }

  ghost predicate AllNumberUnits(t: Text) {
    forall i :: 0 <= i < |t| ==> NumberUnit(t[i])
  }

  lemma NumberEnds(a: Text, r: Text, b: Text, s: Text)
    requires AllNumberUnits(a) && AllNumberUnits(b) && Ends(r) && Ends(s)
    requires a + r == b + s
    ensures a == b && r == s
  {
    var t := a + r;
    assert forall i :: 0 <= i < |a| ==> t[i] == a[i];
    assert forall i :: 0 <= i < |b| ==> (b + s)[i] == b[i];
    assert |a| < |t| ==> t[|a|] == r[0];
    assert |b| < |t| ==> (b + s)[|b|] == s[0];
    assert |a| == |b|;
    assert a == t[..|a|] == (b + s)[..|b|] == b;
    assert r == t[|a|..] == (b + s)[|b|..] == s;
  }

  /** Two splits at the first occurrence of the same unit are one split. */
  lemma SplitUnique(a: Text, b: Text, c: Text, d: Text, u: int)
    requires u !in a && u !in c
    requires a + [u] + b == c + [u] + d
    ensures a == c && b == d
  {
    var t, w := a + [u] + b, c + [u] + d;
    assert t[|a|] == u && w[|c|] == u;
    assert forall i :: 0 <= i < |a| ==> t[i] == a[i];
    assert forall i :: 0 <= i < |c| ==> w[i] == c[i];
    assert |a| == |c|;
    assert a == t[..|a|] == w[..|c|] == c;
    assert b == t[|a| + 1..] == w[|c| + 1..] == d;
  }

  lemma {:induction false} NatTextShape(n: nat)
    ensures NatText(n) != []
    ensures forall i :: 0 <= i < |NatText(n)| ==> DIGIT_ZERO <= NatText(n)[i] <= DIGIT_ZERO + 9
    ensures n > 0 ==> NatText(n)[0] != DIGIT_ZERO
  {
    if n >= 10 { NatTextShape(n / 10); }
  }

  lemma {:induction false} NatTextInjective(m: nat, n: nat)
    requires NatText(m) == NatText(n)
    ensures m == n
  {
    NatTextShape(m / 10);
    NatTextShape(n / 10);
    var s, t := NatText(m), NatText(n);
    assert s[|s| - 1] == DIGIT_ZERO + m % 10 && t[|t| - 1] == DIGIT_ZERO + n % 10;
    if m >= 10 && n >= 10 {
      assert s[..|s| - 1] == NatText(m / 10) && t[..|t| - 1] == NatText(n / 10);
      NatTextInjective(m / 10, n / 10);
    }
  }

  lemma DigitTextInjective(a: seq<int>, b: seq<int>)
    requires DigitText(a) == DigitText(b)
    ensures a == b
  {
    var s, t := DigitText(a), DigitText(b);
    assert |a| == |b|;
    forall i | 0 <= i < |a| ensures a[i] == b[i] {
      assert s[i] == t[i];
    }
  }

  /** Decimal digits with no zero at either end. */
  ghost predicate Trimmed(d: Text) {
    && d != [] && (forall i :: 0 <= i < |d| ==> DIGIT_ZERO <= d[i] <= DIGIT_ZERO + 9)
    && d[0] != DIGIT_ZERO && d[|d| - 1] != DIGIT_ZERO
  }

  predicate Scientific(n: int) { n > 21 || n <= -6 }

  /** What the printed digits and exponent look like from outside. */
  ghost predicate LayoutShape(t: Text, d: Text, n: int) {
    && AllNumberUnits(t) && t != [] && t != [DIGIT_ZERO]
    && DIGIT_ZERO <= t[0] <= DIGIT_ZERO + 9
    && (EXPONENT in t <==> Scientific(n))
    && (!Scientific(n) ==> (DOT in t <==> n < |d|))
  }

  lemma PlainShape(d: Text, n: int)
    requires Trimmed(d) && |d| <= n <= 21
    ensures LayoutShape(d + Zeros(n - |d|), d, n)
  {
    assert (d + Zeros(n - |d|))[0] == d[0];
  }

  lemma PointShape(d: Text, n: int)
    requires Trimmed(d) && 0 < n <= 21 && n < |d|
    ensures LayoutShape(d[..n] + [DOT] + d[n..], d, n)
  {
    var t := d[..n] + [DOT] + d[n..];
    assert t[n] == DOT && t[0] == d[0];
  }

  lemma SmallShape(d: Text, n: int)
    requires Trimmed(d) && -6 < n <= 0
    ensures LayoutShape([DIGIT_ZERO, DOT] + Zeros(-n) + d, d, n)
  {
    var t := [DIGIT_ZERO, DOT] + Zeros(-n) + d;
    assert t[1] == DOT;
  }

  lemma ScientificShape(d: Text, n: int)
    requires Trimmed(d) && Scientific(n)
    ensures LayoutShape(Mantissa(d) + ExponentText(n - 1), d, n)
    ensures EXPONENT !in Mantissa(d)
  {
    var m, e := Mantissa(d), ExponentText(n - 1);
    NatTextShape(if n - 1 < 0 then 1 - n else n - 1);
    assert AllNumberUnits(m) && AllNumberUnits(e);
    assert m[0] == d[0];
    var t := m + e;
    assert t[|m|] == EXPONENT && t[0] == d[0];
    assert forall i :: 0 <= i < |t| ==> t[i] == if i < |m| then m[i] else e[i - |m|];
  }

  lemma LayoutUnits(d: Text, n: int)
    requires Trimmed(d)
    ensures LayoutShape(Layout(d, n), d, n)
  {
    if |d| <= n <= 21 { PlainShape(d, n); }
    else if 0 < n <= 21 { PointShape(d, n); }
    else if -6 < n <= 0 { SmallShape(d, n); }
    else { ScientificShape(d, n); }
  }

  lemma TrailingZeros(a: Text, m: nat, b: Text, n: nat)
    requires a != [] && b != [] && a[|a| - 1] != DIGIT_ZERO && b[|b| - 1] != DIGIT_ZERO
    requires a + Zeros(m) == b + Zeros(n)
    ensures a == b && m == n
  {
    var t, w := a + Zeros(m), b + Zeros(n);
    assert forall i :: |a| <= i < |t| ==> t[i] == DIGIT_ZERO;
    assert forall i :: |b| <= i < |w| ==> w[i] == DIGIT_ZERO;
    assert t[|a| - 1] == a[|a| - 1] && w[|b| - 1] == b[|b| - 1];
    assert |a| == |b|;
    assert a == t[..|a|] == w[..|b|] == b;
  }

  lemma LeadingZeros(a: Text, m: nat, b: Text, n: nat)
    requires a != [] && b != [] && a[0] != DIGIT_ZERO && b[0] != DIGIT_ZERO
    requires Zeros(m) + a == Zeros(n) + b
    ensures a == b && m == n
  {
    var t, w := Zeros(m) + a, Zeros(n) + b;
    assert forall i :: 0 <= i < m ==> t[i] == DIGIT_ZERO;
    assert forall i :: 0 <= i < n ==> w[i] == DIGIT_ZERO;
    assert t[m] == a[0] && w[n] == b[0];
    assert m == n;
    assert a == t[m..] == w[n..] == b;
  }

  lemma PointInjective(a: Text, m: int, b: Text, n: int)
    requires Trimmed(a) && Trimmed(b) && 0 < m < |a| && 0 < n < |b|
    requires a[..m] + [DOT] + a[m..] == b[..n] + [DOT] + b[n..]
    ensures a == b && m == n
  {
    SplitUnique(a[..m], a[m..], b[..n], b[n..], DOT);
    assert a == a[..m] + a[m..] == b[..n] + b[n..] == b;
  }

  lemma MantissaInjective(a: Text, b: Text)
    requires Trimmed(a) && Trimmed(b) && Mantissa(a) == Mantissa(b)
    ensures a == b
  {
    assert |a| > 1 ==> Mantissa(a)[1] == DOT;
    assert |b| > 1 ==> Mantissa(b)[1] == DOT;
    if |a| > 1 && |b| > 1 {
      PointInjective(a, 1, b, 1);
    }
  }

  lemma ExponentInjective(e: int, f: int)
    requires e != 0 && f != 0 && ExponentTail(e) == ExponentTail(f)
    ensures e == f
  {
    assert ExponentTail(e)[0] == ExponentTail(f)[0];
    assert ExponentTail(e)[1..] == NatText(if e < 0 then -e else e);
    assert ExponentTail(f)[1..] == NatText(if f < 0 then -f else f);
    NatTextInjective(if e < 0 then -e else e, if f < 0 then -f else f);
  }

  lemma ScientificInjective(a: Text, m: int, b: Text, n: int)
    requires Trimmed(a) && Trimmed(b) && Scientific(m) && Scientific(n)
    requires Mantissa(a) + ExponentText(m - 1) == Mantissa(b) + ExponentText(n - 1)
    ensures a == b && m == n
  {
    ScientificShape(a, m);
    ScientificShape(b, n);
    assert Mantissa(a) + ExponentText(m - 1) == Mantissa(a) + [EXPONENT] + ExponentTail(m - 1);
    assert Mantissa(b) + ExponentText(n - 1) == Mantissa(b) + [EXPONENT] + ExponentTail(n - 1);
    SplitUnique(Mantissa(a), ExponentTail(m - 1), Mantissa(b), ExponentTail(n - 1), EXPONENT);
    MantissaInjective(a, b);
    ExponentInjective(m - 1, n - 1);
  }

  lemma SmallInjective(a: Text, m: int, b: Text, n: int)
    requires Trimmed(a) && Trimmed(b) && m <= 0 && n <= 0
    requires [DIGIT_ZERO, DOT] + Zeros(-m) + a == [DIGIT_ZERO, DOT] + Zeros(-n) + b
    ensures a == b && m == n
  {
    var t, w := [DIGIT_ZERO, DOT] + Zeros(-m) + a, [DIGIT_ZERO, DOT] + Zeros(-n) + b;
    assert t[2..] == Zeros(-m) + a && w[2..] == Zeros(-n) + b;
    LeadingZeros(a, -m, b, -n);
  }

  lemma LayoutInjective(a: Text, m: int, b: Text, n: int)
    requires Trimmed(a) && Trimmed(b) && Layout(a, m) == Layout(b, n)
    ensures a == b && m == n
  {
    LayoutUnits(a, m);
    LayoutUnits(b, n);
    if Scientific(m) {
      ScientificInjective(a, m, b, n);
    } else if |a| <= m {
      TrailingZeros(a, m - |a|, b, n - |b|);
    } else {
      // A digit group before the point starts with a nonzero digit; the small form with a zero.
      assert m <= 0 <==> Layout(a, m)[0] == DIGIT_ZERO;
      assert n <= 0 <==> Layout(b, n)[0] == DIGIT_ZERO;
      if 0 < m { PointInjective(a, m, b, n); } else { SmallInjective(a, m, b, n); }
    }
  }

  lemma TrimmedDigits(n: Number)
    requires ValidNumber(n) && n.Decimal?
    ensures Trimmed(DigitText(n.digits))
  {
  }

  lemma NumberUnits(n: Number)
    requires ValidNumber(n)
    ensures NumberText(n) != [] && AllNumberUnits(NumberText(n))
    ensures NumberText(n)[0] == MINUS || DIGIT_ZERO <= NumberText(n)[0] <= DIGIT_ZERO + 9
    ensures n.Decimal? ==> (NumberText(n)[0] == MINUS <==> n.negative)
  {
    if n.Decimal? {
      TrimmedDigits(n);
      LayoutUnits(DigitText(n.digits), n.exponent);
    }
  }

  function WithoutZeroSign(n: Number): Number { if n == NegativeZero then Zero else n }

  /** Different numbers print differently, but for the sign of zero. */
  lemma NumberInjective(m: Number, n: Number)
    requires ValidNumber(m) && ValidNumber(n)
    ensures NumberText(m) == NumberText(n) <==> WithoutZeroSign(m) == WithoutZeroSign(n)
  {
    if NumberText(m) == NumberText(n) { NumberTextInjective(m, n); }
  }

  lemma NumberTextInjective(m: Number, n: Number)
    requires ValidNumber(m) && ValidNumber(n) && NumberText(m) == NumberText(n)
    ensures WithoutZeroSign(m) == WithoutZeroSign(n)
  {
    NumberUnits(m);
    NumberUnits(n);
    if m.Decimal? && n.Decimal? {
      TrimmedDigits(m);
      TrimmedDigits(n);
      var d, e := DigitText(m.digits), DigitText(n.digits);
      assert m.negative ==> NumberText(m)[1..] == Layout(d, m.exponent);
      assert n.negative ==> NumberText(n)[1..] == Layout(e, n.exponent);
      assert !m.negative ==> NumberText(m) == Layout(d, m.exponent);
      assert !n.negative ==> NumberText(n) == Layout(e, n.exponent);
      LayoutInjective(d, m.exponent, e, n.exponent);
      DigitTextInjective(m.digits, n.digits);
    } else {
      if m.Decimal? { TrimmedDigits(m); LayoutUnits(DigitText(m.digits), m.exponent); }
      if n.Decimal? { TrimmedDigits(n); LayoutUnits(DigitText(n.digits), n.exponent); }
    }
  }

  // ---- Unique readability of strings --------------------------------------------------------

  lemma HexDigitInjective(a: int, b: int)
    requires 0 <= a < 16 && 0 <= b < 16 && HexDigit(a) == HexDigit(b)
    ensures a == b
  {
  }

  lemma Hex4Value(u: int)
    requires 0 <= u < 0x1_0000
    ensures u == u / 4096 * 4096 + u / 256 % 16 * 256 + u / 16 % 16 * 16 + u % 16
    ensures 0 <= u / 4096 < 16
  {
    assert u / 256 == u / 16 / 16 && u / 4096 == u / 256 / 16;
  }

  lemma Hex4Injective(u: int, v: int)
    requires 0 <= u < 0x1_0000 && 0 <= v < 0x1_0000 && Hex4(u) == Hex4(v)
    ensures u == v
  {
    Hex4Value(u);
    Hex4Value(v);
    assert Hex4(u)[0] == Hex4(v)[0] && Hex4(u)[1] == Hex4(v)[1];
    assert Hex4(u)[2] == Hex4(v)[2] && Hex4(u)[3] == Hex4(v)[3];
    HexDigitInjective(u / 4096, v / 4096);
    HexDigitInjective(u / 256 % 16, v / 256 % 16);
    HexDigitInjective(u / 16 % 16, v / 16 % 16);
    HexDigitInjective(u % 16, v % 16);
  }

  /** The second unit of a two-unit escape, or 0 for a unit without one. */
  function ShortEscape(u: int): int {
    if u == QUOTE then QUOTE
    else if u == BACKSLASH then BACKSLASH
    else if u == 8 then 98
    else if u == 12 then 102
    else if u == 10 then 110
    else if u == 13 then 114
    else if u == 9 then 116
    else 0
  }

  predicate LongEscape(u: int) {
    ShortEscape(u) == 0 && (u < 32 || HighSurrogate(u) || LowSurrogate(u))
  }

  lemma EscapeUnitShape(u: int)
    ensures EscapeUnit(u) ==
      if ShortEscape(u) != 0 then [BACKSLASH, ShortEscape(u)]
      else if LongEscape(u) then [BACKSLASH, 117] + Hex4(u) else [u]
  {
  }

  /** Escapes of single units form a prefix code. */
  lemma EscapeUnitUnique(u: int, x: Text, v: int, y: Text)
    requires 0 <= u < 0x1_0000 && 0 <= v < 0x1_0000
    requires EscapeUnit(u) + x == EscapeUnit(v) + y
    ensures u == v && x == y
  {
    EscapeUnitShape(u);
    EscapeUnitShape(v);
    var s, t := EscapeUnit(u) + x, EscapeUnit(v) + y;
    assert s[0] == EscapeUnit(u)[0] && t[0] == EscapeUnit(v)[0];
    if LongEscape(u) && LongEscape(v) {
      assert s[2..6] == Hex4(u) && t[2..6] == Hex4(v);
      Hex4Injective(u, v);
    } else {
      assert |EscapeUnit(u)| > 1 ==> s[1] == EscapeUnit(u)[1];
      assert |EscapeUnit(v)| > 1 ==> t[1] == EscapeUnit(v)[1];
    }
    assert x == s[|EscapeUnit(u)|..] == t[|EscapeUnit(v)|..] == y;
  }

  predicate StartsPair(s: Text) {
    |s| > 1 && HighSurrogate(s[0]) && LowSurrogate(s[1])
  }

  lemma EscapeHead(s: Text, r: Text)
    requires s != [] && ValidText(s)
    ensures var t := Escape(s) + [QUOTE] + r;
            && t != [] && t[0] != QUOTE
            && (StartsPair(s) <==> HighSurrogate(t[0]))
  {
    EscapeUnitShape(s[0]);
    assert (Escape(s) + [QUOTE] + r)[0] == Escape(s)[0];
  }

  lemma EscapePair(s: Text, r: Text)
    requires StartsPair(s)
    ensures Escape(s) + [QUOTE] + r == s[..2] + (Escape(s[2..]) + [QUOTE] + r)
  {
    assert Escape(s) == s[..2] + Escape(s[2..]);
    Reassociate(s[..2], Escape(s[2..]), [QUOTE], r);
  }

  lemma EscapeSingle(s: Text, r: Text)
    requires s != [] && !StartsPair(s)
    ensures Escape(s) + [QUOTE] + r == EscapeUnit(s[0]) + (Escape(s[1..]) + [QUOTE] + r)
  {
    assert Escape(s) == EscapeUnit(s[0]) + Escape(s[1..]);
    Reassociate(EscapeUnit(s[0]), Escape(s[1..]), [QUOTE], r);
  }

  lemma PrefixUnique(a: Text, x: Text, b: Text, y: Text)
    requires |a| == |b| && a + x == b + y
    ensures a == b && x == y
  {
    assert a == (a + x)[..|a|] == (b + y)[..|b|] == b;
    assert x == (a + x)[|a|..] == (b + y)[|b|..] == y;
  }

  /** An escaped string ends at the first bare quote. */
  lemma {:induction false} EscapeUnique(a: Text, r: Text, b: Text, s: Text)
    requires ValidText(a) && ValidText(b)
    requires Escape(a) + [QUOTE] + r == Escape(b) + [QUOTE] + s
    ensures a == b && r == s
    decreases |a|
  {
    if a != [] { EscapeHead(a, r); }
    if b != [] { EscapeHead(b, s); }
    if a == [] {
      EscapeEmpty(r);
      assert b == [];
      EscapeEmpty(s);
      PrefixUnique([QUOTE], r, [QUOTE], s);
    } else if b == [] {
      EscapeEmpty(s);
      assert false;
    } else if StartsPair(a) {
      EscapePair(a, r);
      EscapePair(b, s);
      PrefixUnique(a[..2], Escape(a[2..]) + [QUOTE] + r, b[..2], Escape(b[2..]) + [QUOTE] + s);
      EscapeUnique(a[2..], r, b[2..], s);
      assert a == a[..2] + a[2..] == b[..2] + b[2..] == b;
    } else {
      EscapeSingle(a, r);
      EscapeSingle(b, s);
      EscapeUnitUnique(a[0], Escape(a[1..]) + [QUOTE] + r, b[0], Escape(b[1..]) + [QUOTE] + s);
      EscapeUnique(a[1..], r, b[1..], s);
      assert a == [a[0]] + a[1..] == [b[0]] + b[1..] == b;
    }
  }

  lemma EscapeEmpty(r: Text)
    ensures Escape([]) + [QUOTE] + r == [QUOTE] + r
  {
  }

  lemma QuoteUnique(a: Text, r: Text, b: Text, s: Text)
    requires ValidText(a) && ValidText(b) && Quote(a) + r == Quote(b) + s
    ensures a == b && r == s
  {
    Reassociate([QUOTE], Escape(a), [QUOTE], r);
    Reassociate([QUOTE], Escape(b), [QUOTE], s);
    PrefixUnique([QUOTE], Escape(a) + [QUOTE] + r, [QUOTE], Escape(b) + [QUOTE] + s);
    EscapeUnique(a, r, b, s);
  }

  // ---- Unique readability of values ---------------------------------------------------------

  lemma PrintHead(v: Json)
    requires Valid(v)
    ensures Print(v) != []
    ensures Print(v)[0] == match v
      case Null => 110
      case Bool(b) => if b then 116 else 102
      case Num(n) => NumberText(n)[0]
      case BigInt(_) => QUOTE
      case Str(_) => QUOTE
      case Array(_) => OPEN_BRACKET
      case Object(_) => OPEN_BRACE
    ensures v.Num? ==> Print(v)[0] == MINUS || DIGIT_ZERO <= Print(v)[0] <= DIGIT_ZERO + 9
  {
    if v.Num? { NumberUnits(v.n); }
  }

  /** The first unit tells the kind of a value. */
  lemma SameKind(v: Json, r: Text, w: Json, s: Text)
    requires Plain(v) && Plain(w) && Print(v) + r == Print(w) + s
    ensures v.Null? == w.Null? && v.Num? == w.Num? && v.Str? == w.Str?
    ensures v.Bool? == w.Bool? && v.Array? == w.Array? && v.Object? == w.Object?
    ensures v.Bool? ==> v == w
  {
    PrintHead(v);
    PrintHead(w);
    assert (Print(v) + r)[0] == Print(v)[0] && (Print(w) + s)[0] == Print(w)[0];
  }

  lemma Bracketed(open: int, body: Text, close: int, rest: Text)
    ensures [open] + body + [close] + rest == [open] + (body + ([close] + rest))
  {
  }

  lemma ArrayBody(a: seq<Json>, r: Text, b: seq<Json>, s: Text)
    requires Print(Array(a)) + r == Print(Array(b)) + s
    ensures PrintItems(a) + ([CLOSE_BRACKET] + r) == PrintItems(b) + ([CLOSE_BRACKET] + s)
  {
    Bracketed(OPEN_BRACKET, PrintItems(a), CLOSE_BRACKET, r);
    Bracketed(OPEN_BRACKET, PrintItems(b), CLOSE_BRACKET, s);
    PrefixUnique([OPEN_BRACKET], PrintItems(a) + ([CLOSE_BRACKET] + r),
                 [OPEN_BRACKET], PrintItems(b) + ([CLOSE_BRACKET] + s));
  }

  lemma ObjectBody(a: seq<(Text, Json)>, r: Text, b: seq<(Text, Json)>, s: Text)
    requires Print(Object(a)) + r == Print(Object(b)) + s
    ensures PrintFields(a) + ([CLOSE_BRACE] + r) == PrintFields(b) + ([CLOSE_BRACE] + s)
  {
    Bracketed(OPEN_BRACE, PrintFields(a), CLOSE_BRACE, r);
    Bracketed(OPEN_BRACE, PrintFields(b), CLOSE_BRACE, s);
    PrefixUnique([OPEN_BRACE], PrintFields(a) + ([CLOSE_BRACE] + r),
                 [OPEN_BRACE], PrintFields(b) + ([CLOSE_BRACE] + s));
  }

  /** No text is the beginning of two readings: the value and what follows it are determined. */
  lemma {:induction false} ReadUnique(v: Json, r: Text, w: Json, s: Text)
    requires Plain(v) && Plain(w) && Ends(r) && Ends(s)
    requires Print(v) + r == Print(w) + s
    ensures v == w && r == s
    decreases v, 1
  {
    SameKind(v, r, w, s);
    match v
    case Null => PrefixUnique(NULL, r, NULL, s);
    case Bool(b) => PrefixUnique(Print(v), r, Print(w), s);
    case Num(n) => ReadNumberUnique(n, r, w.n, s);
    case Str(a) => QuoteUnique(a, r, w.s, s);
    case Array(items) =>
      ArrayBody(items, r, w.items, s);
      assert forall i :: 0 <= i < |items| ==> Plain(items[i]);
      assert forall i :: 0 <= i < |w.items| ==> Plain(w.items[i]);
      ReadItemsUnique(items, r, w.items, s);
    case Object(fields) =>
      ObjectBody(fields, r, w.fields, s);
      assert forall i :: 0 <= i < |fields| ==> PlainField(fields[i]);
      assert forall i :: 0 <= i < |w.fields| ==> PlainField(w.fields[i]);
      ReadFieldsUnique(fields, r, w.fields, s);
  }

  lemma ReadNumberUnique(m: Number, r: Text, n: Number, s: Text)
    requires ValidNumber(m) && ValidNumber(n) && Ends(r) && Ends(s)
    requires NumberText(m) + r == NumberText(n) + s
    ensures WithoutZeroSign(m) == WithoutZeroSign(n) && r == s
  {
    NumberUnits(m);
    NumberUnits(n);
    NumberEnds(NumberText(m), r, NumberText(n), s);
    NumberInjective(m, n);
  }

  /** What follows the first of several printed items. */
  function AfterItem(items: seq<Json>, rest: Text): (t: Text)
    requires items != []
    ensures t != [] && Ends(t) && (t[0] == COMMA <==> |items| > 1)
  {
    if |items| == 1 then [CLOSE_BRACKET] + rest else [COMMA] + (PrintItems(items[1..]) + ([CLOSE_BRACKET] + rest))
  }

  lemma Reassociate(a: Text, b: Text, c: Text, d: Text)
    ensures a + b + c + d == a + (b + (c + d)) == a + (b + c + d)
  {
  }

  lemma ItemsSplit(items: seq<Json>, rest: Text)
    requires items != [] && Valid(items[0])
    ensures PrintItems(items) + ([CLOSE_BRACKET] + rest) == Print(items[0]) + AfterItem(items, rest)
    ensures (Print(items[0]) + AfterItem(items, rest))[0] != CLOSE_BRACKET
  {
    var first, close := Print(items[0]), [CLOSE_BRACKET] + rest;
    PrintHead(items[0]);
    assert (first + AfterItem(items, rest))[0] == first[0];
    if |items| > 1 {
      assert PrintItems(items) == first + [COMMA] + PrintItems(items[1..]);
      Reassociate(first, [COMMA], PrintItems(items[1..]), close);
    }
  }

  /** An item list is empty exactly when its closing bracket comes first. */
  lemma ItemsHead(items: seq<Json>, rest: Text)
    requires items != [] ==> Valid(items[0])
    ensures var t := PrintItems(items) + ([CLOSE_BRACKET] + rest);
            && t != [] && (t[0] == CLOSE_BRACKET <==> items == [])
            && (items == [] ==> t == [CLOSE_BRACKET] + rest)
  {
    if items != [] { ItemsSplit(items, rest); }
  }

  lemma AfterItemUnique(a: seq<Json>, r: Text, b: seq<Json>, s: Text)
    requires a != [] && b != [] && AfterItem(a, r) == AfterItem(b, s)
    ensures |a| == 1 <==> |b| == 1
    ensures |a| == 1 ==> r == s
    ensures |a| > 1 ==> PrintItems(a[1..]) + ([CLOSE_BRACKET] + r) == PrintItems(b[1..]) + ([CLOSE_BRACKET] + s)
  {
    if |a| == 1 {
      PrefixUnique([CLOSE_BRACKET], r, [CLOSE_BRACKET], s);
    } else {
      PrefixUnique([COMMA], PrintItems(a[1..]) + ([CLOSE_BRACKET] + r),
                   [COMMA], PrintItems(b[1..]) + ([CLOSE_BRACKET] + s));
    }
  }

  lemma {:induction false} ReadItemsUnique(a: seq<Json>, r: Text, b: seq<Json>, s: Text)
    requires forall i :: 0 <= i < |a| ==> Plain(a[i])
    requires forall i :: 0 <= i < |b| ==> Plain(b[i])
    requires PrintItems(a) + ([CLOSE_BRACKET] + r) == PrintItems(b) + ([CLOSE_BRACKET] + s)
    ensures a == b && r == s
    decreases a, 0
  {
    assert a != [] ==> Plain(a[0]);
    assert b != [] ==> Plain(b[0]);
    ItemsHead(a, r);
    ItemsHead(b, s);
    if a == [] {
      PrefixUnique([CLOSE_BRACKET], r, [CLOSE_BRACKET], s);
    } else {
      ItemsSplit(a, r);
      ItemsSplit(b, s);
      ReadUnique(a[0], AfterItem(a, r), b[0], AfterItem(b, s));
      AfterItemUnique(a, r, b, s);
      assert a == [a[0]] + a[1..] && b == [b[0]] + b[1..];
      if |a| > 1 { ReadItemsUnique(a[1..], r, b[1..], s); }
    }
  }

  function AfterField(fields: seq<(Text, Json)>, rest: Text): (t: Text)
    requires fields != []
    ensures t != [] && Ends(t) && (t[0] == COMMA <==> |fields| > 1)
  {
    if |fields| == 1 then [CLOSE_BRACE] + rest else [COMMA] + (PrintFields(fields[1..]) + ([CLOSE_BRACE] + rest))
  }

  function FieldText(field: (Text, Json), rest: Text): Text {
    Quote(field.0) + ([COLON] + (Print(field.1) + rest))
  }

  lemma FieldsSplit(fields: seq<(Text, Json)>, rest: Text)
    requires fields != []
    ensures PrintFields(fields) + ([CLOSE_BRACE] + rest) == FieldText(fields[0], AfterField(fields, rest))
    ensures FieldText(fields[0], AfterField(fields, rest))[0] == QUOTE
  {
    var key, value := Quote(fields[0].0), Print(fields[0].1);
    if |fields| == 1 {
      assert PrintFields(fields) == key + [COLON] + value;
      Reassociate(key, [COLON], value, [CLOSE_BRACE] + rest);
    } else {
      var more, close := PrintFields(fields[1..]), [CLOSE_BRACE] + rest;
      assert PrintFields(fields) == key + [COLON] + value + [COMMA] + more;
      Reassociate(key + [COLON] + value, [COMMA], more, close);
      Reassociate(key, [COLON], value, [COMMA] + (more + close));
    }
  }

  ghost predicate PlainField(field: (Text, Json)) { ValidText(field.0) && Plain(field.1) }

  lemma FieldsHead(fields: seq<(Text, Json)>, rest: Text)
    ensures var t := PrintFields(fields) + ([CLOSE_BRACE] + rest);
            && t != [] && (t[0] == CLOSE_BRACE <==> fields == [])
            && (fields == [] ==> t == [CLOSE_BRACE] + rest)
  {
    if fields != [] { FieldsSplit(fields, rest); }
  }

  lemma AfterFieldUnique(a: seq<(Text, Json)>, r: Text, b: seq<(Text, Json)>, s: Text)
    requires a != [] && b != [] && AfterField(a, r) == AfterField(b, s)
    ensures |a| == 1 <==> |b| == 1
    ensures |a| == 1 ==> r == s
    ensures |a| > 1 ==> PrintFields(a[1..]) + ([CLOSE_BRACE] + r) == PrintFields(b[1..]) + ([CLOSE_BRACE] + s)
  {
    if |a| == 1 {
      PrefixUnique([CLOSE_BRACE], r, [CLOSE_BRACE], s);
    } else {
      PrefixUnique([COMMA], PrintFields(a[1..]) + ([CLOSE_BRACE] + r),
                   [COMMA], PrintFields(b[1..]) + ([CLOSE_BRACE] + s));
    }
  }

  lemma {:induction false} ReadFieldsUnique(a: seq<(Text, Json)>, r: Text, b: seq<(Text, Json)>, s: Text)
    requires forall i :: 0 <= i < |a| ==> PlainField(a[i])
    requires forall i :: 0 <= i < |b| ==> PlainField(b[i])
    requires PrintFields(a) + ([CLOSE_BRACE] + r) == PrintFields(b) + ([CLOSE_BRACE] + s)
    ensures a == b && r == s
    decreases a, 0
  {
    FieldsHead(a, r);
    FieldsHead(b, s);
    if a == [] {
      PrefixUnique([CLOSE_BRACE], r, [CLOSE_BRACE], s);
    } else {
      FieldsSplit(a, r);
      FieldsSplit(b, s);
      FirstFieldUnique(a[0], AfterField(a, r), b[0], AfterField(b, s));
      AfterFieldUnique(a, r, b, s);
      assert a == [a[0]] + a[1..] && b == [b[0]] + b[1..];
      if |a| > 1 { ReadFieldsUnique(a[1..], r, b[1..], s); }
    }
  }

  lemma {:induction false} FirstFieldUnique(f: (Text, Json), r: Text, g: (Text, Json), s: Text)
    requires PlainField(f) && PlainField(g) && Ends(r) && Ends(s)
    requires FieldText(f, r) == FieldText(g, s)
    ensures f == g && r == s
    decreases f, 2
  {
    var x, y := [COLON] + (Print(f.1) + r), [COLON] + (Print(g.1) + s);
    QuoteUnique(f.0, x, g.0, y);
    PrefixUnique([COLON], Print(f.1) + r, [COLON], Print(g.1) + s);
    ReadUnique(f.1, r, g.1, s);
  }

  // ---- The theorems ---------------------------------------------------------------------------

  lemma {:induction false} NormalizePlain(v: Json)
    requires Plain(v)
    ensures Plain(Normalize(v))
    decreases v
  {
    match v
    case Array(items) =>
      forall i | 0 <= i < |items| ensures Plain(Normalize(items[i])) {
        NormalizePlain(items[i]);
      }
    case Object(fields) =>
      NormalSorted(fields);
      var normal := Normalize(v).fields;
      forall k | 0 <= k < |normal| ensures PlainField(normal[k]) {
        assert normal[k] in normal;
        var i := NormalOrigin(fields, normal[k]);
        NormalizePlain(fields[i].1);
      }
    case _ =>
  }

  /**
   Two values have the same canonical text exactly when they are the same tree with
   map-like objects: the printer is injective and ignores the insertion order of keys.
   */
  lemma CanonicalDecidesSameness(v: Json, w: Json)
    requires Plain(v) && Plain(w)
    ensures Canonical(v) == Canonical(w) <==> Same(v, w)
  {
    CanonicalIsPrint(v);
    CanonicalIsPrint(w);
    NormalizePlain(v);
    NormalizePlain(w);
    SameMeansNormal(v, w);
    if Canonical(v) == Canonical(w) {
      assert Print(Normalize(v)) + [] == Print(Normalize(w)) + [];
      ReadUnique(Normalize(v), [], Normalize(w), []);
    }
  }

  /** Every bigint replaced by its decimal string and every negative zero by zero. */
  function Stringified(v: Json): Json
    decreases v
  {
    match v
    case BigInt(i) => Str(IntText(i))
    case Num(n) => Num(WithoutZeroSign(n))
    case Array(items) => Array(seq(|items|, i requires 0 <= i < |items| => Stringified(items[i])))
    case Object(fields) =>
      Object(seq(|fields|, i requires 0 <= i < |fields| => (fields[i].0, Stringified(fields[i].1))))
    case _ => v
  }

  lemma {:induction false} StringifiedPlain(v: Json)
    requires Valid(v)
    ensures Plain(Stringified(v)) && Canonical(Stringified(v)) == Canonical(v)
    decreases v
  {
    match v
    case BigInt(i) => NatTextShape(if i < 0 then -i else i);
    case Array(items) =>
      var mapped := Stringified(v).items;
      forall i | 0 <= i < |items| ensures Plain(mapped[i]) && Canonical(mapped[i]) == Canonical(items[i]) {
        StringifiedPlain(items[i]);
      }
      assert seq(|items|, i requires 0 <= i < |items| => Canonical(items[i]))
          == seq(|mapped|, i requires 0 <= i < |mapped| => Canonical(mapped[i]));
    case Object(fields) =>
      var mapped := Stringified(v).fields;
      forall i | 0 <= i < |fields|
        ensures Plain(mapped[i].1) && Canonical(mapped[i].1) == Canonical(fields[i].1)
      {
        StringifiedPlain(fields[i].1);
      }
      assert seq(|fields|, i requires 0 <= i < |fields| => (fields[i].0, Canonical(fields[i].1)))
          == seq(|mapped|, i requires 0 <= i < |mapped| => (mapped[i].0, Canonical(mapped[i].1)));
    case _ =>
  }

  /**
   On all values the printer is injective exactly up to reading a bigint as its decimal string and
   dropping the sign of zero.
   */
  lemma CanonicalDecidesStringified(v: Json, w: Json)
    requires Valid(v) && Valid(w)
    ensures Canonical(v) == Canonical(w) <==> Same(Stringified(v), Stringified(w))
  {
    StringifiedPlain(v);
    StringifiedPlain(w);
    CanonicalDecidesSameness(Stringified(v), Stringified(w));
  }

  /** A bigint and its decimal string are different values with one canonical text. */
  lemma BigIntCollision(i: int)
    ensures Canonical(BigInt(i)) == Canonical(Str(IntText(i)))
    ensures !Same(BigInt(i), Str(IntText(i)))
    ensures Valid(BigInt(i)) && Valid(Str(IntText(i)))
  {
    NatTextShape(if i < 0 then -i else i);
  }

  /** Negative zero and zero are different values with one canonical text, wherever they stand. */
  lemma ZeroCollision(before: seq<Json>, after: seq<Json>)
    ensures Canonical(Num(NegativeZero)) == Canonical(Num(Zero))
    ensures Canonical(Array(before + [Num(NegativeZero)] + after)) == Canonical(Array(before + [Num(Zero)] + after))
    ensures !Same(Num(NegativeZero), Num(Zero)) && Valid(Num(NegativeZero))
  {
    var a, b := before + [Num(NegativeZero)] + after, before + [Num(Zero)] + after;
    assert seq(|a|, i requires 0 <= i < |a| => Canonical(a[i])) == seq(|b|, i requires 0 <= i < |b| => Canonical(b[i]));
  }
}
