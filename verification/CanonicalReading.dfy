/**
 What the canonical text of a value reads as, by a reader that knows nothing of the printer:
 the value itself, with the members of every object in increasing key order.
 */
module CanonicalReading {
  import opened Basics
  import opened Ordering
  import CanonicalJson
  import opened JsonReader

  lemma {:induction false} OntoConcat(a: Text, b: Text, r: Units)
    ensures Onto(a + b, r) == Onto(a, Onto(b, r))
  {
    if a == [] {
      assert a + b == b;
    } else {
      OntoConcat(a[1..], b, r);
      assert (a + b)[1..] == a[1..] + b;
    }
  }

  lemma OntoUnit(u: int, r: Units)
    ensures Onto([u], r) == Unit(u, r)
  {
    assert [u][1..] == [];
  }

  // ---- Digits -------------------------------------------------------------------------------

  predicate AllDigits(t: Text) { forall i :: 0 <= i < |t| ==> IsDigit(t[i]) }

  /** What is to be read does not go on with a digit. */
  predicate NoDigit(r: Units) { r.End? || !IsDigit(r.head) }

  lemma {:induction false} DigitsRead(d: Text, r: Units)
    requires AllDigits(d) && NoDigit(r)
    ensures ReadDigits(Onto(d, r)) == (d, r)
  {
    if d != [] {
      DigitsRead(d[1..], r);
      assert [d[0]] + d[1..] == d;
    }
  }

  lemma {:induction false} DigitsPrefix(t: Text, u: Text, n: nat)
    requires n <= |t| && n <= |u| && t[..n] == u[..n]
    ensures DigitsValue(t, n) == DigitsValue(u, n)
  {
    if n > 0 {
      assert t[n - 1] == t[..n][n - 1] && u[n - 1] == u[..n][n - 1];
      assert t[..n - 1] == t[..n][..n - 1] && u[..n - 1] == u[..n][..n - 1];
      DigitsPrefix(t, u, n - 1);
    }
  }

  /** The decimal numeral of a natural number: digits, and no zero in front of others. */
  ghost predicate IsNumeral(t: Text, n: nat) {
    t != [] && AllDigits(t) && DigitsValue(t, |t|) == n && (t[0] == 48 ==> t == [48])
  }

  lemma {:induction false} NatNumeral(n: nat)
    ensures IsNumeral(CanonicalJson.NatText(n), n)
  {
    if n >= 10 {
      var t, front := CanonicalJson.NatText(n), CanonicalJson.NatText(n / 10);
      NatNumeral(n / 10);
      DigitsPrefix(t, front, |front|);
      assert DigitsValue([48], 1) == 0;
    }
  }

  // ---- Numbers ------------------------------------------------------------------------------

  /** What may follow a number. */
  predicate Ends(r: Units) {
    r.End? || !(IsDigit(r.head) || r.head == 46 || r.head == 101 || r.head == 69)
  }

  /** The parts in which the digits `d` with exponent `n` are laid out: whole, with a point, small, or scientific. */
  function Laid(d: Text, n: int): Numeral
    requires d != []
  {
    if |d| <= n <= 21 then Numeral(false, d + CanonicalJson.Zeros(n - |d|), [], false, [])
    else if 0 < n <= 21 then Numeral(false, d[..n], d[n..], false, [])
    else if -6 < n <= 0 then Numeral(false, [48], CanonicalJson.Zeros(-n) + d, false, [])
    else Numeral(false, d[..1], d[1..], n <= 0, CanonicalJson.NatText(if n <= 0 then 1 - n else n - 1))
  }

  /** A magnitude without fraction and exponent. */
  lemma WholeRead(d: Text, r: Units)
    requires d != [] && AllDigits(d) && (d[0] == 48 ==> |d| == 1) && Ends(r)
    ensures ReadMagnitude(Onto(d, r)) == Some((Numeral(false, d, [], false, []), r))
  {
    DigitsRead(d, r);
  }

  /** A magnitude with fraction. */
  lemma PointRead(w: Text, f: Text, tail: Units, down: bool, e: Text, r: Units)
    requires w != [] && f != [] && AllDigits(w) && AllDigits(f) && (w[0] == 48 ==> |w| == 1)
    requires NoDigit(tail) && ReadExponent(tail) == Some((down, e, r))
    ensures ReadMagnitude(Onto(w, Unit(46, Onto(f, tail)))) == Some((Numeral(false, w, f, down, e), r))
  {
    DigitsRead(f, tail);
    DigitsRead(w, Unit(46, Onto(f, tail)));
  }

  lemma OntoPoint(w: Text, f: Text, tail: Units)
    ensures Onto(w + [46] + f, tail) == Onto(w, Unit(46, Onto(f, tail)))
  {
    OntoConcat(w + [46], f, tail);
    OntoConcat(w, [46], Onto(f, tail));
    OntoUnit(46, Onto(f, tail));
  }

  /** An exponent with its sign. */
  lemma ExponentRead(e: int, r: Units)
    requires NoDigit(r)
    ensures ReadExponent(Onto(CanonicalJson.ExponentText(e), r))
         == Some((e <= 0, CanonicalJson.NatText(if e < 0 then -e else e), r))
    ensures Starts(Onto(CanonicalJson.ExponentText(e), r), 101)
  {
    var n := CanonicalJson.NatText(if e < 0 then -e else e);
    NatNumeral(if e < 0 then -e else e);
    DigitsRead(n, r);
    ExponentOnto(e, r);
  }

  lemma ExponentOnto(e: int, r: Units)
    ensures Onto(CanonicalJson.ExponentText(e), r)
         == Unit(101, Unit(if e > 0 then 43 else 45, Onto(CanonicalJson.NatText(if e < 0 then -e else e), r)))
  {
    var n, tail := CanonicalJson.NatText(if e < 0 then -e else e), CanonicalJson.ExponentTail(e);
    OntoConcat([101], tail, r);
    OntoUnit(101, Onto(tail, r));
    OntoConcat([if e > 0 then 43 else 45], n, r);
    OntoUnit(if e > 0 then 43 else 45, Onto(n, r));
  }

  /** What the layout reads as. */
  ghost predicate LaidOut(d: Text, n: int, r: Units)
    requires d != []
  {
    ReadMagnitude(Onto(CanonicalJson.Layout(d, n), r)) == Some((Laid(d, n), r))
  }

  lemma WholeLayout(d: Text, n: int, r: Units)
    requires d != [] && AllDigits(d) && d[0] != 48 && Ends(r) && |d| <= n <= 21
    ensures LaidOut(d, n, r)
  {
    assert (d + CanonicalJson.Zeros(n - |d|))[0] == d[0];
    WholeRead(d + CanonicalJson.Zeros(n - |d|), r);
  }

  lemma PointLayout(d: Text, n: int, r: Units)
    requires AllDigits(d) && 0 < n < |d| && n <= 21 && d[0] != 48 && Ends(r)
    ensures LaidOut(d, n, r)
  {
    OntoPoint(d[..n], d[n..], r);
    PointRead(d[..n], d[n..], r, false, [], r);
  }

  lemma SmallText(d: Text, n: int)
    requires d != [] && -6 < n <= 0
    ensures CanonicalJson.Layout(d, n) == [48] + [46] + (CanonicalJson.Zeros(-n) + d)
  {
  }

  lemma SmallLayout(d: Text, n: int, r: Units)
    requires d != [] && AllDigits(d) && d[0] != 48 && Ends(r) && -6 < n <= 0
    ensures LaidOut(d, n, r)
  {
    var f := CanonicalJson.Zeros(-n) + d;
    SmallText(d, n);
    OntoPoint([48], f, r);
    PointRead([48], f, r, false, [], r);
  }

  lemma ScientificLayout(d: Text, n: int, r: Units)
    requires d != [] && AllDigits(d) && d[0] != 48 && NoDigit(r) && (n > 21 || n <= -6)
    ensures LaidOut(d, n, r)
  {
    var text := CanonicalJson.ExponentText(n - 1);
    ExponentRead(n - 1, r);
    OntoConcat(CanonicalJson.Mantissa(d), text, r);
    if |d| == 1 {
      assert d[..1] == d && d[1..] == [];
      DigitsRead(d, Onto(text, r));
    } else {
      OntoPoint(d[..1], d[1..], Onto(text, r));
      PointRead(d[..1], d[1..], Onto(text, r), n <= 0, CanonicalJson.NatText(if n <= 0 then 1 - n else n - 1), r);
    }
  }

  lemma LayoutRead(d: Text, n: int, r: Units)
    requires d != [] && AllDigits(d) && d[0] != 48 && Ends(r)
    ensures LaidOut(d, n, r)
  {
    if |d| <= n <= 21 { WholeLayout(d, n, r); }
    else if 0 < n <= 21 { PointLayout(d, n, r); }
    else if -6 < n <= 0 { SmallLayout(d, n, r); }
    else { ScientificLayout(d, n, r); }
  }

  /** The parts of a printed number. */
  function NumeralOf(n: CanonicalJson.Number): Numeral {
    if n.Decimal? && n.digits != [] then Laid(CanonicalJson.DigitText(n.digits), n.exponent).(negative := n.negative)
    else Numeral(false, [48], [], false, [])
  }

  /** Every printed number reads as its parts. */
  lemma NumberRead(n: CanonicalJson.Number, r: Units)
    requires CanonicalJson.ValidNumber(n) && Ends(r)
    ensures ReadNumber(Onto(CanonicalJson.NumberText(n), r)) == Some((NumeralOf(n), r))
  {
    match n
    case Decimal(negative, digits, exponent) => SignedRead(negative, CanonicalJson.DigitText(digits), exponent, r);
    case _ => ZeroRead(r);
  }

  lemma ZeroRead(r: Units)
    requires Ends(r)
    ensures ReadNumber(Onto([48], r)) == Some((Numeral(false, [48], [], false, []), r))
  {
    WholeRead([48], r);
    OntoUnit(48, r);
  }

  lemma SignedRead(negative: bool, d: Text, n: int, r: Units)
    requires CanonicalJson.Trimmed(d) && Ends(r)
    ensures ReadNumber(Onto((if negative then [45] else []) + CanonicalJson.Layout(d, n), r))
         == Some((Laid(d, n).(negative := negative), r))
  {
    var l := CanonicalJson.Layout(d, n);
    LayoutRead(d, n, r);
    CanonicalJson.LayoutUnits(d, n);
    OntoConcat(if negative then [45] else [], l, r);
    OntoUnit(45, Onto(l, r));
  }

  /** The text is the digits with zeros around them. */
  ghost predicate Padded(t: Text, before: nat, digits: seq<int>, after: nat) {
    && digits != [] && digits[0] != 0 && digits[|digits| - 1] != 0 && |t| == before + |digits| + after
    && (forall i :: 0 <= i < before ==> t[i] == 48)
    && (forall i :: 0 <= i < |digits| ==> t[before + i] == 48 + digits[i])
    && (forall i :: before + |digits| <= i < |t| ==> t[i] == 48)
  }

  lemma FirstIs(t: Text, before: nat, digits: seq<int>, after: nat)
    requires Padded(t, before, digits, after)
    ensures First(t, 0) == before
  {
    assert t[before + 0] != 48;
  }

  lemma LastIs(t: Text, before: nat, digits: seq<int>, after: nat)
    requires Padded(t, before, digits, after)
    ensures Last(t, |t|) == before + |digits|
  {
    assert t[before + (|digits| - 1)] != 48;
  }

  /** Zeros around digits only move the point. */
  lemma PlacedIs(negative: bool, t: Text, point: int, before: nat, digits: seq<int>, after: nat)
    requires Padded(t, before, digits, after)
    ensures Placed(negative, t, point) == Decimal(negative, digits, point - before)
  {
    FirstIs(t, before, digits, after);
    LastIs(t, before, digits, after);
  }

  lemma DenotedIs(l: Numeral, negative: bool, point: int, before: nat, digits: seq<int>, after: nat)
    requires CanonicalJson.Trimmed(CanonicalJson.DigitText(digits)) && PointOf(l) == point
    requires l.whole + l.fraction
          == CanonicalJson.Zeros(before) + (CanonicalJson.DigitText(digits) + CanonicalJson.Zeros(after))
    ensures Denoted(l.(negative := negative)) == Decimal(negative, digits, point - before)
  {
    PaddedIs(l.whole + l.fraction, before, digits, after);
    PlacedIs(negative, l.whole + l.fraction, point, before, digits, after);
  }

  /** However digits are laid out, the number is the same. */
  lemma LaidValue(digits: seq<int>, n: int, negative: bool)
    requires CanonicalJson.Trimmed(CanonicalJson.DigitText(digits))
    ensures Denoted(Laid(CanonicalJson.DigitText(digits), n).(negative := negative)) == Decimal(negative, digits, n)
  {
    LaidDigits(digits, n);
    LaidPoint(digits, n);
    DenotedIs(Laid(CanonicalJson.DigitText(digits), n), negative, if -6 < n <= 0 then 1 else n,
              if -6 < n <= 0 then 1 - n else 0, digits, if |digits| <= n <= 21 then n - |digits| else 0);
  }

  lemma PaddedIs(t: Text, before: nat, digits: seq<int>, after: nat)
    requires CanonicalJson.Trimmed(CanonicalJson.DigitText(digits))
    requires t == CanonicalJson.Zeros(before) + (CanonicalJson.DigitText(digits) + CanonicalJson.Zeros(after))
    ensures Padded(t, before, digits, after)
  {
    var d := CanonicalJson.DigitText(digits);
    assert d[0] == 48 + digits[0] && d[|d| - 1] == 48 + digits[|digits| - 1];
    assert forall i :: 0 <= i < |digits| ==> t[before + i] == d[i];
  }

  function PointOf(l: Numeral): int {
    |l.whole| + if l.down then -DigitsValue(l.exponent, |l.exponent|) else DigitsValue(l.exponent, |l.exponent|)
  }

  lemma LaidDigits(digits: seq<int>, n: int)
    requires digits != []
    ensures var l, d := Laid(CanonicalJson.DigitText(digits), n), CanonicalJson.DigitText(digits);
            l.whole + l.fraction == CanonicalJson.Zeros(if -6 < n <= 0 then 1 - n else 0)
              + (d + CanonicalJson.Zeros(if |digits| <= n <= 21 then n - |digits| else 0))
  {
  }

  lemma LaidPoint(digits: seq<int>, n: int)
    requires digits != []
    ensures PointOf(Laid(CanonicalJson.DigitText(digits), n)) == if -6 < n <= 0 then 1 else n
  {
    if n > 21 || n <= -6 { NatNumeral(if n <= 0 then 1 - n else n - 1); }
  }

  lemma ZeroValue()
    ensures Denoted(Numeral(false, [48], [], false, [])) == Decimal(false, [], 0)
  {
    assert First([48] + [], 0) == 1;
  }

  // ---- Strings ------------------------------------------------------------------------------

  lemma HexRead(d: int)
    requires 0 <= d < 16
    ensures HexValue(CanonicalJson.HexDigit(d)) == Some(d)
  {
  }

  lemma Hex4Read(u: int, r: Units)
    requires 0 <= u < 0x1_0000
    ensures ReadHex(Onto(CanonicalJson.Hex4(u), r)) == Some((u, r))
  {
    CanonicalJson.Hex4Value(u);
    HexRead(u / 4096);
    HexRead(u / 256 % 16);
    HexRead(u / 16 % 16);
    HexRead(u % 16);
    OntoFour(CanonicalJson.Hex4(u), r);
  }

  lemma OntoFour(t: Text, r: Units)
    requires |t| == 4
    ensures Onto(t, r) == Unit(t[0], Unit(t[1], Unit(t[2], Unit(t[3], r))))
  {
    assert t == [t[0]] + ([t[1]] + ([t[2]] + [t[3]]));
    OntoConcat([t[0]], [t[1]] + ([t[2]] + [t[3]]), r);
    OntoConcat([t[1]], [t[2]] + [t[3]], r);
    OntoConcat([t[2]], [t[3]], r);
  }

  lemma UnitRead(u: int, r: Units)
    requires 0 <= u < 0x1_0000
    ensures ReadUnit(Onto(CanonicalJson.EscapeUnit(u), r)) == Some((u, r))
    ensures !Starts(Onto(CanonicalJson.EscapeUnit(u), r), 34)
  {
    CanonicalJson.EscapeUnitShape(u);
    if CanonicalJson.LongEscape(u) {
      OntoConcat([92] + [117], CanonicalJson.Hex4(u), r);
      OntoPair(92, 117, Onto(CanonicalJson.Hex4(u), r));
      Hex4Read(u, r);
    } else if CanonicalJson.ShortEscape(u) != 0 {
      OntoPair(92, CanonicalJson.ShortEscape(u), r);
    } else {
      OntoUnit(u, r);
    }
  }

  lemma OntoPair(u: int, w: int, r: Units)
    ensures Onto([u, w], r) == Unit(u, Unit(w, r)) && Onto([u] + [w], r) == Unit(u, Unit(w, r))
  {
    assert [u, w] == [u] + [w];
    OntoConcat([u], [w], r);
    OntoUnit(w, r);
    OntoUnit(u, Onto([w], r));
  }

  lemma OneMoreUnit(t: Units, u: int, more: Units, units: Text, r: Units)
    requires !Starts(t, 34) && ReadUnit(t) == Some((u, more)) && ReadUnits(more) == Some((units, r))
    ensures ReadUnits(t) == Some(([u] + units, r))
  {
  }

  lemma PairRead(s: Text, more: Units, r: Units)
    requires CanonicalJson.StartsPair(s) && ReadUnits(more) == Some((s[2..], r))
    ensures ReadUnits(Onto(s[..2], more)) == Some((s, r))
  {
    OneMoreUnit(Unit(s[1], more), s[1], more, s[2..], r);
    OneMoreUnit(Unit(s[0], Unit(s[1], more)), s[0], Unit(s[1], more), [s[1]] + s[2..], r);
    assert s[..2] == [s[0], s[1]];
    OntoPair(s[0], s[1], more);
    assert [s[0]] + ([s[1]] + s[2..]) == s;
  }

  /** Every escaped string reads as the string, up to its closing quote. */
  lemma {:induction false} UnitsRead(s: Text, r: Units)
    requires CanonicalJson.ValidText(s)
    ensures ReadUnits(Onto(CanonicalJson.Escape(s), Unit(34, r))) == Some((s, r))
    decreases |s|
  {
    if s == [] {
    } else if CanonicalJson.StartsPair(s) {
      UnitsRead(s[2..], r);
      OntoConcat(s[..2], CanonicalJson.Escape(s[2..]), Unit(34, r));
      PairRead(s, Onto(CanonicalJson.Escape(s[2..]), Unit(34, r)), r);
    } else {
      var more := Onto(CanonicalJson.Escape(s[1..]), Unit(34, r));
      UnitsRead(s[1..], r);
      OntoConcat(CanonicalJson.EscapeUnit(s[0]), CanonicalJson.Escape(s[1..]), Unit(34, r));
      UnitRead(s[0], more);
      OneMoreUnit(Onto(CanonicalJson.EscapeUnit(s[0]), more), s[0], more, s[1..], r);
      assert [s[0]] + s[1..] == s;
    }
  }

  lemma Enclosed(open: int, t: Text, close: int, r: Units)
    ensures Onto([open] + t + [close], r) == Unit(open, Onto(t, Unit(close, r)))
  {
    OntoConcat([open] + t, [close], r);
    OntoConcat([open], t, Onto([close], r));
    OntoUnit(close, r);
    OntoUnit(open, Onto(t, Unit(close, r)));
  }

  lemma StringRead(s: Text, r: Units)
    requires CanonicalJson.ValidText(s)
    ensures ReadString(Onto(CanonicalJson.Quote(s), r)) == Some((s, r)) && Starts(Onto(CanonicalJson.Quote(s), r), 34)
  {
    UnitsRead(s, r);
    Enclosed(34, CanonicalJson.Escape(s), 34, r);
  }

  // ---- Values -------------------------------------------------------------------------------

  /** What a value reads as when printed in its own order; a bigint reads as a string. */
  function Reading(v: CanonicalJson.Json): Value
    decreases v
  {
    match v
    case Null => Nothing
    case Bool(b) => Boolean(b)
    case Num(n) => Number(NumeralOf(n))
    case BigInt(i) => String(CanonicalJson.IntText(i))
    case Str(s) => String(s)
    case Array(items) => List(seq(|items|, i requires 0 <= i < |items| => Reading(items[i])))
    case Object(fields) => Record(seq(|fields|, i requires 0 <= i < |fields| => (fields[i].0, Reading(fields[i].1))))
  }

  /** The printed value reads as its reading, and the reading ends where the value does. */
  ghost predicate ReadsBack(v: CanonicalJson.Json, r: Units) {
    ReadValue(Onto(CanonicalJson.Print(v), r)) == Some((Reading(v), r))
  }

  lemma ReadStr(s: Text, r: Units)
    requires CanonicalJson.ValidText(s)
    ensures ReadValue(Onto(CanonicalJson.Quote(s), r)) == Some((String(s), r))
  {
    StringRead(s, r);
  }

  lemma OntoHead(t: Text, r: Units)
    requires t != []
    ensures Onto(t, r).Unit? && Onto(t, r).head == t[0]
  {
  }

  lemma NumberByHead(t: Units, n: Numeral, r: Units)
    requires t.Unit? && (t.head == 45 || IsDigit(t.head)) && ReadNumber(t) == Some((n, r))
    ensures ReadValue(t) == Some((Number(n), r))
  {
  }

  lemma ReadNum(n: CanonicalJson.Number, r: Units)
    requires CanonicalJson.ValidNumber(n) && Ends(r)
    ensures ReadValue(Onto(CanonicalJson.NumberText(n), r)) == Some((Number(NumeralOf(n)), r))
  {
    NumberRead(n, r);
    CanonicalJson.NumberUnits(n);
    OntoHead(CanonicalJson.NumberText(n), r);
    NumberByHead(Onto(CanonicalJson.NumberText(n), r), NumeralOf(n), r);
  }

  lemma ReadWords(r: Units)
    ensures ReadValue(Onto(CanonicalJson.NULL, r)) == Some((Nothing, r))
    ensures ReadValue(Onto(CanonicalJson.TRUE, r)) == Some((Boolean(true), r))
    ensures ReadValue(Onto(CanonicalJson.FALSE, r)) == Some((Boolean(false), r))
  {
    OntoFour([110, 117, 108, 108], r);
    OntoFour([116, 114, 117, 101], r);
    OntoFour([97, 108, 115, 101], r);
    assert [102, 97, 108, 115, 101] == [102] + [97, 108, 115, 101];
    OntoConcat([102], [97, 108, 115, 101], r);
    OntoUnit(102, Onto([97, 108, 115, 101], r));
  }

  lemma IntTextValid(i: int)
    ensures CanonicalJson.ValidText(CanonicalJson.IntText(i))
  {
    CanonicalJson.NatTextShape(if i < 0 then -i else i);
  }

  /** Every value reads back, whatever follows it that does not go on with a number. */
  lemma {:induction false} PrintRead(v: CanonicalJson.Json, r: Units)
    requires CanonicalJson.Valid(v) && Ends(r)
    ensures ReadsBack(v, r)
    decreases v, 1
  {
    match v
    case Null => ReadWords(r);
    case Bool(_) => ReadWords(r);
    case Num(n) => ReadNum(n, r);
    case BigInt(i) =>
      IntTextValid(i);
      ReadStr(CanonicalJson.IntText(i), r);
    case Str(s) => ReadStr(s, r);
    case Array(items) =>
      if items != [] {
        ItemsRead(items, r);
        PrintHead(items[0], AfterItem(items, r));
      }
      ListRead(items, r);
    case Object(fields) =>
      if fields != [] { MembersRead(fields, r); }
      RecordRead(fields, r);
  }

  lemma ListRead(items: seq<CanonicalJson.Json>, r: Units)
    requires var t := Onto(CanonicalJson.PrintItems(items), Unit(93, r));
             items != [] ==> t.Unit? && t.head != 93 && ReadItems(t) == Some((Reading(CanonicalJson.Array(items)).items, r))
    ensures ReadsBack(CanonicalJson.Array(items), r)
  {
    Enclosed(91, CanonicalJson.PrintItems(items), 93, r);
    if items == [] { assert Reading(CanonicalJson.Array(items)).items == []; }
  }

  lemma RecordRead(fields: seq<(Text, CanonicalJson.Json)>, r: Units)
    requires var t := Onto(CanonicalJson.PrintFields(fields), Unit(125, r));
             fields != [] ==>
               Starts(t, 34) && ReadMembers(t) == Some((Reading(CanonicalJson.Object(fields)).members, r))
    ensures ReadsBack(CanonicalJson.Object(fields), r)
  {
    Enclosed(123, CanonicalJson.PrintFields(fields), 125, r);
    if fields == [] { assert Reading(CanonicalJson.Object(fields)).members == []; }
  }

  /** No value begins like the end of a list. */
  lemma PrintHead(v: CanonicalJson.Json, r: Units)
    requires CanonicalJson.Valid(v)
    ensures Onto(CanonicalJson.Print(v), r).Unit? && !Starts(Onto(CanonicalJson.Print(v), r), 93)
  {
    CanonicalJson.PrintHead(v);
  }

  /** What follows the first of several printed items. */
  function AfterItem(items: seq<CanonicalJson.Json>, r: Units): (t: Units)
    requires items != []
    ensures Ends(t)
  {
    if |items| == 1 then Unit(93, r) else Unit(44, Onto(CanonicalJson.PrintItems(items[1..]), Unit(93, r)))
  }

  lemma ItemsSplit(items: seq<CanonicalJson.Json>, r: Units)
    requires items != []
    ensures Onto(CanonicalJson.PrintItems(items), Unit(93, r)) == Onto(CanonicalJson.Print(items[0]), AfterItem(items, r))
  {
    if |items| > 1 {
      var more := CanonicalJson.PrintItems(items[1..]);
      OntoConcat(CanonicalJson.Print(items[0]) + [44], more, Unit(93, r));
      OntoConcat(CanonicalJson.Print(items[0]), [44], Onto(more, Unit(93, r)));
      OntoUnit(44, Onto(more, Unit(93, r)));
    }
  }

  lemma ReadingItems(items: seq<CanonicalJson.Json>)
    requires items != []
    ensures Reading(CanonicalJson.Array(items)).items
         == [Reading(items[0])] + Reading(CanonicalJson.Array(items[1..])).items
    ensures |items| == 1 ==> Reading(CanonicalJson.Array(items)).items == [Reading(items[0])]
  {
  }

  lemma {:induction false} ItemsRead(items: seq<CanonicalJson.Json>, r: Units)
    requires items != [] && forall i :: 0 <= i < |items| ==> CanonicalJson.Valid(items[i])
    ensures ReadItems(Onto(CanonicalJson.PrintItems(items), Unit(93, r)))
         == Some((Reading(CanonicalJson.Array(items)).items, r))
    ensures Onto(CanonicalJson.PrintItems(items), Unit(93, r)) == Onto(CanonicalJson.Print(items[0]), AfterItem(items, r))
    decreases items, 0
  {
    assert CanonicalJson.Valid(items[0]);
    ItemsSplit(items, r);
    PrintRead(items[0], AfterItem(items, r));
    ReadingItems(items);
    if |items| > 1 { ItemsRead(items[1..], r); }
  }

  /** What follows the first of several printed fields. */
  function AfterField(fields: seq<(Text, CanonicalJson.Json)>, r: Units): (t: Units)
    requires fields != []
    ensures Ends(t)
  {
    if |fields| == 1 then Unit(125, r) else Unit(44, Onto(CanonicalJson.PrintFields(fields[1..]), Unit(125, r)))
  }

  function FieldUnits(field: (Text, CanonicalJson.Json), r: Units): Units {
    Onto(CanonicalJson.Quote(field.0), Unit(58, Onto(CanonicalJson.Print(field.1), r)))
  }

  lemma FieldOnto(field: (Text, CanonicalJson.Json), r: Units)
    ensures Onto(CanonicalJson.Quote(field.0) + [58] + CanonicalJson.Print(field.1), r) == FieldUnits(field, r)
  {
    var key, value := CanonicalJson.Quote(field.0), CanonicalJson.Print(field.1);
    OntoConcat(key + [58], value, r);
    OntoConcat(key, [58], Onto(value, r));
    OntoUnit(58, Onto(value, r));
  }

  lemma FieldsSplit(fields: seq<(Text, CanonicalJson.Json)>, r: Units)
    requires fields != []
    ensures Onto(CanonicalJson.PrintFields(fields), Unit(125, r)) == FieldUnits(fields[0], AfterField(fields, r))
  {
    FieldOnto(fields[0], AfterField(fields, r));
    if |fields| > 1 {
      var first, more := CanonicalJson.Quote(fields[0].0) + [58] + CanonicalJson.Print(fields[0].1),
                         CanonicalJson.PrintFields(fields[1..]);
      OntoConcat(first + [44], more, Unit(125, r));
      OntoConcat(first, [44], Onto(more, Unit(125, r)));
      OntoUnit(44, Onto(more, Unit(125, r)));
    }
  }

  lemma {:induction false} MemberRead(field: (Text, CanonicalJson.Json), r: Units)
    requires CanonicalJson.ValidText(field.0) && CanonicalJson.Valid(field.1) && Ends(r)
    ensures ReadMember(FieldUnits(field, r)) == Some(((field.0, Reading(field.1)), r))
    ensures Starts(FieldUnits(field, r), 34)
    decreases field, 2
  {
    PrintRead(field.1, r);
    StringRead(field.0, Unit(58, Onto(CanonicalJson.Print(field.1), r)));
  }

  lemma ReadingMembers(fields: seq<(Text, CanonicalJson.Json)>)
    requires fields != []
    ensures Reading(CanonicalJson.Object(fields)).members
         == [(fields[0].0, Reading(fields[0].1))] + Reading(CanonicalJson.Object(fields[1..])).members
    ensures |fields| == 1 ==> Reading(CanonicalJson.Object(fields)).members == [(fields[0].0, Reading(fields[0].1))]
  {
  }

  lemma {:induction false} MembersRead(fields: seq<(Text, CanonicalJson.Json)>, r: Units)
    requires fields != []
    requires forall i :: 0 <= i < |fields| ==> CanonicalJson.ValidText(fields[i].0) && CanonicalJson.Valid(fields[i].1)
    ensures ReadMembers(Onto(CanonicalJson.PrintFields(fields), Unit(125, r)))
         == Some((Reading(CanonicalJson.Object(fields)).members, r))
    ensures Starts(Onto(CanonicalJson.PrintFields(fields), Unit(125, r)), 34)
    decreases fields, 0
  {
    FieldsSplit(fields, r);
    MemberRead(fields[0], AfterField(fields, r));
    ReadingMembers(fields);
    if |fields| > 1 { MembersRead(fields[1..], r); }
  }

  // ---- The form of the leaves -----------------------------------------------------------------

  /**
   Of the ways to write a unit the printer takes the shortest: as it is, but for quote, backslash,
   controls and halves of surrogate pairs; two units for seven of those; \u and four lower-case
   hexadecimal digits for the rest.
   */
  lemma EscapeForm(u: int)
    requires 0 <= u < 0x1_0000
    ensures var e, bare, short := CanonicalJson.EscapeUnit(u),
                u >= 32 && u != 34 && u != 92 && !(0xD800 <= u <= 0xDFFF), u in {8, 9, 10, 12, 13, 34, 92};
            && |e| == (if bare then 1 else if short then 2 else 6)
            && (!bare ==> e[0] == 92 && (e[1] == 117 <==> !short))
            && forall i :: 2 <= i < |e| ==> 48 <= e[i] <= 57 || 97 <= e[i] <= 102
  {
    CanonicalJson.Hex4Value(u);
  }

  /**
   Of the ways to write the digits d1..dk and the exponent n the printer takes ECMAScript's: with a
   lower-case e and a signed exponent exactly when n is above 21 or at most -6, and then with one
   digit before the point; otherwise with a point exactly when there are digits after it.
   */
  lemma LayoutForm(d: Text, n: int)
    requires CanonicalJson.Trimmed(d)
    ensures var t, scientific := CanonicalJson.Layout(d, n), n > 21 || n <= -6;
            && 69 !in t && (101 in t <==> scientific)
            && (scientific ==>
                  var m := if |d| == 1 then 1 else |d| + 1;
                  && |t| > m + 2 && t[0] == d[0] && (|d| > 1 ==> t[1] == 46)
                  && t[m] == 101 && t[m + 1] == (if n > 21 then 43 else 45))
            && (!scientific ==> (46 in t <==> n < |d|))
  {
    CanonicalJson.LayoutUnits(d, n);
    if n > 21 || n <= -6 { ScientificForm(d, n); }
  }

  lemma ScientificForm(d: Text, n: int)
    requires CanonicalJson.Trimmed(d) && (n > 21 || n <= -6)
    ensures var t, m := CanonicalJson.Layout(d, n), if |d| == 1 then 1 else |d| + 1;
            && |t| > m + 2 && t[0] == d[0] && (|d| > 1 ==> t[1] == 46)
            && t[m] == 101 && t[m + 1] == (if n > 21 then 43 else 45)
  {
    var m, e := CanonicalJson.Mantissa(d), CanonicalJson.NatText(if n <= 0 then 1 - n else n - 1);
    CanonicalJson.NatTextShape(if n <= 0 then 1 - n else n - 1);
    InTheMiddle(m, 101, if n > 21 then 43 else 45, e);
    CanonicalJson.Reassociate(m, [101], [if n > 21 then 43 else 45], e);
  }

  lemma InTheMiddle(a: Text, u: int, w: int, b: Text)
    requires a != [] && b != []
    ensures var t := a + ([101] + ([w] + b));
            u == 101 ==> |t| > |a| + 2 && t[..|a|] == a && t[|a|] == u && t[|a| + 1] == w
  {
  }

  // ---- The theorem --------------------------------------------------------------------------

  /** The decimal numeral of an integer: a minus sign if it is negative, digits, no leading zero. */
  ghost predicate IntegerText(t: Text, i: int) {
    if i < 0 then t != [] && t[0] == 45 && IsNumeral(t[1..], -i) else IsNumeral(t, i)
  }

  /** Keys in strictly increasing order of code units. */
  ghost predicate KeysIncrease(members: seq<(Text, Value)>) {
    forall i, j :: 0 <= i < j < |members| ==> Less(members[i].0, members[j].0)
  }

  /**
   What was read is the value: a number with the same sign, digits and point but for the sign of
   zero, a bigint as the string of its decimal numeral, an array item by item, and an object as its
   fields, each once, in increasing key order.
   */
  ghost predicate Means(x: Value, v: CanonicalJson.Json)
    decreases v
  {
    match v
    case Null => x == Nothing
    case Bool(b) => x == Boolean(b)
    case Num(Decimal(negative, digits, exponent)) => x.Number? && Denoted(x.n) == Decimal(negative, digits, exponent)
    case Num(_) => x.Number? && Denoted(x.n) == Decimal(false, [], 0)
    case BigInt(i) => x.String? && IntegerText(x.units, i)
    case Str(s) => x == String(s)
    case Array(items) =>
      x.List? && |x.items| == |items| && forall i :: 0 <= i < |items| ==> Means(x.items[i], items[i])
    case Object(fields) =>
      && x.Record? && |x.members| == |fields| && KeysIncrease(x.members)
      && forall i :: 0 <= i < |fields| ==> HasMember(x.members, fields[i])
  }

  ghost predicate HasMember(members: seq<(Text, Value)>, field: (Text, CanonicalJson.Json))
    decreases field
  {
    assert field.1 < field;
    exists k :: 0 <= k < |members| && members[k].0 == field.0 && Means(members[k].1, field.1)
  }

  lemma NumeralValue(n: CanonicalJson.Number)
    requires CanonicalJson.ValidNumber(n)
    ensures Denoted(NumeralOf(n)) == if n.Decimal? then Decimal(n.negative, n.digits, n.exponent) else Decimal(false, [], 0)
  {
    if n.Decimal? { LaidValue(n.digits, n.exponent, n.negative); } else { ZeroValue(); }
  }

  lemma IntegerRead(i: int)
    ensures IntegerText(CanonicalJson.IntText(i), i)
  {
    NatNumeral(if i < 0 then -i else i);
    assert i < 0 ==> CanonicalJson.IntText(i)[1..] == CanonicalJson.NatText(-i);
  }

  lemma SortedIncrease(fields: seq<(Text, CanonicalJson.Json)>)
    requires DistinctKeys(fields)
    ensures KeysIncrease(Reading(CanonicalJson.Normalize(CanonicalJson.Object(fields))).members)
  {
    CanonicalJson.NormalSorted(fields);
    var normal := CanonicalJson.Normalize(CanonicalJson.Object(fields)).fields;
    forall i, j | 0 <= i < j < |normal| ensures Less(normal[i].0, normal[j].0) {
      LessTotal(normal[i].0, normal[j].0);
    }
  }

  lemma NormalLength(fields: seq<(Text, CanonicalJson.Json)>)
    ensures |CanonicalJson.Normalize(CanonicalJson.Object(fields)).fields| == |fields|
  {
    var normal := seq(|fields|, i requires 0 <= i < |fields| => (fields[i].0, CanonicalJson.Normalize(fields[i].1)));
    SortIsSorted(normal);
  }

  lemma {:induction false} ReadingMeans(v: CanonicalJson.Json)
    requires CanonicalJson.Valid(v)
    ensures Means(Reading(CanonicalJson.Normalize(v)), v)
    decreases v, 1
  {
    match v
    case Num(n) => NumeralValue(n);
    case BigInt(i) => IntegerRead(i);
    case Array(items) =>
      forall i | 0 <= i < |items| ensures Means(Reading(CanonicalJson.Normalize(items[i])), items[i]) {
        ReadingMeans(items[i]);
      }
    case Object(fields) =>
      SortedIncrease(fields);
      NormalLength(fields);
      forall i | 0 <= i < |fields|
        ensures HasMember(Reading(CanonicalJson.Normalize(v)).members, fields[i])
      {
        ReadingMeans(fields[i].1);
        FieldRead(fields, i);
      }
    case _ =>
  }

  lemma FieldRead(fields: seq<(Text, CanonicalJson.Json)>, i: nat)
    requires i < |fields| && Means(Reading(CanonicalJson.Normalize(fields[i].1)), fields[i].1)
    ensures HasMember(Reading(CanonicalJson.Normalize(CanonicalJson.Object(fields))).members, fields[i])
  {
    var normal := CanonicalJson.Normalize(CanonicalJson.Object(fields)).fields;
    CanonicalJson.NormalMember(fields, i);
    var k :| 0 <= k < |normal| && normal[k] == (fields[i].0, CanonicalJson.Normalize(fields[i].1));
    var members := Reading(CanonicalJson.Normalize(CanonicalJson.Object(fields))).members;
    assert members[k] == (normal[k].0, Reading(normal[k].1));
  }

  lemma {:induction false} NormalizeValid(v: CanonicalJson.Json)
    requires CanonicalJson.Valid(v)
    ensures CanonicalJson.Valid(CanonicalJson.Normalize(v))
    decreases v
  {
    match v
    case Array(items) =>
      forall i | 0 <= i < |items| ensures CanonicalJson.Valid(CanonicalJson.Normalize(items[i])) {
        NormalizeValid(items[i]);
      }
    case Object(fields) =>
      CanonicalJson.NormalSorted(fields);
      var normal := CanonicalJson.Normalize(v).fields;
      forall k | 0 <= k < |normal| ensures CanonicalJson.ValidText(normal[k].0) && CanonicalJson.Valid(normal[k].1) {
        assert normal[k] in normal;
        var i := CanonicalJson.NormalOrigin(fields, normal[k]);
        NormalizeValid(fields[i].1);
      }
    case _ =>
  }

  /**
   The canonical text of every value is a JSON text without white space, and what it reads as is the
   value itself, with the members of every object in increasing key order.
   */
  lemma CanonicalReads(v: CanonicalJson.Json)
    requires CanonicalJson.Valid(v)
    ensures var read := ReadValue(Onto(CanonicalJson.Canonical(v), End));
            read.Some? && read.value.1 == End && Means(read.value.0, v)
  {
    var normal := CanonicalJson.Normalize(v);
    CanonicalJson.CanonicalIsPrint(v);
    NormalizeValid(v);
    PrintRead(normal, End);
    ReadingMeans(v);
  }
}
