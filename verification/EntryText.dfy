/**
 The text whose SHA-256 is the tree digest: the sorted entries as compact ASCII JSON. Different
 entries have different texts, so the digest may stand for the entries themselves.
 */
module EntryText {
  import opened Ordering
  import opened FileTrees
  import J = CanonicalJson

  // ---- Strings -----------------------------------------------------------------------------------

  /** `json.dumps` with `ensure_ascii`, for one UTF-16 unit. */
  function AsciiUnit(u: int): Text {
    if J.ShortEscape(u) != 0 then [J.BACKSLASH, J.ShortEscape(u)]
    else if 32 <= u <= 126 then [u]
    else [J.BACKSLASH, 117] + J.Hex4(u)
  }

  function FirstUnit(c: int): int { if c < 0x1_0000 then c else 0xD800 + (c - 0x1_0000) / 1024 }

  function SecondUnit(c: int): int { 0xDC00 + (c - 0x1_0000) % 1024 }

  /** One code point: those beyond the basic plane become two escapes. */
  function AsciiChar(c: int): Text {
    if c < 0x1_0000 then AsciiUnit(c) else AsciiUnit(FirstUnit(c)) + AsciiUnit(SecondUnit(c))
  }

  /** A file name as Python decodes it: undecodable bytes become low surrogates, never high ones. */
  predicate ValidChar(c: int) { 0 <= c <= 0x10_FFFF && !J.HighSurrogate(c) }

  predicate ValidName(t: Text) { forall i :: 0 <= i < |t| ==> ValidChar(t[i]) }

  function AsciiEscape(s: Text): Text {
    if s == [] then [] else AsciiChar(s[0]) + AsciiEscape(s[1..])
  }

  /** A string, and what is printed after it. */
  function StringThen(s: Text, rest: Text): Text { [J.QUOTE] + (AsciiEscape(s) + ([J.QUOTE] + rest)) }

  lemma AsciiUnitUnique(u: int, x: Text, v: int, y: Text)
    requires 0 <= u < 0x1_0000 && 0 <= v < 0x1_0000 && AsciiUnit(u) + x == AsciiUnit(v) + y
    ensures u == v && x == y
  {
    var s, t := AsciiUnit(u) + x, AsciiUnit(v) + y;
    assert s[0] == AsciiUnit(u)[0] && t[0] == AsciiUnit(v)[0];
    assert |AsciiUnit(u)| > 1 ==> s[1] == AsciiUnit(u)[1];
    assert |AsciiUnit(v)| > 1 ==> t[1] == AsciiUnit(v)[1];
    if |AsciiUnit(u)| == 6 && |AsciiUnit(v)| == 6 {
      assert s[2..6] == J.Hex4(u) && t[2..6] == J.Hex4(v);
      J.Hex4Injective(u, v);
    }
    assert x == s[|AsciiUnit(u)|..] == t[|AsciiUnit(v)|..] == y;
  }

  lemma Regroup(a: Text, b: Text, c: Text)
    ensures a + b + c == a + (b + c)
  {
  }

  /** What follows the first unit of a code point. */
  function AfterFirst(c: int, x: Text): Text { if c < 0x1_0000 then x else AsciiUnit(SecondUnit(c)) + x }

  lemma CharSplit(c: int, x: Text)
    ensures AsciiChar(c) + x == AsciiUnit(FirstUnit(c)) + AfterFirst(c, x)
  {
    if c >= 0x1_0000 { Regroup(AsciiUnit(FirstUnit(c)), AsciiUnit(SecondUnit(c)), x); }
  }

  /** Of valid code points, exactly those beyond the basic plane have a high surrogate as first unit. */
  lemma UnitBounds(c: int)
    requires ValidChar(c)
    ensures 0 <= FirstUnit(c) < 0x1_0000 && (J.HighSurrogate(FirstUnit(c)) <==> c >= 0x1_0000)
    ensures c >= 0x1_0000 ==> 0 <= SecondUnit(c) < 0x1_0000 && c == 0x1_0000 + (FirstUnit(c) - 0xD800) * 1024 + SecondUnit(c) - 0xDC00
  {
  }

  lemma AsciiCharUnique(c: int, x: Text, d: int, y: Text)
    requires ValidChar(c) && ValidChar(d) && AsciiChar(c) + x == AsciiChar(d) + y
    ensures c == d && x == y
  {
    CharSplit(c, x);
    CharSplit(d, y);
    UnitBounds(c);
    UnitBounds(d);
    AsciiUnitUnique(FirstUnit(c), AfterFirst(c, x), FirstUnit(d), AfterFirst(d, y));
    if c >= 0x1_0000 { AsciiUnitUnique(SecondUnit(c), x, SecondUnit(d), y); }
  }

  lemma {:induction false} AsciiEscapeUnique(a: Text, r: Text, b: Text, s: Text)
    requires ValidName(a) && ValidName(b) && AsciiEscape(a) + ([J.QUOTE] + r) == AsciiEscape(b) + ([J.QUOTE] + s)
    ensures a == b && r == s
    decreases |a|
  {
    EscapeStart(a, r);
    EscapeStart(b, s);
    if a == [] {
      J.PrefixUnique([J.QUOTE], r, [J.QUOTE], s);
    } else {
      AsciiCharUnique(a[0], AsciiEscape(a[1..]) + ([J.QUOTE] + r), b[0], AsciiEscape(b[1..]) + ([J.QUOTE] + s));
      AsciiEscapeUnique(a[1..], r, b[1..], s);
      assert a == [a[0]] + a[1..] && b == [b[0]] + b[1..];
    }
  }

  /** A bare quote comes first exactly when the string is at its end. */
  lemma EscapeStart(a: Text, r: Text)
    ensures var t := AsciiEscape(a) + ([J.QUOTE] + r);
            && t != [] && (t[0] == J.QUOTE <==> a == [])
            && (a == [] ==> t == [J.QUOTE] + r)
            && (a != [] ==> t == AsciiChar(a[0]) + (AsciiEscape(a[1..]) + ([J.QUOTE] + r)))
  {
    if a != [] {
      Regroup(AsciiChar(a[0]), AsciiEscape(a[1..]), [J.QUOTE] + r);
      CharStart(a[0], AsciiEscape(a[1..]) + ([J.QUOTE] + r));
    }
  }

  lemma CharStart(c: int, x: Text)
    ensures AsciiChar(c) + x != [] && (AsciiChar(c) + x)[0] != J.QUOTE
  {
    CharSplit(c, x);
    assert (AsciiUnit(FirstUnit(c)) + AfterFirst(c, x))[0] == AsciiUnit(FirstUnit(c))[0];
  }

  lemma StringUnique(a: Text, r: Text, b: Text, s: Text)
    requires ValidName(a) && ValidName(b) && StringThen(a, r) == StringThen(b, s)
    ensures a == b && r == s
  {
    J.PrefixUnique([J.QUOTE], AsciiEscape(a) + ([J.QUOTE] + r), [J.QUOTE], AsciiEscape(b) + ([J.QUOTE] + s));
    AsciiEscapeUnique(a, r, b, s);
  }

  lemma NumberUnique(m: nat, r: Text, n: nat, s: Text)
    requires J.Ends(r) && J.Ends(s) && J.NatText(m) + r == J.NatText(n) + s
    ensures m == n && r == s
  {
    J.NatTextShape(m);
    J.NatTextShape(n);
    J.NumberEnds(J.NatText(m), r, J.NatText(n), s);
    J.NatTextInjective(m, n);
  }

  // ---- Entries -------------------------------------------------------------------------------------

  const DIRECTORY: Text := [100, 105, 114, 101, 99, 116, 111, 114, 121]
  const SYMLINK: Text := [115, 121, 109, 108, 105, 110, 107]
  const FILE: Text := [102, 105, 108, 101]
  const HARDLINK: Text := [104, 97, 114, 100, 108, 105, 110, 107]

  function Kind(e: Entry): Text {
    match e
    case DirectoryEntry(_) => DIRECTORY
    case SymlinkEntry(_) => SYMLINK
    case FileEntry(_, _, _) => FILE
    case HardlinkEntry(_, _) => HARDLINK
  }

  /** What follows kind and name; `hex` prints a digest. */
  function DetailsThen(e: Entry, hex: Digest -> Text, rest: Text): Text {
    match e
    case DirectoryEntry(mode) => J.NatText(mode as nat) + rest
    case SymlinkEntry(target) => StringThen(target, rest)
    case FileEntry(mode, size, digest) =>
      J.NatText(mode as nat) + ([J.COMMA] + (J.NatText(size) + ([J.COMMA] + StringThen(hex(digest), rest))))
    case HardlinkEntry(mode, canonical) => J.NatText(mode as nat) + ([J.COMMA] + StringThen(canonical, rest))
  }

  function EntryThen(n: Text, e: Entry, hex: Digest -> Text, rest: Text): Text {
    [J.OPEN_BRACKET]
    + StringThen(Kind(e), [J.COMMA] + StringThen(n, [J.COMMA] + DetailsThen(e, hex, [J.CLOSE_BRACKET] + rest)))
  }

  /** The entries from the first on, and the closing bracket. */
  function Items(entries: Entries, hex: Digest -> Text): Text
    decreases |entries|, 0
  {
    if entries == [] then [J.CLOSE_BRACKET]
    else EntryThen(entries[0].0, entries[0].1, hex, MoreItems(entries[1..], hex))
  }

  function MoreItems(entries: Entries, hex: Digest -> Text): Text
    decreases |entries|, 1
  {
    if entries == [] then [J.CLOSE_BRACKET] else [J.COMMA] + Items(entries, hex)
  }

  function EntriesText(entries: Entries, hex: Digest -> Text): Text {
    [J.OPEN_BRACKET] + Items(entries, hex)
  }

  predicate ValidEntry(n: Text, e: Entry) {
    && ValidName(n) && (e.SymlinkEntry? ==> ValidName(e.target)) && (e.HardlinkEntry? ==> ValidName(e.canonical))
  }

  ghost predicate ValidEntries(entries: Entries) {
    forall i :: 0 <= i < |entries| ==> ValidEntry(entries[i].0, entries[i].1)
  }

  /** Digests print as texts of their own. */
  ghost predicate PrintsDigests(hex: Digest -> Text) {
    (forall d :: ValidName(hex(d))) && forall c, d :: hex(c) == hex(d) ==> c == d
  }

  lemma ModeUnique(m: bv32, n: bv32)
    requires m as nat == n as nat
    ensures m == n
  {
    assert m == (m as nat) as bv32 && n == (n as nat) as bv32;
  }

  lemma KindUnique(e: Entry, f: Entry)
    requires Kind(e) == Kind(f)
    ensures e.DirectoryEntry? == f.DirectoryEntry? && e.SymlinkEntry? == f.SymlinkEntry? && e.FileEntry? == f.FileEntry?
  {
    assert |DIRECTORY| == 9 && |SYMLINK| == 7 && |FILE| == 4 && |HARDLINK| == 8;
  }

  lemma DetailsUnique(e: Entry, x: Text, f: Entry, y: Text, n: Text, hex: Digest -> Text)
    requires Kind(e) == Kind(f) && ValidEntry(n, e) && ValidEntry(n, f) && PrintsDigests(hex)
    requires J.Ends(x) && J.Ends(y) && DetailsThen(e, hex, x) == DetailsThen(f, hex, y)
    ensures e == f && x == y
  {
    KindUnique(e, f);
    match e
    case DirectoryEntry(mode) =>
      NumberUnique(mode as nat, x, f.mode as nat, y);
      ModeUnique(mode, f.mode);
    case SymlinkEntry(target) => StringUnique(target, x, f.target, y);
    case FileEntry(mode, size, digest) =>
      var a, b := StringThen(hex(digest), x), StringThen(hex(f.digest), y);
      NumberUnique(mode as nat, [J.COMMA] + (J.NatText(size) + ([J.COMMA] + a)),
                   f.mode as nat, [J.COMMA] + (J.NatText(f.size) + ([J.COMMA] + b)));
      ModeUnique(mode, f.mode);
      J.PrefixUnique([J.COMMA], J.NatText(size) + ([J.COMMA] + a), [J.COMMA], J.NatText(f.size) + ([J.COMMA] + b));
      NumberUnique(size, [J.COMMA] + a, f.size, [J.COMMA] + b);
      J.PrefixUnique([J.COMMA], a, [J.COMMA], b);
      StringUnique(hex(digest), x, hex(f.digest), y);
    case HardlinkEntry(mode, canonical) =>
      var a, b := StringThen(canonical, x), StringThen(f.canonical, y);
      NumberUnique(mode as nat, [J.COMMA] + a, f.mode as nat, [J.COMMA] + b);
      ModeUnique(mode, f.mode);
      J.PrefixUnique([J.COMMA], a, [J.COMMA], b);
      StringUnique(canonical, x, f.canonical, y);
  }

  lemma KindValid(e: Entry)
    ensures ValidName(Kind(e))
  {
  }

  lemma EntryUnique(m: Text, e: Entry, x: Text, n: Text, f: Entry, y: Text, hex: Digest -> Text)
    requires ValidEntry(m, e) && ValidEntry(n, f) && PrintsDigests(hex)
    requires EntryThen(m, e, hex, x) == EntryThen(n, f, hex, y)
    ensures m == n && e == f && x == y
  {
    var a, b := DetailsThen(e, hex, [J.CLOSE_BRACKET] + x), DetailsThen(f, hex, [J.CLOSE_BRACKET] + y);
    var c, d := StringThen(m, [J.COMMA] + a), StringThen(n, [J.COMMA] + b);
    J.PrefixUnique([J.OPEN_BRACKET], StringThen(Kind(e), [J.COMMA] + c), [J.OPEN_BRACKET], StringThen(Kind(f), [J.COMMA] + d));
    KindValid(e);
    KindValid(f);
    StringUnique(Kind(e), [J.COMMA] + c, Kind(f), [J.COMMA] + d);
    J.PrefixUnique([J.COMMA], c, [J.COMMA], d);
    StringUnique(m, [J.COMMA] + a, n, [J.COMMA] + b);
    J.PrefixUnique([J.COMMA], a, [J.COMMA], b);
    DetailsUnique(e, [J.CLOSE_BRACKET] + x, f, [J.CLOSE_BRACKET] + y, m, hex);
    J.PrefixUnique([J.CLOSE_BRACKET], x, [J.CLOSE_BRACKET], y);
  }

  lemma {:induction false} ItemsUnique(a: Entries, b: Entries, hex: Digest -> Text)
    requires ValidEntries(a) && ValidEntries(b) && PrintsDigests(hex)
    requires Items(a, hex) == Items(b, hex)
    ensures a == b
  {
    BothEmpty(a, b, hex);
    if a != [] {
      FirstUnique(a, b, hex);
      MoreItemsUnique(a[1..], b[1..], hex);
      ItemsUnique(a[1..], b[1..], hex);
      HeadAndTail(a, b);
    }
  }

  lemma HeadAndTail(a: Entries, b: Entries)
    requires a != [] && b != [] && a[0] == b[0] && a[1..] == b[1..]
    ensures a == b
  {
    assert a == [a[0]] + a[1..] && b == [b[0]] + b[1..];
  }

  lemma BothEmpty(a: Entries, b: Entries, hex: Digest -> Text)
    requires Items(a, hex) == Items(b, hex)
    ensures a == [] <==> b == []
  {
    ItemsStart(a, hex);
    ItemsStart(b, hex);
  }

  lemma FirstUnique(a: Entries, b: Entries, hex: Digest -> Text)
    requires a != [] && b != [] && ValidEntry(a[0].0, a[0].1) && ValidEntry(b[0].0, b[0].1) && PrintsDigests(hex)
    requires Items(a, hex) == Items(b, hex)
    ensures a[0] == b[0] && MoreItems(a[1..], hex) == MoreItems(b[1..], hex)
  {
    EntryUnique(a[0].0, a[0].1, MoreItems(a[1..], hex), b[0].0, b[0].1, MoreItems(b[1..], hex), hex);
  }

  lemma MoreItemsUnique(a: Entries, b: Entries, hex: Digest -> Text)
    requires MoreItems(a, hex) == MoreItems(b, hex)
    ensures (a == [] <==> b == []) && Items(a, hex) == Items(b, hex)
  {
    assert MoreItems(a, hex)[0] == if a == [] then J.CLOSE_BRACKET else J.COMMA;
    assert MoreItems(b, hex)[0] == if b == [] then J.CLOSE_BRACKET else J.COMMA;
    if a != [] { J.PrefixUnique([J.COMMA], Items(a, hex), [J.COMMA], Items(b, hex)); }
  }

  /** The closing bracket comes first exactly when there are no entries. */
  lemma ItemsStart(a: Entries, hex: Digest -> Text)
    ensures Items(a, hex) != [] && Items(a, hex)[0] == if a == [] then J.CLOSE_BRACKET else J.OPEN_BRACKET
  {
  }

  /** Printing the entries loses nothing. */
  lemma EntriesTextInjective(a: Entries, b: Entries, hex: Digest -> Text)
    requires ValidEntries(a) && ValidEntries(b) && PrintsDigests(hex)
    ensures EntriesText(a, hex) == EntriesText(b, hex) <==> a == b
  {
    if EntriesText(a, hex) == EntriesText(b, hex) {
      J.PrefixUnique([J.OPEN_BRACKET], Items(a, hex), [J.OPEN_BRACKET], Items(b, hex));
      ItemsUnique(a, b, hex);
    }
  }

  /** Two names with a high surrogate collide with one without: the condition on names is needed. */
  lemma SurrogatePairCollides()
    ensures AsciiEscape([0xD800, 0xDC00]) == AsciiEscape([0x1_0000])
  {
    assert [0xD800, 0xDC00][1..] == [0xDC00] && [0xDC00][1..] == [] && [0x1_0000][1..] == [];
    assert AsciiEscape([0xDC00]) == AsciiChar(0xDC00) + AsciiEscape([]);
  }
}
