/**
 What the text under a tree digest reads as, by a reader that knows nothing of its printer: one
 list per entry, with its kind, its name and its details.
 */
module EntryReading {
  import opened Basics
  import opened Ordering
  import opened FileTrees
  import opened EntryText
  import opened JsonReader
  import opened CanonicalReading
  import J = CanonicalJson

  function Chars(s: string): Text { seq(|s|, i requires 0 <= i < |s| => s[i] as int) }

  /** A code point in UTF-16. */
  function Utf16Char(c: int): Text {
    if c < 0x1_0000 then [c] else [0xD800 + (c - 0x1_0000) / 0x400, 0xDC00 + (c - 0x1_0000) % 0x400]
  }

  function Utf16(s: Text): Text {
    if s == [] then [] else Utf16Char(s[0]) + Utf16(s[1..])
  }

  /** The value is this natural number, written without point and exponent. */
  ghost predicate IsWhole(x: Value, n: nat) {
    x.Number? && x.n == Numeral(false, x.n.whole, [], false, []) && IsNumeral(x.n.whole, n)
  }

  ghost predicate IsText(x: Value, s: Text) { x == String(Utf16(s)) }

  /** What one entry reads as. */
  ghost predicate EntryMeans(x: Value, n: Text, e: Entry, hex: Digest -> Text) {
    && x.List? && |x.items| >= 2 && IsText(x.items[1], n)
    && match e
       case DirectoryEntry(mode) =>
         |x.items| == 3 && IsText(x.items[0], Chars("directory")) && IsWhole(x.items[2], mode as nat)
       case SymlinkEntry(target) =>
         |x.items| == 3 && IsText(x.items[0], Chars("symlink")) && IsText(x.items[2], target)
       case FileEntry(mode, size, digest) =>
         && |x.items| == 5 && IsText(x.items[0], Chars("file")) && IsWhole(x.items[2], mode as nat)
         && IsWhole(x.items[3], size) && IsText(x.items[4], hex(digest))
       case HardlinkEntry(mode, canonical) =>
         && |x.items| == 4 && IsText(x.items[0], Chars("hardlink")) && IsWhole(x.items[2], mode as nat)
         && IsText(x.items[3], canonical)
  }

  // ---- Strings ------------------------------------------------------------------------------

  lemma AsciiUnitRead(u: int, r: Units)
    requires 0 <= u < 0x1_0000
    ensures ReadUnit(Onto(AsciiUnit(u), r)) == Some((u, r)) && !Starts(Onto(AsciiUnit(u), r), 34)
  {
    if J.ShortEscape(u) != 0 {
      OntoPair(92, J.ShortEscape(u), r);
    } else if 32 <= u <= 126 {
      OntoUnit(u, r);
    } else {
      OntoConcat([92, 117], J.Hex4(u), r);
      OntoPair(92, 117, Onto(J.Hex4(u), r));
      Hex4Read(u, r);
    }
  }

  /** Everything but printable ASCII is escaped, as are quote and backslash: the text is ASCII. */
  lemma AsciiForm(u: int)
    requires 0 <= u < 0x1_0000
    ensures |AsciiUnit(u)| == 1 <==> 32 <= u <= 126 && u != 34 && u != 92
    ensures forall i :: 0 <= i < |AsciiUnit(u)| ==> 32 <= AsciiUnit(u)[i] <= 126
  {
    J.Hex4Value(u);
  }

  /** One code point, read unit by unit. */
  lemma CharRead(c: int, more: Units, units: Text, r: Units)
    requires ValidChar(c) && ReadUnits(more) == Some((units, r))
    ensures ReadUnits(Onto(AsciiChar(c), more)) == Some((Utf16Char(c) + units, r))
  {
    UnitBounds(c);
    if c < 0x1_0000 {
      AsciiUnitRead(c, more);
      OneMoreUnit(Onto(AsciiUnit(c), more), c, more, units, r);
    } else {
      var second := Onto(AsciiUnit(SecondUnit(c)), more);
      AsciiUnitRead(SecondUnit(c), more);
      AsciiUnitRead(FirstUnit(c), second);
      OneMoreUnit(second, SecondUnit(c), more, units, r);
      OneMoreUnit(Onto(AsciiUnit(FirstUnit(c)), second), FirstUnit(c), second, [SecondUnit(c)] + units, r);
      OntoConcat(AsciiUnit(FirstUnit(c)), AsciiUnit(SecondUnit(c)), more);
      assert [FirstUnit(c)] + ([SecondUnit(c)] + units) == Utf16Char(c) + units;
    }
  }

  lemma {:induction false} EscapeRead(s: Text, r: Units)
    requires ValidName(s)
    ensures ReadUnits(Onto(AsciiEscape(s), Unit(34, r))) == Some((Utf16(s), r))
    decreases |s|
  {
    if s != [] {
      EscapeRead(s[1..], r);
      OntoConcat(AsciiChar(s[0]), AsciiEscape(s[1..]), Unit(34, r));
      CharRead(s[0], Onto(AsciiEscape(s[1..]), Unit(34, r)), Utf16(s[1..]), r);
    }
  }

  lemma StringThenRead(s: Text, rest: Text)
    requires ValidName(s)
    ensures ReadValue(Onto(StringThen(s, rest), End)) == Some((String(Utf16(s)), Onto(rest, End)))
  {
    var r := Onto(rest, End);
    EscapeRead(s, r);
    OntoConcat([34], AsciiEscape(s) + ([34] + rest), End);
    OntoConcat(AsciiEscape(s), [34] + rest, End);
    OntoConcat([34], rest, End);
    OntoUnit(34, r);
    OntoUnit(34, Onto(AsciiEscape(s), Unit(34, r)));
  }

  // ---- Numbers ------------------------------------------------------------------------------

  function Whole(n: nat): Value { Number(Numeral(false, J.NatText(n), [], false, [])) }

  lemma WholeMeans(n: nat)
    ensures IsWhole(Whole(n), n)
  {
    NatNumeral(n);
  }

  lemma NatRead(n: nat, rest: Text)
    requires Ends(Onto(rest, End))
    ensures ReadValue(Onto(J.NatText(n) + rest, End)) == Some((Whole(n), Onto(rest, End)))
  {
    var t, r := J.NatText(n), Onto(rest, End);
    NatNumeral(n);
    WholeRead(t, r);
    OntoConcat(t, rest, End);
    OntoHead(t, r);
    NumberByHead(Onto(t, r), Numeral(false, t, [], false, []), r);
  }

  // ---- Items --------------------------------------------------------------------------------

  lemma NextUnit(u: int, rest: Text)
    ensures Onto([u] + rest, End) == Unit(u, Onto(rest, End))
  {
    OntoConcat([u], rest, End);
    OntoUnit(u, Onto(rest, End));
  }

  lemma LastItem(t: Units, x: Value, r: Units)
    requires ReadValue(t) == Some((x, Unit(93, r)))
    ensures ReadItems(t) == Some(([x], r))
  {
  }

  lemma OneMoreItem(t: Units, x: Value, more: Units, items: seq<Value>, r: Units)
    requires ReadValue(t) == Some((x, Unit(44, more))) && ReadItems(more) == Some((items, r))
    ensures ReadItems(t) == Some(([x] + items, r))
  {
  }

  /** A string and a comma before more items. */
  lemma StringItem(s: Text, rest: Text, items: seq<Value>, r: Units)
    requires ValidName(s) && ReadItems(Onto(rest, End)) == Some((items, r))
    ensures ReadItems(Onto(StringThen(s, [44] + rest), End)) == Some(([String(Utf16(s))] + items, r))
  {
    StringThenRead(s, [44] + rest);
    NextUnit(44, rest);
    OneMoreItem(Onto(StringThen(s, [44] + rest), End), String(Utf16(s)), Onto(rest, End), items, r);
  }

  lemma LastString(s: Text, rest: Text)
    requires ValidName(s)
    ensures ReadItems(Onto(StringThen(s, [93] + rest), End)) == Some(([String(Utf16(s))], Onto(rest, End)))
  {
    StringThenRead(s, [93] + rest);
    NextUnit(93, rest);
    LastItem(Onto(StringThen(s, [93] + rest), End), String(Utf16(s)), Onto(rest, End));
  }

  lemma NatItem(n: nat, rest: Text, items: seq<Value>, r: Units)
    requires ReadItems(Onto(rest, End)) == Some((items, r))
    ensures ReadItems(Onto(J.NatText(n) + ([44] + rest), End)) == Some(([Whole(n)] + items, r))
  {
    NextUnit(44, rest);
    NatRead(n, [44] + rest);
    OneMoreItem(Onto(J.NatText(n) + ([44] + rest), End), Whole(n), Onto(rest, End), items, r);
  }

  lemma LastNat(n: nat, rest: Text)
    ensures ReadItems(Onto(J.NatText(n) + ([93] + rest), End)) == Some(([Whole(n)], Onto(rest, End)))
  {
    NextUnit(93, rest);
    NatRead(n, [93] + rest);
    LastItem(Onto(J.NatText(n) + ([93] + rest), End), Whole(n), Onto(rest, End));
  }

  // ---- Entries ------------------------------------------------------------------------------

  ghost predicate ValidDigests(hex: Digest -> Text) { forall d :: ValidName(hex(d)) }

  function Details(e: Entry, hex: Digest -> Text): seq<Value> {
    match e
    case DirectoryEntry(mode) => [Whole(mode as nat)]
    case SymlinkEntry(target) => [String(Utf16(target))]
    case FileEntry(mode, size, digest) => [Whole(mode as nat)] + ([Whole(size)] + [String(Utf16(hex(digest)))])
    case HardlinkEntry(mode, canonical) => [Whole(mode as nat)] + [String(Utf16(canonical))]
  }

  lemma DetailsRead(n: Text, e: Entry, hex: Digest -> Text, rest: Text)
    requires ValidEntry(n, e) && ValidDigests(hex)
    ensures ReadItems(Onto(DetailsThen(e, hex, [93] + rest), End)) == Some((Details(e, hex), Onto(rest, End)))
  {
    match e
    case DirectoryEntry(mode) => LastNat(mode as nat, rest);
    case SymlinkEntry(target) => LastString(target, rest);
    case FileEntry(mode, size, digest) =>
      var tail := StringThen(hex(digest), [93] + rest);
      LastString(hex(digest), rest);
      NatItem(size, tail, [String(Utf16(hex(digest)))], Onto(rest, End));
      NatItem(mode as nat, J.NatText(size) + ([44] + tail), [Whole(size)] + [String(Utf16(hex(digest)))], Onto(rest, End));
    case HardlinkEntry(mode, canonical) =>
      LastString(canonical, rest);
      NatItem(mode as nat, StringThen(canonical, [93] + rest), [String(Utf16(canonical))], Onto(rest, End));
  }

  function EntryValue(n: Text, e: Entry, hex: Digest -> Text): Value {
    List([String(Utf16(Kind(e)))] + ([String(Utf16(n))] + Details(e, hex)))
  }

  lemma EntryRead(n: Text, e: Entry, hex: Digest -> Text, rest: Text)
    requires ValidEntry(n, e) && ValidDigests(hex)
    ensures ReadValue(Onto(EntryThen(n, e, hex, rest), End)) == Some((EntryValue(n, e, hex), Onto(rest, End)))
    ensures Starts(Onto(EntryThen(n, e, hex, rest), End), 91)
  {
    var details := DetailsThen(e, hex, [93] + rest);
    DetailsRead(n, e, hex, rest);
    StringItem(n, details, Details(e, hex), Onto(rest, End));
    KindValid(e);
    var t := StringThen(Kind(e), [44] + StringThen(n, [44] + details));
    StringItem(Kind(e), StringThen(n, [44] + details), [String(Utf16(n))] + Details(e, hex), Onto(rest, End));
    NextUnit(91, t);
    StringStart(Kind(e), [44] + StringThen(n, [44] + details));
    Listed(Onto(t, End), [String(Utf16(Kind(e)))] + ([String(Utf16(n))] + Details(e, hex)), Onto(rest, End));
  }

  lemma StringStart(s: Text, rest: Text)
    ensures Starts(Onto(StringThen(s, rest), End), 34)
  {
    NextUnit(34, AsciiEscape(s) + ([34] + rest));
  }

  /** A bracket before items. */
  lemma Listed(t: Units, items: seq<Value>, r: Units)
    requires t.Unit? && t.head != 93 && ReadItems(t) == Some((items, r))
    ensures ReadValue(Unit(91, t)) == Some((List(items), r))
  {
  }

  lemma KindMeans(e: Entry)
    ensures Kind(e) == match e
      case DirectoryEntry(_) => Chars("directory")
      case SymlinkEntry(_) => Chars("symlink")
      case FileEntry(_, _, _) => Chars("file")
      case HardlinkEntry(_, _) => Chars("hardlink")
  {
  }

  /** A list of a kind, a name and details, item by item. */
  lemma ThreeItems(kind: Text, n: Text, x: Value)
    ensures [String(Utf16(kind))] + ([String(Utf16(n))] + [x]) == [String(Utf16(kind)), String(Utf16(n)), x]
  {
  }

  lemma DirectoryMeans(n: Text, mode: bv32, w: Value, hex: Digest -> Text)
    requires IsWhole(w, mode as nat)
    ensures EntryMeans(List([String(Utf16(Chars("directory")))] + ([String(Utf16(n))] + [w])), n, DirectoryEntry(mode), hex)
  {
    ThreeItems(Chars("directory"), n, w);
  }

  lemma SymlinkMeans(n: Text, target: Text, hex: Digest -> Text)
    ensures EntryMeans(List([String(Utf16(Chars("symlink")))] + ([String(Utf16(n))] + [String(Utf16(target))])),
                       n, SymlinkEntry(target), hex)
  {
    ThreeItems(Chars("symlink"), n, String(Utf16(target)));
  }

  lemma FileMeans(n: Text, mode: bv32, size: nat, digest: Digest, w: Value, x: Value, hex: Digest -> Text)
    requires IsWhole(w, mode as nat) && IsWhole(x, size)
    ensures EntryMeans(List([String(Utf16(Chars("file")))]
                            + ([String(Utf16(n))] + ([w] + ([x] + [String(Utf16(hex(digest)))])))),
                       n, FileEntry(mode, size, digest), hex)
  {
    var items := [String(Utf16(Chars("file"))), String(Utf16(n)), w, x, String(Utf16(hex(digest)))];
    assert [String(Utf16(Chars("file")))] + ([String(Utf16(n))] + ([w] + ([x] + [String(Utf16(hex(digest)))]))) == items;
  }

  lemma HardlinkMeans(n: Text, mode: bv32, canonical: Text, w: Value, hex: Digest -> Text)
    requires IsWhole(w, mode as nat)
    ensures EntryMeans(List([String(Utf16(Chars("hardlink")))]
                            + ([String(Utf16(n))] + ([w] + [String(Utf16(canonical))]))),
                       n, HardlinkEntry(mode, canonical), hex)
  {
    var items := [String(Utf16(Chars("hardlink"))), String(Utf16(n)), w, String(Utf16(canonical))];
    assert [String(Utf16(Chars("hardlink")))] + ([String(Utf16(n))] + ([w] + [String(Utf16(canonical))])) == items;
  }

  lemma EntryValueMeans(n: Text, e: Entry, hex: Digest -> Text)
    ensures EntryMeans(EntryValue(n, e, hex), n, e, hex)
  {
    KindMeans(e);
    match e
    case DirectoryEntry(mode) =>
      WholeMeans(mode as nat);
      DirectoryMeans(n, mode, Whole(mode as nat), hex);
    case SymlinkEntry(target) =>
      SymlinkMeans(n, target, hex);
    case FileEntry(mode, size, digest) =>
      WholeMeans(mode as nat);
      WholeMeans(size);
      FileMeans(n, mode, size, digest, Whole(mode as nat), Whole(size), hex);
    case HardlinkEntry(mode, canonical) =>
      WholeMeans(mode as nat);
      HardlinkMeans(n, mode, canonical, Whole(mode as nat), hex);
  }

  function EntryValues(entries: Entries, hex: Digest -> Text): seq<Value> {
    seq(|entries|, i requires 0 <= i < |entries| => EntryValue(entries[i].0, entries[i].1, hex))
  }

  lemma ValuesSplit(entries: Entries, hex: Digest -> Text)
    requires entries != []
    ensures EntryValues(entries, hex)
         == [EntryValue(entries[0].0, entries[0].1, hex)] + EntryValues(entries[1..], hex)
    ensures |entries| == 1 ==> EntryValues(entries, hex) == [EntryValue(entries[0].0, entries[0].1, hex)]
  {
  }

  /** The first entry, whatever comes after it. */
  lemma FirstRead(entries: Entries, hex: Digest -> Text)
    requires entries != [] && ValidEntry(entries[0].0, entries[0].1) && ValidDigests(hex)
    ensures Starts(Onto(Items(entries, hex), End), 91)
    ensures ReadValue(Onto(Items(entries, hex), End))
         == Some((EntryValue(entries[0].0, entries[0].1, hex), Onto(MoreItems(entries[1..], hex), End)))
  {
    EntryRead(entries[0].0, entries[0].1, hex, MoreItems(entries[1..], hex));
  }

  lemma MoreRead(entries: Entries, hex: Digest -> Text)
    requires entries != []
    ensures Onto(MoreItems(entries, hex), End) == Unit(44, Onto(Items(entries, hex), End))
  {
    NextUnit(44, Items(entries, hex));
  }

  lemma {:induction false} ItemsTextRead(entries: Entries, hex: Digest -> Text)
    requires entries != [] && ValidEntries(entries) && ValidDigests(hex)
    ensures ReadItems(Onto(Items(entries, hex), End)) == Some((EntryValues(entries, hex), End))
    ensures Starts(Onto(Items(entries, hex), End), 91)
    decreases |entries|
  {
    var t, first := Onto(Items(entries, hex), End), EntryValue(entries[0].0, entries[0].1, hex);
    FirstRead(entries, hex);
    ValuesSplit(entries, hex);
    if |entries| == 1 {
      assert entries[1..] == [];
      MoreIsEnd(hex);
      LastItem(t, first, End);
    } else {
      MoreRead(entries[1..], hex);
      ItemsTextRead(entries[1..], hex);
      OneMoreItem(t, first, Onto(Items(entries[1..], hex), End), EntryValues(entries[1..], hex), End);
    }
  }

  lemma MoreIsEnd(hex: Digest -> Text)
    ensures Onto(MoreItems([], hex), End) == Unit(93, End)
  {
    OntoUnit(93, End);
  }

  lemma EntriesTextIsList(entries: Entries, hex: Digest -> Text)
    requires ValidEntries(entries) && ValidDigests(hex)
    ensures ReadValue(Onto(EntriesText(entries, hex), End)) == Some((List(EntryValues(entries, hex)), End))
  {
    NextUnit(91, Items(entries, hex));
    if entries == [] {
      OntoUnit(93, End);
      assert EntryValues(entries, hex) == [];
    } else {
      ItemsTextRead(entries, hex);
      Listed(Onto(Items(entries, hex), End), EntryValues(entries, hex), End);
    }
  }

  /**
   The text under the digest is a JSON list without white space that has, for each entry in order, a
   list of its kind, its name and its details.
   */
  lemma EntriesTextReads(entries: Entries, hex: Digest -> Text)
    requires ValidEntries(entries) && ValidDigests(hex)
    ensures var read := ReadValue(Onto(EntriesText(entries, hex), End));
            && read.Some? && read.value.1 == End && read.value.0.List? && |read.value.0.items| == |entries|
            && forall i :: 0 <= i < |entries| ==> EntryMeans(read.value.0.items[i], entries[i].0, entries[i].1, hex)
  {
    EntriesTextIsList(entries, hex);
    forall i | 0 <= i < |entries|
      ensures EntryMeans(EntryValue(entries[i].0, entries[i].1, hex), entries[i].0, entries[i].1, hex)
    {
      EntryValueMeans(entries[i].0, entries[i].1, hex);
    }
  }
}
