/** The fingerprint of an archive, computed from its members without extracting it. */
module ArchiveFingerprints {
  import opened Basics
  import opened Ordering
  import opened PathNames
  import opened FileTrees
  import opened ArchiveMembers

  ghost predicate NoDuplicates(s: seq<Text>) { forall i, j :: 0 <= i < j < |s| ==> s[i] != s[j] }

  /** A dictionary's keys in the order they were put in. */
  ghost predicate Enumerates(s: seq<Text>, keys: set<Text>) {
    NoDuplicates(s) && forall n :: n in s <==> n in keys
  }

  // ---- First loop: reading the members -----------------------------------------------------------

  datatype Contents = Contents(
    entries: Entries,                                    // directories and symbolic links
    files: map<Text, FileInfo>, fileOrder: seq<Text>,
    links: Links, linkOrder: seq<Text>)

  ghost predicate Plain(index: map<Text, Member>, n: Text, e: Entry) {
    && n in index
    && match index[n].kind
       case DirectoryMember => e == DirectoryEntry(InputMode(index[n].mode))
       case SymlinkMember(target) => e == SymlinkEntry(target)
       case _ => false
  }

  ghost predicate PlainName(index: map<Text, Member>, n: Text) {
    n in index && (index[n].kind.DirectoryMember? || index[n].kind.SymlinkMember?)
  }

  ghost predicate PlainEntries(index: map<Text, Member>, entries: Entries) {
    && DistinctKeys(entries)
    && (forall i :: 0 <= i < |entries| ==> Plain(index, entries[i].0, entries[i].1))
    && (forall n :: PlainName(index, n) ==> n in Names(entries))
  }

  ghost predicate Reads(c: Contents, index: map<Text, Member>) {
    && AreFiles(c.files, index) && AreLinks(c.links, index)
    && Enumerates(c.fileOrder, c.files.Keys) && Enumerates(c.linkOrder, c.links.Keys)
    && PlainEntries(index, c.entries)
  }

  lemma AddPlain(c: Contents, index: map<Text, Member>, n: Text, m: Member, e: Entry)
    requires Reads(c, index) && n !in index && Plain(index[n := m], n, e)
    ensures Reads(c.(entries := c.entries + [(n, e)]), index[n := m])
  {
    var more := c.entries + [(n, e)];
    assert forall k :: IsFile(index[n := m], k) <==> IsFile(index, k);
    assert forall k :: IsLink(index[n := m], k) <==> IsLink(index, k);
    forall i | 0 <= i < |more| ensures Plain(index[n := m], more[i].0, more[i].1) {
      if i < |c.entries| { assert Plain(index, c.entries[i].0, c.entries[i].1); }
    }
    forall k | PlainName(index[n := m], k) ensures k in Names(more) {
      if k == n { assert more[|c.entries|].0 == n; }
      else {
        assert PlainName(index, k);
        var i := EntryAt(c.entries, k);
        assert more[i].0 == k;
      }
    }
  }

  lemma SamePlain(index: map<Text, Member>, entries: Entries, n: Text, m: Member)
    requires PlainEntries(index, entries) && n !in index && (m.kind.FileMember? || m.kind.HardlinkMember?)
    ensures PlainEntries(index[n := m], entries)
  {
    forall i | 0 <= i < |entries| ensures Plain(index[n := m], entries[i].0, entries[i].1) {
      assert Plain(index, entries[i].0, entries[i].1);
    }
    assert forall k :: PlainName(index[n := m], k) ==> PlainName(index, k);
  }

  lemma AddFile(c: Contents, index: map<Text, Member>, n: Text, m: Member)
    requires Reads(c, index) && n !in index && m.kind.FileMember?
    ensures Reads(c.(files := c.files[n := FileInfo(m.mode, |m.kind.content|, Sha256(m.kind.content))],
                     fileOrder := c.fileOrder + [n]), index[n := m])
  {
    SamePlain(index, c.entries, n, m);
    assert n !in c.files && n !in c.fileOrder by { assert !IsFile(index, n); }
    assert forall k :: IsFile(index[n := m], k) <==> k == n || IsFile(index, k);
    assert forall k :: IsLink(index[n := m], k) <==> IsLink(index, k);
  }

  lemma LinksMore(links: Links, index: map<Text, Member>, n: Text, m: Member)
    requires AreLinks(links, index) && n !in index && m.kind.HardlinkMember? && Normalize(m.kind.target).Ok?
    ensures AreLinks(links[n := Hardlink(m.mode, Normalize(m.kind.target).value)], index[n := m])
  {
    assert forall k :: IsLink(index[n := m], k) <==> k == n || IsLink(index, k);
  }

  lemma AddLink(c: Contents, index: map<Text, Member>, n: Text, m: Member)
    requires Reads(c, index) && n !in index && m.kind.HardlinkMember? && Normalize(m.kind.target).Ok?
    ensures Reads(c.(links := c.links[n := Hardlink(m.mode, Normalize(m.kind.target).value)],
                     linkOrder := c.linkOrder + [n]), index[n := m])
  {
    SamePlain(index, c.entries, n, m);
    assert n !in c.links && n !in c.linkOrder by { assert !IsLink(index, n); }
    assert forall k :: IsFile(index[n := m], k) <==> IsFile(index, k);
    LinksMore(c.links, index, n, m);
  }

  lemma UnreadablePrefix(members: Members, k: nat)
    requires k <= |members| && !Readable(members[..k])
    ensures !Readable(members)
  {
    if n :| Uses(members[..k], n) > 1 {
      UsesConcat(members[..k], members[k..], n);
      assert members == members[..k] + members[k..];
      assert Uses(members, n) > 1;
    }
  }

  lemma ReadableMore(members: Members, i: nat)
    requires i < |members| && Readable(members[..i]) && GoodMember(members[i])
    requires forall n :: Stands(members[i], n) ==> n !in Index(members[..i])
    ensures Readable(members[..i + 1])
  {
    DistinctMore(members[..i], members[i]);
    assert members[..i + 1] == members[..i] + [members[i]];
  }

  lemma DistinctMore(members: Members, m: (Text, Member))
    requires Distinct(members) && forall n :: Stands(m, n) ==> n !in Index(members)
    ensures Distinct(members + [m])
  {
    var more := members + [m];
    assert more[..|members|] == members;
    forall n ensures Uses(more, n) <= 1 {
      assert Uses(members, n) <= 1;
      IndexUses(members, n);
    }
  }

  lemma DuplicateUnreadable(members: Members, i: nat, n: Text)
    requires i < |members| && Stands(members[i], n) && n in Index(members[..i])
    ensures !Readable(members[..i + 1])
  {
    var more := members[..i + 1];
    assert more[..i] == members[..i] && more[i] == members[i];
    IndexUses(members[..i], n);
    assert Uses(more, n) == Uses(more[..i], n) + 1;
  }

  method ReadMembers(members: Members) returns (r: Result<Contents>)
    ensures r.Ok? <==> Readable(members)
    ensures r.Ok? ==> Reads(r.value, Index(members))
  {
    var c := Contents([], map[], [], map[], []);
    var seen: set<Text> := {};
    for i := 0 to |members|
      invariant Readable(members[..i]) && Reads(c, Index(members[..i]))
      invariant seen == Index(members[..i]).Keys
    {
      var good := CheckMember(members[i], seen);
      ReadableStep(members, i, seen, good);
      if !good { return Err("unsafe, duplicate or special archive member"); }
      c, seen := ReadMember(Index(members[..i]), members[i], c, seen);
      IndexStep(members, i);
    }
    assert members[..|members|] == members;
    return Ok(c);
  }

  ghost function IndexedWith(index: map<Text, Member>, m: (Text, Member)): map<Text, Member> {
    if RootMember(m) || NameOf(m).Err? then index else index[NameOf(m).value := m.1]
  }

  lemma IndexStep(members: Members, i: nat)
    requires i < |members|
    ensures Index(members[..i + 1]) == IndexedWith(Index(members[..i]), members[i])
  {
    assert members[..i + 1][..i] == members[..i];
  }

  method ReadMember(ghost index: map<Text, Member>, m: (Text, Member), c: Contents, seen: set<Text>)
    returns (d: Contents, more: set<Text>)
    requires Reads(c, index) && seen == index.Keys && Admissible(m, seen)
    ensures Reads(d, IndexedWith(index, m)) && more == IndexedWith(index, m).Keys
  {
    d, more := c, seen;
    if !RootMember(m) {
      var name := NameOf(m).value;
      d := Place(c, index, name, m.1);
      more := seen + {name};
    }
  }

  ghost predicate Admissible(m: (Text, Member), seen: set<Text>) {
    GoodMember(m) && (!RootMember(m) ==> NameOf(m).value !in seen)
  }

  /** One member more: the list stays readable exactly when the member is good and its name new. */
  lemma ReadableStep(members: Members, i: nat, seen: set<Text>, good: bool)
    requires i < |members| && Readable(members[..i]) && seen == Index(members[..i]).Keys
    requires good <==> Admissible(members[i], seen)
    ensures good ==> Readable(members[..i + 1])
    ensures !good ==> !Readable(members)
  {
    if good {
      ReadableMore(members, i);
    } else {
      if GoodMember(members[i]) {
        DuplicateUnreadable(members, i, NameOf(members[i]).value);
      } else {
        assert members[..i + 1][i] == members[i];
      }
      UnreadablePrefix(members, i + 1);
    }
  }

  method CheckMember(m: (Text, Member), seen: set<Text>) returns (good: bool)
    ensures good <==> Admissible(m, seen)
  {
    if RootMember(m) { return true; }
    var name := NameOf(m);
    if name.Err? || name.value in seen { return false; }
    match m.1.kind
    case SymlinkMember(target) => good := ValidateRelativeLink(name.value, target);
    case HardlinkMember(target) => good := Normalize(target).Ok?;
    case SpecialMember => good := false;
    case _ => good := true;
  }

  method Place(c: Contents, ghost index: map<Text, Member>, name: Text, m: Member) returns (d: Contents)
    requires Reads(c, index) && name !in index && !m.kind.SpecialMember?
    requires m.kind.HardlinkMember? ==> Normalize(m.kind.target).Ok?
    ensures Reads(d, index[name := m])
  {
    match m.kind
    case DirectoryMember =>
      AddPlain(c, index, name, m, DirectoryEntry(InputMode(m.mode)));
      d := c.(entries := c.entries + [(name, DirectoryEntry(InputMode(m.mode)))]);
    case SymlinkMember(target) =>
      AddPlain(c, index, name, m, SymlinkEntry(target));
      d := c.(entries := c.entries + [(name, SymlinkEntry(target))]);
    case HardlinkMember(target) =>
      AddLink(c, index, name, m);
      d := c.(links := c.links[name := Hardlink(m.mode, Normalize(target).value)], linkOrder := c.linkOrder + [name]);
    case FileMember(content) =>
      AddFile(c, index, name, m);
      d := c.(files := c.files[name := FileInfo(m.mode, |content|, Sha256(content))], fileOrder := c.fileOrder + [name]);
  }

  // ---- Second loop: the names of each file ---------------------------------------------------------

  ghost predicate Lands(links: Links, files: map<Text, FileInfo>, n: Text) {
    exists f :: f in files && Ends(links, n, f)
  }

  /** Among the first names, those that end at `g`, and `g` itself. */
  ghost predicate Belongs(links: Links, names: seq<Text>, g: Text, n: Text) {
    n == g || (n in names && Ends(links, n, g))
  }

  ghost predicate Grouped(groups: map<Text, seq<Text>>, files: map<Text, FileInfo>, links: Links, names: seq<Text>) {
    && groups.Keys == files.Keys
    && forall g :: g in groups ==> NoDuplicates(groups[g]) && forall n :: n in groups[g] <==> Belongs(links, names, g, n)
  }

  lemma GroupOneMore(groups: map<Text, seq<Text>>, files: map<Text, FileInfo>, links: Links, names: seq<Text>, n: Text, f: Text)
    requires Grouped(groups, files, links, names) && n !in names && n !in files && f in files && Ends(links, n, f)
    ensures Grouped(groups[f := groups[f] + [n]], files, links, names + [n])
  {
    var more := groups[f := groups[f] + [n]];
    assert n !in groups[f] by { assert !Belongs(links, names, f, n); }
    forall g | g in more
      ensures NoDuplicates(more[g]) && forall k :: k in more[g] <==> Belongs(links, names + [n], g, k)
    {
      assert NoDuplicates(groups[g]);
      forall k ensures k in more[g] <==> Belongs(links, names + [n], g, k) {
        assert k in groups[g] <==> Belongs(links, names, g, k);
        if k == n && Ends(links, n, g) { EndsUnique(links, n, f, g); }
      }
    }
  }

  /** The groups partition the file and hard link names; it fails exactly on a cycle or a dangling link. */
  method GroupNames(files: map<Text, FileInfo>, links: Links, linkOrder: seq<Text>)
    returns (r: Result<map<Text, seq<Text>>>)
    requires files.Keys !! links.Keys && Enumerates(linkOrder, links.Keys)
    ensures r.Ok? <==> forall n :: n in links ==> Lands(links, files, n)
    ensures r.Ok? ==> Grouped(r.value, files, links, linkOrder)
  {
    var groups := map n | n in files :: [n];
    for i := 0 to |linkOrder|
      invariant Grouped(groups, files, links, linkOrder[..i])
      invariant forall n :: n in linkOrder[..i] ==> Lands(links, files, n)
    {
      var name := linkOrder[i];
      assert name in links;
      var target := FollowChain(links, name);
      if target.None? {
        assert !Lands(links, files, name) by { NoLanding(links, files, name); }
        return Err("hard link cycle");
      }
      if target.value !in files {
        assert !Lands(links, files, name) by { OtherLanding(links, files, name, target.value); }
        return Err("hard link has no regular target");
      }
      GroupOneMore(groups, files, links, linkOrder[..i], name, target.value);
      groups := groups[target.value := groups[target.value] + [name]];
      assert linkOrder[..i + 1] == linkOrder[..i] + [name];
    }
    assert linkOrder[..|linkOrder|] == linkOrder;
    return Ok(groups);
  }

  lemma NoLanding(links: Links, files: map<Text, FileInfo>, n: Text)
    requires Cyclic(links, n)
    ensures !Lands(links, files, n)
  {
    forall f | f in files ensures !Ends(links, n, f) { CyclicNeverEnds(links, n, f); }
  }

  lemma OtherLanding(links: Links, files: map<Text, FileInfo>, n: Text, t: Text)
    requires Ends(links, n, t) && t !in files
    ensures !Lands(links, files, n)
  {
    forall f | f in files ensures !Ends(links, n, f) {
      if Ends(links, n, f) { EndsUnique(links, n, f, t); }
    }
  }

  // ---- Third loop: the entries of each file --------------------------------------------------------

  ghost predicate LeastName(names: seq<Text>, c: Text) {
    c in names && forall n :: n in names ==> !Less(n, c)
  }

  method Minimum(names: seq<Text>) returns (c: Text)
    requires names != []
    ensures LeastName(names, c)
  {
    c := names[0];
    LessIrreflexive(c);
    for i := 1 to |names|
      invariant c in names && forall j :: 0 <= j < i ==> !Less(names[j], c)
    {
      if Less(names[i], c) {
        forall j | 0 <= j < i ensures !Less(names[j], names[i]) {
          if Less(names[j], names[i]) { LessTransitive(names[j], names[i], c); }
        }
        c := names[i];
        LessIrreflexive(c);
      }
    }
  }

  function ModeOf(target: Text, files: map<Text, FileInfo>, links: Links, n: Text): bv32
    requires target in files && (n == target || n in links)
  {
    if n == target then files[target].mode else links[n].mode
  }

  /** The entry a name of the file gets once the least name is known. */
  function GroupEntry(info: FileInfo, canonical: Text, n: Text): Entry {
    if n == canonical then FileEntry(InputMode(info.mode), info.size, info.digest)
    else HardlinkEntry(InputMode(info.mode), canonical)
  }

  ghost predicate GroupEntries(info: FileInfo, names: seq<Text>, canonical: Text, entries: Entries) {
    && DistinctKeys(entries)
    && (forall n :: n in names <==> n in Names(entries))
    && (forall i :: 0 <= i < |entries| ==> entries[i].1 == GroupEntry(info, canonical, entries[i].0))
  }

  function Keyed(names: seq<Text>): (r: seq<(Text, ())>)
    ensures |r| == |names| && forall i :: 0 <= i < |r| ==> r[i] == (names[i], ())
  {
    seq(|names|, i requires 0 <= i < |names| => (names[i], ()))
  }

  /** `sorted(names)`. */
  function SortedNames(names: seq<Text>): (r: seq<(Text, ())>)
    ensures NoDuplicates(names) ==> DistinctKeys(r)
    ensures forall n :: (n, ()) in r <==> n in names
    ensures forall i :: 0 <= i < |r| ==> r[i].0 in names
    ensures |r| == |names| && Sorted(r)
  {
    SortedFacts(names);
    Sort(Keyed(names))
  }

  lemma SortedFacts(names: seq<Text>)
    ensures var r := Sort(Keyed(names));
            && (NoDuplicates(names) ==> DistinctKeys(r)) && (forall n :: (n, ()) in r <==> n in names)
            && (forall i :: 0 <= i < |r| ==> r[i].0 in names)
            && |r| == |names| && Sorted(r)
  {
    var k := Keyed(names);
    if NoDuplicates(names) { SortDistinct(k); }
    SortIsSorted(k);
    forall n ensures (n, ()) in Sort(k) <==> n in names {
      SortMember(k, (n, ()));
      if n in names {
        var i :| 0 <= i < |names| && names[i] == n;
        assert k[i] == (n, ());
      }
    }
    forall i | 0 <= i < |Sort(k)| ensures Sort(k)[i].0 in names {
      assert Sort(k)[i] in Sort(k);
      SortMember(k, Sort(k)[i]);
    }
  }

  method AddGroup(target: Text, names: seq<Text>, files: map<Text, FileInfo>, links: Links) returns (r: Option<Entries>)
    requires target in files && target in names && NoDuplicates(names)
    requires forall n :: n in names ==> n == target || n in links
    ensures r.None? <==> exists n :: n in names && ModeOf(target, files, links, n) != files[target].mode
    ensures r.Some? ==> exists c :: LeastName(names, c) && GroupEntries(files[target], names, c, r.value)
  {
    var info := files[target];
    var canonical := Minimum(names);
    for i := 0 to |names|
      invariant forall j :: 0 <= j < i ==> ModeOf(target, files, links, names[j]) == info.mode
    {
      if ModeOf(target, files, links, names[i]) != info.mode { return None; }
    }
    var entries := ListGroup(info, names, canonical);
    return Some(entries);
  }

  method ListGroup(info: FileInfo, names: seq<Text>, canonical: Text) returns (entries: Entries)
    requires canonical in names && NoDuplicates(names)
    ensures GroupEntries(info, names, canonical, entries)
  {
    NamesMore([], canonical, GroupEntry(info, canonical, canonical));
    entries := [] + [(canonical, GroupEntry(info, canonical, canonical))];
    var sorted := SortedNames(names);
    for i := 0 to |sorted|
      invariant DistinctKeys(entries)
      invariant forall j :: 0 <= j < |entries| ==> entries[j].1 == GroupEntry(info, canonical, entries[j].0)
      invariant forall n :: n in Names(entries) <==> n == canonical || exists j :: 0 <= j < i && sorted[j].0 == n
    {
      var name := sorted[i].0;
      if name != canonical {
        assert name !in Names(entries);
        NamesMore(entries, name, GroupEntry(info, canonical, name));
        entries := entries + [(name, GroupEntry(info, canonical, name))];
      }
    }
    forall n ensures n in names <==> n in Names(entries) {
      assert (n, ()) in sorted <==> n in names;
      assert forall j :: 0 <= j < |sorted| && sorted[j].0 == n ==> sorted[j] == (n, ());
    }
  }

  lemma NamesMore(entries: Entries, n: Text, e: Entry)
    ensures Names(entries + [(n, e)]) == Names(entries) + {n}
    ensures DistinctKeys(entries) && n !in Names(entries) ==> DistinctKeys(entries + [(n, e)])
  {
    var more := entries + [(n, e)];
    assert more[|entries|].0 == n;
    forall k | k in Names(entries) ensures k in Names(more) {
      var i := EntryAt(entries, k);
      assert more[i].0 == k;
    }
    assert forall i :: 0 <= i < |entries| ==> more[i].0 == entries[i].0 && entries[i].0 in Names(entries);
  }

  // ---- The whole ------------------------------------------------------------------------------------

  /** Right entries for everything but the files still to come. */
  ghost predicate Covers(tree: map<Text, Node<Text>>, entries: Entries, done: seq<Text>) {
    && DistinctKeys(entries)
    && (forall i :: 0 <= i < |entries| ==> Right(tree, entries[i].0, entries[i].1))
    && (forall n :: n in Names(entries) <==> n in tree && (tree[n].Regular? ==> tree[n].group in done))
  }

  lemma InGroupIff(index: map<Text, Member>, links: Links, linkOrder: seq<Text>, g: Text, n: Text)
    requires Resolved(index) && links == LinksOf(index) && Enumerates(linkOrder, links.Keys) && IsFile(index, g)
    ensures InGroup(TreeOf(index), g, n) <==> Belongs(links, linkOrder, g, n)
  {
    if n in index && index[n].kind.HardlinkMember? {
      assert IsLink(index, n) && LeadsSomewhere(index, n);
      if Ends(links, n, g) { FileOfIs(index, n, g); }
    } else {
      assert !IsLink(index, n);
    }
  }

  lemma PlainCovers(index: map<Text, Member>, entries: Entries)
    requires Resolved(index) && PlainEntries(index, entries)
    ensures Covers(TreeOf(index), entries, [])
  {
    var tree := TreeOf(index);
    forall i | 0 <= i < |entries| ensures Right(tree, entries[i].0, entries[i].1) {
      assert Plain(index, entries[i].0, entries[i].1);
    }
    forall n ensures n in Names(entries) <==> n in tree && !tree[n].Regular? {
      if n in Names(entries) {
        var i := EntryAt(entries, n);
        assert Plain(index, n, entries[i].1);
      }
      assert n in tree && !tree[n].Regular? ==> PlainName(index, n);
    }
  }

  lemma GroupRight(index: map<Text, Member>, g: Text, names: seq<Text>, c: Text, info: FileInfo, n: Text)
    requires Resolved(index) && IsFile(index, g) && LeastName(names, c) && n in names
    requires forall k :: k in names <==> InGroup(TreeOf(index), g, k)
    requires info == FileInfo(index[g].mode, |index[g].kind.content|, Sha256(index[g].kind.content))
    ensures Right(TreeOf(index), n, GroupEntry(info, c, n))
  {
    var tree := TreeOf(index);
    assert InGroup(tree, g, n) && InGroup(tree, g, c) && tree[g] == Regular(g, index[g].mode, index[g].kind.content);
    assert InGroup(tree, g, g);
    assert Least(tree, g, c);
  }

  lemma NamesConcat(a: Entries, b: Entries)
    ensures Names(a + b) == Names(a) + Names(b)
    ensures DistinctKeys(a) && DistinctKeys(b) && Names(a) !! Names(b) ==> DistinctKeys(a + b)
  {
    var s := a + b;
    forall k | k in Names(a) ensures k in Names(s) { var i := EntryAt(a, k); assert s[i].0 == k; }
    forall k | k in Names(b) ensures k in Names(s) { var i := EntryAt(b, k); assert s[|a| + i].0 == k; }
    assert forall i :: 0 <= i < |a| ==> s[i].0 == a[i].0 && a[i].0 in Names(a);
    assert forall i :: |a| <= i < |s| ==> s[i].0 == b[i - |a|].0 && b[i - |a|].0 in Names(b);
  }

  lemma CoversMore(tree: map<Text, Node<Text>>, entries: Entries, done: seq<Text>, g: Text, more: Entries)
    requires Covers(tree, entries, done) && g !in done && DistinctKeys(more)
    requires forall i :: 0 <= i < |more| ==> Right(tree, more[i].0, more[i].1)
    requires forall n :: n in Names(more) <==> InGroup(tree, g, n)
    ensures Covers(tree, entries + more, done + [g])
  {
    assert forall n :: n in Names(more) ==> InGroup(tree, g, n) && n !in Names(entries);
    NamesConcat(entries, more);
    var all := entries + more;
    forall i | 0 <= i < |all| ensures Right(tree, all[i].0, all[i].1) {
      if i >= |entries| { assert all[i] == more[i - |entries|]; }
    }
    forall n ensures n in Names(all) <==> n in tree && (tree[n].Regular? ==> tree[n].group in done + [g]) {
      assert n in Names(more) <==> InGroup(tree, g, n);
    }
  }

  ghost predicate GroupModes(index: map<Text, Member>, g: Text)
    requires Resolved(index)
  {
    forall n :: InGroup(TreeOf(index), g, n) ==> index[n].mode == TreeOf(index)[n].mode
  }

  /** One file's names: their modes agree with the file's exactly when the group is accepted. */
  lemma ModesAgree(index: map<Text, Member>, files: map<Text, FileInfo>, links: Links, g: Text, names: seq<Text>)
    requires Resolved(index) && AreFiles(files, index) && links == LinksOf(index) && g in files
    requires forall n :: n in names <==> InGroup(TreeOf(index), g, n)
    requires forall n :: n in names ==> n == g || n in links
    ensures GroupModes(index, g) <==> forall n :: n in names ==> ModeOf(g, files, links, n) == files[g].mode
  {
    var tree := TreeOf(index);
    assert IsFile(index, g) && InGroup(tree, g, g);
    forall n | n in names
      ensures n in index && ModeOf(g, files, links, n) == index[n].mode && files[g].mode == tree[n].mode
    {
      assert InGroup(tree, g, n);
    }
    forall n | InGroup(tree, g, n) ensures n in names {}
  }

  lemma AllModes(index: map<Text, Member>)
    requires Resolved(index)
    ensures SameModes(index) <==> forall g :: IsFile(index, g) ==> GroupModes(index, g)
  {
    var tree := TreeOf(index);
    forall n | n in index && index[n].kind.HardlinkMember?
      ensures IsFile(index, FileOf(index, n)) && InGroup(tree, FileOf(index, n), n)
    {
    }
    if SameModes(index) {
      forall g | IsFile(index, g) ensures GroupModes(index, g) {
        forall n | InGroup(tree, g, n) ensures index[n].mode == tree[n].mode {
          if index[n].kind.HardlinkMember? { assert LeadsSomewhere(index, n); }
        }
      }
    }
  }

  lemma ResolvedIff(members: Members, files: map<Text, FileInfo>, links: Links)
    requires Readable(members) && AreFiles(files, Index(members)) && links == LinksOf(Index(members))
    ensures Resolved(Index(members)) <==> forall n :: n in links ==> Lands(links, files, n)
  {
    var index := Index(members);
    forall n | n in index ensures !index[n].kind.SpecialMember? && (index[n].kind.HardlinkMember? ==> IsLink(index, n)) {
      ReadableIndex(members, n);
    }
    forall n ensures LeadsSomewhere(index, n) <==> Lands(links, files, n) {
      if LeadsSomewhere(index, n) {
        var f :| Leads(index, n, f);
        assert f in files;
      }
      if Lands(links, files, n) {
        var f :| f in files && Ends(links, n, f);
        assert Leads(index, n, f);
      }
    }
    assert forall n :: n in links <==> n in index && index[n].kind.HardlinkMember?;
  }

  ghost predicate IsFingerprint<G>(tree: map<Text, Node<G>>, f: Fingerprint) {
    exists entries :: Describes(tree, entries) && f == FingerprintEntries(entries)
  }

  lemma CoversAll(index: map<Text, Member>, entries: Entries, done: seq<Text>)
    requires Resolved(index) && Covers(TreeOf(index), entries, done) && forall g :: IsFile(index, g) ==> g in done
    ensures Describes(TreeOf(index), entries)
  {
    var tree := TreeOf(index);
    forall n | n in tree && tree[n].Regular? ensures IsFile(index, tree[n].group) {
      if index[n].kind.HardlinkMember? { assert LeadsSomewhere(index, n); }
    }
    assert Names(entries) == tree.Keys;
  }

  /** The dictionaries the first two loops leave behind. */
  ghost predicate Prepared(index: map<Text, Member>, c: Contents, groups: map<Text, seq<Text>>) {
    Reads(c, index) && Resolved(index) && c.links == LinksOf(index) && Grouped(groups, c.files, c.links, c.linkOrder)
  }

  /** The first `i` files have their entries, and the modes of their names agree. */
  ghost predicate EnteredUpTo(index: map<Text, Member>, c: Contents, entries: Entries, i: nat)
    requires Resolved(index)
  {
    && i <= |c.fileOrder| && Covers(TreeOf(index), entries, c.fileOrder[..i])
    && forall j :: 0 <= j < i ==> GroupModes(index, c.fileOrder[j])
  }

  method NextGroup(ghost index: map<Text, Member>, c: Contents, groups: map<Text, seq<Text>>, entries: Entries, i: nat)
    returns (r: Option<Entries>)
    requires Prepared(index, c, groups) && i < |c.fileOrder| && EnteredUpTo(index, c, entries, i)
    ensures r.None? ==> !SameModes(index)
    ensures r.Some? ==> EnteredUpTo(index, c, r.value, i + 1)
  {
    var target := c.fileOrder[i];
    GroupFacts(index, c, groups, target);
    var more := AddGroup(target, groups[target], c.files, c.links);
    ModesAgree(index, c.files, c.links, target, groups[target]);
    if more.None? {
      BadModes(index, target);
      return None;
    }
    MoreRight(index, target, groups[target], c.files[target], more.value);
    OneMoreEntered(index, c, entries, i, more.value);
    return Some(entries + more.value);
  }

  lemma OneMoreEntered(index: map<Text, Member>, c: Contents, entries: Entries, i: nat, more: Entries)
    requires Resolved(index) && NoDuplicates(c.fileOrder) && i < |c.fileOrder| && EnteredUpTo(index, c, entries, i)
    requires DistinctKeys(more) && forall k :: 0 <= k < |more| ==> Right(TreeOf(index), more[k].0, more[k].1)
    requires forall n :: n in Names(more) <==> InGroup(TreeOf(index), c.fileOrder[i], n)
    requires GroupModes(index, c.fileOrder[i])
    ensures EnteredUpTo(index, c, entries + more, i + 1)
  {
    assert c.fileOrder[i] !in c.fileOrder[..i];
    CoversMore(TreeOf(index), entries, c.fileOrder[..i], c.fileOrder[i], more);
    assert c.fileOrder[..i + 1] == c.fileOrder[..i] + [c.fileOrder[i]];
  }

  /** The loop over the groups: entries for every file, unless some link's mode differs. */
  method FileEntries(ghost index: map<Text, Member>, c: Contents, groups: map<Text, seq<Text>>) returns (r: Result<Entries>)
    requires Prepared(index, c, groups)
    ensures r.Ok? <==> SameModes(index)
    ensures r.Ok? ==> Describes(TreeOf(index), r.value)
  {
    var entries := c.entries;
    PlainCovers(index, entries);
    for i := 0 to |c.fileOrder|
      invariant EnteredUpTo(index, c, entries, i)
    {
      var more := NextGroup(index, c, groups, entries, i);
      if more.None? { return Err("hard link mode differs from its target"); }
      entries := more.value;
    }
    AllFiles(index, c, entries);
    return Ok(entries);
  }

  lemma BadModes(index: map<Text, Member>, g: Text)
    requires Resolved(index) && IsFile(index, g) && !GroupModes(index, g)
    ensures !SameModes(index)
  {
    AllModes(index);
  }

  lemma AllFiles(index: map<Text, Member>, c: Contents, entries: Entries)
    requires Reads(c, index) && Resolved(index) && EnteredUpTo(index, c, entries, |c.fileOrder|)
    ensures SameModes(index) && Describes(TreeOf(index), entries)
  {
    assert c.fileOrder[..|c.fileOrder|] == c.fileOrder;
    forall g | IsFile(index, g) ensures g in c.fileOrder && GroupModes(index, g) {
      assert g in c.files;
    }
    AllModes(index);
    CoversAll(index, entries, c.fileOrder);
  }

  lemma GroupFacts(index: map<Text, Member>, c: Contents, groups: map<Text, seq<Text>>, g: Text)
    requires Reads(c, index) && Resolved(index) && c.links == LinksOf(index)
    requires Grouped(groups, c.files, c.links, c.linkOrder) && g in c.fileOrder
    ensures g in c.files && g in groups && IsFile(index, g) && g in groups[g] && NoDuplicates(groups[g])
    ensures c.files[g] == FileInfo(index[g].mode, |index[g].kind.content|, Sha256(index[g].kind.content))
    ensures forall n :: n in groups[g] <==> InGroup(TreeOf(index), g, n)
    ensures forall n :: n in groups[g] ==> n == g || n in c.links
  {
    assert IsFile(index, g);
    forall n ensures n in groups[g] <==> InGroup(TreeOf(index), g, n) {
      InGroupIff(index, c.links, c.linkOrder, g, n);
      assert n in groups[g] <==> Belongs(c.links, c.linkOrder, g, n);
    }
    forall n | n in groups[g] ensures n == g || n in c.links {
      assert Belongs(c.links, c.linkOrder, g, n);
    }
    assert Belongs(c.links, c.linkOrder, g, g);
  }

  lemma MoreRight(index: map<Text, Member>, g: Text, names: seq<Text>, info: FileInfo, more: Entries)
    requires Resolved(index) && IsFile(index, g)
    requires info == FileInfo(index[g].mode, |index[g].kind.content|, Sha256(index[g].kind.content))
    requires forall n :: n in names <==> InGroup(TreeOf(index), g, n)
    requires exists c :: LeastName(names, c) && GroupEntries(info, names, c, more)
    ensures DistinctKeys(more) && forall i :: 0 <= i < |more| ==> Right(TreeOf(index), more[i].0, more[i].1)
    ensures forall n :: n in Names(more) <==> InGroup(TreeOf(index), g, n)
  {
    var c :| LeastName(names, c) && GroupEntries(info, names, c, more);
    forall i | 0 <= i < |more| ensures Right(TreeOf(index), more[i].0, more[i].1) {
      assert more[i].0 in Names(more);
      GroupRight(index, g, names, c, info, more[i].0);
    }
  }

  /** Succeeds exactly on acceptable archives, with the fingerprint of the tree they stand for. */
  method ArchiveFingerprint(members: Members) returns (r: Result<Fingerprint>)
    ensures r.Ok? <==> Acceptable(members)
    ensures r.Ok? ==> IsFingerprint(TreeOf(Index(members)), r.value)
  {
    var sorted := Sort(members);
    SortIsSorted(members);
    if Readable(members) { OrderIrrelevant(members, sorted); }
    if Readable(sorted) { OrderIrrelevant(sorted, members); }
    var contents := ReadMembers(sorted);
    if contents.Err? { return Err(contents.reason); }
    var c := contents.value;
    ghost var index := Index(sorted);
    LinksUnique(c.links, index);
    assert c.files.Keys !! c.links.Keys by {
      assert forall n :: n in c.files && n in c.links ==> IsFile(index, n) && IsLink(index, n);
    }
    ResolvedIff(sorted, c.files, c.links);
    var groups := GroupNames(c.files, c.links, c.linkOrder);
    if groups.Err? { return Err(groups.reason); }
    var entries := FileEntries(index, c, groups.value);
    if entries.Err? { return Err(entries.reason); }
    return Ok(FingerprintEntries(entries.value));
  }
}
