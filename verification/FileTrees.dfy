/**
 A tree of files as a build sees it, and its fingerprint: one sorted entry per name, in which
 the names of one file are tied to the least of them.
 */
module FileTrees {
  import opened Ordering

  datatype Digest = Sha256(content: seq<int>)

  datatype Entry =
    | DirectoryEntry(mode: bv32)
    | SymlinkEntry(target: Text)
    | FileEntry(mode: bv32, size: nat, digest: Digest)
    | HardlinkEntry(mode: bv32, canonical: Text)

  type Entries = seq<(Text, Entry)>

  /** SHA-256 of the printed entries, as a free constructor. */
  datatype TreeDigest = TreeSha256(entries: Entries)

  datatype Fingerprint = Fingerprint(
    tree: TreeDigest, directoryCount: nat, regularFileCount: nat, symlinkCount: nat, hardlinkCount: nat, totalBytes: nat)

  /** The read and execute bits of the permission bits. */
  function InputMode(mode: bv32): bv32 { (mode & 0xFFF) & 0x16D }

  function KeptBit(mode: bv32, bit: bv32): bv32 { if mode & bit != 0 then bit else 0 }

  lemma SixBits(mode: bv32)
    ensures (mode & 0xFFF) & 0x16D
         == (mode & 0x100) | (mode & 0x040) | (mode & 0x020) | (mode & 0x008) | (mode & 0x004) | (mode & 0x001)
  {
  }

  lemma EachBit(mode: bv32)
    ensures mode & 0x100 == KeptBit(mode, 0x100) && mode & 0x040 == KeptBit(mode, 0x040)
    ensures mode & 0x020 == KeptBit(mode, 0x020) && mode & 0x008 == KeptBit(mode, 0x008)
    ensures mode & 0x004 == KeptBit(mode, 0x004) && mode & 0x001 == KeptBit(mode, 0x001)
  {
  }

  /** Just six bits are kept: those by which owner, group and others may read and execute. */
  lemma InputModeBits(mode: bv32)
    ensures InputMode(mode)
         == KeptBit(mode, 0x100) | KeptBit(mode, 0x040) | KeptBit(mode, 0x020)
            | KeptBit(mode, 0x008) | KeptBit(mode, 0x004) | KeptBit(mode, 0x001)
  {
    SixBits(mode);
    EachBit(mode);
  }

  /** The two modes let owner, group and others read and execute alike. */
  predicate SameAccess(a: bv32, b: bv32) {
    && (a & 0x100 == 0 <==> b & 0x100 == 0) && (a & 0x040 == 0 <==> b & 0x040 == 0)
    && (a & 0x020 == 0 <==> b & 0x020 == 0) && (a & 0x008 == 0 <==> b & 0x008 == 0)
    && (a & 0x004 == 0 <==> b & 0x004 == 0) && (a & 0x001 == 0 <==> b & 0x001 == 0)
  }

  lemma SameAccessExactly(a: bv32, b: bv32)
    ensures InputMode(a) == InputMode(b) <==> SameAccess(a, b)
  {
    InputModeBits(a);
    InputModeBits(b);
  }

  /** Clearing write bits, as the installer does, leaves the input mode alone. */
  lemma InstalledMode(mode: bv32, cleared: bv32)
    requires cleared & 0x16D == 0
    ensures InputMode(mode & !cleared) == InputMode(mode)
  {
    assert (mode & !cleared) & 0x16D == mode & 0x16D by {
      assert !cleared & 0x16D == 0x16D;
    }
  }

  predicate IsDirectory(e: Entry) { e.DirectoryEntry? }
  predicate IsRegular(e: Entry) { e.FileEntry? || e.HardlinkEntry? }
  predicate IsSymlink(e: Entry) { e.SymlinkEntry? }
  predicate IsHardlink(e: Entry) { e.HardlinkEntry? }

  function Count(entries: Entries, keep: Entry -> bool): nat {
    if entries == [] then 0 else (if keep(entries[0].1) then 1 else 0) + Count(entries[1..], keep)
  }

  function TotalBytes(entries: Entries): nat {
    if entries == [] then 0
    else (if entries[0].1.FileEntry? then entries[0].1.size else 0) + TotalBytes(entries[1..])
  }

  function FingerprintEntries(entries: Entries): Fingerprint {
    var sorted := Sort(entries);
    Fingerprint(TreeSha256(sorted), Count(sorted, IsDirectory), Count(sorted, IsRegular), Count(sorted, IsSymlink),
                Count(sorted, IsHardlink), TotalBytes(sorted))
  }

  // ---- What the entries say --------------------------------------------------------------------

  /** `G` names a file apart from its names: the member that carries its bytes, or an inode. */
  datatype Node<G> = Directory(mode: bv32) | Symlink(target: Text) | Regular(group: G, mode: bv32, content: seq<int>)

  ghost predicate InGroup<G>(tree: map<Text, Node<G>>, g: G, n: Text) {
    n in tree && tree[n].Regular? && tree[n].group == g
  }

  /** `n` is the least name of file `g`. */
  ghost predicate Least<G>(tree: map<Text, Node<G>>, g: G, n: Text) {
    InGroup(tree, g, n) && forall m :: InGroup(tree, g, m) ==> !Less(m, n)
  }

  ghost predicate Right<G>(tree: map<Text, Node<G>>, n: Text, e: Entry) {
    && n in tree
    && match e
       case DirectoryEntry(mode) => tree[n].Directory? && mode == InputMode(tree[n].mode)
       case SymlinkEntry(target) => tree[n] == Symlink(target)
       case FileEntry(mode, size, digest) =>
         && tree[n].Regular? && Least(tree, tree[n].group, n) && mode == InputMode(tree[n].mode)
         && size == |tree[n].content| && digest == Sha256(tree[n].content)
       case HardlinkEntry(mode, canonical) =>
         tree[n].Regular? && canonical != n && Least(tree, tree[n].group, canonical) && mode == InputMode(tree[n].mode)
  }

  ghost function Names(entries: Entries): set<Text> {
    set i | 0 <= i < |entries| :: entries[i].0
  }

  /** One right entry for every name. */
  ghost predicate Describes<G>(tree: map<Text, Node<G>>, entries: Entries) {
    && DistinctKeys(entries) && Names(entries) == tree.Keys
    && forall i :: 0 <= i < |entries| ==> Right(tree, entries[i].0, entries[i].1)
  }

  /** All names of one file have the same mode and bytes. */
  ghost predicate Coherent<G>(tree: map<Text, Node<G>>) {
    forall m, n :: m in tree && n in tree && tree[m].Regular? && tree[n].Regular? && tree[m].group == tree[n].group ==>
      tree[m].mode == tree[n].mode && tree[m].content == tree[n].content
  }

  ghost predicate SameNode<G, H>(a: Node<G>, b: Node<H>) {
    match a
    case Directory(mode) => b.Directory? && SameAccess(mode, b.mode)
    case Symlink(target) => b == Symlink(target)
    case Regular(_, mode, content) => b.Regular? && SameAccess(mode, b.mode) && b.content == content
  }

  /** Equal up to the naming of files and the bits the installer may clear. */
  ghost predicate SameTree<G, H>(v: map<Text, Node<G>>, w: map<Text, Node<H>>) {
    && v.Keys == w.Keys
    && (forall n :: n in v ==> SameNode(v[n], w[n]))
    && (forall m, n :: m in v && n in v && v[m].Regular? && v[n].Regular? ==>
          (v[m].group == v[n].group <==> w[m].group == w[n].group))
  }

  lemma SameLeast<G, H>(v: map<Text, Node<G>>, w: map<Text, Node<H>>, n: Text, k: Text)
    requires SameTree(v, w) && n in v && v[n].Regular? && Least(v, v[n].group, k)
    ensures w[n].Regular? && Least(w, w[n].group, k)
  {
    assert SameNode(v[n], w[n]) && SameNode(v[k], w[k]);
    forall m | InGroup(w, w[n].group, m) ensures !Less(m, k) {
      assert SameNode(v[m], w[m]);
      assert InGroup(v, v[n].group, m);
    }
  }

  lemma LeastUnique<G>(tree: map<Text, Node<G>>, g: G, a: Text, b: Text)
    requires Least(tree, g, a) && Least(tree, g, b)
    ensures a == b
  {
    LessTotal(a, b);
  }

  lemma SameRight<G, H>(v: map<Text, Node<G>>, w: map<Text, Node<H>>, n: Text, e: Entry, f: Entry)
    requires SameTree(v, w) && Right(v, n, e) && Right(w, n, f)
    ensures e == f
  {
    assert SameNode(v[n], w[n]);
    match e
    case FileEntry(_, _, _) =>
      SameLeast(v, w, n, n);
      if f.HardlinkEntry? { LeastUnique(w, w[n].group, n, f.canonical); }
    case HardlinkEntry(_, canonical) =>
      SameLeast(v, w, n, canonical);
      if f.FileEntry? { LeastUnique(w, w[n].group, n, canonical); }
      else { LeastUnique(w, w[n].group, f.canonical, canonical); }
    case _ =>
  }

  lemma EntryAt(entries: Entries, n: Text) returns (i: nat)
    requires n in Names(entries)
    ensures i < |entries| && entries[i].0 == n
  {
    i :| 0 <= i < |entries| && entries[i].0 == n;
  }

  lemma SameMembers<G, H>(v: map<Text, Node<G>>, a: Entries, w: map<Text, Node<H>>, b: Entries, y: (Text, Entry))
    requires Describes(v, a) && Describes(w, b) && SameTree(v, w) && y in a
    ensures y in b
  {
    var i :| 0 <= i < |a| && a[i] == y;
    assert a[i].0 in Names(a);
    var j := EntryAt(b, y.0);
    SameRight(v, w, y.0, y.1, b[j].1);
    assert b[j] == y;
  }

  lemma SameTreeSymmetric<G, H>(v: map<Text, Node<G>>, w: map<Text, Node<H>>)
    requires SameTree(v, w)
    ensures SameTree(w, v)
  {
    forall n | n in w ensures SameNode(w[n], v[n]) { assert SameNode(v[n], w[n]); }
    forall m, n | m in w && n in w && w[m].Regular? && w[n].Regular?
      ensures w[m].group == w[n].group <==> v[m].group == v[n].group
    {
      assert SameNode(v[m], w[m]) && SameNode(v[n], w[n]);
    }
  }

  /** However they were listed, right entries of the same tree give the same fingerprint. */
  lemma SameTreeSameFingerprint<G, H>(v: map<Text, Node<G>>, a: Entries, w: map<Text, Node<H>>, b: Entries)
    requires Describes(v, a) && Describes(w, b) && SameTree(v, w)
    ensures FingerprintEntries(a) == FingerprintEntries(b)
  {
    SameTreeSymmetric(v, w);
    forall y ensures y in Sort(a) <==> y in Sort(b) {
      SortMember(a, y);
      SortMember(b, y);
      if y in a { SameMembers(v, a, w, b, y); }
      if y in b { SameMembers(w, b, v, a, y); }
    }
    SortIsSorted(a);
    SortIsSorted(b);
    SortDistinct(a);
    SortDistinct(b);
    SortedUnique(Sort(a), Sort(b));
  }

  // ---- And what they do not leave open ---------------------------------------------------------

  /** Entries with the same fingerprint have the same members. */
  lemma SameEntries(a: Entries, b: Entries, y: (Text, Entry))
    requires FingerprintEntries(a) == FingerprintEntries(b)
    ensures y in a <==> y in b
  {
    SortMember(a, y);
    SortMember(b, y);
  }

  lemma EntryOf<G>(v: map<Text, Node<G>>, a: Entries, n: Text) returns (e: Entry)
    requires Describes(v, a) && n in v
    ensures (n, e) in a && Right(v, n, e)
  {
    var i := EntryAt(a, n);
    e := a[i].1;
    assert a[i] == (n, e);
  }

  lemma MemberRight<G>(v: map<Text, Node<G>>, a: Entries, n: Text, e: Entry)
    requires Describes(v, a) && (n, e) in a
    ensures n in v && Right(v, n, e)
  {
    var i :| 0 <= i < |a| && a[i] == (n, e);
  }

  /** The least name of the file behind `n`, as its entry gives it. */
  function CanonicalName(n: Text, e: Entry): Text {
    if e.HardlinkEntry? then e.canonical else n
  }

  lemma CanonicalLeast<G>(v: map<Text, Node<G>>, n: Text, e: Entry)
    requires Right(v, n, e) && v[n].Regular?
    ensures Least(v, v[n].group, CanonicalName(n, e))
  {
  }

  lemma GroupsFromEntries<G>(v: map<Text, Node<G>>, m: Text, e: Entry, n: Text, f: Entry)
    requires Right(v, m, e) && Right(v, n, f) && v[m].Regular? && v[n].Regular?
    ensures v[m].group == v[n].group <==> CanonicalName(m, e) == CanonicalName(n, f)
  {
    CanonicalLeast(v, m, e);
    CanonicalLeast(v, n, f);
    if v[m].group == v[n].group { LeastUnique(v, v[m].group, CanonicalName(m, e), CanonicalName(n, f)); }
  }

  lemma SameNodes<G, H>(v: map<Text, Node<G>>, a: Entries, w: map<Text, Node<H>>, b: Entries, n: Text)
    requires Describes(v, a) && Describes(w, b) && Coherent(v) && Coherent(w)
    requires FingerprintEntries(a) == FingerprintEntries(b) && n in v
    ensures n in w && SameNode(v[n], w[n])
  {
    var e := EntryOf(v, a, n);
    SameEntries(a, b, (n, e));
    MemberRight(w, b, n, e);
    if e.HardlinkEntry? {
      var k := e.canonical;
      var f := EntryOf(v, a, k);
      SameEntries(a, b, (k, f));
      MemberRight(w, b, k, f);
      if f.HardlinkEntry? { LeastUnique(v, v[n].group, k, f.canonical); }
    }
  }

  lemma SameGroups<G, H>(v: map<Text, Node<G>>, a: Entries, w: map<Text, Node<H>>, b: Entries, m: Text, n: Text)
    requires Describes(v, a) && Describes(w, b) && FingerprintEntries(a) == FingerprintEntries(b)
    requires m in v && n in v && v[m].Regular? && v[n].Regular?
    ensures m in w && n in w && w[m].Regular? && w[n].Regular?
    ensures v[m].group == v[n].group <==> w[m].group == w[n].group
  {
    var e := EntryOf(v, a, m);
    var f := EntryOf(v, a, n);
    SameEntries(a, b, (m, e));
    SameEntries(a, b, (n, f));
    MemberRight(w, b, m, e);
    MemberRight(w, b, n, f);
    GroupsFromEntries(v, m, e, n, f);
    GroupsFromEntries(w, m, e, n, f);
  }

  /** Two trees have the same fingerprint exactly when they are the same tree. */
  lemma FingerprintDecides<G, H>(v: map<Text, Node<G>>, a: Entries, w: map<Text, Node<H>>, b: Entries)
    requires Describes(v, a) && Describes(w, b) && Coherent(v) && Coherent(w)
    ensures FingerprintEntries(a) == FingerprintEntries(b) <==> SameTree(v, w)
  {
    if SameTree(v, w) { SameTreeSameFingerprint(v, a, w, b); }
    if FingerprintEntries(a) == FingerprintEntries(b) {
      forall n | n in v ensures n in w && SameNode(v[n], w[n]) { SameNodes(v, a, w, b, n); }
      forall n | n in w ensures n in v { SameNodes(w, b, v, a, n); }
      forall m, n | m in v && n in v && v[m].Regular? && v[n].Regular?
        ensures v[m].group == v[n].group <==> w[m].group == w[n].group
      {
        SameGroups(v, a, w, b, m, n);
      }
    }
  }

  // ---- What the totals say -----------------------------------------------------------------------

  /** The names whose entries are of a kind. */
  ghost function KindNames(entries: Entries, keep: Entry -> bool): set<Text> {
    set i | 0 <= i < |entries| && keep(entries[i].1) :: entries[i].0
  }

  lemma {:induction false} CountIs(entries: Entries, keep: Entry -> bool)
    requires DistinctKeys(entries)
    ensures Count(entries, keep) == |KindNames(entries, keep)|
  {
    if entries != [] {
      var rest := entries[1..];
      CountIs(rest, keep);
      var first := if keep(entries[0].1) then {entries[0].0} else {};
      assert forall i :: 0 <= i < |rest| ==> rest[i] == entries[i + 1];
      assert KindNames(entries, keep) == first + KindNames(rest, keep) by {
        forall n | n in KindNames(entries, keep) ensures n in first + KindNames(rest, keep) {
          var i :| 0 <= i < |entries| && keep(entries[i].1) && entries[i].0 == n;
          assert i > 0 ==> rest[i - 1] == entries[i];
        }
      }
    }
  }

  /** The bytes of the files under these names. */
  ghost function BytesOf<G>(tree: map<Text, Node<G>>, names: set<Text>): nat
    requires forall n :: n in names ==> n in tree && tree[n].Regular?
  {
    if names == {} then 0
    else
      var n :| n in names;
      |tree[n].content| + BytesOf(tree, names - {n})
  }

  lemma {:induction false} BytesWithout<G>(tree: map<Text, Node<G>>, names: set<Text>, n: Text)
    requires (forall n :: n in names ==> n in tree && tree[n].Regular?) && n in names
    ensures BytesOf(tree, names) == |tree[n].content| + BytesOf(tree, names - {n})
    decreases |names|
  {
    var m :| m in names && BytesOf(tree, names) == |tree[m].content| + BytesOf(tree, names - {m});
    if m != n {
      BytesWithout(tree, names - {m}, n);
      BytesWithout(tree, names - {n}, m);
      assert names - {m} - {n} == names - {n} - {m};
    }
  }

  predicate CarriesBytes(e: Entry) { e.FileEntry? }

  ghost predicate RightSizes<G>(tree: map<Text, Node<G>>, entries: Entries) {
    forall i :: 0 <= i < |entries| && entries[i].1.FileEntry? ==>
      entries[i].0 in tree && tree[entries[i].0].Regular? && entries[i].1.size == |tree[entries[i].0].content|
  }

  lemma {:induction false} TotalIs<G>(tree: map<Text, Node<G>>, entries: Entries)
    requires DistinctKeys(entries) && RightSizes(tree, entries)
    ensures forall n :: n in KindNames(entries, CarriesBytes) ==> n in tree && tree[n].Regular?
    ensures TotalBytes(entries) == BytesOf(tree, KindNames(entries, CarriesBytes))
  {
    if entries != [] {
      var rest := entries[1..];
      assert forall i :: 0 <= i < |rest| ==> rest[i] == entries[i + 1];
      TotalIs(tree, rest);
      RestNames(entries);
      if entries[0].1.FileEntry? {
        BytesWithout(tree, KindNames(entries, CarriesBytes), entries[0].0);
      } else {
        assert KindNames(rest, CarriesBytes) == KindNames(entries, CarriesBytes);
      }
    }
  }

  lemma RestNames(entries: Entries)
    requires entries != [] && DistinctKeys(entries)
    ensures KindNames(entries[1..], CarriesBytes) == KindNames(entries, CarriesBytes) - {entries[0].0}
    ensures entries[0].0 in KindNames(entries, CarriesBytes) <==> entries[0].1.FileEntry?
  {
    var rest := entries[1..];
    assert forall i :: 0 <= i < |rest| ==> rest[i] == entries[i + 1];
    forall n | n in KindNames(entries, CarriesBytes) - {entries[0].0} ensures n in KindNames(rest, CarriesBytes) {
      var i :| 0 <= i < |entries| && CarriesBytes(entries[i].1) && entries[i].0 == n;
      assert rest[i - 1] == entries[i];
    }
  }

  /** The first name of every file. */
  ghost function FirstNames<G>(tree: map<Text, Node<G>>): set<Text> {
    set n | n in tree && tree[n].Regular? && Least(tree, tree[n].group, n)
  }

  ghost function OtherNames<G>(tree: map<Text, Node<G>>): set<Text> {
    set n | n in tree && tree[n].Regular? && !Least(tree, tree[n].group, n)
  }

  /** In what order the entries are printed: by strictly increasing names, each entry once. */
  ghost predicate InOrder(sorted: Entries, entries: Entries) {
    && (forall i, j :: 0 <= i < j < |sorted| ==> Less(sorted[i].0, sorted[j].0))
    && multiset(sorted) == multiset(entries)
  }

  lemma SortedDescribes<G>(tree: map<Text, Node<G>>, entries: Entries)
    requires Describes(tree, entries)
    ensures Describes(tree, Sort(entries)) && InOrder(Sort(entries), entries)
  {
    var sorted := Sort(entries);
    SortIsSorted(entries);
    SortDistinct(entries);
    forall i, j | 0 <= i < j < |sorted| ensures Less(sorted[i].0, sorted[j].0) {
      LessTotal(sorted[i].0, sorted[j].0);
    }
    forall y ensures y in sorted <==> y in entries { SortMember(entries, y); }
    forall i | 0 <= i < |sorted| ensures Right(tree, sorted[i].0, sorted[i].1) {
      assert sorted[i] in entries;
    }
    assert Names(sorted) == Names(entries) by {
      forall n | n in Names(entries) ensures n in Names(sorted) {
        var i := EntryAt(entries, n);
        assert entries[i] in sorted;
      }
      forall n | n in Names(sorted) ensures n in Names(entries) {
        var i := EntryAt(sorted, n);
        assert sorted[i] in entries;
      }
    }
  }

  /** Which names have entries of a kind is settled by what the names are in the tree. */
  lemma KindsAreRight<G>(tree: map<Text, Node<G>>, entries: Entries)
    requires Describes(tree, entries)
    ensures KindNames(entries, IsDirectory) == set n | n in tree && tree[n].Directory?
    ensures KindNames(entries, IsRegular) == set n | n in tree && tree[n].Regular?
    ensures KindNames(entries, IsSymlink) == set n | n in tree && tree[n].Symlink?
    ensures KindNames(entries, IsHardlink) == OtherNames(tree)
    ensures KindNames(entries, CarriesBytes) == FirstNames(tree)
  {
    forall n | n in tree
      ensures n in KindNames(entries, IsDirectory) <==> tree[n].Directory?
      ensures n in KindNames(entries, IsRegular) <==> tree[n].Regular?
      ensures n in KindNames(entries, IsSymlink) <==> tree[n].Symlink?
      ensures n in KindNames(entries, IsHardlink) <==> n in OtherNames(tree)
      ensures n in KindNames(entries, CarriesBytes) <==> n in FirstNames(tree)
    {
      KindIsRight(tree, entries, n);
    }
    forall n | n in Names(entries) ensures n in tree {}
  }

  lemma KindIsRight<G>(tree: map<Text, Node<G>>, entries: Entries, n: Text)
    requires Describes(tree, entries) && n in tree
    ensures n in KindNames(entries, IsDirectory) <==> tree[n].Directory?
    ensures n in KindNames(entries, IsRegular) <==> tree[n].Regular?
    ensures n in KindNames(entries, IsSymlink) <==> tree[n].Symlink?
    ensures n in KindNames(entries, IsHardlink) <==> n in OtherNames(tree)
    ensures n in KindNames(entries, CarriesBytes) <==> n in FirstNames(tree)
  {
    var i := EntryAt(entries, n);
    var e := entries[i].1;
    assert Right(tree, n, e);
    assert forall j :: 0 <= j < |entries| && entries[j].0 == n ==> j == i;
    assert forall keep: Entry -> bool :: n in KindNames(entries, keep) <==> keep(e);
    if e.HardlinkEntry? && Least(tree, tree[n].group, n) { LeastUnique(tree, tree[n].group, n, e.canonical); }
  }

  /**
   What a fingerprint counts: directories, names of regular files, symbolic links, the names of files
   beyond the first, and the bytes of every file once. Its digest is over the entries in name order.
   */
  lemma FingerprintCounts<G>(tree: map<Text, Node<G>>, entries: Entries)
    requires Describes(tree, entries)
    ensures var f := FingerprintEntries(entries);
            && InOrder(f.tree.entries, entries)
            && f.directoryCount == |set n | n in tree && tree[n].Directory?|
            && f.regularFileCount == |set n | n in tree && tree[n].Regular?|
            && f.symlinkCount == |set n | n in tree && tree[n].Symlink?|
            && f.hardlinkCount == |OtherNames(tree)|
            && f.totalBytes == BytesOf(tree, FirstNames(tree))
  {
    var sorted := Sort(entries);
    SortedDescribes(tree, entries);
    KindsAreRight(tree, sorted);
    CountIs(sorted, IsDirectory);
    CountIs(sorted, IsRegular);
    CountIs(sorted, IsSymlink);
    CountIs(sorted, IsHardlink);
    assert RightSizes(tree, sorted) by {
      assert forall i :: 0 <= i < |sorted| ==> Right(tree, sorted[i].0, sorted[i].1);
    }
    TotalIs(tree, sorted);
  }
}
