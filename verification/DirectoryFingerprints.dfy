/** The fingerprint of an installed directory, computed from its names, inodes and link counts. */
module DirectoryFingerprints {
  import opened Basics
  import opened Ordering
  import opened PathNames
  import opened FileTrees
  import opened ArchiveFingerprints

  datatype Inode =
    | DirectoryInode(mode: bv32)
    | SymlinkInode(target: Text)
    | FileInode(mode: bv32, links: nat, content: seq<int>)
    | SpecialInode

  /** Every name below the root and the (device, inode) pair it refers to. */
  type Listing<I> = map<Text, I>

  ghost function Siblings<I>(names: Listing<I>, id: I): set<Text> {
    set n | n in names && names[n] == id
  }

  /** No special files, no link that leaves the root, no file with a name outside it. */
  ghost predicate SoundName<I>(names: Listing<I>, inodes: map<I, Inode>, n: Text)
    requires n in names && names[n] in inodes
  {
    match inodes[names[n]]
    case DirectoryInode(_) => true
    case SymlinkInode(target) => SafeLink(n, target)
    case FileInode(_, links, _) => links == |Siblings(names, names[n])|
    case SpecialInode => false
  }

  ghost predicate Consistent<I>(names: Listing<I>, inodes: map<I, Inode>) {
    forall n :: n in names ==> names[n] in inodes
  }

  ghost predicate Closed<I>(names: Listing<I>, inodes: map<I, Inode>)
    requires Consistent(names, inodes)
  {
    forall n :: n in names ==> SoundName(names, inodes, n)
  }

  ghost function NodeAt<I>(id: I, inode: Inode): Node<I> {
    match inode
    case DirectoryInode(mode) => Directory(mode)
    case SymlinkInode(target) => Symlink(target)
    case FileInode(mode, _, content) => Regular(id, mode, content)
    case SpecialInode => Directory(0)     // never in a closed directory
  }

  ghost function TreeIn<I>(names: Listing<I>, inodes: map<I, Inode>): (tree: map<Text, Node<I>>)
    requires Consistent(names, inodes)
    ensures tree.Keys == names.Keys && Coherent(tree)
    ensures forall n :: n in names ==> tree[n] == NodeAt(names[n], inodes[names[n]])
  {
    map n | n in names :: NodeAt(names[n], inodes[names[n]])
  }

  /** Right entries for exactly these names. */
  ghost predicate Partial<G>(tree: map<Text, Node<G>>, entries: Entries, done: set<Text>) {
    && DistinctKeys(entries) && Names(entries) == done
    && forall i :: 0 <= i < |entries| ==> Right(tree, entries[i].0, entries[i].1)
  }

  lemma PartialMore<G>(tree: map<Text, Node<G>>, entries: Entries, done: set<Text>, n: Text, e: Entry)
    requires Partial(tree, entries, done) && n !in done && Right(tree, n, e)
    ensures Partial(tree, entries + [(n, e)], done + {n})
  {
    NamesMore(entries, n, e);
  }

  ghost predicate IsRegular<I>(names: Listing<I>, inodes: map<I, Inode>, n: Text) {
    n in names && names[n] in inodes && inodes[names[n]].FileInode?
  }

  ghost function Elements(s: seq<Text>): set<Text> { set n | n in s }

  // ---- First loop: directories and symbolic links --------------------------------------------------

  /** The names seen so far, split into those with an entry and the regular files. */
  ghost predicate Walked<I>(names: Listing<I>, inodes: map<I, Inode>, seen: set<Text>, entries: Entries, regulars: seq<Text>)
    requires Consistent(names, inodes)
  {
    && NoDuplicates(regulars) && seen <= names.Keys
    && (forall n :: n in regulars <==> n in seen && IsRegular(names, inodes, n))
    && Partial(TreeIn(names, inodes), entries, seen - Elements(regulars))
    && (forall n :: n in seen && !IsRegular(names, inodes, n) ==> SoundName(names, inodes, n))
  }

  method Walk<I(==)>(walk: seq<(Text, ())>, names: Listing<I>, inodes: map<I, Inode>)
    returns (r: Result<(Entries, seq<Text>)>)
    requires Consistent(names, inodes) && DistinctKeys(walk)
    requires forall i :: 0 <= i < |walk| ==> walk[i].0 in names
    ensures r.Ok? ==> Walked(names, inodes, Visited(walk), r.value.0, r.value.1)
    ensures r.Err? ==> exists n :: n in names && !SoundName(names, inodes, n)
  {
    var entries: Entries, regulars: seq<Text> := [], [];
    for i := 0 to |walk|
      invariant Walked(names, inodes, Visited(walk[..i]), entries, regulars)
    {
      var n := walk[i].0;
      VisitedMore(walk, i);
      var e := PlainEntry(names, inodes, n);
      if e.Err? { return Err(e.reason); }
      StepWalked(names, inodes, Visited(walk[..i]), entries, regulars, n, e.value);
      if e.value.Some? { entries := entries + [(n, e.value.value)]; } else { regulars := regulars + [n]; }
    }
    assert walk[..|walk|] == walk;
    return Ok((entries, regulars));
  }

  ghost function Visited(walk: seq<(Text, ())>): set<Text> { set i | 0 <= i < |walk| :: walk[i].0 }

  lemma VisitedMore(walk: seq<(Text, ())>, i: nat)
    requires i < |walk| && DistinctKeys(walk)
    ensures Visited(walk[..i + 1]) == Visited(walk[..i]) + {walk[i].0} && walk[i].0 !in Visited(walk[..i])
  {
    var more := walk[..i + 1];
    assert more[i].0 == walk[i].0;
    forall n | n in Visited(walk[..i]) ensures n in Visited(more) {
      var j :| 0 <= j < i && walk[..i][j].0 == n;
      assert more[j].0 == n;
    }
    forall n | n in Visited(more) ensures n in Visited(walk[..i]) || n == walk[i].0 {
      var j :| 0 <= j < i + 1 && more[j].0 == n;
      if j < i { assert walk[..i][j].0 == n; }
    }
  }

  /** The entry of a directory or symbolic link, nothing for a regular file. */
  method PlainEntry<I(==)>(names: Listing<I>, inodes: map<I, Inode>, n: Text) returns (r: Result<Option<Entry>>)
    requires Consistent(names, inodes) && n in names
    ensures r.Err? ==> !SoundName(names, inodes, n)
    ensures r.Ok? && r.value.None? ==> IsRegular(names, inodes, n)
    ensures r.Ok? && r.value.Some? ==>
              (SoundName(names, inodes, n) && !IsRegular(names, inodes, n) && Right(TreeIn(names, inodes), n, r.value.value))
  {
    match inodes[names[n]]
    case DirectoryInode(mode) => return Ok(Some(DirectoryEntry(InputMode(mode))));
    case SymlinkInode(target) =>
      var safe := ValidateRelativeLink(n, target);
      if !safe { return Err("link escapes its root"); }
      return Ok(Some(SymlinkEntry(target)));
    case FileInode(_, _, _) => return Ok(None);
    case SpecialInode => return Err("special file");
  }

  lemma StepWalked<I>(
    names: Listing<I>, inodes: map<I, Inode>, seen: set<Text>, entries: Entries, regulars: seq<Text>, n: Text, e: Option<Entry>)
    requires Consistent(names, inodes) && Walked(names, inodes, seen, entries, regulars) && n !in seen && n in names
    requires e.None? ==> IsRegular(names, inodes, n)
    requires e.Some? ==> SoundName(names, inodes, n) && !IsRegular(names, inodes, n)
    requires e.Some? ==> Right(TreeIn(names, inodes), n, e.value)
    ensures e.None? ==> Walked(names, inodes, seen + {n}, entries, regulars + [n])
    ensures e.Some? ==> Walked(names, inodes, seen + {n}, entries + [(n, e.value)], regulars)
  {
    assert n !in regulars;
    if e.Some? {
      PartialMore(TreeIn(names, inodes), entries, seen - Elements(regulars), n, e.value);
      assert seen + {n} - Elements(regulars) == seen - Elements(regulars) + {n};
    } else {
      assert seen + {n} - Elements(regulars + [n]) == seen - Elements(regulars);
    }
  }

  // ---- Second loop: the names of each inode ----------------------------------------------------------

  ghost predicate Shares<I>(names: Listing<I>, some: seq<Text>, id: I, n: Text) {
    n in some && n in names && names[n] == id
  }

  ghost predicate Sharing<I>(names: Listing<I>, some: seq<Text>, paths: map<I, seq<Text>>) {
    && (forall n :: n in some ==> n in names && names[n] in paths)
    && (forall id :: id in paths ==> NoDuplicates(paths[id]))
    && (forall id, n :: id in paths ==> (n in paths[id] <==> Shares(names, some, id, n)))
  }

  method InodePaths<I(==)>(names: Listing<I>, regulars: seq<Text>) returns (paths: map<I, seq<Text>>)
    requires NoDuplicates(regulars) && forall n :: n in regulars ==> n in names
    ensures Sharing(names, regulars, paths)
  {
    paths := map[];
    for k := 0 to |regulars|
      invariant Sharing(names, regulars[..k], paths)
    {
      var n := regulars[k];
      assert n !in regulars[..k];
      var id := names[n];
      var before := if id in paths then paths[id] else [];
      assert n !in before;
      assert regulars[..k + 1] == regulars[..k] + [n];
      paths := paths[id := before + [n]];
    }
    assert regulars[..|regulars|] == regulars;
  }

  lemma {:induction false} Counted(s: seq<Text>, keys: set<Text>)
    requires NoDuplicates(s) && forall n :: n in s <==> n in keys
    ensures |s| == |keys|
  {
    if s == [] {
      assert keys == {};
    } else {
      assert s[0] in keys && s[0] !in s[1..];
      forall n ensures n in s[1..] <==> n in keys - {s[0]} { assert n in s <==> n == s[0] || n in s[1..]; }
      Counted(s[1..], keys - {s[0]});
    }
  }

  // ---- Third loop: the entries of the files -----------------------------------------------------------

  /** One file: refused when it has a name outside the root, and tied to the least of its names. */
  method RegularEntry<I(==)>(names: Listing<I>, inodes: map<I, Inode>, regulars: seq<Text>, paths: map<I, seq<Text>>, n: Text)
    returns (r: Option<Entry>)
    requires Consistent(names, inodes) && n in regulars
    requires forall k :: k in regulars <==> IsRegular(names, inodes, k)
    requires Sharing(names, regulars, paths)
    ensures r.Some? <==> SoundName(names, inodes, n)
    ensures r.Some? ==> Right(TreeIn(names, inodes), n, r.value)
  {
    assert IsRegular(names, inodes, n);
    var inode := inodes[names[n]];
    var siblings := SortedNames(paths[names[n]]);
    SiblingsListed(names, inodes, regulars, paths, n);
    if inode.links != |siblings| { return None; }
    FirstLeast(names, inodes, n, paths[names[n]], siblings);
    if |siblings| > 1 && n != siblings[0].0 {
      return Some(HardlinkEntry(InputMode(inode.mode), siblings[0].0));
    }
    assert n == siblings[0].0;
    return Some(FileEntry(InputMode(inode.mode), |inode.content|, Sha256(inode.content)));
  }

  lemma SiblingsListed<I>(names: Listing<I>, inodes: map<I, Inode>, regulars: seq<Text>, paths: map<I, seq<Text>>, n: Text)
    requires Consistent(names, inodes) && n in regulars
    requires forall k :: k in regulars <==> IsRegular(names, inodes, k)
    requires Sharing(names, regulars, paths)
    ensures |paths[names[n]]| == |Siblings(names, names[n])| && n in paths[names[n]]
    ensures forall k :: k in paths[names[n]] <==> InGroup(TreeIn(names, inodes), names[n], k)
  {
    var id := names[n];
    assert IsRegular(names, inodes, n) && Shares(names, regulars, id, n);
    forall k ensures k in paths[id] <==> k in Siblings(names, id) {
      assert k in paths[id] <==> Shares(names, regulars, id, k);
      assert k in regulars <==> IsRegular(names, inodes, k);
    }
    Counted(paths[id], Siblings(names, id));
    forall k ensures k in paths[id] <==> InGroup(TreeIn(names, inodes), id, k) {
      assert k in paths[id] <==> Shares(names, regulars, id, k);
      assert k in regulars <==> IsRegular(names, inodes, k);
    }
  }

  lemma FirstLeast<I>(names: Listing<I>, inodes: map<I, Inode>, n: Text, listed: seq<Text>, sorted: seq<(Text, ())>)
    requires Consistent(names, inodes) && n in names && n in listed && sorted == SortedNames(listed)
    requires forall k :: k in listed <==> InGroup(TreeIn(names, inodes), names[n], k)
    ensures |sorted| >= 1 && Least(TreeIn(names, inodes), names[n], sorted[0].0)
    ensures |sorted| == 1 ==> n == sorted[0].0
  {
    var tree, first := TreeIn(names, inodes), sorted[0].0;
    assert (n, ()) in sorted && first in listed;
    forall k | InGroup(tree, names[n], k) ensures !Less(k, first) {
      assert (k, ()) in sorted;
      var j :| 0 <= j < |sorted| && sorted[j] == (k, ());
      if j == 0 { LessIrreflexive(k); }
    }
  }

  /** Succeeds exactly on closed directories, with the fingerprint of what is in them. */
  method DirectoryFingerprint<I(==)>(walk: seq<Text>, names: Listing<I>, inodes: map<I, Inode>)
    returns (r: Result<Fingerprint>)
    requires Consistent(names, inodes) && Enumerates(walk, names.Keys)
    ensures r.Ok? <==> Closed(names, inodes)
    ensures r.Ok? ==> IsFingerprint(TreeIn(names, inodes), r.value)
  {
    var walked := Walk(SortedNames(walk), names, inodes);
    if walked.Err? { return Err(walked.reason); }
    var (entries, regulars) := walked.value;
    AllVisited(walk, names);
    assert forall n :: n in regulars <==> IsRegular(names, inodes, n);
    var all := RegularEntries(names, inodes, entries, regulars);
    if all.Err? { return Err(all.reason); }
    return Ok(FingerprintEntries(all.value));
  }

  method RegularEntries<I(==)>(names: Listing<I>, inodes: map<I, Inode>, plain: Entries, regulars: seq<Text>)
    returns (r: Result<Entries>)
    requires Consistent(names, inodes) && NoDuplicates(regulars)
    requires forall n :: n in regulars <==> IsRegular(names, inodes, n)
    requires Partial(TreeIn(names, inodes), plain, names.Keys - Elements(regulars))
    ensures r.Ok? <==> forall n :: IsRegular(names, inodes, n) ==> SoundName(names, inodes, n)
    ensures r.Ok? ==> Describes(TreeIn(names, inodes), r.value)
  {
    var paths := InodePaths(names, regulars);
    var entries := plain;
    ghost var others := names.Keys - Elements(regulars);
    for k := 0 to |regulars|
      invariant Partial(TreeIn(names, inodes), entries, others + Elements(regulars[..k]))
      invariant forall n :: n in regulars[..k] ==> SoundName(names, inodes, n)
    {
      var n := regulars[k];
      var e := RegularEntry(names, inodes, regulars, paths, n);
      if e.None? { return Err("hard link escapes its root"); }
      assert n !in regulars[..k] && n in regulars;
      PartialMore(TreeIn(names, inodes), entries, others + Elements(regulars[..k]), n, e.value);
      assert others + Elements(regulars[..k + 1]) == others + Elements(regulars[..k]) + {n} by {
        assert regulars[..k + 1] == regulars[..k] + [n];
      }
      entries := entries + [(n, e.value)];
    }
    assert regulars[..|regulars|] == regulars;
    assert others + Elements(regulars) == names.Keys;
    return Ok(entries);
  }

  lemma AllVisited<I>(walk: seq<Text>, names: Listing<I>)
    requires Enumerates(walk, names.Keys)
    ensures Visited(SortedNames(walk)) == names.Keys
  {
    var sorted := SortedNames(walk);
    forall n | n in names ensures n in Visited(sorted) {
      assert (n, ()) in sorted;
      var i :| 0 <= i < |sorted| && sorted[i] == (n, ());
      assert sorted[i].0 == n;
    }
  }
}
