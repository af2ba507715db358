/** The two fingerprints agree on an archive and any extraction of it, exactly when they should. */
module FingerprintAgreement {
  import opened Basics
  import opened Ordering
  import opened PathNames
  import opened FileTrees
  import opened ArchiveMembers
  import opened ArchiveFingerprints
  import opened DirectoryFingerprints

  /** The directories that names pass through. */
  ghost function Parents(names: set<Text>): set<Text> {
    set n, k | n in names && 0 < k < |Parts(n)| :: Join(Parts(n)[..k])
  }

  ghost predicate ParentsListed(index: map<Text, Member>) { Parents(index.Keys) <= index.Keys }

  /** Every name below the root that extraction makes. */
  ghost function Made(index: map<Text, Member>): set<Text> {
    index.Keys + Parents(index.Keys) - {CURRENT}
  }

  ghost predicate InDirectory<I>(names: Listing<I>, inodes: map<I, Inode>, parent: Text) {
    parent in names && names[parent] in inodes && inodes[names[parent]].DirectoryInode?
  }

  ghost predicate Extracted(node: Node<Text>, inode: Inode) {
    match node
    case Directory(mode) => inode.DirectoryInode? && SameAccess(mode, inode.mode)
    case Symlink(target) => inode == SymlinkInode(target)
    case Regular(_, mode, content) => inode.FileInode? && SameAccess(mode, inode.mode) && inode.content == content
  }

  /**
   What an extraction is: every member in place with its bytes and its read and execute bits, one
   inode per file, no name of it elsewhere, and every name inside directories, up to the root, that
   are there whether a member lists them or not.
   */
  ghost predicate IsExtraction<I>(index: map<Text, Member>, names: Listing<I>, inodes: map<I, Inode>)
    requires Resolved(index)
  {
    var tree := TreeOf(index);
    && Consistent(names, inodes) && names.Keys == Made(index)
    && (forall n :: n in names && n in index ==> Extracted(tree[n], inodes[names[n]]))
    && (forall n :: n in names && n !in index ==> inodes[names[n]].DirectoryInode?)
    && (CURRENT in index ==> tree[CURRENT].Directory?)
    && (forall n, k :: n in names && 0 < k < |Parts(n)| ==> InDirectory(names, inodes, Join(Parts(n)[..k])))
    && (forall m, n :: m in names && n in names && m in index && n in index && tree[m].Regular? && tree[n].Regular? ==>
          (names[m] == names[n] <==> tree[m].group == tree[n].group))
    && (forall n :: n in names && inodes[names[n]].FileInode? ==>
          inodes[names[n]].links == |Siblings(names, names[n])|)
  }

  /** The installed directory is accepted. */
  lemma ExtractionClosed<I>(members: Members, names: Listing<I>, inodes: map<I, Inode>)
    requires Acceptable(members) && IsExtraction(Index(members), names, inodes)
    ensures Closed(names, inodes)
  {
    var index := Index(members);
    forall n | n in names ensures SoundName(names, inodes, n) {
      if n in index {
        ReadableIndex(members, n);
        assert Extracted(TreeOf(index)[n], inodes[names[n]]);
      }
    }
  }

  lemma ExtractionSameTree<I>(members: Members, names: Listing<I>, inodes: map<I, Inode>)
    requires Acceptable(members) && IsExtraction(Index(members), names, inodes)
    requires ParentsListed(Index(members)) && CURRENT !in Index(members)
    ensures SameTree(TreeOf(Index(members)), TreeIn(names, inodes))
  {
    var index := Index(members);
    var v, w := TreeOf(index), TreeIn(names, inodes);
    assert Made(index) == index.Keys;
    forall n | n in v ensures SameNode(v[n], w[n]) { assert Extracted(v[n], inodes[names[n]]); }
    forall m, n | m in v && n in v && v[m].Regular? && v[n].Regular?
      ensures v[m].group == v[n].group <==> w[m].group == w[n].group
    {
      assert SameNode(v[m], w[m]) && SameNode(v[n], w[n]);
      assert w[m].group == names[m] && w[n].group == names[n];
    }
  }

  /**
   Whatever the order of the members and whichever name of a file carries its bytes, the archive's
   fingerprint is the directory's exactly when every parent directory has a member of its own and
   no member names the root.
   */
  lemma FingerprintsAgree<I>(members: Members, names: Listing<I>, inodes: map<I, Inode>)
    requires Acceptable(members) && IsExtraction(Index(members), names, inodes)
    ensures Closed(names, inodes)
    ensures EqualExactly(TreeOf(Index(members)), TreeIn(names, inodes),
                         ParentsListed(Index(members)) && CURRENT !in Index(members))
  {
    ExtractionClosed(members, names, inodes);
    ExtractionSameIff(members, names, inodes);
    DecidedExactly(TreeOf(Index(members)), TreeIn(names, inodes),
                   ParentsListed(Index(members)) && CURRENT !in Index(members));
  }

  /** Any fingerprints of the two trees are equal exactly when the condition holds. */
  ghost predicate EqualExactly<G, H>(v: map<Text, Node<G>>, w: map<Text, Node<H>>, condition: bool) {
    forall a, b :: IsFingerprint(v, a) && IsFingerprint(w, b) ==> (a == b <==> condition)
  }

  lemma DecidedExactly<G, H>(v: map<Text, Node<G>>, w: map<Text, Node<H>>, condition: bool)
    requires Coherent(v) && Coherent(w) && (SameTree(v, w) <==> condition)
    ensures EqualExactly(v, w, condition)
  {
    forall a, b | IsFingerprint(v, a) && IsFingerprint(w, b) ensures a == b <==> condition {
      FingerprintsDecide(v, w, a, b);
    }
  }

  lemma ExtractionSameIff<I>(members: Members, names: Listing<I>, inodes: map<I, Inode>)
    requires Acceptable(members) && IsExtraction(Index(members), names, inodes)
    ensures SameTree(TreeOf(Index(members)), TreeIn(names, inodes)) <==>
            ParentsListed(Index(members)) && CURRENT !in Index(members)
  {
    if ParentsListed(Index(members)) && CURRENT !in Index(members) { ExtractionSameTree(members, names, inodes); }
    MadeAll(Index(members));
  }

  lemma MadeAll(index: map<Text, Member>)
    ensures Made(index) == index.Keys <==> ParentsListed(index) && CURRENT !in index
  {
    ParentsBelowRoot(index);
    assert CURRENT !in Made(index);
  }

  lemma ParentsBelowRoot(index: map<Text, Member>)
    ensures CURRENT !in Parents(index.Keys)
  {
    forall n, k | n in index && 0 < k < |Parts(n)| ensures Join(Parts(n)[..k]) != CURRENT {
      PartsClean(n);
      JoinHead(Parts(n)[..k]);
    }
  }

  lemma FingerprintsDecide<G, H>(v: map<Text, Node<G>>, w: map<Text, Node<H>>, a: Fingerprint, b: Fingerprint)
    requires IsFingerprint(v, a) && IsFingerprint(w, b) && Coherent(v) && Coherent(w)
    ensures a == b <==> SameTree(v, w)
  {
    var es :| Describes(v, es) && a == FingerprintEntries(es);
    var fs :| Describes(w, fs) && b == FingerprintEntries(fs);
    FingerprintDecides(v, es, w, fs);
  }

  /** Two archives that stand for the same tree have the same fingerprint, and only such two. */
  lemma ArchivesAgree(a: Members, b: Members)
    requires Acceptable(a) && Acceptable(b)
    ensures EqualExactly(TreeOf(Index(a)), TreeOf(Index(b)), SameTree(TreeOf(Index(a)), TreeOf(Index(b))))
  {
    DecidedExactly(TreeOf(Index(a)), TreeOf(Index(b)), SameTree(TreeOf(Index(a)), TreeOf(Index(b))));
  }

  // ---- Extractions exist -----------------------------------------------------------------------------

  /** Number the inode of a file by the member that carries its bytes, any other by its name. */
  ghost function InodeId(tree: map<Text, Node<Text>>, n: Text): Text {
    if n in tree && tree[n].Regular? then tree[n].group else n
  }

  ghost function Numbered(index: map<Text, Member>): (names: Listing<Text>)
    requires Resolved(index)
    ensures names.Keys == Made(index) && forall n :: n in names ==> names[n] == InodeId(TreeOf(index), n)
  {
    map n | n in Made(index) :: InodeId(TreeOf(index), n)
  }

  ghost function InodeFor(tree: map<Text, Node<Text>>, names: Listing<Text>, id: Text): Inode {
    if id !in tree then DirectoryInode(0)
    else match tree[id]
      case Directory(mode) => DirectoryInode(mode)
      case Symlink(target) => SymlinkInode(target)
      case Regular(_, mode, content) => FileInode(mode, |Siblings(names, id)|, content)
  }

  lemma CarrierHolds(index: map<Text, Member>, n: Text)
    requires Resolved(index) && n in index && TreeOf(index)[n].Regular?
    ensures var f := TreeOf(index)[n].group; f in index && TreeOf(index)[f] == TreeOf(index)[n]
  {
    if index[n].kind.HardlinkMember? { assert LeadsSomewhere(index, n) && IsFile(index, FileOf(index, n)); }
  }

  /** No member but a directory is where another member needs a directory, or the root is. */
  ghost predicate WellPlaced(index: map<Text, Member>) {
    && (forall n :: n in Parents(index.Keys) && n in index ==> index[n].kind.DirectoryMember?)
    && (CURRENT in index ==> index[CURRENT].kind.DirectoryMember?)
  }

  lemma RootHasNoParts()
    ensures Parts(CURRENT) == []
  {
    SplitWord(CURRENT);
    assert Kept([CURRENT]) == Kept([CURRENT][1..]);
  }

  /** The parents of a parent are parents too. */
  lemma ParentOfMade(index: map<Text, Member>, n: Text, k: nat)
    requires n in Made(index) && 0 < k < |Parts(n)|
    ensures Join(Parts(n)[..k]) in Parents(index.Keys) && Join(Parts(n)[..k]) in Made(index)
  {
    ParentsBelowRoot(index);
    if n !in index {
      var o, j :| o in index && 0 < j < |Parts(o)| && n == Join(Parts(o)[..j]);
      PartsClean(o);
      PartsJoin(Parts(o)[..j]);
      assert Parts(n)[..k] == Parts(o)[..k];
    }
  }

  lemma ExtractionNeeds<I>(index: map<Text, Member>, names: Listing<I>, inodes: map<I, Inode>)
    requires Resolved(index) && IsExtraction(index, names, inodes)
    ensures WellPlaced(index)
  {
    ParentsBelowRoot(index);
    RootHasNoParts();
    forall n | n in Parents(index.Keys) && n in index ensures index[n].kind.DirectoryMember? {
      var o, k :| o in index && 0 < k < |Parts(o)| && n == Join(Parts(o)[..k]);
      assert o in names;
      assert InDirectory(names, inodes, n);
      assert Extracted(TreeOf(index)[n], inodes[names[n]]);
    }
  }

  /** An acceptable archive has an extraction exactly when its members are well placed. */
  lemma ExtractionExactly(members: Members)
    requires Acceptable(members)
    ensures (exists names: Listing<Text>, inodes :: IsExtraction(Index(members), names, inodes)) <==> WellPlaced(Index(members))
  {
    if names: Listing<Text>, inodes :| IsExtraction(Index(members), names, inodes) {
      ExtractionNeeds(Index(members), names, inodes);
    }
    if WellPlaced(Index(members)) {
      var names, inodes := Extraction(members);
    }
  }

  ghost function InodesOf(index: map<Text, Member>): (inodes: map<Text, Inode>)
    requires Resolved(index)
    ensures inodes.Keys == index.Keys + Parents(index.Keys)
    ensures forall id :: id in inodes ==> inodes[id] == InodeFor(TreeOf(index), Numbered(index), id)
  {
    map id | id in index.Keys + Parents(index.Keys) :: InodeFor(TreeOf(index), Numbered(index), id)
  }

  lemma InodeFits(index: map<Text, Member>, n: Text)
    requires Resolved(index) && n in Made(index)
    ensures var names, inodes := Numbered(index), InodesOf(index);
            && names[n] in inodes && inodes[names[n]] == InodeFor(TreeOf(index), names, names[n])
            && (if n in index then Extracted(TreeOf(index)[n], inodes[names[n]]) else inodes[names[n]].DirectoryInode?)
  {
    if n in index && TreeOf(index)[n].Regular? { CarrierHolds(index, n); }
  }

  lemma ParentFits(index: map<Text, Member>, n: Text, k: nat)
    requires Resolved(index) && WellPlaced(index) && n in Made(index) && 0 < k < |Parts(n)|
    ensures InDirectory(Numbered(index), InodesOf(index), Join(Parts(n)[..k]))
  {
    var parent := Join(Parts(n)[..k]);
    ParentOfMade(index, n, k);
    InodeFits(index, parent);
    assert parent in index ==> TreeOf(index)[parent].Directory?;
  }

  lemma Extraction(members: Members) returns (names: Listing<Text>, inodes: map<Text, Inode>)
    requires Acceptable(members) && WellPlaced(Index(members))
    ensures IsExtraction(Index(members), names, inodes)
  {
    var index := Index(members);
    names, inodes := Numbered(index), InodesOf(index);
    forall n | n in names
      ensures names[n] in inodes && inodes[names[n]] == InodeFor(TreeOf(index), names, names[n])
      ensures if n in index then Extracted(TreeOf(index)[n], inodes[names[n]]) else inodes[names[n]].DirectoryInode?
    {
      InodeFits(index, n);
    }
    forall n, k | n in names && 0 < k < |Parts(n)| ensures InDirectory(names, inodes, Join(Parts(n)[..k])) {
      ParentFits(index, n, k);
    }
  }

  // ---- Both exceptions occur ---------------------------------------------------------------------------

  /** A single member that is read under the name `n`. */
  lemma SingleMember(name: Text, m: Member, n: Text)
    requires Stands((name, m), n) && GoodMember((name, m)) && (m.kind.FileMember? || m.kind.DirectoryMember?)
    ensures Acceptable([(name, m)]) && Index([(name, m)]) == map[n := m]
  {
    var members := [(name, m)];
    assert members[..0] == [] && Index([]) == map[];
    assert Index(members) == map[][n := m];
    forall k ensures Uses(members, k) <= 1 { assert Uses(members[..0], k) == 0; }
    assert Readable(members);
  }

  const FILE_NAME: Text := [97]
  const DIRECTORY_NAME: Text := [98]
  const NESTED: Text := DIRECTORY_NAME + [SLASH] + FILE_NAME

  lemma NestedName()
    ensures Normalize(NESTED) == Ok(NESTED) && WithoutDotSlash(NESTED) == NESTED && Parents({NESTED}) == {DIRECTORY_NAME}
  {
    var parts := [DIRECTORY_NAME, FILE_NAME];
    assert parts[1..] == [FILE_NAME] && parts[..1] == [DIRECTORY_NAME];
    assert Join(parts) == NESTED;
    PartsJoin(parts);
    assert Join(Parts(NESTED)[..1]) == DIRECTORY_NAME;
  }

  /** An archive with one file inside a directory that has no member: it has an extraction, whose fingerprint differs. */
  lemma UnlistedParentDiffers(mode: bv32, content: seq<int>)
    returns (members: Members, names: Listing<Text>, inodes: map<Text, Inode>)
    ensures Acceptable(members) && !ParentsListed(Index(members)) && IsExtraction(Index(members), names, inodes)
    ensures EqualExactly(TreeOf(Index(members)), TreeIn(names, inodes), false)
  {
    var m := Member(mode, FileMember(content));
    NestedName();
    members := [(NESTED, m)];
    SingleMember(NESTED, m, NESTED);
    assert Index(members).Keys == {NESTED} && |DIRECTORY_NAME| != |NESTED|;
    assert DIRECTORY_NAME in Parents(Index(members).Keys);
    names, inodes := Extraction(members);
    FingerprintsAgree(members, names, inodes);
  }

  const ROOT_NAME: Text := [DOT, SLASH, DOT, SLASH, DOT, SLASH, DOT]

  /** An archive with one directory member that names the root after all: the same. */
  lemma RootMemberDiffers(mode: bv32) returns (members: Members, names: Listing<Text>, inodes: map<Text, Inode>)
    ensures Acceptable(members) && CURRENT in Index(members) && IsExtraction(Index(members), names, inodes)
    ensures EqualExactly(TreeOf(Index(members)), TreeIn(names, inodes), false)
  {
    var m := Member(mode, DirectoryMember);
    var once, twice := [DOT, SLASH, DOT, SLASH, DOT], [DOT, SLASH, DOT];
    assert WithoutDotSlash(ROOT_NAME) == once && WithoutDotSlash(once) == twice && WithoutDotSlash(twice) == CURRENT;
    RootHasNoParts();
    PartsWithoutDotSlash(twice);
    members := [(ROOT_NAME, m)];
    SingleMember(ROOT_NAME, m, CURRENT);
    assert Parents({CURRENT}) == {};
    names, inodes := Extraction(members);
    FingerprintsAgree(members, names, inodes);
  }
}
