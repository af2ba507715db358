/**
 The members of a tar archive, what each name in it stands for, and the chains of hard links
 between them. Nothing here depends on the order of the members.
 */
module ArchiveMembers {
  import opened Basics
  import opened Ordering
  import opened PathNames
  import opened FileTrees

  datatype Kind =
    | DirectoryMember
    | SymlinkMember(target: Text)
    | HardlinkMember(target: Text)
    | FileMember(content: seq<int>)
    | SpecialMember

  datatype Member = Member(mode: bv32, kind: Kind)

  /** Members by the name written in the archive. */
  type Members = seq<(Text, Member)>

  datatype Hardlink = Hardlink(mode: bv32, target: Text)

  datatype FileInfo = FileInfo(mode: bv32, size: nat, digest: Digest)

  /** The member of the root directory itself, which is passed over. */
  predicate RootMember(m: (Text, Member)) {
    var t := WithoutDotSlash(m.0); t == [] || t == CURRENT
  }

  function NameOf(m: (Text, Member)): Result<Text> { Normalize(WithoutDotSlash(m.0)) }

  /** The members passed over, and the names of the others. */
  lemma NameExactly(m: (Text, Member))
    ensures RootMember(m) <==> m.0 == [] || m.0 == [46] || m.0 == [46, 47] || m.0 == [46, 47, 46]
    ensures NameOf(m).Ok? ==> Parts(NameOf(m).value) == Parts(m.0) && [46, 46] !in Parts(m.0)
    ensures [46, 46] in Parts(m.0) ==> NameOf(m).Err?
  {
    PartsWithoutDotSlash(m.0);
    NormalizeExactly(WithoutDotSlash(m.0));
    if NameOf(m).Ok? { NormalizeMeans(WithoutDotSlash(m.0), WithoutDotSlash(m.0)); }
    if |m.0| >= 2 && m.0[0] == 46 && m.0[1] == 47 { assert m.0 == [46, 47] + m.0[2..]; }
  }

  predicate Stands(m: (Text, Member), n: Text) { !RootMember(m) && NameOf(m) == Ok(n) }

  ghost predicate GoodMember(m: (Text, Member)) {
    RootMember(m) ||
    (NameOf(m).Ok? &&
     match m.1.kind
     case SymlinkMember(target) => SafeLink(NameOf(m).value, target)
     case HardlinkMember(target) => Normalize(target).Ok?
     case SpecialMember => false
     case _ => true)
  }

  /** How often a name is used. */
  function Uses(members: Members, n: Text): nat {
    if members == [] then 0
    else Uses(members[..|members| - 1], n) + if Stands(members[|members| - 1], n) then 1 else 0
  }

  ghost predicate Distinct(members: Members) { forall n :: Uses(members, n) <= 1 }

  function Index(members: Members): map<Text, Member> {
    if members == [] then map[]
    else
      var rest, last := Index(members[..|members| - 1]), members[|members| - 1];
      if RootMember(last) || NameOf(last).Err? then rest else rest[NameOf(last).value := last.1]
  }

  lemma {:induction false} IndexUses(members: Members, n: Text)
    ensures n in Index(members) <==> Uses(members, n) > 0
  {
    if members != [] { IndexUses(members[..|members| - 1], n); }
  }

  lemma {:induction false} UsesMember(members: Members, i: nat, n: Text)
    requires i < |members| && Stands(members[i], n)
    ensures Uses(members, n) > 0
  {
    if i < |members| - 1 { UsesMember(members[..|members| - 1], i, n); }
  }

  lemma DistinctPrefix(members: Members)
    requires Distinct(members) && members != []
    ensures Distinct(members[..|members| - 1])
  {
    var rest := members[..|members| - 1];
    forall n ensures Uses(rest, n) <= 1 { assert Uses(members, n) <= 1; }
  }

  lemma {:induction false} IndexMember(members: Members, i: nat, n: Text)
    requires Distinct(members) && i < |members| && Stands(members[i], n)
    ensures n in Index(members) && Index(members)[n] == members[i].1
  {
    DistinctPrefix(members);
    if i < |members| - 1 {
      IndexMember(members[..|members| - 1], i, n);
      UsesMember(members[..|members| - 1], i, n);
      assert Uses(members, n) <= 1;
    }
  }

  lemma {:induction false} MemberOf(members: Members, n: Text) returns (i: nat)
    requires n in Index(members)
    ensures i < |members| && Stands(members[i], n) && Index(members)[n] == members[i].1
  {
    var last := |members| - 1;
    if Stands(members[last], n) { i := last; } else { i := MemberOf(members[..last], n); }
  }

  // ---- Order ---------------------------------------------------------------------------------

  lemma {:induction false} UsesConcat(a: Members, b: Members, n: Text)
    ensures Uses(a + b, n) == Uses(a, n) + Uses(b, n)
  {
    if b == [] {
      assert a + b == a;
    } else {
      assert (a + b)[..|a + b| - 1] == a + b[..|b| - 1];
      UsesConcat(a, b[..|b| - 1], n);
    }
  }

  lemma {:induction false} UsesPermuted(a: Members, b: Members, n: Text)
    requires multiset(a) == multiset(b)
    ensures Uses(a, n) == Uses(b, n)
    decreases |a|
  {
    if a == [] {
      assert |multiset(b)| == 0 && b == [];
    } else {
      var i := |a| - 1;
      assert a[i] in multiset(b);
      var j :| 0 <= j < |b| && b[j] == a[i];
      var c, d := a[..i] + a[i + 1..], b[..j] + b[j + 1..];
      UsesWithout(a, i, n);
      UsesWithout(b, j, n);
      assert multiset(c) == multiset(a) - multiset{a[i]} == multiset(d);
      UsesPermuted(c, d, n);
    }
  }

  lemma UsesWithout(b: Members, j: nat, n: Text)
    requires j < |b|
    ensures Uses(b, n) == Uses(b[..j] + b[j + 1..], n) + if Stands(b[j], n) then 1 else 0
    ensures multiset(b) == multiset(b[..j] + b[j + 1..]) + multiset{b[j]}
  {
    var one := [b[j]];
    assert b == b[..j] + one + b[j + 1..];
    UsesConcat(b[..j], b[j + 1..], n);
    UsesConcat(b[..j], one, n);
    UsesConcat(b[..j] + one, b[j + 1..], n);
    assert one[..0] == [] && Uses(one[..0], n) == 0;
  }

  ghost predicate Readable(members: Members) {
    Distinct(members) && forall i :: 0 <= i < |members| ==> GoodMember(members[i])
  }

  /** Reordering the members changes neither whether they can be read nor what they mean. */
  lemma OrderIrrelevant(a: Members, b: Members)
    requires multiset(a) == multiset(b) && Readable(a)
    ensures Readable(b) && Index(a) == Index(b)
  {
    forall n ensures Uses(b, n) == Uses(a, n) { UsesPermuted(a, b, n); }
    forall i | 0 <= i < |b| ensures GoodMember(b[i]) { assert b[i] in multiset(a); }
    forall n ensures n in Index(a) <==> n in Index(b) {
      IndexUses(a, n);
      IndexUses(b, n);
    }
    forall n | n in Index(a) ensures n in Index(b) && Index(a)[n] == Index(b)[n] {
      var i := MemberOf(a, n);
      assert a[i] in multiset(b);
      var j :| 0 <= j < |b| && b[j] == a[i];
      IndexMember(b, j, n);
    }
  }

  // ---- Chains of hard links ------------------------------------------------------------------

  type Links = map<Text, Hardlink>

  /** `k` links further along. */
  function Steps(links: Links, n: Text, k: nat): Text {
    if k == 0 then n
    else
      var p := Steps(links, n, k - 1);
      if p in links then links[p].target else p
  }

  ghost predicate Ends(links: Links, n: Text, t: Text) {
    t !in links && exists k: nat :: Steps(links, n, k) == t
  }

  ghost predicate Cyclic(links: Links, n: Text) { forall k: nat :: Steps(links, n, k) in links }

  lemma {:induction false} StepsStop(links: Links, n: Text, k: nat, l: nat)
    requires k <= l && Steps(links, n, k) !in links
    ensures Steps(links, n, l) == Steps(links, n, k)
  {
    if k < l { StepsStop(links, n, k, l - 1); }
  }

  lemma EndsUnique(links: Links, n: Text, a: Text, b: Text)
    requires Ends(links, n, a) && Ends(links, n, b)
    ensures a == b
  {
    var k: nat :| Steps(links, n, k) == a;
    var l: nat :| Steps(links, n, l) == b;
    if k <= l { StepsStop(links, n, k, l); } else { StepsStop(links, n, l, k); }
  }

  lemma CyclicNeverEnds(links: Links, n: Text, t: Text)
    requires Cyclic(links, n)
    ensures !Ends(links, n, t)
  {
  }

  lemma {:induction false} ClosedStays(links: Links, within: set<Text>, n: Text, k: nat)
    requires within <= links.Keys && n in within && forall v :: v in within ==> links[v].target in within
    ensures Steps(links, n, k) in within
  {
    if k > 0 { ClosedStays(links, within, n, k - 1); }
  }

  /** Follows a link to the first name that is not one: the loop ends, and fails exactly on a cycle. */
  method FollowChain(links: Links, name: Text) returns (end: Option<Text>)
    requires name in links
    ensures end.Some? ==> Ends(links, name, end.value)
    ensures end.None? <==> Cyclic(links, name)
  {
    var target, visited := links[name].target, {name};
    ghost var k := 1;
    assert Steps(links, name, 0) == name;
    while target in links
      invariant target == Steps(links, name, k)
      invariant name in visited && visited <= links.Keys
      invariant forall v :: v in visited ==> links[v].target in visited || links[v].target == target
      decreases links.Keys - visited
    {
      if target in visited {
        forall l: nat ensures Steps(links, name, l) in links { ClosedStays(links, visited, name, l); }
        return None;
      }
      visited := visited + {target};
      target := links[target].target;
      k := k + 1;
    }
    return Some(target);
  }

  // ---- The tree an archive stands for ----------------------------------------------------------

  ghost predicate IsLink(index: map<Text, Member>, n: Text) {
    n in index && index[n].kind.HardlinkMember? && Normalize(index[n].kind.target).Ok?
  }

  /** The hard links of an archive, each with its normalised target. */
  ghost predicate AreLinks(links: Links, index: map<Text, Member>) {
    && (forall n :: n in links <==> IsLink(index, n))
    && (forall n :: n in links ==> links[n] == Hardlink(index[n].mode, Normalize(index[n].kind.target).value))
  }

  lemma LinksExist(index: map<Text, Member>)
    ensures exists links :: AreLinks(links, index)
  {
    var links := map n | n in index && IsLink(index, n) :: Hardlink(index[n].mode, Normalize(index[n].kind.target).value);
    assert AreLinks(links, index);
  }

  ghost function LinksOf(index: map<Text, Member>): (links: Links)
    ensures AreLinks(links, index)
  {
    LinksExist(index);
    var links :| AreLinks(links, index); links
  }

  lemma LinksUnique(links: Links, index: map<Text, Member>)
    requires AreLinks(links, index)
    ensures links == LinksOf(index)
  {
  }

  ghost predicate AreFiles(files: map<Text, FileInfo>, index: map<Text, Member>) {
    && (forall n :: n in files <==> IsFile(index, n))
    && (forall n :: n in files ==>
          files[n] == FileInfo(index[n].mode, |index[n].kind.content|, Sha256(index[n].kind.content)))
  }

  ghost predicate IsFile(index: map<Text, Member>, n: Text) { n in index && index[n].kind.FileMember? }

  ghost predicate Leads(index: map<Text, Member>, n: Text, f: Text) {
    Ends(LinksOf(index), n, f) && IsFile(index, f)
  }

  ghost predicate LeadsSomewhere(index: map<Text, Member>, n: Text) { exists f :: Leads(index, n, f) }

  /** Every hard link leads to a file. */
  ghost predicate Resolved(index: map<Text, Member>) {
    && (forall n :: n in index ==> !index[n].kind.SpecialMember?)
    && (forall n :: n in index && index[n].kind.HardlinkMember? ==> IsLink(index, n) && LeadsSomewhere(index, n))
  }

  ghost function FileOf(index: map<Text, Member>, n: Text): Text
    requires LeadsSomewhere(index, n)
  {
    var f :| Leads(index, n, f); f
  }

  lemma FileOfIs(index: map<Text, Member>, n: Text, f: Text)
    requires Leads(index, n, f)
    ensures FileOf(index, n) == f
  {
    EndsUnique(LinksOf(index), n, f, FileOf(index, n));
  }

  ghost predicate SameModes(index: map<Text, Member>)
    requires Resolved(index)
  {
    forall n :: n in index && index[n].kind.HardlinkMember? ==> index[n].mode == index[FileOf(index, n)].mode
  }

  ghost function NodeOf(index: map<Text, Member>, n: Text): Node<Text>
    requires Resolved(index) && n in index
  {
    match index[n].kind
    case DirectoryMember => Directory(index[n].mode)
    case SymlinkMember(target) => Symlink(target)
    case FileMember(content) => Regular(n, index[n].mode, content)
    case HardlinkMember(_) =>
      var f := FileOf(index, n);
      Regular(f, index[f].mode, index[f].kind.content)
  }

  ghost function TreeOf(index: map<Text, Member>): (tree: map<Text, Node<Text>>)
    requires Resolved(index)
    ensures tree.Keys == index.Keys && Coherent(tree)
  {
    map n | n in index :: NodeOf(index, n)
  }

  lemma ReadableIndex(members: Members, n: Text)
    requires Readable(members) && n in Index(members)
    ensures !Index(members)[n].kind.SpecialMember?
    ensures Index(members)[n].kind.HardlinkMember? ==> IsLink(Index(members), n)
    ensures Index(members)[n].kind.SymlinkMember? ==> SafeLink(n, Index(members)[n].kind.target)
  {
    var i := MemberOf(members, n);
    assert GoodMember(members[i]);
  }

  ghost predicate Acceptable(members: Members) {
    Readable(members) && Resolved(Index(members)) && SameModes(Index(members))
  }
}
