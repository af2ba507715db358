/**
 Relative POSIX path names as `PurePosixPath` reads them, the normalisation of archive member
 names, and the check that a symbolic link stays inside its tree.
 */
module PathNames {
  import opened Basics
  import opened Ordering

  const SLASH: int := 47
  const DOT: int := 46
  const CURRENT: Text := [DOT]
  const PARENT: Text := [DOT, DOT]

  function Split(t: Text): (r: seq<Text>)
    ensures |r| >= 1
  {
    if t == [] then [[]]
    else
      var rest := Split(t[1..]);
      if t[0] == SLASH then [[]] + rest else [[t[0]] + rest[0]] + rest[1..]
  }

  /** A component that survives reading. */
  predicate Clean(part: Text) { part != [] && part != CURRENT && SLASH !in part }

  function Kept(parts: seq<Text>): seq<Text> {
    if parts == [] then []
    else if parts[0] == [] || parts[0] == CURRENT then Kept(parts[1..])
    else [parts[0]] + Kept(parts[1..])
  }

  /** The components of a path: empty ones and "." do not count. */
  function Parts(t: Text): seq<Text> { Kept(Split(t)) }

  function Join(parts: seq<Text>): Text {
    if parts == [] then [] else if |parts| == 1 then parts[0] else parts[0] + [SLASH] + Join(parts[1..])
  }

  lemma {:induction false} SplitClean(t: Text)
    ensures forall p :: p in Split(t) ==> SLASH !in p
  {
    if t != [] {
      SplitClean(t[1..]);
      var rest := Split(t[1..]);
      assert forall p :: p in rest[1..] ==> p in rest;
    }
  }

  lemma {:induction false} KeptClean(parts: seq<Text>)
    requires forall p :: p in parts ==> SLASH !in p
    ensures forall p :: p in Kept(parts) ==> Clean(p)
  {
    if parts != [] { KeptClean(parts[1..]); }
  }

  lemma PartsClean(t: Text)
    ensures forall p :: p in Parts(t) ==> Clean(p)
  {
    SplitClean(t);
    KeptClean(Split(t));
  }

  lemma {:induction false} SplitWord(part: Text)
    requires SLASH !in part
    ensures Split(part) == [part]
  {
    if part != [] {
      SplitWord(part[1..]);
      assert part == [part[0]] + part[1..];
    }
  }

  lemma {:induction false} SplitPrefix(part: Text, rest: Text)
    requires SLASH !in part
    ensures Split(part + [SLASH] + rest) == [part] + Split(rest)
  {
    var t := part + [SLASH] + rest;
    if part == [] {
      assert t[1..] == rest;
    } else {
      assert t[1..] == part[1..] + [SLASH] + rest;
      SplitPrefix(part[1..], rest);
      assert part == [part[0]] + part[1..];
    }
  }

  lemma {:induction false} KeptConcat(a: seq<Text>, b: seq<Text>)
    ensures Kept(a + b) == Kept(a) + Kept(b)
  {
    if a == [] {
      assert a + b == b;
    } else {
      KeptConcat(a[1..], b);
      assert (a + b)[1..] == a[1..] + b;
    }
  }

  /**
   What the components of a path are: a word without slash is one, unless it is empty or a dot, and a
   slash separates. These two laws settle them for every path.
   */
  lemma PartsExactly(word: Text, rest: Text)
    requires 47 !in word
    ensures Parts(word) == if word == [] || word == [46] then [] else [word]
    ensures Parts(word + [47] + rest) == Parts(word) + Parts(rest)
  {
    SplitWord(word);
    SplitPrefix(word, rest);
    KeptConcat([word], Split(rest));
    assert Kept([word]) == (if word == [] || word == [46] then [] else [word]) + Kept([word][1..]);
  }

  /** Printing components and reading them back gives the same components. */
  lemma {:induction false} PartsJoin(parts: seq<Text>)
    requires forall p :: p in parts ==> Clean(p)
    ensures Parts(Join(parts)) == parts
  {
    if |parts| == 1 {
      assert Clean(parts[0]);
      SplitWord(parts[0]);
      assert parts[1..] == [] && Kept(parts) == [parts[0]] + Kept(parts[1..]);
      assert parts == [parts[0]];
    } else if |parts| > 1 {
      assert Clean(parts[0]);
      SplitPrefix(parts[0], Join(parts[1..]));
      PartsJoin(parts[1..]);
      assert ([parts[0]] + Split(Join(parts[1..])))[1..] == Split(Join(parts[1..]));
    }
  }

  predicate Absolute(t: Text) { t != [] && t[0] == SLASH }

  /** `str.removeprefix("./")`. */
  function WithoutDotSlash(t: Text): Text {
    if |t| >= 2 && t[0] == DOT && t[1] == SLASH then t[2..] else t
  }

  function Posix(parts: seq<Text>): Text { if parts == [] then CURRENT else Join(parts) }

  function Normalize(name: Text): Result<Text> {
    var t := WithoutDotSlash(name);
    if t == [] || t == CURRENT || Absolute(t) || PARENT in Parts(t) then Err("archive member name is unsafe")
    else Ok(Posix(Parts(t)))
  }

  lemma PartsWithoutDotSlash(t: Text)
    ensures Parts(WithoutDotSlash(t)) == Parts(t)
  {
    if |t| >= 2 && t[0] == DOT && t[1] == SLASH {
      assert t == CURRENT + [SLASH] + t[2..];
      SplitPrefix(CURRENT, t[2..]);
      assert ([CURRENT] + Split(t[2..]))[1..] == Split(t[2..]);
    }
  }

  lemma PartsPosix(t: Text)
    ensures Parts(Posix(Parts(t))) == Parts(t)
  {
    PartsClean(t);
    if Parts(t) == [] {
      SplitWord(CURRENT);
      assert Kept([CURRENT]) == Kept([CURRENT][1..]);
    } else {
      PartsJoin(Parts(t));
    }
  }

  /** An accepted name keeps its components, has none that climbs, and two agree only on the same components. */
  lemma NormalizeMeans(a: Text, b: Text)
    requires Normalize(a).Ok? && Normalize(b).Ok?
    ensures Parts(Normalize(a).value) == Parts(a) && PARENT !in Parts(a)
    ensures Normalize(a) == Normalize(b) <==> Parts(a) == Parts(b)
  {
    PartsWithoutDotSlash(a);
    PartsWithoutDotSlash(b);
    PartsPosix(a);
    PartsPosix(b);
  }

  /**
   Exactly which names are accepted, "./" at the front aside: not the empty one, not ".", none that
   starts with a slash or has a component "..". The result is "." for no components, and otherwise the
   components with single slashes between.
   */
  lemma NormalizeExactly(name: Text)
    ensures var t := if |name| >= 2 && name[0] == 46 && name[1] == 47 then name[2..] else name;
            Normalize(name).Ok? <==> t != [] && t != [46] && t[0] != 47 && [46, 46] !in Parts(name)
    ensures Normalize(name).Ok? ==>
              if Parts(name) == [] then Normalize(name).value == [46]
              else Split(Normalize(name).value) == Parts(name)
  {
    PartsWithoutDotSlash(name);
    PartsClean(name);
    if Parts(name) != [] { SplitJoin(Parts(name)); }
  }

  lemma {:induction false} SplitJoin(parts: seq<Text>)
    requires parts != [] && forall p :: p in parts ==> Clean(p)
    ensures Split(Join(parts)) == parts
  {
    assert Clean(parts[0]);
    if |parts| == 1 {
      SplitWord(parts[0]);
      assert parts == [parts[0]];
    } else {
      SplitPrefix(parts[0], Join(parts[1..]));
      SplitJoin(parts[1..]);
    }
  }

  /** A text is split at every slash and nowhere else. */
  lemma SplitExactly(word: Text, rest: Text)
    requires 47 !in word
    ensures Split(word) == [word] && Split(word + [47] + rest) == [word] + Split(rest)
  {
    SplitWord(word);
    SplitPrefix(word, rest);
  }

  lemma JoinHead(parts: seq<Text>)
    requires parts != [] && forall p :: p in parts ==> Clean(p)
    ensures Join(parts) != [] && Join(parts) != CURRENT && !Absolute(Join(parts))
    ensures WithoutDotSlash(Join(parts)) == Join(parts)
  {
    var first, name := parts[0], Join(parts);
    assert Clean(first);
    assert |first| <= |name| && name[..|first|] == first;
    if |parts| > 1 { assert name[|first|] == SLASH; }
    assert |first| >= 2 ==> first[1] == name[1];
    assert |first| == 1 && first[0] == DOT ==> first == CURRENT;
  }

  /** Normalising twice changes nothing; the one result that is not accepted again is the root itself. */
  lemma NormalizeAgain(name: Text)
    requires Normalize(name).Ok?
    ensures Normalize(name).value == CURRENT <==> Parts(name) == []
    ensures Normalize(Normalize(name).value) ==
            if Parts(name) == [] then Err("archive member name is unsafe") else Normalize(name)
  {
    PartsWithoutDotSlash(name);
    PartsClean(name);
    PartsPosix(name);
    if Parts(name) != [] { JoinHead(Parts(name)); }
  }

  // ---- Links -------------------------------------------------------------------------------

  /** How far a path climbs down (positive) or up (negative). */
  function Net(parts: seq<Text>): int {
    if parts == [] then 0
    else Net(parts[..|parts| - 1]) + if parts[|parts| - 1] == PARENT then -1 else 1
  }

  function ParentParts(path: Text): seq<Text> {
    var parts := Parts(path);
    if parts == [] then [] else parts[..|parts| - 1]
  }

  /** The directory of a path is the path without its last component. */
  lemma ParentExactly(path: Text, word: Text)
    requires 47 !in word && word != [] && word != [46]
    ensures ParentParts(path + [47] + word) == Parts(path) && ParentParts(word) == []
  {
    PartsAppend(path, word);
    PartsExactly(word, []);
  }

  lemma {:induction false} PartsAppend(path: Text, rest: Text)
    ensures Parts(path + [47] + rest) == Parts(path) + Parts(rest)
  {
    SplitAppend(path, rest);
    KeptConcat(Split(path), Split(rest));
  }

  lemma {:induction false} SplitAppend(path: Text, rest: Text)
    ensures Split(path + [47] + rest) == Split(path) + Split(rest)
  {
    var t := path + [47] + rest;
    if path == [] {
      assert t[1..] == rest;
    } else {
      SplitAppend(path[1..], rest);
      assert t[1..] == path[1..] + [47] + rest && t[0] == path[0];
      OnTheFirst(path[0], Split(path[1..]), Split(rest));
    }
  }

  /** Putting a unit before split parts changes only the first of them. */
  lemma OnTheFirst(u: int, a: seq<Text>, b: seq<Text>)
    requires |a| >= 1
    ensures [[u] + (a + b)[0]] + (a + b)[1..] == [[u] + a[0]] + a[1..] + b
    ensures [[]] + (a + b) == [[]] + a + b
  {
  }

  /** How far components climb down: one for each, and one up for "..". */
  lemma NetExactly(parts: seq<Text>, part: Text)
    ensures Net([]) == 0 && Net(parts + [part]) == if part == [46, 46] then Net(parts) - 1 else Net(parts) + 1
  {
    assert (parts + [part])[..|parts|] == parts;
  }

  /** Followed from the directory of `path`, no prefix of the target leaves the root. */
  ghost predicate SafeLink(path: Text, target: Text) {
    && !Absolute(target)
    && forall k :: 0 <= k <= |Parts(target)| ==> |ParentParts(path)| + Net(Parts(target)[..k]) >= 0
  }

  method ValidateRelativeLink(path: Text, target: Text) returns (ok: bool)
    ensures ok <==> SafeLink(path, target)
  {
    if Absolute(target) { return false; }
    var resolved := ParentParts(path);
    var parts := Parts(target);
    for i := 0 to |parts|
      invariant |resolved| == |ParentParts(path)| + Net(parts[..i])
      invariant forall k :: 0 <= k <= i ==> |ParentParts(path)| + Net(parts[..k]) >= 0
    {
      assert parts[..i + 1][..i] == parts[..i];
      if parts[i] == PARENT {
        if resolved == [] { return false; }
        resolved := resolved[..|resolved| - 1];
      } else {
        resolved := resolved + [parts[i]];
      }
    }
    return true;
  }
}
