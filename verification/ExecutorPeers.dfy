/** Request framing and peer authority of the verifier executor. */
module ExecutorPeers {
  import opened Basics

  // ---- Framing ----------------------------------------------------------------------------

  const MAX_REQUEST_BYTES: nat := 16 * 1024
  const RECV_BYTES: nat := 4096
  const NEWLINE := 10

  function CountNewlines(bytes: seq<int>): nat {
    if bytes == [] then 0 else (if bytes[0] == NEWLINE then 1 else 0) + CountNewlines(bytes[1..])
  }

  lemma {:induction false} CountNewlinesAt(bytes: seq<int>, i: nat)
    requires i < |bytes| && bytes[i] == NEWLINE
    ensures CountNewlines(bytes) >= 1
  {
    if i > 0 { CountNewlinesAt(bytes[1..], i - 1); }
  }

  lemma {:induction false} CountNewlinesTwice(bytes: seq<int>, i: nat, j: nat)
    requires i < j < |bytes| && bytes[i] == NEWLINE && bytes[j] == NEWLINE
    ensures CountNewlines(bytes) >= 2
  {
    if i == 0 { CountNewlinesAt(bytes[1..], j - 1); } else { CountNewlinesTwice(bytes[1..], i - 1, j - 1); }
  }

  /** The whole stream is one frame within the limit. */
  predicate OneFrame(stream: seq<int>) {
    && 1 <= |stream| <= MAX_REQUEST_BYTES && stream[|stream| - 1] == NEWLINE
    && forall i :: 0 <= i < |stream| - 1 ==> stream[i] != NEWLINE
  }

  /** Enough receive calls before the deadline, each with something to deliver. */
  predicate Delivers(sizes: seq<nat>, bytes: nat) {
    |sizes| >= bytes && forall i :: 0 <= i < |sizes| ==> sizes[i] > 0
  }

  lemma {:induction false} OneNewline(stream: seq<int>)
    requires stream != [] && stream[|stream| - 1] == NEWLINE && forall i :: 0 <= i < |stream| - 1 ==> stream[i] != NEWLINE
    ensures CountNewlines(stream) == 1
  {
    if |stream| > 1 { OneNewline(stream[1..]); } else { assert stream[1..] == []; }
  }

  /**
   Reads one frame. `sizes[i]` is how much the i-th receive call would deliver at most; when
   they are used up the deadline has passed. However the stream is cut, an accepted frame is
   the stream up to its first newline, and it fits the request limit.
   */
  method ReadRequestFrame(stream: seq<int>, sizes: seq<nat>) returns (r: Result<seq<int>>)
    ensures r.Ok? ==>
      && 1 <= |r.value| <= 16384 && r.value <= stream
      && r.value[|r.value| - 1] == 10
      && forall i :: 0 <= i < |r.value| - 1 ==> stream[i] != 10
    ensures 10 !in stream ==> r.Err?
    ensures (&& 1 <= |stream| <= 16384 && stream[|stream| - 1] == 10 && Delivers(sizes, |stream|)
             && forall i :: 0 <= i < |stream| - 1 ==> stream[i] != 10)
            ==> r == Ok(stream)
  {
    if OneFrame(stream) { OneNewline(stream); }
    var chunks: seq<int> := [];
    var calls := 0;
    while NEWLINE !in chunks && |chunks| <= MAX_REQUEST_BYTES
      invariant chunks <= stream && |chunks| <= MAX_REQUEST_BYTES + 1
      invariant calls <= |sizes|
      invariant Delivers(sizes, |stream|) ==> calls <= |chunks|
      decreases |sizes| - calls
    {
      if calls == |sizes| { return Err("executor IPC read deadline exceeded"); }
      var want := if RECV_BYTES < MAX_REQUEST_BYTES + 1 - |chunks| then RECV_BYTES else MAX_REQUEST_BYTES + 1 - |chunks|;
      var n := if sizes[calls] < want then sizes[calls] else want;
      n := if n < |stream| - |chunks| then n else |stream| - |chunks|;
      calls := calls + 1;
      if n == 0 { break; }
      chunks := chunks + stream[|chunks|..|chunks| + n];
    }
    if OneFrame(stream) && Delivers(sizes, |stream|) {
      assert chunks == stream by { assert NEWLINE in chunks ==> |chunks| == |stream|; }
    }
    if |chunks| > MAX_REQUEST_BYTES || CountNewlines(chunks) != 1 || chunks[|chunks| - 1] != NEWLINE {
      return Err("invalid executor IPC frame");
    }
    forall i | 0 <= i < |chunks| - 1 ensures stream[i] != NEWLINE {
      if chunks[i] == NEWLINE { CountNewlinesTwice(chunks, i, |chunks| - 1); }
    }
    r := Ok(chunks);
  }

  // ---- Peers --------------------------------------------------------------------------------

  /** A configured board; `registryId` is the numeric middle part of its id, if it has one. */
  datatype Board = Board(boardId: string, registryId: Option<string>)

  /** The host's user database. */
  type Users = map<string, int>

  /** `uid` belongs to the user that `prefix` and the board's registry id name. */
  predicate Bound(users: Users, prefix: string, board: Board, uid: int) {
    board.registryId.Some? && prefix + board.registryId.value in users && users[prefix + board.registryId.value] == uid
  }

  function UidOf(users: Users, prefix: string, board: Board): int
    requires board.registryId.Some? && prefix + board.registryId.value in users
  {
    users[prefix + board.registryId.value]
  }

  /** The uid a (board, prefix) pair contributes; pairs are numbered board by board. */
  ghost predicate Contributes(users: Users, prefixes: seq<string>, boards: seq<Board>, b: nat, p: nat, uid: int) {
    b < |boards| && p < |prefixes| && Bound(users, prefixes[p], boards[b], uid)
  }

  /** Pair (b, p) comes before the loop position (i, q). */
  predicate Before(b: nat, p: nat, i: nat, q: nat) { b < i || (b == i && p < q) }

  /** Some pair of board `b` before (i, q) contributes `uid`. */
  ghost predicate Originates(
    users: Users, prefixes: seq<string>, boards: seq<Board>, b: nat, uid: int, i: nat, q: nat)
  {
    exists p: nat :: Before(b, p, i, q) && Contributes(users, prefixes, boards, b, p, uid)
  }

  /** The map has no entry besides those of earlier pairs. */
  ghost predicate NoOtherPeers(
    users: Users, prefixes: seq<string>, boards: seq<Board>, peers: map<int, nat>, i: nat, q: nat)
  {
    forall uid :: uid in peers ==>
      uid >= 1 && peers[uid] < |boards| && Originates(users, prefixes, boards, peers[uid], uid, i, q)
  }

  predicate Entered(users: Users, prefixes: seq<string>, boards: seq<Board>, peers: map<int, nat>, b: nat, p: nat)
    requires b < |boards| && p < |prefixes|
  {
    && boards[b].registryId.Some? && prefixes[p] + boards[b].registryId.value in users
    && UidOf(users, prefixes[p], boards[b]) in peers && peers[UidOf(users, prefixes[p], boards[b])] == b
  }

  ghost predicate AllEntered(
    users: Users, prefixes: seq<string>, boards: seq<Board>, peers: map<int, nat>, i: nat, q: nat)
  {
    forall b: nat, p: nat :: b < |boards| && p < |prefixes| && Before(b, p, i, q) ==>
      Entered(users, prefixes, boards, peers, b, p)
  }

  /** No uid comes from two pairs. */
  ghost predicate UidsDistinct(users: Users, prefixes: seq<string>, boards: seq<Board>, i: nat, q: nat) {
    forall b: nat, p: nat, c: nat, r: nat, uid ::
      (Before(b, p, i, q) && Before(c, r, i, q)
       && Contributes(users, prefixes, boards, b, p, uid) && Contributes(users, prefixes, boards, c, r, uid))
      ==> b == c && p == r
  }

  /** What the map holds at loop position (i, q): one entry per earlier pair, and no other. */
  ghost predicate PeersAt(
    users: Users, prefixes: seq<string>, boards: seq<Board>, peers: map<int, nat>, i: nat, q: nat)
  {
    && NoOtherPeers(users, prefixes, boards, peers, i, q)
    && AllEntered(users, prefixes, boards, peers, i, q)
    && UidsDistinct(users, prefixes, boards, i, q)
  }

  predicate ValidPrefix(prefix: string) { prefix != "" && '/' !in prefix }

  /** Every pair of a board and a prefix names a non-root user of its own. */
  ghost predicate Bindable(users: Users, prefixes: seq<string>, boards: seq<Board>) {
    && (forall p :: 0 <= p < |prefixes| ==> ValidPrefix(prefixes[p]))
    && (forall b :: 0 <= b < |boards| ==> boards[b].registryId.Some?)
    && (forall b, p :: 0 <= b < |boards| && 0 <= p < |prefixes| ==> Resolvable(users, prefixes[p], boards[b]))
    && UidsDistinct(users, prefixes, boards, |boards|, 0)
  }

  predicate Resolvable(users: Users, prefix: string, board: Board) {
    board.registryId.Some? && prefix + board.registryId.value in users && users[prefix + board.registryId.value] >= 1
  }

  /** A uid that is in the map already belongs to two pairs. */
  lemma SharedUid(users: Users, prefixes: seq<string>, boards: seq<Board>, peers: map<int, nat>, i: nat, q: nat, uid: int)
    requires PeersAt(users, prefixes, boards, peers, i, q) && i < |boards| && q < |prefixes|
    requires Contributes(users, prefixes, boards, i, q, uid) && uid in peers
    ensures !UidsDistinct(users, prefixes, boards, |boards|, 0)
  {
    var b := peers[uid];
    assert Originates(users, prefixes, boards, b, uid, i, q);
    var p: nat :| Before(b, p, i, q) && Contributes(users, prefixes, boards, b, p, uid);
    assert Before(b, p, |boards|, 0) && Before(i, q, |boards|, 0);
  }

  lemma EnteredResolvable(users: Users, prefixes: seq<string>, boards: seq<Board>, peers: map<int, nat>)
    requires PeersAt(users, prefixes, boards, peers, |boards|, 0)
    ensures forall b, p :: 0 <= b < |boards| && 0 <= p < |prefixes| ==> Resolvable(users, prefixes[p], boards[b])
  {
    forall b, p | 0 <= b < |boards| && 0 <= p < |prefixes| ensures Resolvable(users, prefixes[p], boards[b]) {
      assert Before(b, p, |boards|, 0);
      assert Entered(users, prefixes, boards, peers, b, p);
    }
  }

  /**
   Binds every board to one uid per prefix, exactly when that is possible. On success each pair of a board and a prefix has
   its own uid, every uid is non-root, and every entry of the map comes from one such pair.
   */
  method BuildPeerBoardMap(users: Users, prefixes: seq<string>, boards: seq<Board>)
    returns (r: Result<map<int, nat>>)
    ensures r.Ok? <==> Bindable(users, prefixes, boards)
    ensures r.Ok? ==> PeersAt(users, prefixes, boards, r.value, |boards|, 0)
  {
    for q := 0 to |prefixes|
      invariant forall p :: 0 <= p < q ==> ValidPrefix(prefixes[p])
    {
      if !ValidPrefix(prefixes[q]) { return Err("invalid per-board user prefix"); }
    }
    var peers: map<int, nat> := map[];
    for i := 0 to |boards|
      invariant PeersAt(users, prefixes, boards, peers, i, 0)
      invariant forall b :: 0 <= b < i ==> boards[b].registryId.Some?
    {
      if boards[i].registryId.None? { return Err("board id cannot be bound to a per-board operator user"); }
      for q := 0 to |prefixes|
        invariant PeersAt(users, prefixes, boards, peers, i, q)
      {
        var username := prefixes[q] + boards[i].registryId.value;
        if username !in users {
          assert !Resolvable(users, prefixes[q], boards[i]);
          return Err("missing per-board executor client user");
        }
        var uid := users[username];
        if uid < 1 || uid in peers {
          assert uid < 1 ==> !Resolvable(users, prefixes[q], boards[i]);
          if uid in peers { SharedUid(users, prefixes, boards, peers, i, q, uid); }
          return Err("per-board executor client users must have distinct non-root UIDs");
        }
        PeersExtend(users, prefixes, boards, peers, i, q, uid);
        peers := peers[uid := i];
      }
      PeersWrap(users, prefixes, boards, peers, i);
    }
    EnteredResolvable(users, prefixes, boards, peers);
    r := Ok(peers);
  }

  lemma PeersExtend(
    users: Users, prefixes: seq<string>, boards: seq<Board>, peers: map<int, nat>, i: nat, q: nat, uid: int)
    requires PeersAt(users, prefixes, boards, peers, i, q)
    requires Contributes(users, prefixes, boards, i, q, uid) && uid >= 1 && uid !in peers
    ensures PeersAt(users, prefixes, boards, peers[uid := i], i, q + 1)
  {
    var next := peers[uid := i];
    forall u | u in next ensures Originates(users, prefixes, boards, next[u], u, i, q + 1) {
      if u == uid {
        assert Before(i, q, i, q + 1);
      } else {
        var p: nat :| Before(peers[u], p, i, q) && Contributes(users, prefixes, boards, peers[u], p, u);
        assert Before(next[u], p, i, q + 1);
      }
    }
    forall b: nat, p: nat, u | Before(b, p, i, q) && Contributes(users, prefixes, boards, b, p, u) ensures u != uid {
      assert Entered(users, prefixes, boards, peers, b, p);
    }
    forall b: nat, p: nat | b < |boards| && p < |prefixes| && Before(b, p, i, q + 1)
      ensures Entered(users, prefixes, boards, next, b, p)
    {
      if Before(b, p, i, q) { assert Entered(users, prefixes, boards, peers, b, p); }
    }
    forall b: nat, p: nat, c: nat, r: nat, u
      | Before(b, p, i, q + 1) && Before(c, r, i, q + 1)
        && Contributes(users, prefixes, boards, b, p, u) && Contributes(users, prefixes, boards, c, r, u)
      ensures b == c && p == r
    {
      assert Before(b, p, i, q) || (b == i && p == q);
      assert Before(c, r, i, q) || (c == i && r == q);
    }
  }

  lemma PeersWrap(users: Users, prefixes: seq<string>, boards: seq<Board>, peers: map<int, nat>, i: nat)
    requires PeersAt(users, prefixes, boards, peers, i, |prefixes|)
    ensures PeersAt(users, prefixes, boards, peers, i + 1, 0)
  {
    forall u | u in peers ensures Originates(users, prefixes, boards, peers[u], u, i + 1, 0) {
      var p: nat :| Before(peers[u], p, i, |prefixes|) && Contributes(users, prefixes, boards, peers[u], p, u);
      assert Before(peers[u], p, i + 1, 0);
    }
    forall b: nat, p: nat | b < |boards| && p < |prefixes| && Before(b, p, i + 1, 0)
      ensures Entered(users, prefixes, boards, peers, b, p)
    {
      assert Before(b, p, i, |prefixes|);
    }
    forall b: nat, p: nat, c: nat, r: nat, uid
      | Before(b, p, i + 1, 0) && Before(c, r, i + 1, 0)
        && Contributes(users, prefixes, boards, b, p, uid) && Contributes(users, prefixes, boards, c, r, uid)
      ensures b == c && p == r
    {
      assert Before(b, p, i, |prefixes|) && Before(c, r, i, |prefixes|);
    }
  }

  predicate SameUid(users: Users, prefix: string, a: Board, b: Board) {
    Resolvable(users, prefix, a) && Resolvable(users, prefix, b) && UidOf(users, prefix, a) == UidOf(users, prefix, b)
  }

  /** The separate pass that collects the uids of the resolver-rerun users. */
  method BuildRerunPeerUids(users: Users, prefix: string, boards: seq<Board>) returns (r: Result<set<int>>)
    ensures r.Ok? <==>
              && (forall b :: 0 <= b < |boards| ==> Resolvable(users, prefix, boards[b]))
              && (forall b, c :: 0 <= b < c < |boards| ==> !SameUid(users, prefix, boards[b], boards[c]))
    ensures r.Ok? ==> forall uid :: uid in r.value <==>
              exists b :: 0 <= b < |boards| && Bound(users, prefix, boards[b], uid)
  {
    var uids: set<int> := {};
    for i := 0 to |boards|
      invariant forall uid :: uid in uids <==> exists b :: 0 <= b < i && Bound(users, prefix, boards[b], uid)
      invariant forall b :: 0 <= b < i ==> Resolvable(users, prefix, boards[b])
      invariant forall b, c :: 0 <= b < c < i ==> !SameUid(users, prefix, boards[b], boards[c])
    {
      if boards[i].registryId.None? { return Err("board id has no registry id"); }
      var username := prefix + boards[i].registryId.value;
      if username !in users { return Err("missing resolver rerun user"); }
      var uid := users[username];
      if uid < 1 || uid in uids {
        if uid in uids {
          var b :| 0 <= b < i && Bound(users, prefix, boards[b], uid);
          assert SameUid(users, prefix, boards[b], boards[i]);
        }
        return Err("rerun peer UIDs must be distinct and non-root");
      }
      assert forall b :: 0 <= b < i && SameUid(users, prefix, boards[b], boards[i]) ==> Bound(users, prefix, boards[b], uid);
      assert Bound(users, prefix, boards[i], uid);
      uids := uids + {uid};
    }
    r := Ok(uids);
  }

  const OPERATOR_OPERATIONS: set<string> := {"bridge", "execute", "fence"}
  const RERUN_OPERATIONS: set<string> := {"rerun-enqueue", "rerun-execute", "rerun-attest", "rerun-recover"}

  /** A peer may invoke an operation: its uid is bound, the board is its own, the role allows it. */
  predicate Authorized(peers: map<int, nat>, rerunUids: set<int>, boards: seq<Board>, uid: int, boardId: string, operation: string) {
    && uid in peers && peers[uid] < |boards| && boards[peers[uid]].boardId == boardId
    && operation in (if uid in rerunUids then RERUN_OPERATIONS else OPERATOR_OPERATIONS)
  }

  /** What the operator of a board may ask for, and what its rerun user may. */
  predicate OperatorMay(operation: string) { operation == "bridge" || operation == "execute" || operation == "fence" }

  predicate RerunMay(operation: string) {
    || operation == "rerun-enqueue" || operation == "rerun-execute"
    || operation == "rerun-attest" || operation == "rerun-recover"
  }

  /**
   The two passes agree on roles: a peer is authorised exactly when it is the operator user or the
   rerun user of a board, names that board, and asks for an operation of that role.
   */
  lemma RolesAreSeparate(
    users: Users, operator: string, rerun: string, boards: seq<Board>, peers: map<int, nat>, rerunUids: set<int>,
    uid: int, boardId: string, operation: string)
    requires PeersAt(users, [operator, rerun], boards, peers, |boards|, 0)
    requires forall u :: u in rerunUids <==>
               exists b :: 0 <= b < |boards| && Bound(users, rerun, boards[b], u)
    ensures Authorized(peers, rerunUids, boards, uid, boardId, operation) <==>
              exists b :: 0 <= b < |boards| && boards[b].boardId == boardId
                && ((Bound(users, operator, boards[b], uid) && OperatorMay(operation))
                    || (Bound(users, rerun, boards[b], uid) && RerunMay(operation)))
  {
    if Authorized(peers, rerunUids, boards, uid, boardId, operation) {
      AuthorizedMeans(users, operator, rerun, boards, peers, rerunUids, uid, boardId, operation);
    }
    if b :| 0 <= b < |boards| && boards[b].boardId == boardId
            && ((Bound(users, operator, boards[b], uid) && OperatorMay(operation))
                || (Bound(users, rerun, boards[b], uid) && RerunMay(operation)))
    {
      BoundAuthorized(users, operator, rerun, boards, peers, rerunUids, uid, b, operation);
    }
  }

  /** A bound uid stands for its board in the map, and its user's prefix tells its role. */
  lemma BoundAuthorized(
    users: Users, operator: string, rerun: string, boards: seq<Board>, peers: map<int, nat>, rerunUids: set<int>,
    uid: int, b: nat, operation: string)
    requires PeersAt(users, [operator, rerun], boards, peers, |boards|, 0) && b < |boards|
    requires forall u :: u in rerunUids <==>
               exists b :: 0 <= b < |boards| && Bound(users, rerun, boards[b], u)
    requires || (Bound(users, operator, boards[b], uid) && OperatorMay(operation))
             || (Bound(users, rerun, boards[b], uid) && RerunMay(operation))
    ensures Authorized(peers, rerunUids, boards, uid, boards[b].boardId, operation)
  {
    var prefixes := [operator, rerun];
    var p := if Bound(users, operator, boards[b], uid) then 0 else 1;
    assert Before(b, p, |boards|, 0) && Contributes(users, prefixes, boards, b, p, uid);
    assert Entered(users, prefixes, boards, peers, b, p);
    if uid in rerunUids {
      var c :| 0 <= c < |boards| && Bound(users, rerun, boards[c], uid);
      assert Before(c, 1, |boards|, 0) && Contributes(users, prefixes, boards, c, 1, uid);
      assert p == 1;
    }
    if p == 1 { assert Bound(users, rerun, boards[b], uid); }
  }

  lemma AuthorizedMeans(
    users: Users, operator: string, rerun: string, boards: seq<Board>, peers: map<int, nat>, rerunUids: set<int>,
    uid: int, boardId: string, operation: string)
    requires PeersAt(users, [operator, rerun], boards, peers, |boards|, 0)
    requires forall u :: u in rerunUids <==>
               exists b :: 0 <= b < |boards| && Bound(users, rerun, boards[b], u)
    requires Authorized(peers, rerunUids, boards, uid, boardId, operation)
    ensures exists b :: 0 <= b < |boards| && boards[b].boardId == boardId
              && ((Bound(users, operator, boards[b], uid) && OperatorMay(operation))
                  || (Bound(users, rerun, boards[b], uid) && RerunMay(operation)))
  {
    var prefixes := [operator, rerun];
    var b := peers[uid];
    assert Originates(users, prefixes, boards, b, uid, |boards|, 0);
    var p: nat :| Before(b, p, |boards|, 0) && Contributes(users, prefixes, boards, b, p, uid);
    assert p == 0 || p == 1;
    if uid in rerunUids {
      var c :| 0 <= c < |boards| && Bound(users, rerun, boards[c], uid);
      assert Before(c, 1, |boards|, 0) && Contributes(users, prefixes, boards, c, 1, uid);
      assert p == 1;
    } else {
      assert p == 0;
    }
    assert 0 <= b < |boards| && boards[b].boardId == boardId;
  }
}
