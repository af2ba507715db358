/**
 The durable journal of verifier-image publication: its data, its validation, and
 the three operations that read or change it under the journal lock.

 SHA-256 of canonical bytes is the free constructor `Sha256`, hence injective.
 */
module PublishJournal {
  import opened Basics

  datatype BoardState = Planned | Building | Verified

  datatype BoardIdentity = BoardIdentity(
    slug: string, problemId: string, version: string,
    sourceHash: string, repository: string, tag: string)

  datatype TextDigest = Sha256Text(text: string)

  datatype Board = Board(
    identity: BoardIdentity, state: BoardState,
    metadataDigest: Option<TextDigest>, releaseRecord: Option<string>)

  datatype Release = Release(
    schemaVersion: string, commit: string, archiveDigest: string,
    authority: string, registryBase: string, platforms: seq<string>)

  /** Everything in the journal except its self-hash. */
  datatype Body = Body(release: Release, generation: nat, boards: seq<Board>)

  datatype Digest = Sha256(body: Body)

  datatype Journal = Journal(body: Body, hash: Digest)

  const JOURNAL_SCHEMA_VERSION := "p42-verifier-image-publish-journal/v3"
  const PLATFORMS := ["linux/amd64", "linux/arm64"]

  function Rank(state: BoardState): nat {
    match state
    case Planned => 0
    case Building => 1
    case Verified => 2
  }

  function RankSum(boards: seq<Board>): nat {
    if boards == [] then 0 else Rank(boards[0].state) + RankSum(boards[1..])
  }

  /** Replacing one board moves the sum by the difference of the two ranks. */
  lemma {:induction false} RankSumUpdate(boards: seq<Board>, index: nat, board: Board)
    requires index < |boards|
    ensures RankSum(boards[index := board])
         == RankSum(boards) - Rank(boards[index].state) + Rank(board.state)
  {
    var updated := boards[index := board];
    if index == 0 {
      assert updated[1..] == boards[1..];
    } else {
      RankSumUpdate(boards[1..], index - 1, board);
      assert updated[1..] == boards[1..][index - 1 := board];
    }
  }

  /** The part of a journal that a release plan fixes once and for all. */
  datatype ImmutableView = ImmutableView(release: Release, identities: seq<BoardIdentity>)

  function Immutable(journal: Journal): ImmutableView {
    ImmutableView(
      journal.body.release,
      seq(|journal.body.boards|, i requires 0 <= i < |journal.body.boards| => journal.body.boards[i].identity))
  }

  predicate ValidBoard(commit: string, slug: string, board: Board) {
    && board.identity.slug == slug
    && board.identity.problemId == slug
    && board.identity.tag == board.identity.repository + ":" + commit
    && (board.state == Verified <==> board.metadataDigest.Some?)
    && (board.state == Verified <==> board.releaseRecord.Some?)
  }

  predicate ValidJournal(roster: seq<string>, journal: Journal) {
    && journal.body.release.schemaVersion == JOURNAL_SCHEMA_VERSION
    && journal.body.release.platforms == PLATFORMS
    && |journal.body.boards| == |roster|
    && (forall i :: 0 <= i < |roster| ==>
          ValidBoard(journal.body.release.commit, roster[i], journal.body.boards[i]))
    && journal.hash == Sha256(journal.body)
  }

  function Seal(body: Body): Journal {
    Journal(body, Sha256(body))
  }

  /** A fresh plan: every board planned and without evidence. */
  predicate FreshPlan(roster: seq<string>, journal: Journal) {
    && ValidJournal(roster, journal)
    && journal.body.generation == 0
    && forall i :: 0 <= i < |journal.body.boards| ==> journal.body.boards[i].state == Planned
  }

  lemma {:induction false} FreshRankSum(boards: seq<Board>)
    requires forall i :: 0 <= i < |boards| ==> boards[i].state == Planned
    ensures RankSum(boards) == 0
  {
    if boards != [] {
      FreshRankSum(boards[1..]);
    }
  }

  /** What an operation does once it has read the journal: stop, answer, or replace the file. */
  datatype Attempt = Refuse(reason: string) | Answer(journal: Journal) | Replace(journal: Journal)

  function AttemptReserve(roster: seq<string>, stored: Option<Journal>, expected: Journal): Attempt {
    match stored
    case None => Replace(expected)
    case Some(current) =>
      if !ValidJournal(roster, current) then Refuse("publish journal is invalid")
      else if Immutable(current) != Immutable(expected) then
        Refuse("existing publish journal conflicts with this release plan")
      else Answer(current)
  }

  function AttemptStart(roster: seq<string>, stored: Option<Journal>, expectedHash: Digest, index: nat): Attempt {
    if stored.None? || !ValidJournal(roster, stored.value) then Refuse("publish journal is invalid")
    else if stored.value.hash != expectedHash then Refuse("publish journal changed before build start")
    else if index >= |stored.value.body.boards| then Refuse("no such board")
    else
      var body := stored.value.body;
      if body.boards[index].state != Planned then
        Refuse("publish board cannot enter building from its current state")
      else
        Replace(Seal(body.(
          boards := body.boards[index := body.boards[index].(state := Building)],
          generation := body.generation + 1)))
  }

  function AttemptVerify(
    roster: seq<string>, stored: Option<Journal>, expectedHash: Digest, index: nat,
    metadataDigest: TextDigest, releaseRecord: string): Attempt
  {
    if stored.None? || !ValidJournal(roster, stored.value) then Refuse("publish journal is invalid")
    else if stored.value.hash != expectedHash then Refuse("publish journal changed during board verification")
    else if index >= |stored.value.body.boards| then Refuse("no such board")
    else
      var body := stored.value.body;
      var board := body.boards[index];
      if board.state == Verified then
        if board.metadataDigest != Some(metadataDigest) || board.releaseRecord != Some(releaseRecord) then
          Refuse("verified board conflicts with durable publish evidence")
        else Answer(stored.value)
      else
        Replace(Seal(body.(
          boards := body.boards[index := board.(
            state := Verified, metadataDigest := Some(metadataDigest), releaseRecord := Some(releaseRecord))],
          generation := body.generation + 1)))
  }

  /** `later` continues `earlier`: same plan, no board moved back, verified boards untouched. */
  ghost predicate Continues(earlier: Journal, later: Journal) {
    && Immutable(earlier) == Immutable(later)
    && |earlier.body.boards| == |later.body.boards|
    && earlier.body.generation <= later.body.generation
    && (earlier.body.generation == later.body.generation ==> earlier.body == later.body)
    && forall i :: 0 <= i < |earlier.body.boards| ==>
         BoardContinues(earlier.body.boards[i], later.body.boards[i])
  }

  predicate BoardContinues(earlier: Board, later: Board) {
    && Rank(earlier.state) <= Rank(later.state)
    && (earlier.state == Verified ==> earlier == later)
  }

  lemma ContinuesTransitive(a: Journal, b: Journal, c: Journal)
    requires Continues(a, b) && Continues(b, c)
    ensures Continues(a, c)
  {
    forall i | 0 <= i < |a.body.boards|
      ensures BoardContinues(a.body.boards[i], c.body.boards[i])
    {
      assert BoardContinues(a.body.boards[i], b.body.boards[i]);
      assert BoardContinues(b.body.boards[i], c.body.boards[i]);
    }
  }

  // ---- When each operation does what ------------------------------------------------------------

  /** Same release and the same boards, whatever has happened to them. */
  predicate SamePlan(a: Journal, b: Journal) {
    && a.body.release == b.body.release && |a.body.boards| == |b.body.boards|
    && forall i :: 0 <= i < |a.body.boards| ==> a.body.boards[i].identity == b.body.boards[i].identity
  }

  lemma ImmutableMeans(a: Journal, b: Journal)
    ensures Immutable(a) == Immutable(b) <==> SamePlan(a, b)
  {
    if Immutable(a) == Immutable(b) {
      forall i | 0 <= i < |a.body.boards| ensures a.body.boards[i].identity == b.body.boards[i].identity {
        assert Immutable(a).identities[i] == Immutable(b).identities[i];
      }
    }
  }

  /** The stored journal is valid, is the one the caller knows, and has the board. */
  predicate Known(roster: seq<string>, stored: Option<Journal>, expectedHash: Digest, index: nat) {
    && stored.Some? && ValidJournal(roster, stored.value) && stored.value.hash == expectedHash
    && index < |stored.value.body.boards|
  }

  /** One board replaced, the generation one higher, everything else as before, sealed with its own hash. */
  predicate Moved(before: Journal, after: Journal, index: nat, board: Board) {
    && index < |before.body.boards| == |after.body.boards|
    && after.body.release == before.body.release && after.body.generation == before.body.generation + 1
    && after.body.boards[index] == board
    && (forall i :: 0 <= i < |after.body.boards| && i != index ==> after.body.boards[i] == before.body.boards[i])
    && after.hash == Sha256(after.body)
  }

  /** The board has exactly this evidence of its publication. */
  predicate HasEvidence(board: Board, metadataDigest: TextDigest, releaseRecord: string) {
    board.metadataDigest == Some(metadataDigest) && board.releaseRecord == Some(releaseRecord)
  }

  /** Reserving creates the journal, resumes the same plan, or refuses; there is nothing else. */
  lemma ReserveExactly(roster: seq<string>, stored: Option<Journal>, expected: Journal)
    ensures var a := AttemptReserve(roster, stored, expected);
            && (stored == None ==> a == Replace(expected))
            && (stored.Some? && ValidJournal(roster, stored.value) && SamePlan(stored.value, expected) ==> a == Answer(stored.value))
            && (stored.Some? && !(ValidJournal(roster, stored.value) && SamePlan(stored.value, expected)) ==> a.Refuse?)
  {
    if stored.Some? { ImmutableMeans(stored.value, expected); }
  }

  /** A build start replaces the journal exactly for a planned board of the known journal, and never just answers. */
  lemma StartExactly(roster: seq<string>, stored: Option<Journal>, expectedHash: Digest, index: nat)
    ensures var a := AttemptStart(roster, stored, expectedHash, index);
            && (a.Replace? <==> Known(roster, stored, expectedHash, index) && stored.value.body.boards[index].state == Planned)
            && (a.Replace? ==> Moved(stored.value, a.journal, index, stored.value.body.boards[index].(state := Building)))
            && !a.Answer?
  {
  }

  /**
   Recording a verified board replaces the journal exactly for a board of the known journal that is
   not yet verified, answers it unchanged exactly for a verified one with the same evidence, and
   refuses otherwise.
   */
  lemma VerifyExactly(
    roster: seq<string>, stored: Option<Journal>, expectedHash: Digest, index: nat,
    metadataDigest: TextDigest, releaseRecord: string)
    ensures var a := AttemptVerify(roster, stored, expectedHash, index, metadataDigest, releaseRecord);
            var known := Known(roster, stored, expectedHash, index);
            && (a.Replace? <==> known && stored.value.body.boards[index].state != Verified)
            && (a.Replace? ==> Moved(stored.value, a.journal, index,
                                     Board(stored.value.body.boards[index].identity, Verified,
                                           Some(metadataDigest), Some(releaseRecord))))
            && (a.Answer? <==> known && stored.value.body.boards[index].state == Verified
                               && HasEvidence(stored.value.body.boards[index], metadataDigest, releaseRecord))
            && (a.Answer? ==> a.journal == stored.value)
  {
  }

  /** A journal whose generation counts exactly the state changes made so far. */
  predicate Accounted(journal: Journal) {
    journal.body.generation == RankSum(journal.body.boards)
  }

  /** Replacing the board at `index` by one of higher rank gives a valid continuation. */
  lemma StepContinues(roster: seq<string>, journal: Journal, index: nat, board: Board)
    requires ValidJournal(roster, journal)
    requires index < |roster|
    requires board.identity == journal.body.boards[index].identity
    requires ValidBoard(journal.body.release.commit, roster[index], board)
    requires Rank(journal.body.boards[index].state) < Rank(board.state)
    ensures var next := Seal(journal.body.(
                  boards := journal.body.boards[index := board],
                  generation := journal.body.generation + 1));
            ValidJournal(roster, next) && Continues(journal, next)
  {
    var boards := journal.body.boards[index := board];
    var next := Seal(journal.body.(boards := boards, generation := journal.body.generation + 1));
    assert forall i :: 0 <= i < |roster| ==> boards[i].identity == journal.body.boards[i].identity;
    assert Immutable(journal) == Immutable(next);
  }

  lemma StartKeepsJournal(roster: seq<string>, journal: Journal, index: nat)
    requires ValidJournal(roster, journal)
    requires AttemptStart(roster, Some(journal), journal.hash, index).Replace?
    ensures var next := AttemptStart(roster, Some(journal), journal.hash, index).journal;
            && ValidJournal(roster, next) && Continues(journal, next)
            && (Accounted(journal) ==> Accounted(next))
            && journal.body.boards[index].state == Planned && next.body.boards[index].state == Building
  {
    var board := journal.body.boards[index].(state := Building);
    assert ValidBoard(journal.body.release.commit, roster[index], journal.body.boards[index]);
    StepContinues(roster, journal, index, board);
    RankSumUpdate(journal.body.boards, index, board);
  }

  /**
   Recording a verified board keeps the journal valid from any state, but its generation
   stays the sum of ranks exactly when the board was building: the operation on its own
   also accepts a planned board, whose rank then rises by two.
   */
  lemma VerifyKeepsJournal(
    roster: seq<string>, journal: Journal, index: nat, metadataDigest: TextDigest, releaseRecord: string)
    requires ValidJournal(roster, journal)
    requires AttemptVerify(roster, Some(journal), journal.hash, index, metadataDigest, releaseRecord).Replace?
    ensures var next := AttemptVerify(roster, Some(journal), journal.hash, index, metadataDigest, releaseRecord).journal;
            && ValidJournal(roster, next) && Continues(journal, next)
            && (Accounted(journal) ==> (Accounted(next) <==> journal.body.boards[index].state == Building))
            && next.body.boards[index].metadataDigest == Some(metadataDigest)
            && next.body.boards[index].releaseRecord == Some(releaseRecord)
  {
    var board := journal.body.boards[index].(
      state := Verified, metadataDigest := Some(metadataDigest), releaseRecord := Some(releaseRecord));
    assert ValidBoard(journal.body.release.commit, roster[index], journal.body.boards[index]);
    StepContinues(roster, journal, index, board);
    RankSumUpdate(journal.body.boards, index, board);
  }

  // ---- A fresh plan ---------------------------------------------------------------------------------

  function PlannedBoards(identities: seq<BoardIdentity>): (boards: seq<Board>)
    ensures |boards| == |identities| && forall i :: 0 <= i < |boards| ==> boards[i] == Board(identities[i], Planned, None, None)
  {
    seq(|identities|, i requires 0 <= i < |identities| => Board(identities[i], Planned, None, None))
  }

  /** The journal of a release about to begin. */
  function BuildPublishJournal(commit: string, archiveDigest: string, authority: string, base: string, identities: seq<BoardIdentity>)
    : Journal
  {
    Seal(Body(Release(JOURNAL_SCHEMA_VERSION, commit, archiveDigest, authority, base, PLATFORMS), 0, PlannedBoards(identities)))
  }

  /** Built for the boards of the roster it is valid and fresh. */
  lemma BuiltIsFresh(roster: seq<string>, commit: string, archiveDigest: string, authority: string, base: string,
                     identities: seq<BoardIdentity>)
    requires |identities| == |roster|
    requires forall i :: 0 <= i < |roster| ==>
               && identities[i].slug == roster[i] && identities[i].problemId == roster[i]
               && identities[i].tag == identities[i].repository + ":" + commit
    ensures FreshPlan(roster, BuildPublishJournal(commit, archiveDigest, authority, base, identities))
  {
  }

  /** The journal file as one publisher sees it while it holds the journal lock. */
  class JournalFile {
    const roster: seq<string>
    var stored: Option<Journal>

    constructor (roster: seq<string>)
      ensures this.roster == roster && stored == None
    {
      this.roster := roster;
      stored := None;
    }

    method Reserve(expected: Journal) returns (r: Result<(Journal, bool)>)
      modifies this
      ensures old(stored) == None ==> r == Ok((expected, true)) && stored == Some(expected)
      ensures old(stored).Some? && ValidJournal(roster, old(stored).value) && SamePlan(old(stored).value, expected) ==>
                r == Ok((old(stored).value, false)) && stored == old(stored)
      ensures old(stored).Some? && !(ValidJournal(roster, old(stored).value) && SamePlan(old(stored).value, expected)) ==>
                r.Err? && stored == old(stored)
    {
      if stored.Some? { ImmutableMeans(stored.value, expected); }
      match stored
      case None =>
        stored := Some(expected);
        r := Ok((expected, true));
      case Some(current) =>
        if !ValidJournal(roster, current) {
          r := Err("publish journal is invalid");
        } else if Immutable(current) != Immutable(expected) {
          r := Err("existing publish journal conflicts with this release plan");
        } else {
          r := Ok((current, false));
        }
    }

    method RecordBuildStarted(expectedHash: Digest, index: nat) returns (r: Result<Journal>)
      modifies this
      ensures r.Ok? <==> Known(roster, old(stored), expectedHash, index) && old(stored).value.body.boards[index].state == Planned
      ensures r.Ok? ==>
        && stored == Some(r.value) && Continues(old(stored).value, r.value)
        && Moved(old(stored).value, r.value, index, old(stored).value.body.boards[index].(state := Building))
      ensures r.Err? ==> stored == old(stored)
    {
      if stored.None? || !ValidJournal(roster, stored.value) { return Err("publish journal is invalid"); }
      var journal := stored.value;
      if journal.hash != expectedHash { return Err("publish journal changed before build start"); }
      if index >= |journal.body.boards| { return Err("no such board"); }
      var board := journal.body.boards[index];
      if board.state != Planned { return Err("publish board cannot enter building from its current state"); }
      StartKeepsJournal(roster, journal, index);
      board := board.(state := Building);
      var body := journal.body.(boards := journal.body.boards[index := board]);
      body := body.(generation := body.generation + 1);
      stored := Some(Seal(body));
      r := Ok(stored.value);
    }

    method RecordVerifiedBoard(expectedHash: Digest, index: nat, metadataDigest: TextDigest, releaseRecord: string)
      returns (r: Result<Journal>)
      modifies this
      ensures r.Ok? <==>
        && Known(roster, old(stored), expectedHash, index)
        && (old(stored).value.body.boards[index].state == Verified ==>
              HasEvidence(old(stored).value.body.boards[index], metadataDigest, releaseRecord))
      ensures r.Ok? ==> stored == Some(r.value) && Continues(old(stored).value, r.value)
      ensures r.Ok? ==>
        if old(stored).value.body.boards[index].state == Verified then r.value == old(stored).value
        else Moved(old(stored).value, r.value, index,
                   Board(old(stored).value.body.boards[index].identity, Verified, Some(metadataDigest), Some(releaseRecord)))
      ensures r.Err? ==> stored == old(stored)
    {
      if stored.None? || !ValidJournal(roster, stored.value) { return Err("publish journal is invalid"); }
      var journal := stored.value;
      if journal.hash != expectedHash { return Err("publish journal changed during board verification"); }
      if index >= |journal.body.boards| { return Err("no such board"); }
      var board := journal.body.boards[index];
      if board.state == Verified {
        if board.metadataDigest != Some(metadataDigest) || board.releaseRecord != Some(releaseRecord) {
          return Err("verified board conflicts with durable publish evidence");
        }
        return Ok(journal);
      }
      VerifyKeepsJournal(roster, journal, index, metadataDigest, releaseRecord);
      board := board.(state := Verified, metadataDigest := Some(metadataDigest), releaseRecord := Some(releaseRecord));
      var body := journal.body.(boards := journal.body.boards[index := board]);
      body := body.(generation := body.generation + 1);
      stored := Some(Seal(body));
      r := Ok(stored.value);
    }
  }
}
