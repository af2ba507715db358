/**
 Rehearsing a published verifier image: the report a rehearsal writes, and the validator that
 recomputes every violation list in it. Printing, the report shape and the runner policy belong
 to other packages and are parameters; SHA-256 is a free constructor.
 */
module Rehearsal {
  import opened Basics
  import Ordering

  datatype Json =
    | Null | Bool(b: bool) | Number(n: int) | Text(s: string)
    | List(items: seq<Json>) | Object(fields: seq<(string, Json)>)

  type Fields = seq<(string, Json)>

  function Lookup(fields: Fields, key: string): Option<Json> {
    if fields == [] then None
    else if fields[0].0 == key then Some(fields[0].1)
    else Lookup(fields[1..], key)
  }

  predicate HasText(fields: Fields, key: string, value: string) { Lookup(fields, key) == Some(Text(value)) }

  datatype Digest = Sha256(text: string)

  // ---- Violations ------------------------------------------------------------------------------

  datatype Violation =
    | NoVerdict | ValidNotBoolean | UnsupportedExit(code: int) | NonZeroButValid | ZeroButInvalid
    | BadShape(reason: string) | WrongField(field: string) | NotCanonical
    | OutsidePlatform | ReferenceNotPulled | WrongImageId | NoLabels | WrongLabel(name: string)
    | WrongRuntime | WrongSource

  function ExitContractViolations(code: int, verdict: Option<Fields>): seq<Violation> {
    if verdict.None? then [NoVerdict]
    else match Lookup(verdict.value, "valid")
      case Some(Bool(valid)) =>
        if code != 0 && code != 1 then [UnsupportedExit(code)]
        else if valid && code != 0 then [NonZeroButValid]
        else if !valid && code != 1 then [ZeroButInvalid]
        else []
      case _ => [ValidNotBoolean]
  }

  datatype Binding = Binding(problemId: string, version: string, image: string, solution: string)

  /** What the verifier packages decide about a verdict, and the schema about a report. */
  datatype Oracle = Oracle(shapeError: Fields -> Option<string>, canonical: Fields -> string, schema: Report -> bool)

  function FieldViolation(verdict: Fields, field: string, expected: string): seq<Violation> {
    if HasText(verdict, field, expected) then [] else [WrongField(field)]
  }

  function IntegrityViolations(o: Oracle, stdout: string, verdict: Option<Fields>, b: Binding): seq<Violation> {
    if verdict.None? then [NoVerdict]
    else if o.shapeError(verdict.value).Some? then [BadShape(o.shapeError(verdict.value).value)]
    else
      var text := o.canonical(verdict.value);
      FieldViolation(verdict.value, "problem_id", b.problemId)
      + FieldViolation(verdict.value, "verifier_version", b.version)
      + FieldViolation(verdict.value, "verifier_image", b.image)
      + FieldViolation(verdict.value, "solution_hash", b.solution)
      + (if stdout == text || stdout == text + "\n" then [] else [NotCanonical])
  }

  const OCI_REVISION: string := "org.opencontainers.image.revision"
  const SOURCE_HASH: string := "io.projectforty2.verifier.source-sha256"
  const SOURCE_HASH_ALGORITHM: string := "io.projectforty2.verifier.source-algorithm"
  const PROBLEM_ID: string := "io.projectforty2.verifier.problem-id"
  const VERIFIER_VERSION: string := "io.projectforty2.verifier.version"
  const ALGORITHM: string := "p42-source-tree-sha256/v2"

  type Labels = seq<(string, string)>

  function ExpectedLabels(commit: string, sourceHash: string, problemId: string, version: string): Labels {
    [(OCI_REVISION, commit), (SOURCE_HASH, sourceHash), (SOURCE_HASH_ALGORITHM, ALGORITHM),
     (PROBLEM_ID, problemId), (VERIFIER_VERSION, version)]
  }

  function LabelViolations(labels: Fields, expected: Labels): seq<Violation> {
    if expected == [] then []
    else (if HasText(labels, expected[0].0, expected[0].1) then [] else [WrongLabel(expected[0].0)])
         + LabelViolations(labels, expected[1..])
  }

  // ---- Dossier and inspection -------------------------------------------------------------------

  datatype Runtime = Runtime(user: Json, workdir: Json, entrypoint: Json, cmd: Json)

  datatype Platform = Platform(platform: string, configDigest: string, labels: Labels, runtime: Runtime)

  datatype Board = Board(
    slug: string, problemId: string, version: string, sourceHash: string, repository: string,
    indexDigest: string, immutableReference: string, platforms: seq<Platform>)

  datatype Pins = Pins(
    dossierHash: string, sourceCommit: string, sourceArchive: string,
    configCommit: string, configArchive: string, journalHash: string)

  datatype Dossier = Dossier(pins: Pins, boards: seq<Board>)

  /** As far as dossier validation is relied on. */
  predicate ValidDossier(d: Dossier) {
    && (forall i, j :: 0 <= i < j < |d.boards| ==> d.boards[i].slug != d.boards[j].slug)
    && forall i :: 0 <= i < |d.boards| ==> ValidBoard(d.pins.sourceCommit, d.boards[i])
  }

  predicate ValidBoard(commit: string, b: Board) {
    && b.problemId == b.slug && b.immutableReference == b.repository + "@" + b.indexDigest && b.indexDigest != ""
    && forall i :: 0 <= i < |b.platforms| ==>
         b.platforms[i].labels == ExpectedLabels(commit, b.sourceHash, b.problemId, b.version)
  }

  function WithSlug(boards: seq<Board>, slug: string): seq<Board> {
    if boards == [] then []
    else (if boards[0].slug == slug then [boards[0]] else []) + WithSlug(boards[1..], slug)
  }

  function SelectBoard(d: Dossier, slug: string): Option<Board> {
    var matches := WithSlug(d.boards, slug);
    if |matches| == 1 then Some(matches[0]) else None
  }

  function FindPlatform(records: seq<Platform>, platform: Option<string>): Option<Platform> {
    if records == [] then None
    else if platform == Some(records[0].platform) then Some(records[0])
    else FindPlatform(records[1..], platform)
  }

  /** The pulled image's metadata, as the container runtime printed it. */
  datatype Inspected = Inspected(
    os: Json, architecture: Json, id: Json, labels: Json, repoDigests: Json,
    user: Json, workdir: Json, entrypoint: Json, cmd: Json)

  function PlatformOf(i: Inspected): Option<string> {
    if i.os.Text? && i.architecture.Text? then Some(i.os.s + "/" + i.architecture.s) else None
  }

  /** Python's truth value. */
  predicate Truthy(j: Json) {
    match j
    case Null => false
    case Bool(b) => b
    case Number(n) => n != 0
    case Text(s) => s != ""
    case List(items) => items != []
    case Object(fields) => fields != []
  }

  function RuntimeOf(i: Inspected): Runtime {
    Runtime(if Truthy(i.user) then i.user else Text("inherited-root-overridden-by-runner"), i.workdir, i.entrypoint, i.cmd)
  }

  function When(holds: bool, v: Violation): seq<Violation> { if holds then [v] else [] }

  function PulledImageViolations(i: Inspected, board: Board, commit: string, observedSource: string)
    : seq<Violation>
  {
    match FindPlatform(board.platforms, PlatformOf(i))
    case None => [OutsidePlatform]
    case Some(expected) =>
      When(!(i.repoDigests.List? && Text(board.immutableReference) in i.repoDigests.items), ReferenceNotPulled)
      + When(i.id != Text(expected.configDigest), WrongImageId)
      + (if i.labels.Object?
         then LabelViolations(i.labels.fields, ExpectedLabels(commit, board.sourceHash, board.problemId, board.version))
         else [NoLabels])
      + When(RuntimeOf(i) != expected.runtime, WrongRuntime)
      + When(observedSource != board.sourceHash, WrongSource)
  }

  // ---- The report ---------------------------------------------------------------------------------

  datatype Outcome =
    | Exited(code: int, stdout: string)
    | TimedOut
    | OutputLimit(stream: string)

  function ExitCode(o: Outcome): int {
    match o case Exited(code, _) => code case TimedOut => 124 case OutputLimit(_) => 125
  }

  function Stdout(o: Outcome): string { if o.Exited? then o.stdout else "" }

  function FailureKind(o: Outcome): Option<string> {
    match o
    case Exited(_, _) => None
    case TimedOut => Some("timeout")
    case OutputLimit(stream) => Some(stream + "_limit_exceeded")
  }

  datatype BoardIdentity = BoardIdentity(slug: string, problemId: string, version: string, sourceHash: string)

  datatype ImageRecord = ImageRecord(
    immutableReference: string, indexDigest: string, localImageId: Json, expectedConfigDigest: Option<string>,
    observedSourceHash: string, repoDigests: seq<string>, observedLabels: Option<Fields>,
    expectedLabels: Option<Labels>, observedRuntime: Runtime, expectedRuntime: Option<Runtime>,
    violations: seq<Violation>)

  datatype Sandbox = Sandbox(requiredMemory: int, factor: real, memory: int, pids: int, cpus: real)

  datatype Execution = Execution(
    exitCode: int, expectedCodes: seq<int>, timedOut: bool, failureKind: Option<string>, stdoutHash: Digest,
    verdict: Option<Fields>, exitContract: seq<Violation>, integrity: seq<Violation>)

  datatype Conclusion = Conclusion(pullVerified: bool, verdictVerified: bool, succeeded: bool)

  datatype Body = Body(
    pins: Pins, board: BoardIdentity, solution: string, platform: Option<string>,
    image: ImageRecord, sandbox: Sandbox, execution: Execution, conclusion: Conclusion)

  /** SHA-256 of the canonical text of the report without its hash. */
  datatype BodyDigest = BodySha256(body: Body)

  datatype Report = Report(body: Body, hash: BodyDigest)

  datatype Manifest = Manifest(problemId: string, version: string, memory: int)

  datatype Policy = Policy(factor: real, pids: int, cpus: real)

  function Ceiling(x: real): int { if x.Floor as real == x then x.Floor else x.Floor + 1 }

  function Identity(b: Board): BoardIdentity { BoardIdentity(b.slug, b.problemId, b.version, b.sourceHash) }

  // `sorted(repo_digests or [])`: nothing where sorting raises or the schema refuses the elements

  predicate AllText(items: seq<Json>) { forall i :: 0 <= i < |items| ==> items[i].Text? }

  function Texts(items: seq<Json>): seq<string>
    requires AllText(items)
  {
    seq(|items|, i requires 0 <= i < |items| => items[i].s)
  }

  function Codes(s: string): Ordering.Text { seq(|s|, i requires 0 <= i < |s| => s[i] as int) }

  function ByCodes(strings: seq<string>): seq<(Ordering.Text, string)> {
    seq(|strings|, i requires 0 <= i < |strings| => (Codes(strings[i]), strings[i]))
  }

  function SortStrings(strings: seq<string>): seq<string> {
    var sorted := Ordering.Sort(ByCodes(strings));
    seq(|sorted|, i requires 0 <= i < |sorted| => sorted[i].1)
  }

  function RecordedDigests(j: Json): Option<seq<string>> {
    if !Truthy(j) then Some([])
    else match j
      case List(items) => if AllText(items) then Some(SortStrings(Texts(items))) else None
      case Object(fields) => Some(SortStrings(seq(|fields|, i requires 0 <= i < |fields| => fields[i].0)))
      case Text(s) => Some(SortStrings(seq(|s|, i requires 0 <= i < |s| => [s[i]])))
      case _ => None
  }

  /** Everything a rehearsal has gathered when it builds its report. */
  datatype Evidence = Evidence(
    board: Board, pins: Pins, manifest: Manifest, inspected: Inspected, observedSource: string, solution: string,
    expectedCodes: seq<int>, outcome: Outcome, verdict: Option<Fields>)

  function BindingOf(e: Evidence): Binding {
    Binding(e.board.problemId, e.board.version, e.board.indexDigest, e.solution)
  }

  function BuildImage(e: Evidence, digests: seq<string>): ImageRecord {
    var record := FindPlatform(e.board.platforms, PlatformOf(e.inspected));
    ImageRecord(
      e.board.immutableReference, e.board.indexDigest, e.inspected.id,
      if record.Some? then Some(record.value.configDigest) else None,
      e.observedSource, digests,
      if e.inspected.labels.Object? then Some(e.inspected.labels.fields) else None,
      if record.Some? then Some(record.value.labels) else None,
      RuntimeOf(e.inspected),
      if record.Some? then Some(record.value.runtime) else None,
      PulledImageViolations(e.inspected, e.board, e.pins.sourceCommit, e.observedSource))
  }

  function BuildExecution(o: Oracle, e: Evidence): Execution {
    Execution(
      ExitCode(e.outcome), e.expectedCodes, e.outcome.TimedOut?, FailureKind(e.outcome), Sha256(Stdout(e.outcome)),
      e.verdict, ExitContractViolations(ExitCode(e.outcome), e.verdict),
      IntegrityViolations(o, Stdout(e.outcome), e.verdict, BindingOf(e)))
  }

  function BuildConclusion(image: ImageRecord, x: Execution): Conclusion {
    Conclusion(
      image.violations == [],
      x.exitContract == [] && x.integrity == [] && x.verdict.Some?,
      x.exitCode in x.expectedCodes && !x.timedOut && x.failureKind == None
      && image.violations == [] && x.exitContract == [] && x.integrity == [])
  }

  function BuildReport(o: Oracle, policy: Policy, e: Evidence): Option<Report> {
    match RecordedDigests(e.inspected.repoDigests)
    case None => None
    case Some(digests) =>
      var image := BuildImage(e, digests);
      var execution := BuildExecution(o, e);
      var sandbox := Sandbox(
        e.manifest.memory, policy.factor, Ceiling(e.manifest.memory as real * policy.factor), policy.pids, policy.cpus);
      var body := Body(e.pins, Identity(e.board), e.solution, PlatformOf(e.inspected), image, sandbox, execution,
                       BuildConclusion(image, execution));
      Some(Report(body, BodySha256(body)))
  }

  // ---- The validator --------------------------------------------------------------------------------

  /** The stdout the validator works with: all it has is a hash. */
  function ReconstructedStdout(o: Oracle, x: Execution): string {
    var text := if x.verdict.Some? then o.canonical(x.verdict.value) else "";
    if x.stdoutHash == Sha256(text) then text
    else if x.stdoutHash == Sha256(text + "\n") then text + "\n"
    else ""
  }

  predicate EndsWith(s: string, suffix: string) {
    |suffix| <= |s| && s[|s| - |suffix|..] == suffix
  }

  function RecomputedImageViolations(body: Body, labels: Labels): seq<Violation> {
    var image := body.image;
    if image.expectedConfigDigest.None? then [OutsidePlatform]
    else
      When(image.immutableReference !in image.repoDigests, ReferenceNotPulled)
      + When(image.localImageId != Text(image.expectedConfigDigest.value), WrongImageId)
      + (if image.observedLabels.Some? then LabelViolations(image.observedLabels.value, labels) else [NoLabels])
      + When(Some(image.observedRuntime) != image.expectedRuntime, WrongRuntime)
      + When(image.observedSourceHash != body.board.sourceHash, WrongSource)
  }

  function ExpectedConclusion(body: Body): Conclusion {
    var x := body.execution;
    Conclusion(
      body.image.violations == [],
      x.exitContract == [] && x.integrity == [] && x.verdict.Some?,
      x.exitCode in x.expectedCodes && !x.timedOut && x.failureKind == None && body.image.violations == []
      && x.exitContract == [] && x.integrity == [] && x.verdict.Some?)
  }

  predicate ExecutionReproducible(o: Oracle, body: Body) {
    var x := body.execution;
    && x.exitContract == ExitContractViolations(x.exitCode, x.verdict)
    && x.integrity == IntegrityViolations(
         o, ReconstructedStdout(o, x), x.verdict,
         Binding(body.board.problemId, body.board.version, body.image.indexDigest, body.solution))
  }

  predicate ImageMatchesDossier(labels: Labels, body: Body, board: Board) {
    var image := body.image;
    var record := FindPlatform(board.platforms, body.platform);
    && image.indexDigest == board.indexDigest && image.immutableReference == board.immutableReference
    && image.expectedConfigDigest == (if record.Some? then Some(record.value.configDigest) else None)
    && image.expectedLabels == (if record.Some? then Some(record.value.labels) else None)
    && image.expectedRuntime == (if record.Some? then Some(record.value.runtime) else None)
    && (image.expectedLabels == None || image.expectedLabels == Some(labels))
    && (if image.expectedConfigDigest.None? then image.expectedLabels == None && image.expectedRuntime == None
        else image.expectedLabels == Some(labels) && image.expectedRuntime.Some?)
  }

  function ValidateReport(o: Oracle, policy: Policy, d: Dossier, m: Manifest, r: Report): Result<Report> {
    var body := r.body;
    var labels := ExpectedLabels(
      body.pins.sourceCommit, body.board.sourceHash, body.board.problemId, body.board.version);
    if !o.schema(r) then Err("report does not match its schema")
    else if r.hash != BodySha256(body) then Err("report hash mismatch")
    else if !ExecutionReproducible(o, body) then Err("stored verdict violations are not reproducible")
    else if !EndsWith(body.image.immutableReference, "@" + body.image.indexDigest) then
      Err("immutable reference contradicts its index digest")
    else if body.pins != d.pins then Err("report does not match the pinned release dossier")
    else match SelectBoard(d, body.board.slug)
      case None => Err("published board is not uniquely present in the release dossier")
      case Some(board) =>
        if body.board != Identity(board) then Err("board does not match the pinned release dossier")
        else if m.problemId != board.problemId || m.version != board.version then
          Err("manifest does not match the pinned board")
        else if !ImageMatchesDossier(labels, body, board) then Err("image expectations do not match the pinned dossier")
        else if body.image.violations != RecomputedImageViolations(body, labels) then
          Err("stored image violations are not reproducible")
        else if body.sandbox != Sandbox(
                  m.memory, policy.factor, Ceiling(body.sandbox.requiredMemory as real * policy.factor),
                  policy.pids, policy.cpus) then
          Err("sandbox does not match the production runner policy")
        else if body.conclusion != ExpectedConclusion(body) then Err("result contradicts its execution evidence")
        else if body.execution.timedOut != (body.execution.failureKind == Some("timeout")) then
          Err("timeout fields contradict each other")
        else Ok(r)
  }

  // ---- What the producer writes, the validator accepts --------------------------------------------

  /** From its hash alone, standard output is recovered well enough to judge it. */
  lemma StdoutReconstructed(o: Oracle, e: Evidence)
    requires forall v :: o.canonical(v) != ""
    ensures IntegrityViolations(o, ReconstructedStdout(o, BuildExecution(o, e)), e.verdict, BindingOf(e))
            == IntegrityViolations(o, Stdout(e.outcome), e.verdict, BindingOf(e))
  {
  }

  lemma SortStringsMember(strings: seq<string>, x: string)
    ensures x in SortStrings(strings) <==> x in strings
  {
    var keyed := ByCodes(strings);
    Ordering.SortMember(keyed, (Codes(x), x));
    var sorted := Ordering.Sort(keyed);
    assert forall i :: 0 <= i < |sorted| ==> sorted[i] in sorted;
    forall i | 0 <= i < |sorted| ensures sorted[i] == (Codes(sorted[i].1), sorted[i].1) {
      Ordering.SortMember(keyed, sorted[i]);
    }
    if x in strings {
      var i :| 0 <= i < |strings| && strings[i] == x;
      assert keyed[i] == (Codes(x), x);
      var j :| 0 <= j < |sorted| && sorted[j] == (Codes(x), x);
      assert SortStrings(strings)[j] == x;
    }
    if x in SortStrings(strings) {
      var j :| 0 <= j < |sorted| && SortStrings(strings)[j] == x;
      assert sorted[j] == (Codes(x), x);
    }
  }

  predicate HasKey(fields: Fields, key: string) { exists i :: 0 <= i < |fields| && fields[i].0 == key }

  /** The recorded digests name the reference as the inspected ones do, except when those are an object. */
  lemma DigestsAgree(j: Json, reference: string)
    requires RecordedDigests(j).Some? && |reference| > 1
    ensures reference in RecordedDigests(j).value <==>
            (j.List? && Text(reference) in j.items) || (j.Object? && HasKey(j.fields, reference))
  {
    if Truthy(j) {
      match j
      case List(items) =>
        SortStringsMember(Texts(items), reference);
        assert Text(reference) in items ==> exists i :: 0 <= i < |items| && items[i] == Text(reference) && Texts(items)[i] == reference;
      case Object(fields) =>
        var keys := seq(|fields|, i requires 0 <= i < |fields| => fields[i].0);
        SortStringsMember(keys, reference);
        if HasKey(fields, reference) {
          var i :| 0 <= i < |fields| && fields[i].0 == reference;
          assert keys[i] == reference;
        }
      case Text(s) =>
        SortStringsMember(seq(|s|, i requires 0 <= i < |s| => [s[i]]), reference);
    }
  }

  lemma {:induction false} FoundRecord(records: seq<Platform>, platform: Option<string>)
    ensures FindPlatform(records, platform).Some? ==> FindPlatform(records, platform).value in records
  {
    if records != [] { FoundRecord(records[1..], platform); }
  }

  lemma {:induction false} SelectedBoard(boards: seq<Board>, slug: string, b: Board)
    requires b in WithSlug(boards, slug)
    ensures b in boards && b.slug == slug
  {
    if boards[0].slug != slug || b != boards[0] { SelectedBoard(boards[1..], slug, b); }
  }

  /** The one input on which inspection and report part ways: digests that came as an object. */
  predicate DigestsMisread(e: Evidence) {
    && FindPlatform(e.board.platforms, PlatformOf(e.inspected)).Some?
    && e.inspected.repoDigests.Object? && HasKey(e.inspected.repoDigests.fields, e.board.immutableReference)
  }

  /** What `rehearse_published` has checked before it builds its report. */
  predicate Checked(d: Dossier, e: Evidence) {
    && ValidDossier(d) && SelectBoard(d, e.board.slug) == Some(e.board) && e.pins == d.pins
    && e.manifest.problemId == e.board.problemId && e.manifest.version == e.board.version
  }

  lemma CheckedBoard(d: Dossier, e: Evidence)
    requires Checked(d, e)
    ensures ValidBoard(d.pins.sourceCommit, e.board)
  {
    var matches := WithSlug(d.boards, e.board.slug);
    assert e.board == matches[0] && matches[0] in matches;
    SelectedBoard(d.boards, e.board.slug, e.board);
  }

  lemma ImageReproduced(d: Dossier, e: Evidence, digests: seq<string>, body: Body)
    requires Checked(d, e) && RecordedDigests(e.inspected.repoDigests) == Some(digests)
    requires body.image == BuildImage(e, digests) && body.board == Identity(e.board) && body.pins == e.pins
    ensures body.image.violations == RecomputedImageViolations(
              body, ExpectedLabels(e.pins.sourceCommit, e.board.sourceHash, e.board.problemId, e.board.version))
            <==> !DigestsMisread(e)
  {
    CheckedBoard(d, e);
    DigestsAgree(e.inspected.repoDigests, e.board.immutableReference);
    var record := FindPlatform(e.board.platforms, PlatformOf(e.inspected));
    if record.Some? {
      PulledSplit(e, record.value);
      RecomputedSplit(e, record.value, digests, body);
      SamePrefix(e.inspected.repoDigests.List? && Text(e.board.immutableReference) in e.inspected.repoDigests.items,
                 e.board.immutableReference in digests, OtherViolations(e, record.value));
    }
  }

  /** All image violations but the one about the pulled reference. */
  function OtherViolations(e: Evidence, record: Platform): seq<Violation> {
    When(e.inspected.id != Text(record.configDigest), WrongImageId)
    + (if e.inspected.labels.Object?
       then LabelViolations(e.inspected.labels.fields,
                            ExpectedLabels(e.pins.sourceCommit, e.board.sourceHash, e.board.problemId, e.board.version))
       else [NoLabels])
    + When(RuntimeOf(e.inspected) != record.runtime, WrongRuntime)
    + When(e.observedSource != e.board.sourceHash, WrongSource)
  }

  lemma Regroup(a: seq<Violation>, b: seq<Violation>, c: seq<Violation>, d: seq<Violation>, e: seq<Violation>)
    ensures a + b + c + d + e == a + (b + c + d + e)
  {
  }

  lemma PulledSplit(e: Evidence, record: Platform)
    requires FindPlatform(e.board.platforms, PlatformOf(e.inspected)) == Some(record)
    ensures PulledImageViolations(e.inspected, e.board, e.pins.sourceCommit, e.observedSource)
            == When(!(e.inspected.repoDigests.List? && Text(e.board.immutableReference) in e.inspected.repoDigests.items),
                    ReferenceNotPulled) + OtherViolations(e, record)
  {
    Regroup(
      When(!(e.inspected.repoDigests.List? && Text(e.board.immutableReference) in e.inspected.repoDigests.items),
           ReferenceNotPulled),
      When(e.inspected.id != Text(record.configDigest), WrongImageId),
      if e.inspected.labels.Object?
      then LabelViolations(e.inspected.labels.fields,
                           ExpectedLabels(e.pins.sourceCommit, e.board.sourceHash, e.board.problemId, e.board.version))
      else [NoLabels],
      When(RuntimeOf(e.inspected) != record.runtime, WrongRuntime),
      When(e.observedSource != e.board.sourceHash, WrongSource));
  }

  lemma RecomputedSplit(e: Evidence, record: Platform, digests: seq<string>, body: Body)
    requires FindPlatform(e.board.platforms, PlatformOf(e.inspected)) == Some(record)
    requires body.image == BuildImage(e, digests) && body.board == Identity(e.board)
    ensures RecomputedImageViolations(
              body, ExpectedLabels(e.pins.sourceCommit, e.board.sourceHash, e.board.problemId, e.board.version))
            == When(e.board.immutableReference !in digests, ReferenceNotPulled) + OtherViolations(e, record)
  {
    Regroup(
      When(e.board.immutableReference !in digests, ReferenceNotPulled),
      When(e.inspected.id != Text(record.configDigest), WrongImageId),
      if e.inspected.labels.Object?
      then LabelViolations(e.inspected.labels.fields,
                           ExpectedLabels(e.pins.sourceCommit, e.board.sourceHash, e.board.problemId, e.board.version))
      else [NoLabels],
      When(RuntimeOf(e.inspected) != record.runtime, WrongRuntime),
      When(e.observedSource != e.board.sourceHash, WrongSource));
  }

  lemma SamePrefix(a: bool, b: bool, rest: seq<Violation>)
    ensures When(!a, ReferenceNotPulled) + rest == When(!b, ReferenceNotPulled) + rest <==> a == b
  {
    assert |When(!a, ReferenceNotPulled) + rest| == |When(!a, ReferenceNotPulled)| + |rest|;
    assert |When(!b, ReferenceNotPulled) + rest| == |When(!b, ReferenceNotPulled)| + |rest|;
  }

  lemma ImageMatches(d: Dossier, e: Evidence, digests: seq<string>, body: Body)
    requires Checked(d, e) && body.platform == PlatformOf(e.inspected)
    requires body.image == BuildImage(e, digests) && body.board == Identity(e.board) && body.pins == e.pins
    ensures ImageMatchesDossier(
              ExpectedLabels(e.pins.sourceCommit, e.board.sourceHash, e.board.problemId, e.board.version), body, e.board)
    ensures EndsWith(body.image.immutableReference, "@" + body.image.indexDigest)
  {
    CheckedBoard(d, e);
    FoundRecord(e.board.platforms, PlatformOf(e.inspected));
    assert e.board.immutableReference == e.board.repository + ("@" + e.board.indexDigest);
  }

  lemma TimeoutFields(outcome: Outcome)
    ensures outcome.TimedOut? <==> FailureKind(outcome) == Some("timeout")
  {
    if outcome.OutputLimit? {
      assert |outcome.stream + "_limit_exceeded"| > |"timeout"|;
    }
  }

  /**
   Every report a rehearsal builds, whatever the image, the verifier and its output did, passes the
   validator with all its recorded lists recomputed, provided the schema lets it through, except
   on digests misread as above.
   */
  lemma ProducerAccepted(o: Oracle, policy: Policy, d: Dossier, e: Evidence)
    requires Checked(d, e) && BuildReport(o, policy, e).Some?
    requires forall v :: o.canonical(v) != ""
    ensures var r := BuildReport(o, policy, e).value;
            && (ValidateReport(o, policy, d, e.manifest, r).Ok? <==> o.schema(r) && !DigestsMisread(e))
            && (o.schema(r) && !DigestsMisread(e) ==> ValidateReport(o, policy, d, e.manifest, r) == Ok(r))
  {
    var digests := RecordedDigests(e.inspected.repoDigests).value;
    var body := BuildReport(o, policy, e).value.body;
    StdoutReconstructed(o, e);
    ImageReproduced(d, e, digests, body);
    ImageMatches(d, e, digests, body);
    TimeoutFields(e.outcome);
    assert body.conclusion == ExpectedConclusion(body);
  }

  const COMMIT: string := "0123456789abcdef0123456789abcdef01234567"
  const DIGEST: string := "sha256:0123456789abcdef0123456789abcdef0123456789abcdef0123456789abcdef"
  const REPOSITORY: string := "ghcr.io/project/board"
  const REFERENCE: string := REPOSITORY + "@" + DIGEST

  const SAMPLE_PLATFORM: Platform := Platform(
    "linux/amd64", DIGEST, ExpectedLabels(COMMIT, DIGEST, "board", "1.0.0"),
    Runtime(Text("65534"), Text("/repo/problems/board"), Null, List([])))

  const SAMPLE_BOARD: Board := Board(
    "board", "board", "1.0.0", DIGEST, REPOSITORY, DIGEST, REFERENCE, [SAMPLE_PLATFORM])

  const SAMPLE_PINS: Pins := Pins(DIGEST, COMMIT, DIGEST, COMMIT, DIGEST, DIGEST)

  /** An image that is all in order, but for digests given as an object. */
  const SAMPLE_INSPECTED: Inspected := Inspected(
    Text("linux"), Text("amd64"), Text(DIGEST),
    Object([(OCI_REVISION, Text(COMMIT)), (SOURCE_HASH, Text(DIGEST)),
            (SOURCE_HASH_ALGORITHM, Text(ALGORITHM)), (PROBLEM_ID, Text("board")), (VERIFIER_VERSION, Text("1.0.0"))]),
    Object([(REFERENCE, Null)]),
    Text("65534"), Text("/repo/problems/board"), Null, List([]))

  const SAMPLE_EVIDENCE: Evidence := Evidence(
    SAMPLE_BOARD, SAMPLE_PINS, Manifest("board", "1.0.0", 512), SAMPLE_INSPECTED, DIGEST, DIGEST,
    [0], Exited(0, ""), None)

  /** The exception occurs: a valid dossier and a rehearsal whose report is built and then refused. */
  lemma MisreadOccurs(o: Oracle, policy: Policy)
    requires forall v :: o.canonical(v) != ""
    ensures var d := Dossier(SAMPLE_PINS, [SAMPLE_BOARD]);
            && Checked(d, SAMPLE_EVIDENCE) && DigestsMisread(SAMPLE_EVIDENCE)
            && BuildReport(o, policy, SAMPLE_EVIDENCE).Some?
            && ValidateReport(o, policy, d, SAMPLE_EVIDENCE.manifest, BuildReport(o, policy, SAMPLE_EVIDENCE).value).Err?
  {
    var d := Dossier(SAMPLE_PINS, [SAMPLE_BOARD]);
    var e := SAMPLE_EVIDENCE;
    assert ValidBoard(COMMIT, SAMPLE_BOARD);
    assert WithSlug(d.boards, "board") == [SAMPLE_BOARD] + WithSlug(d.boards[1..], "board");
    assert "linux" + "/" + "amd64" == "linux/amd64";
    assert e.inspected.repoDigests.fields[0].0 == SAMPLE_BOARD.immutableReference;
    ProducerAccepted(o, policy, d, e);
  }

  // ---- What acceptance means ------------------------------------------------------------------------

  lemma {:induction false} NoLabelViolations(labels: Fields, expected: Labels)
    requires LabelViolations(labels, expected) == []
    ensures forall i :: 0 <= i < |expected| ==> HasText(labels, expected[i].0, expected[i].1)
  {
    if expected != [] {
      NoLabelViolations(labels, expected[1..]);
      assert forall i :: 1 <= i < |expected| ==> expected[i] == expected[1..][i - 1];
    }
  }

  /** The verdict is bound to what was executed, and standard output was exactly its canonical text. */
  predicate SoundVerdict(o: Oracle, body: Body, verdict: Fields) {
    && o.shapeError(verdict) == None
    && HasText(verdict, "problem_id", body.board.problemId)
    && HasText(verdict, "verifier_version", body.board.version)
    && HasText(verdict, "verifier_image", body.image.indexDigest)
    && HasText(verdict, "solution_hash", body.solution)
    && (body.execution.stdoutHash == Sha256(o.canonical(verdict))
        || body.execution.stdoutHash == Sha256(o.canonical(verdict) + "\n"))
    && (Lookup(verdict, "valid") == Some(Bool(body.execution.exitCode == 0)))
    && (body.execution.exitCode == 0 || body.execution.exitCode == 1)
  }

  /** The image is the dossier's for its platform: pulled by digest, with its id, labels, runtime and source. */
  predicate SoundImage(body: Body, board: Board, record: Platform) {
    && body.image.immutableReference == board.immutableReference && board.immutableReference in body.image.repoDigests
    && body.image.localImageId == Text(record.configDigest)
    && body.image.observedRuntime == record.runtime
    && body.image.observedSourceHash == board.sourceHash
    && body.image.observedLabels.Some?
    && forall i :: 0 <= i < |record.labels| ==>
         HasText(body.image.observedLabels.value, record.labels[i].0, record.labels[i].1)
  }

  lemma IntegrityMeans(o: Oracle, body: Body)
    requires body.execution.verdict.Some? && body.execution.exitContract == [] && body.execution.integrity == []
    requires ExecutionReproducible(o, body) && forall v :: o.canonical(v) != ""
    ensures SoundVerdict(o, body, body.execution.verdict.value)
  {
    var x := body.execution;
    var stdout := ReconstructedStdout(o, x);
    assert IntegrityViolations(o, stdout, x.verdict,
             Binding(body.board.problemId, body.board.version, body.image.indexDigest, body.solution)) == [];
  }

  lemma ImageMeans(body: Body, labels: Labels, board: Board)
    requires ImageMatchesDossier(labels, body, board) && RecomputedImageViolations(body, labels) == []
    requires body.board == Identity(board)
    ensures FindPlatform(board.platforms, body.platform).Some?
    ensures SoundImage(body, board, FindPlatform(board.platforms, body.platform).value)
  {
    NoLabelViolations(body.image.observedLabels.value, labels);
  }

  /** An accepted report of success is evidence of a verified pull and a verified, expected verdict. */
  lemma AcceptedSuccessMeans(o: Oracle, policy: Policy, d: Dossier, m: Manifest, r: Report)
    requires ValidateReport(o, policy, d, m, r).Ok? && r.body.conclusion.succeeded
    requires forall v :: o.canonical(v) != ""
    ensures r.body.execution.exitCode in r.body.execution.expectedCodes && r.body.execution.failureKind == None
    ensures r.body.execution.verdict.Some? && SoundVerdict(o, r.body, r.body.execution.verdict.value)
    ensures SelectBoard(d, r.body.board.slug).Some?
    ensures var board := SelectBoard(d, r.body.board.slug).value;
            && r.body.pins == d.pins && r.body.board == Identity(board)
            && FindPlatform(board.platforms, r.body.platform).Some?
            && SoundImage(r.body, board, FindPlatform(board.platforms, r.body.platform).value)
  {
    var body := r.body;
    var labels := ExpectedLabels(body.pins.sourceCommit, body.board.sourceHash, body.board.problemId, body.board.version);
    IntegrityMeans(o, body);
    ImageMeans(body, labels, SelectBoard(d, body.board.slug).value);
  }

  // ---- When each list is empty ------------------------------------------------------------------------

  /** The value under a key is that of its first occurrence. */
  lemma {:induction false} LookupExactly(fields: Fields, key: string)
    ensures Lookup(fields, key).None? <==> !HasKey(fields, key)
    ensures Lookup(fields, key).Some? ==>
              exists i :: 0 <= i < |fields| && fields[i] == (key, Lookup(fields, key).value)
                && forall j :: 0 <= j < i ==> fields[j].0 != key
  {
    if fields != [] {
      var rest := fields[1..];
      LookupExactly(rest, key);
      assert forall i :: 0 <= i < |rest| ==> rest[i] == fields[i + 1];
      if fields[0].0 == key {
        assert fields[0] == (key, Lookup(fields, key).value);
      } else if HasKey(rest, key) {
        var i :| 0 <= i < |rest| && rest[i] == (key, Lookup(rest, key).value) && forall j :: 0 <= j < i ==> rest[j].0 != key;
        assert fields[i + 1] == (key, Lookup(fields, key).value);
        forall j | 0 <= j < i + 1 ensures fields[j].0 != key { if j > 0 { assert rest[j - 1] == fields[j]; } }
      }
    }
  }

  /** Which exit codes go with which verdicts, and what is said of the others. */
  lemma ExitContractExactly(code: int, verdict: Option<Fields>)
    ensures var v, valid := ExitContractViolations(code, verdict), if verdict.Some? then Lookup(verdict.value, "valid") else None;
            && (v == [] <==> (valid == Some(Bool(true)) && code == 0) || (valid == Some(Bool(false)) && code == 1))
            && (verdict.None? ==> v == [NoVerdict])
            && (verdict.Some? && !(valid.Some? && valid.value.Bool?) ==> v == [ValidNotBoolean])
            && (valid.Some? && valid.value.Bool? && code != 0 && code != 1 ==> v == [UnsupportedExit(code)])
            && (valid == Some(Bool(true)) && code == 1 ==> v == [NonZeroButValid])
            && (valid == Some(Bool(false)) && code == 0 ==> v == [ZeroButInvalid])
  {
  }

  /** The verdict has the right shape and names what was executed, and it is all of standard output. */
  predicate GoodVerdict(o: Oracle, stdout: string, verdict: Option<Fields>, b: Binding) {
    && verdict.Some? && o.shapeError(verdict.value) == None
    && Lookup(verdict.value, "problem_id") == Some(Text(b.problemId))
    && Lookup(verdict.value, "verifier_version") == Some(Text(b.version))
    && Lookup(verdict.value, "verifier_image") == Some(Text(b.image))
    && Lookup(verdict.value, "solution_hash") == Some(Text(b.solution))
    && (stdout == o.canonical(verdict.value) || stdout == o.canonical(verdict.value) + "\n")
  }

  lemma IntegrityExactly(o: Oracle, stdout: string, verdict: Option<Fields>, b: Binding)
    ensures var v := IntegrityViolations(o, stdout, verdict, b);
            && (v == [] <==> GoodVerdict(o, stdout, verdict, b))
            && (verdict.None? ==> v == [NoVerdict])
            && (verdict.Some? && o.shapeError(verdict.value).Some? ==> v == [BadShape(o.shapeError(verdict.value).value)])
            && (verdict.Some? && o.shapeError(verdict.value).None? ==>
                  && (forall f :: WrongField(f) in v ==> f in {"problem_id", "verifier_version", "verifier_image", "solution_hash"})
                  && (NotCanonical in v <==> !(stdout == o.canonical(verdict.value) || stdout == o.canonical(verdict.value) + "\n")))
  {
  }

  /** A field is reported exactly when it does not hold what was executed. */
  lemma WrongFieldExactly(o: Oracle, stdout: string, verdict: Fields, b: Binding)
    requires o.shapeError(verdict) == None
    ensures var v := IntegrityViolations(o, stdout, Some(verdict), b);
            && (WrongField("problem_id") in v <==> Lookup(verdict, "problem_id") != Some(Text(b.problemId)))
            && (WrongField("verifier_version") in v <==> Lookup(verdict, "verifier_version") != Some(Text(b.version)))
            && (WrongField("verifier_image") in v <==> Lookup(verdict, "verifier_image") != Some(Text(b.image)))
            && (WrongField("solution_hash") in v <==> Lookup(verdict, "solution_hash") != Some(Text(b.solution)))
  {
  }

  /** The five provenance labels. */
  predicate GoodLabels(labels: Fields, commit: string, sourceHash: string, problemId: string, version: string) {
    && Lookup(labels, "org.opencontainers.image.revision") == Some(Text(commit))
    && Lookup(labels, "io.projectforty2.verifier.source-sha256") == Some(Text(sourceHash))
    && Lookup(labels, "io.projectforty2.verifier.source-algorithm") == Some(Text("p42-source-tree-sha256/v2"))
    && Lookup(labels, "io.projectforty2.verifier.problem-id") == Some(Text(problemId))
    && Lookup(labels, "io.projectforty2.verifier.version") == Some(Text(version))
  }

  lemma {:induction false} LabelReported(labels: Fields, expected: Labels, name: string)
    ensures WrongLabel(name) in LabelViolations(labels, expected) <==>
              exists i :: 0 <= i < |expected| && expected[i].0 == name && !HasText(labels, name, expected[i].1)
    ensures LabelViolations(labels, expected) == [] <==>
              forall i :: 0 <= i < |expected| ==> HasText(labels, expected[i].0, expected[i].1)
  {
    if expected != [] {
      var rest := expected[1..];
      LabelReported(labels, rest, name);
      assert forall i :: 0 <= i < |rest| ==> rest[i] == expected[i + 1];
      assert forall i :: 1 <= i < |expected| ==> expected[i] == rest[i - 1];
    }
  }

  lemma LabelsExactly(labels: Fields, commit: string, sourceHash: string, problemId: string, version: string)
    ensures LabelViolations(labels, ExpectedLabels(commit, sourceHash, problemId, version)) == [] <==>
            GoodLabels(labels, commit, sourceHash, problemId, version)
  {
    var expected := ExpectedLabels(commit, sourceHash, problemId, version);
    LabelReported(labels, expected, "");
    assert expected[0].1 == commit && expected[1].1 == sourceHash && expected[2].1 == "p42-source-tree-sha256/v2";
    assert expected[3].1 == problemId && expected[4].1 == version;
  }

  /** The record found is the first of its platform; none is found exactly when there is none. */
  lemma {:induction false} FoundExactly(records: seq<Platform>, platform: Option<string>)
    ensures FindPlatform(records, platform).None? <==>
              forall i :: 0 <= i < |records| ==> platform != Some(records[i].platform)
    ensures FindPlatform(records, platform).Some? ==>
              exists i :: 0 <= i < |records| && records[i] == FindPlatform(records, platform).value
                && platform == Some(records[i].platform)
                && forall j :: 0 <= j < i ==> platform != Some(records[j].platform)
  {
    if records != [] {
      var rest := records[1..];
      FoundExactly(rest, platform);
      assert forall i :: 0 <= i < |rest| ==> rest[i] == records[i + 1];
      if platform == Some(records[0].platform) {
        assert records[0] == FindPlatform(records, platform).value;
      } else if FindPlatform(rest, platform).Some? {
        var i :| 0 <= i < |rest| && rest[i] == FindPlatform(rest, platform).value
          && forall j :: 0 <= j < i ==> platform != Some(rest[j].platform);
        assert records[i + 1] == FindPlatform(records, platform).value;
        forall j | 0 <= j < i + 1 ensures platform != Some(records[j].platform) {
          if j > 0 { assert rest[j - 1] == records[j]; }
        }
      } else {
        forall j | 0 <= j < |records| ensures platform != Some(records[j].platform) {
          if j > 0 { assert rest[j - 1] == records[j]; }
        }
      }
    }
  }

  /** The image is the dossier's for its platform: pulled by digest, with its id, labels, runtime and source. */
  predicate GoodImage(i: Inspected, board: Board, commit: string, observedSource: string) {
    && i.os.Text? && i.architecture.Text?
    && var found := FindPlatform(board.platforms, Some(i.os.s + "/" + i.architecture.s));
       && found.Some?
       && i.repoDigests.List? && Text(board.immutableReference) in i.repoDigests.items
       && i.id == Text(found.value.configDigest)
       && i.labels.Object? && GoodLabels(i.labels.fields, commit, board.sourceHash, board.problemId, board.version)
       && found.value.runtime.user == (if i.user in {Null, Bool(false), Number(0), Text(""), List([]), Object([])}
                                       then Text("inherited-root-overridden-by-runner") else i.user)
       && found.value.runtime.workdir == i.workdir && found.value.runtime.entrypoint == i.entrypoint
       && found.value.runtime.cmd == i.cmd
       && observedSource == board.sourceHash
  }

  lemma ImageExactly(i: Inspected, board: Board, commit: string, observedSource: string)
    ensures PulledImageViolations(i, board, commit, observedSource) == [] <==> GoodImage(i, board, commit, observedSource)
  {
    FoundExactly(board.platforms, None);
    TruthyExactly(i.user);
    if i.labels.Object? { LabelsExactly(i.labels.fields, commit, board.sourceHash, board.problemId, board.version); }
  }

  /** What Python takes for false. */
  lemma TruthyExactly(j: Json)
    ensures Truthy(j) <==> j !in {Null, Bool(false), Number(0), Text(""), List([]), Object([])}
  {
  }

  predicate OnlyOne(boards: seq<Board>, slug: string, i: nat) {
    i < |boards| && boards[i].slug == slug && forall j :: 0 <= j < |boards| && j != i ==> boards[j].slug != slug
  }

  lemma {:induction false} WithSlugExactly(boards: seq<Board>, slug: string)
    ensures WithSlug(boards, slug) == [] <==> forall i :: 0 <= i < |boards| ==> boards[i].slug != slug
    ensures forall i: nat :: OnlyOne(boards, slug, i) ==> WithSlug(boards, slug) == [boards[i]]
    ensures |WithSlug(boards, slug)| == 1 ==> exists i: nat :: OnlyOne(boards, slug, i)
  {
    if boards != [] {
      var rest := boards[1..];
      WithSlugExactly(rest, slug);
      assert forall i :: 0 <= i < |rest| ==> rest[i] == boards[i + 1];
      forall i: nat | OnlyOne(boards, slug, i) ensures WithSlug(boards, slug) == [boards[i]] {
        if i > 0 { assert OnlyOne(rest, slug, i - 1); }
      }
      if |WithSlug(boards, slug)| == 1 {
        if boards[0].slug == slug {
          assert OnlyOne(boards, slug, 0);
        } else {
          var i: nat :| OnlyOne(rest, slug, i);
          forall j | 0 <= j < |boards| && j != i + 1 ensures boards[j].slug != slug {
            if j > 0 { assert rest[j - 1] == boards[j]; }
          }
          assert OnlyOne(boards, slug, i + 1);
        }
      }
    }
  }

  /** A board is selected exactly when it is the only one of its name. */
  lemma SelectExactly(d: Dossier, slug: string)
    ensures SelectBoard(d, slug).Some? <==> exists i: nat :: OnlyOne(d.boards, slug, i)
    ensures forall i: nat :: OnlyOne(d.boards, slug, i) ==> SelectBoard(d, slug) == Some(d.boards[i])
  {
    WithSlugExactly(d.boards, slug);
  }

  /** The least integer that is not below. */
  lemma CeilingExactly(x: real)
    ensures Ceiling(x) as real >= x && (Ceiling(x) - 1) as real < x
  {
  }

  /** The recorded digests are in order, each as often as it was given. */
  lemma SortStringsExactly(strings: seq<string>)
    ensures multiset(SortStrings(strings)) == multiset(strings)
    ensures forall i, j :: 0 <= i < j < |SortStrings(strings)| ==>
              !Ordering.Less(Codes(SortStrings(strings)[j]), Codes(SortStrings(strings)[i]))
  {
    var keyed := ByCodes(strings);
    var sorted := Ordering.Sort(keyed);
    Ordering.SortIsSorted(keyed);
    forall i | 0 <= i < |sorted| ensures sorted[i] == (Codes(sorted[i].1), sorted[i].1) {
      assert sorted[i] in sorted;
      Ordering.SortMember(keyed, sorted[i]);
    }
    SortSeconds(keyed);
    assert Seconds(keyed) == strings;
    assert Seconds(sorted) == SortStrings(strings);
  }

  function Seconds(s: seq<(Ordering.Text, string)>): seq<string> {
    seq(|s|, i requires 0 <= i < |s| => s[i].1)
  }

  lemma {:induction false} InsertSeconds(x: (Ordering.Text, string), s: seq<(Ordering.Text, string)>)
    ensures multiset(Seconds(Ordering.Insert(x, s))) == multiset{x.1} + multiset(Seconds(s))
  {
    if s == [] {
      assert Seconds([x]) == [x.1] && Seconds(s) == [];
    } else {
      assert Seconds(s) == [s[0].1] + Seconds(s[1..]);
      if Ordering.Less(s[0].0, x.0) {
        InsertSeconds(x, s[1..]);
        var r := Ordering.Insert(x, s[1..]);
        assert Seconds([s[0]] + r) == [s[0].1] + Seconds(r);
      } else {
        assert Seconds([x] + s) == [x.1] + Seconds(s);
      }
    }
  }

  lemma {:induction false} SortSeconds(s: seq<(Ordering.Text, string)>)
    ensures multiset(Seconds(Ordering.Sort(s))) == multiset(Seconds(s))
  {
    if s != [] {
      SortSeconds(s[1..]);
      InsertSeconds(s[0], Ordering.Sort(s[1..]));
      assert Seconds(s) == [s[0].1] + Seconds(s[1..]);
    }
  }

  // ---- What a report records, and when it says success -------------------------------------------------

  /** The report's plain fields are the evidence's. */
  lemma ReportRecords(o: Oracle, policy: Policy, e: Evidence)
    requires BuildReport(o, policy, e).Some?
    ensures var r := BuildReport(o, policy, e).value;
            var b, x := r.body, r.body.execution;
            && r.hash == BodySha256(b) && b.pins == e.pins && b.solution == e.solution
            && b.board == BoardIdentity(e.board.slug, e.board.problemId, e.board.version, e.board.sourceHash)
            && b.image.immutableReference == e.board.immutableReference && b.image.indexDigest == e.board.indexDigest
            && b.image.localImageId == e.inspected.id && b.image.observedSourceHash == e.observedSource
            && b.sandbox.requiredMemory == e.manifest.memory && b.sandbox.factor == policy.factor
            && b.sandbox.pids == policy.pids && b.sandbox.cpus == policy.cpus
            && b.sandbox.memory as real >= e.manifest.memory as real * policy.factor > (b.sandbox.memory - 1) as real
            && x.expectedCodes == e.expectedCodes && x.verdict == e.verdict
            && match e.outcome
               case Exited(code, stdout) =>
                 x.exitCode == code && !x.timedOut && x.failureKind == None && x.stdoutHash == Sha256(stdout)
               case TimedOut =>
                 x.exitCode == 124 && x.timedOut && x.failureKind == Some("timeout") && x.stdoutHash == Sha256("")
               case OutputLimit(stream) =>
                 && x.exitCode == 125 && !x.timedOut && x.failureKind == Some(stream + "_limit_exceeded")
                 && x.stdoutHash == Sha256("")
  {
    CeilingExactly(e.manifest.memory as real * policy.factor);
  }

  /** The evidence is of success: an expected exit, a sound verdict that fits it, an image in order. */
  predicate GoodRehearsal(o: Oracle, e: Evidence) {
    && e.outcome.Exited? && e.outcome.code in e.expectedCodes
    && GoodVerdict(o, e.outcome.stdout, e.verdict,
                   Binding(e.board.problemId, e.board.version, e.board.indexDigest, e.solution))
    && (Lookup(e.verdict.value, "valid") == Some(Bool(e.outcome.code == 0))) && (e.outcome.code == 0 || e.outcome.code == 1)
    && GoodImage(e.inspected, e.board, e.pins.sourceCommit, e.observedSource)
  }

  /**
   A report says success exactly for such evidence, and then it is accepted wherever the schema lets
   it through.
   */
  lemma SuccessExactly(o: Oracle, policy: Policy, d: Dossier, e: Evidence)
    requires Checked(d, e) && BuildReport(o, policy, e).Some?
    requires forall v :: o.canonical(v) != ""
    ensures var r := BuildReport(o, policy, e).value;
            && (r.body.conclusion.succeeded <==> GoodRehearsal(o, e))
            && (GoodRehearsal(o, e) ==> r.body.conclusion == Conclusion(true, true, true))
            && (GoodRehearsal(o, e) && o.schema(r) ==> ValidateReport(o, policy, d, e.manifest, r) == Ok(r))
  {
    ImageExactly(e.inspected, e.board, e.pins.sourceCommit, e.observedSource);
    IntegrityExactly(o, Stdout(e.outcome), e.verdict, BindingOf(e));
    ExitContractExactly(ExitCode(e.outcome), e.verdict);
    ProducerAccepted(o, policy, d, e);
  }

  /** A report is built from a list of digests whenever they are texts. */
  lemma ReportBuilt(o: Oracle, policy: Policy, e: Evidence)
    requires e.inspected.repoDigests.List? && AllText(e.inspected.repoDigests.items)
    ensures BuildReport(o, policy, e).Some?
    ensures forall x :: x in BuildReport(o, policy, e).value.body.image.repoDigests <==> Text(x) in e.inspected.repoDigests.items
  {
    var items := e.inspected.repoDigests.items;
    forall x ensures x in SortStrings(Texts(items)) <==> Text(x) in items {
      SortStringsMember(Texts(items), x);
      if Text(x) in items {
        var i :| 0 <= i < |items| && items[i] == Text(x);
        assert Texts(items)[i] == x;
      }
    }
  }

  lemma SoundVerdictExactly(o: Oracle, body: Body)
    requires ExecutionReproducible(o, body) && forall v :: o.canonical(v) != ""
    ensures body.execution.exitContract == [] && body.execution.integrity == [] && body.execution.verdict.Some? <==>
            body.execution.verdict.Some? && SoundVerdict(o, body, body.execution.verdict.value)
  {
    var x := body.execution;
    ExitContractExactly(x.exitCode, x.verdict);
    IntegrityExactly(o, ReconstructedStdout(o, x), x.verdict,
                     Binding(body.board.problemId, body.board.version, body.image.indexDigest, body.solution));
  }

  lemma SoundImageExactly(body: Body, labels: Labels, board: Board)
    requires ImageMatchesDossier(labels, body, board) && body.board == Identity(board)
    ensures var found := FindPlatform(board.platforms, body.platform);
            RecomputedImageViolations(body, labels) == [] <==> found.Some? && SoundImage(body, board, found.value)
  {
    if body.image.observedLabels.Some? { LabelReported(body.image.observedLabels.value, labels, ""); }
  }

  /**
   What any accepted report says, success or not: its conclusions are those that its evidence bears
   out, for the pinned dossier, the pinned board and the runner's policy.
   */
  lemma AcceptedMeans(o: Oracle, policy: Policy, d: Dossier, m: Manifest, r: Report)
    requires ValidateReport(o, policy, d, m, r).Ok?
    requires forall v :: o.canonical(v) != ""
    ensures ValidateReport(o, policy, d, m, r).value == r && r.hash == BodySha256(r.body) && r.body.pins == d.pins
    ensures SelectBoard(d, r.body.board.slug).Some?
    ensures var b, x, c := r.body, r.body.execution, r.body.conclusion;
            var board := SelectBoard(d, b.board.slug).value;
            var found := FindPlatform(board.platforms, b.platform);
            && b.board == Identity(board) && m.problemId == board.problemId && m.version == board.version
            && (c.verdictVerified <==> x.verdict.Some? && SoundVerdict(o, b, x.verdict.value))
            && (c.pullVerified <==> found.Some? && SoundImage(b, board, found.value))
            && (c.succeeded <==> c.verdictVerified && c.pullVerified && x.exitCode in x.expectedCodes && x.failureKind == None)
            && (x.timedOut <==> x.failureKind == Some("timeout"))
            && b.sandbox.requiredMemory == m.memory && b.sandbox.factor == policy.factor
            && b.sandbox.pids == policy.pids && b.sandbox.cpus == policy.cpus
            && b.sandbox.memory as real >= m.memory as real * policy.factor > (b.sandbox.memory - 1) as real
  {
    var body := r.body;
    var labels := ExpectedLabels(body.pins.sourceCommit, body.board.sourceHash, body.board.problemId, body.board.version);
    SoundVerdictExactly(o, body);
    SoundImageExactly(body, labels, SelectBoard(d, body.board.slug).value);
    CeilingExactly(m.memory as real * policy.factor);
  }
}
