/**
 The deployment reservation record: its validation, the monotone merge of deployment
 entries, and the archive that completion leaves behind. SHA-256 is a free constructor.
 */
module Reservation {
  import opened Basics

  /** A field's value as far as validation looks into it; writing drops the fields that are `Undefined`. */
  datatype Value = Text(s: string) | Number(n: int) | Null | List(items: seq<string>) | Undefined

  /** One recorded contract deployment, by field name. */
  type Entry = map<string, Value>

  const ENTRY_KEYS: set<string> := {
    "name", "address", "txHash", "state", "blockNumber", "abiHash", "runtimeCodeHash", "deployedCodeHash",
    "constructorArgsHash", "constructorArgs", "capsuleArtifactDigest", "initCodeHash", "expectedRuntimeCodeHash",
    "primaryObservedRuntimeCodeHash", "secondaryObservedRuntimeCodeHash", "deploymentBlockTimestamp",
    "blockTimestampEvidence"
  }
  const IDENTITY_FIELDS: set<string> := {"name", "address", "txHash"}
  const HASH_FIELDS: set<string> := {"abiHash", "runtimeCodeHash", "deployedCodeHash", "constructorArgsHash"}
  const CONTRACT_KEYS: set<string> := {"timelock", "rolloverVault", "pool", "ledger", "submissions", "challenges", "registry"}
  const BOARD_KEYS: set<string> := {"pool", "ledger", "submissions", "challenges"}

  predicate HasText(e: Entry, field: string) { field in e && e[field].Text? }

  predicate Mined(e: Entry) { "state" in e && e["state"] == Text("mined") }

  predicate Broadcast(e: Entry) { "state" in e && e["state"] == Text("broadcast") }

  predicate Missing(e: Entry, field: string) { field !in e || e[field] == Undefined }

  /** The entry as it reads back after it was written. */
  function Written(e: Entry): (w: Entry)
    ensures w.Keys == set f | f in e && e[f] != Undefined
    ensures forall f :: f in w ==> w[f] == e[f]
  {
    e - set f | f in e && e[f] == Undefined
  }

  predicate ValidEntry(e: Entry) {
    && e.Keys <= ENTRY_KEYS
    && (Broadcast(e) || Mined(e))
    && (forall f :: f in IDENTITY_FIELDS ==> HasText(e, f)) && e["name"].s != ""
    && (Broadcast(e) ==>
          && "blockNumber" in e && e["blockNumber"] == Null
          && Missing(e, "constructorArgs") && forall f :: f in HASH_FIELDS ==> Missing(e, f))
    && (Mined(e) ==>
          && "blockNumber" in e && e["blockNumber"].Number? && 0 <= e["blockNumber"].n <= MAX_SAFE_INTEGER
          && (forall f :: f in HASH_FIELDS ==> HasText(e, f))
          && "constructorArgs" in e && e["constructorArgs"].List?)
  }

  /** `later` keeps what `earlier` fixed: its identity, and being mined. */
  predicate EntryContinues(earlier: Entry, later: Entry) {
    && (forall f :: f in IDENTITY_FIELDS && f in earlier ==> f in later && later[f] == earlier[f])
    && (Mined(earlier) ==> Mined(later))
  }

  function Merge(existing: Option<Entry>, deployment: Entry): Result<Entry> {
    if !ValidEntry(deployment) then Err("deployment entry is malformed")
    else match existing
      case None => Ok(Written(deployment))
      case Some(e) =>
        if exists f :: f in IDENTITY_FIELDS && (f !in e || e[f] != deployment[f]) then
          Err("deployment identity changed during ceremony")
        else if Mined(e) && !Mined(deployment) then Err("deployment cannot regress from mined")
        else Ok(Written(e + deployment))
  }

  /**
   Field by field, `merged` is the deployment's value, nothing where the deployment has the field but
   undefined, and the old value where the deployment lacks the field.
   */
  ghost predicate Overlaid(existing: Option<Entry>, deployment: Entry, merged: Entry) {
    && (forall f :: f in merged <==>
          if f in deployment then deployment[f] != Undefined
          else existing.Some? && f in existing.value && existing.value[f] != Undefined)
    && (forall f :: f in merged ==>
          merged[f] == if f in deployment then deployment[f] else existing.value[f])
  }

  /**
   Merging into a valid entry never needs the validation that follows it: the written result is
   valid, lies over the old entry field by field, and continues it. So identity and being mined
   are kept, and an optional field can be erased.
   */
  lemma MergeKeeps(existing: Option<Entry>, deployment: Entry)
    requires existing.Some? ==> ValidEntry(existing.value)
    requires Merge(existing, deployment).Ok?
    ensures var merged := Merge(existing, deployment).value;
            && ValidEntry(merged)
            && (existing.Some? ==> EntryContinues(existing.value, merged))
            && Overlaid(existing, deployment, merged)
  {
    var all := if existing.Some? then existing.value + deployment else deployment;
    assert Merge(existing, deployment).value == Written(all);
    assert forall f :: f in all <==> f in deployment || (existing.Some? && f in existing.value);
    assert forall f :: f in deployment ==> all[f] == deployment[f];
    assert Mined(all) <==> Mined(deployment);
    assert Broadcast(all) <==> Broadcast(deployment);
    AllValid(existing, deployment, all);
    WrittenValid(all);
  }

  /** A merge succeeds exactly for a valid entry of the same identity that does not fall back from mined. */
  lemma MergeExactly(existing: Option<Entry>, deployment: Entry)
    requires existing.Some? ==> ValidEntry(existing.value)
    ensures Merge(existing, deployment).Ok? <==> Mergeable(existing, deployment)
  {
  }

  predicate Mergeable(existing: Option<Entry>, deployment: Entry) {
    && ValidEntry(deployment)
    && (existing.Some? ==>
          && Get(existing.value, "name") == Get(deployment, "name")
          && Get(existing.value, "address") == Get(deployment, "address")
          && Get(existing.value, "txHash") == Get(deployment, "txHash")
          && (Get(existing.value, "state") == Some(Text("mined")) ==> Get(deployment, "state") == Some(Text("mined"))))
  }

  lemma AllValid(existing: Option<Entry>, deployment: Entry, all: Entry)
    requires existing.Some? ==> ValidEntry(existing.value)
    requires Merge(existing, deployment).Ok?
    requires all == if existing.Some? then existing.value + deployment else deployment
    ensures ValidEntry(all) && (existing.Some? ==> EntryContinues(existing.value, all))
  {
    assert forall f :: f in deployment ==> f in all && all[f] == deployment[f];
    assert Mined(all) <==> Mined(deployment);
    assert Broadcast(all) <==> Broadcast(deployment);
    if existing.Some? {
      assert all.Keys == existing.value.Keys + deployment.Keys;
    }
  }

  lemma WrittenValid(e: Entry)
    requires ValidEntry(e)
    ensures ValidEntry(Written(e)) && EntryContinues(e, Written(e))
  {
    assert Mined(e) <==> Mined(Written(e));
    assert Broadcast(e) <==> Broadcast(Written(e));
  }

  // ---- The record ----------------------------------------------------------------------------

  datatype Identity = Identity(
    manifestPath: string, deploymentCommit: string, network: string, chainId: int,
    deployer: string, configDigest: string, identityDigest: string)

  datatype Record = Record(
    identity: Identity, reservedAt: int, updatedAt: int, generation: int,
    contracts: map<string, Entry>, boards: map<int, map<string, Entry>>)

  predicate ValidBoard(board: map<string, Entry>) {
    board.Keys <= BOARD_KEYS && forall k :: k in board ==> ValidEntry(board[k])
  }

  /** The validation every read and every write of a reservation passes. */
  predicate ValidRecord(who: Identity, r: Record) {
    && r.identity == who
    && 0 <= r.generation <= MAX_SAFE_INTEGER
    && r.contracts.Keys <= CONTRACT_KEYS
    && (forall k :: k in r.contracts ==> ValidEntry(r.contracts[k]))
    && (forall p :: p in r.boards ==> p >= 1 && ValidBoard(r.boards[p]))
  }

  /** A recording: into the shared contracts, or into one board. */
  datatype Update =
    | Contract(key: string, deployment: Entry, at: int)
    | BoardContract(problemId: int, key: string, deployment: Entry, at: int)

  function Get<K, V>(m: map<K, V>, k: K): Option<V> {
    if k in m then Some(m[k]) else None
  }

  function BoardOf(r: Record, problemId: int): map<string, Entry> {
    if problemId in r.boards then r.boards[problemId] else map[]
  }

  function Updated(who: Identity, r: Record, update: Update): Result<Record> {
    match update
    case Contract(key, deployment, at) =>
      (match Merge(Get(r.contracts, key), deployment)
       case Err(e) => Err(e)
       case Ok(merged) =>
         Checked(who, r.(updatedAt := at, generation := r.generation + 1, contracts := r.contracts[key := merged])))
    case BoardContract(problemId, key, deployment, at) =>
      if problemId < 1 || key !in BOARD_KEYS then Err("board deployment is malformed")
      else (match Merge(Get(BoardOf(r, problemId), key), deployment)
            case Err(e) => Err(e)
            case Ok(merged) =>
              Checked(who, r.(updatedAt := at, generation := r.generation + 1,
                              boards := r.boards[problemId := BoardOf(r, problemId)[key := merged]])))
  }

  function Checked(who: Identity, r: Record): Result<Record> {
    if ValidRecord(who, r) then Ok(r) else Err("reservation record is invalid")
  }

  predicate BoardContinues(earlier: map<string, Entry>, later: map<string, Entry>) {
    && earlier.Keys <= later.Keys
    && forall k :: k in earlier && k in later ==> EntryContinues(earlier[k], later[k])
  }

  /** `later` is a further state of `earlier`: nothing recorded is lost, moved or regressed. */
  predicate Continues(earlier: Record, later: Record) {
    && later.identity == earlier.identity && later.reservedAt == earlier.reservedAt
    && earlier.generation <= later.generation
    && earlier.contracts.Keys <= later.contracts.Keys
    && (forall k :: k in earlier.contracts && k in later.contracts ==>
          EntryContinues(earlier.contracts[k], later.contracts[k]))
    && earlier.boards.Keys <= later.boards.Keys
    && (forall p :: p in earlier.boards && p in later.boards ==> BoardContinues(earlier.boards[p], later.boards[p]))
  }

  lemma ContinuesSelf(r: Record)
    ensures Continues(r, r)
  {
  }

  lemma ContinuesTransitive(a: Record, b: Record, c: Record)
    requires Continues(a, b) && Continues(b, c)
    ensures Continues(a, c)
  {
    forall k | k in a.contracts ensures EntryContinues(a.contracts[k], c.contracts[k]) {
      assert EntryContinues(a.contracts[k], b.contracts[k]) && EntryContinues(b.contracts[k], c.contracts[k]);
    }
    forall p | p in a.boards ensures BoardContinues(a.boards[p], c.boards[p]) {
      assert BoardContinues(a.boards[p], b.boards[p]) && BoardContinues(b.boards[p], c.boards[p]);
      forall k | k in a.boards[p] ensures EntryContinues(a.boards[p][k], c.boards[p][k]) {
        assert EntryContinues(a.boards[p][k], b.boards[p][k]) && EntryContinues(b.boards[p][k], c.boards[p][k]);
      }
    }
  }

  /** The entry an update is about, and every other entry untouched. */
  predicate OnlyTouches(update: Update, before: Record, after: Record) {
    match update
    case Contract(key, _, _) =>
      && after.boards == before.boards && after.contracts.Keys == before.contracts.Keys + {key}
      && forall k :: k in before.contracts && k != key ==> after.contracts[k] == before.contracts[k]
    case BoardContract(problemId, key, _, _) =>
      && after.contracts == before.contracts && after.boards.Keys == before.boards.Keys + {problemId}
      && (forall p :: p in before.boards && p != problemId ==> after.boards[p] == before.boards[p])
      && BoardOf(after, problemId).Keys == BoardOf(before, problemId).Keys + {key}
      && forall k :: k in BoardOf(before, problemId) && k != key ==>
           BoardOf(after, problemId)[k] == BoardOf(before, problemId)[k]
  }

  /** The entry an update is about is there, with the deployment over what was there before. */
  ghost predicate Writes(update: Update, before: Record, after: Record) {
    match update
    case Contract(key, deployment, _) =>
      key in after.contracts && Overlaid(Get(before.contracts, key), deployment, after.contracts[key])
    case BoardContract(problemId, key, deployment, _) =>
      && problemId in after.boards && key in after.boards[problemId]
      && Overlaid(Get(BoardOf(before, problemId), key), deployment, after.boards[problemId][key])
  }

  /** What every successful recording does to a valid record. */
  ghost predicate Recorded(who: Identity, before: Record, update: Update, after: Record) {
    && ValidRecord(who, after) && after.generation == before.generation + 1 && after.updatedAt == update.at
    && Continues(before, after) && OnlyTouches(update, before, after) && Writes(update, before, after)
  }

  lemma ContractReplaced(r: Record, at: int, key: string, merged: Entry)
    requires key in r.contracts ==> EntryContinues(r.contracts[key], merged)
    ensures Continues(r, r.(updatedAt := at, generation := r.generation + 1, contracts := r.contracts[key := merged]))
  {
    forall p | p in r.boards ensures BoardContinues(r.boards[p], r.boards[p]) { BoardContinuesSelf(r.boards[p]); }
  }

  lemma ContractRecorded(who: Identity, r: Record, update: Update, merged: Entry, after: Record)
    requires ValidRecord(who, r) && update.Contract? && ValidRecord(who, after)
    requires update.key in r.contracts ==> EntryContinues(r.contracts[update.key], merged)
    requires Overlaid(Get(r.contracts, update.key), update.deployment, merged)
    requires after == r.(updatedAt := update.at, generation := r.generation + 1,
                         contracts := r.contracts[update.key := merged])
    ensures Recorded(who, r, update, after)
  {
    ContractReplaced(r, update.at, update.key, merged);
  }

  lemma BoardContinuesSelf(board: map<string, Entry>)
    ensures BoardContinues(board, board)
  {
  }

  lemma BoardMerged(board: map<string, Entry>, key: string, merged: Entry)
    requires key in board ==> EntryContinues(board[key], merged)
    ensures BoardContinues(board, board[key := merged])
  {
  }

  lemma BoardReplaced(r: Record, at: int, problemId: int, board: map<string, Entry>)
    requires BoardContinues(BoardOf(r, problemId), board)
    ensures Continues(r, r.(updatedAt := at, generation := r.generation + 1, boards := r.boards[problemId := board]))
  {
    var after := r.(updatedAt := at, generation := r.generation + 1, boards := r.boards[problemId := board]);
    forall p | p in r.boards ensures BoardContinues(r.boards[p], after.boards[p]) {
      if p != problemId { BoardContinuesSelf(r.boards[p]); }
    }
  }

  lemma BoardTouched(r: Record, update: Update, merged: Entry, after: Record)
    requires update.BoardContract? && Overlaid(Get(BoardOf(r, update.problemId), update.key), update.deployment, merged)
    requires after.contracts == r.contracts
    requires after.boards == r.boards[update.problemId := BoardOf(r, update.problemId)[update.key := merged]]
    ensures OnlyTouches(update, r, after) && Writes(update, r, after)
  {
    assert BoardOf(after, update.problemId) == BoardOf(r, update.problemId)[update.key := merged];
  }

  lemma BoardRecorded(who: Identity, r: Record, update: Update, merged: Entry, after: Record)
    requires ValidRecord(who, r) && update.BoardContract? && ValidRecord(who, after)
    requires update.key in BoardOf(r, update.problemId) ==>
               EntryContinues(BoardOf(r, update.problemId)[update.key], merged)
    requires Overlaid(Get(BoardOf(r, update.problemId), update.key), update.deployment, merged)
    requires after == r.(updatedAt := update.at, generation := r.generation + 1,
               boards := r.boards[update.problemId := BoardOf(r, update.problemId)[update.key := merged]])
    ensures Recorded(who, r, update, after)
  {
    BoardMerged(BoardOf(r, update.problemId), update.key, merged);
    BoardReplaced(r, update.at, update.problemId, BoardOf(r, update.problemId)[update.key := merged]);
    BoardTouched(r, update, merged, after);
  }

  /**
   A successful recording raises the generation by one, stamps its time, and lays the deployment over
   one entry, which it continues; every other entry is as before.
   */
  lemma UpdateKeeps(who: Identity, r: Record, update: Update)
    requires ValidRecord(who, r) && Updated(who, r, update).Ok?
    ensures Recorded(who, r, update, Updated(who, r, update).value)
  {
    match update
    case Contract(key, deployment, _) =>
      MergeKeeps(Get(r.contracts, key), deployment);
      ContractRecorded(who, r, update, Merge(Get(r.contracts, key), deployment).value, Updated(who, r, update).value);
    case BoardContract(problemId, key, deployment, _) =>
      assert ValidBoard(BoardOf(r, problemId));
      MergeKeeps(Get(BoardOf(r, problemId), key), deployment);
      BoardRecorded(who, r, update, Merge(Get(BoardOf(r, problemId), key), deployment).value,
                    Updated(who, r, update).value);
  }

  /** Recording under a contract key outside the seven is refused, whatever the entry. */
  lemma UnknownKeyRefused(who: Identity, r: Record, update: Update)
    requires update.Contract? && update.key !in CONTRACT_KEYS
    ensures Updated(who, r, update).Err?
  {
    var merged := Merge(Get(r.contracts, update.key), update.deployment);
    if merged.Ok? {
      assert update.key in r.contracts[update.key := merged.value];
    }
  }

  /** The entry an update is about, as far as it is recorded. */
  function EntryOf(update: Update, r: Record): Option<Entry> {
    match update
    case Contract(key, _, _) => Get(r.contracts, key)
    case BoardContract(problemId, key, _, _) => Get(BoardOf(r, problemId), key)
  }

  /**
   A recording succeeds exactly when its entry can be merged into what is recorded, its key is one
   of the known ones, a board's number is positive, and the generation does not run over.
   */
  lemma UpdatedExactly(who: Identity, r: Record, update: Update)
    requires ValidRecord(who, r)
    ensures Updated(who, r, update).Ok? <==>
              && Mergeable(EntryOf(update, r), update.deployment)
              && r.generation < 9_007_199_254_740_991
              && (update.Contract? ==>
                    update.key in {"timelock", "rolloverVault", "pool", "ledger", "submissions", "challenges", "registry"})
              && (update.BoardContract? ==>
                    update.problemId >= 1 && update.key in {"pool", "ledger", "submissions", "challenges"})
  {
    assert update.BoardContract? ==> ValidBoard(BoardOf(r, update.problemId));
    MergeExactly(EntryOf(update, r), update.deployment);
    if Merge(EntryOf(update, r), update.deployment).Ok? {
      MergeKeeps(EntryOf(update, r), update.deployment);
      var merged := Merge(EntryOf(update, r), update.deployment).value;
      if update.Contract? { ContractExactly(who, r, update, merged); } else { BoardExactly(who, r, update, merged); }
    }
  }

  lemma ContractExactly(who: Identity, r: Record, update: Update, merged: Entry)
    requires ValidRecord(who, r) && ValidEntry(merged) && update.Contract?
    requires Merge(EntryOf(update, r), update.deployment) == Ok(merged)
    ensures Updated(who, r, update).Ok? <==> r.generation < MAX_SAFE_INTEGER && update.key in CONTRACT_KEYS
  {
    assert update.key in r.contracts[update.key := merged];
  }

  lemma BoardExactly(who: Identity, r: Record, update: Update, merged: Entry)
    requires ValidRecord(who, r) && ValidEntry(merged) && update.BoardContract?
    requires Merge(EntryOf(update, r), update.deployment) == Ok(merged)
    ensures Updated(who, r, update).Ok? <==>
              r.generation < MAX_SAFE_INTEGER && update.problemId >= 1 && update.key in BOARD_KEYS
  {
    assert ValidBoard(BoardOf(r, update.problemId));
    assert update.key in BOARD_KEYS ==> ValidBoard(BoardOf(r, update.problemId)[update.key := merged]);
  }

  // ---- The archive -----------------------------------------------------------------------------

  datatype RecordDigest = Sha256(record: Record)

  datatype ManifestDigest = ManifestSha256(text: string)

  /** The manifest file: its bytes, and what completion checks in it. */
  datatype Manifest = Manifest(text: string, identity: Identity, pendingSetup: bool)

  datatype Archive = Archive(
    record: Record, publishedAt: int, manifestDigest: ManifestDigest, recordDigest: RecordDigest)

  function ArchiveOf(r: Record, digest: ManifestDigest, at: int): Archive {
    Archive(r, at, digest, Sha256(r))
  }

  predicate ValidArchive(who: Identity, a: Archive, digest: ManifestDigest, current: Option<Record>) {
    && a.manifestDigest == digest
    && ValidRecord(who, a.record)
    && (current.Some? ==> a.recordDigest == Sha256(current.value))
  }

  predicate Completable(who: Identity, m: Manifest) {
    m.pendingSetup && m.identity == who
  }
}
