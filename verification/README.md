# Verified model of the deployment and release protocols

This project models the stateful protocols and the order, arithmetic and canonical-form cores of a
prize platform's release, deployment and verification tooling, and proves properties of them with
Dafny 4.11. `dafny verify dfyconfig.toml` checks everything.

How the models are shaped:

- A protocol that several processes take part in is a step machine: a `System` value, a `Step`
  function with one action per source step, and lemmas over every run, that is every interleaving
  and every crash point. This is done for image publication, for the deployment reservation and
  for the verifier executor.
- The methods that change one file, index or directory in a loop are methods and classes with the
  same loops, proved against a specification.
- SHA-256 is a free datatype constructor, so equal digests mean equal inputs. Clocks, networks,
  container runtimes, user databases and chain state are arbitrary inputs.

The modules, by source file:

| modules | models |
|---|---|
| `PublishJournal`, `PublicationRuns` | the publication journal, its compare-and-swap updates and the board loop that launches builds |
| `Reservation`, `ReservationRuns`, `ReservationPaths` | the deployment record, the token lock, reserving, recording and completing; what every run keeps, and which runs there are |
| `CanonicalJson`, `JsonReader`, `CanonicalReading` | the canonical printers, down to number layout and string escapes; a JSON reader of its own, and what the printed texts read as |
| `GovernanceJournal` | the governance operation plan and its observations |
| `PathNames`, `FileTrees`, `EntryText`, `EntryReading`, `ArchiveMembers`, `ArchiveFingerprints`, `DirectoryFingerprints`, `FingerprintAgreement` | tree fingerprints of an archive and of a directory |
| `OutputPublication` | publishing a report under a name that must not exist |
| `Executor`, `ExecutorPeers` | admission, queueing, deduplication, framing and peer authority |
| `Rehearsal` | the rehearsal report: its producer and its validator |
| `SemVer` | version precedence and advisory ranges |
| `OperationEvidence`, `SetupCompletion` | execution evidence and governance setup completion |
| `FinalityAnchor` | finality anchors and their rechecks |
| `ScoreAtoms`, `SubordinateRanges`, `Quorum` | seed scores, subordinate-ID ranges, governance quorums |
| `Basics`, `Ordering`, `Paths` | options and results; string order and sorting by key; paths of a step relation |

Results about the code that its readers may not expect:

- `_record_verified_board` on its own accepts a planned board; only the board loop keeps the
  generation equal to the sum of ranks (`PublishJournal.VerifyKeepsJournal` gives the exact condition).
- A recording that reads a reservation before its reserve has returned, and outlives its withdrawal
  (which follows any error of the second vacancy check), replaces what a later, successful reserve
  put there; a run that does so is given (`ReservationPaths.LostUpdateReachable`). From a success on
  no update is ever lost if and only if the recordings under way at that point fit the kept record
  (`ReservationRuns.NeverLostExactly`), and that is so when no recording is under way before a
  reserve has returned (`ReservationRuns.PatientUpToDate`).
- A completion that dies between completing its archive and removing the reservation can be
  overtaken by a recording, which moves the reservation past the archived record; a run that ends
  there is given (`ReservationPaths.BlockedReachable`). If then the lock is free and no reserve is
  under way, no completion ever takes the archive over again (`ReservationPaths.BlockedForGood`).
  With a reserve still under way that is about to withdraw its file, completion can succeed after
  all (`ReservationPaths.WithdrawalUnblocks`). One repeated completion succeeds exactly when the
  archive is for its manifest and identity and the reservation is gone or still is the archived
  record (`ReservationPaths.RepeatedCompletion`).
- Every auxiliary thread that cannot be started costs one of the 64 semaphore slots for good, and all
  64 can be lost, after which no control request gets a thread (`Executor.CapacityLost`,
  `Executor.FailuresReachable`, `Executor.ExhaustedForGood`).
- The two fingerprints differ when a parent directory has no member of its own, or when a member
  name normalises to the root itself (`FingerprintAgreement.FingerprintsAgree`, with one archive for
  each case in `UnlistedParentDiffers` and `RootMemberDiffers`).
- A rehearsal whose inspected `RepoDigests` arrive as a JSON object with the reference as a key
  produces a report that its own validator refuses (`Rehearsal.ProducerAccepted`, with an instance in
  `Rehearsal.MisreadOccurs`).
- Setup completion of a multi-board manifest requires a check named
  `objective.board/<id>.programId`; the collector emits `programVKey` instead, so a snapshot made
  only of collected checks never completes (`SetupCompletion.CollectedNeverCompletes`).
- The reservation accepts only seven contract keys, and its entries have no field for factory
  creation data (`Reservation.UnknownKeyRefused`); the deployer records more. Merging a mined entry into a
  mined entry may overwrite its evidence fields, and a field passed as `undefined` erases the old one;
  name, address, transaction hash and being mined are what stays (`Reservation.MergeKeeps`).
- The bigint-aware printer gives a bigint and its decimal string the same text, and both printers
  print negative zero as zero (`CanonicalJson.BigIntCollision`, `CanonicalJson.ZeroCollision`).
- The governance journal takes the name of any property that plain objects inherit for a state. Two
  such observations take an executed operation back to planned
  (`GovernanceJournal.InheritedStateErases`); the journal's promises hold for runs of calls that name
  one of the three states or nothing in the table (`GovernanceJournal.PromisesExactly`).
- A report publication whose descriptor cannot be closed ends in an error that carries no publication
  state, whatever was published (`OutputPublication.UnclassifiedPublication`).

## Model

| member | source | states |
|---|---|---|
| PublishJournal.JournalFile.Reserve | scripts/release_verifier_images.py:1212-1221 | creates the journal only when there is none, resumes one with the same immutable plan unchanged, refuses any other |
| PublishJournal.JournalFile.RecordBuildStarted | scripts/release_verifier_images.py:1243-1255 | replaces the journal exactly when it is valid, has the expected hash and the board is planned, with that board building and the generation raised by one; otherwise nothing changes |
| PublishJournal.JournalFile.RecordVerifiedBoard | scripts/release_verifier_images.py:1224-1240 | replaces the journal exactly when it is valid, has the expected hash and the board is there and not yet verified, with that board verified under the given evidence and the generation raised by one; a verified board with the same evidence is answered without a change; anything else is refused without a change |
| PublishJournal.ReserveExactly | scripts/release_verifier_images.py:1212-1221 | reserving writes the plan when there is no journal, answers a valid journal of the same plan, and refuses every other |
| PublishJournal.StartExactly | scripts/release_verifier_images.py:1243-1255 | a build start replaces the journal exactly for a planned board of the known journal; only that board's state and the generation change |
| PublishJournal.VerifyExactly | scripts/release_verifier_images.py:1224-1240 | recording a verified board replaces exactly for a board of the known journal not yet verified, answers exactly for a verified one with the same evidence, and refuses otherwise |
| PublishJournal.BuiltIsFresh | scripts/release_verifier_images.py:1149-1170 | the journal built for the boards of the roster is valid, with every board planned and generation 0 |
| PublishJournal.StartKeepsJournal | scripts/release_verifier_images.py:1243-1255 | an accepted start keeps validity, the immutable plan and generation = sum of ranks |
| PublishJournal.VerifyKeepsJournal | scripts/release_verifier_images.py:1224-1240 | an accepted verification keeps validity and the plan; it keeps generation = sum of ranks if and only if the board was building |
| PublicationRuns.AtMostOneLaunch | scripts/release_verifier_images.py:1413-1455 | in every run with any number of publishers, crashes and restarts, a board's push is launched at most once |
| PublicationRuns.NeverBuiltAgain | scripts/release_verifier_images.py:1413-1455 | a board left building with no publisher at work on it is never pushed again |
| PublicationRuns.GenerationIsRankSum | scripts/release_verifier_images.py:1173-1255 | in every reachable state the stored journal is valid and its generation is the sum of the board ranks |
| PublicationRuns.JournalMovesForward | scripts/release_verifier_images.py:1135-1255 | between any two points of a run: same immutable view, no rank falls, verified boards are frozen with their evidence |
| PublicationRuns.EqualHashMeansUnchanged | scripts/release_verifier_images.py:1129-1132 | no ABA: equal hashes at two points mean the same journal there and at every point between |
| PublicationRuns.ReturnedJournalIsFinal | scripts/release_verifier_images.py:1456-1464 | a publisher that returns has every board verified and the boards never change afterwards |
| PublicationRuns.LaunchReachable | scripts/release_verifier_images.py:1413-1436 | the model is not vacuous: for every fresh plan with a board some run launches that board's push |
| PublicationRuns.PublicationReachable | scripts/release_verifier_images.py:1413-1464 | for every fresh plan and every build evidence some run pushes each board once in order, ends with every board verified under that evidence and generation 2n, and returns the stored journal |
| CanonicalJson.CanonicalIsPrint | contracts/scripts/governance-operation-journal.js:16-24 | printing with sorted keys is printing the key-sorted value as it stands; what both texts read as is `CanonicalReading.CanonicalReads` |
| CanonicalJson.SameMeansNormal | contracts/scripts/governance-operation-journal.js:16-24 | two values agree as trees with map-like objects exactly when their key-sorted forms are equal |
| CanonicalJson.LayoutInjective | contracts/scripts/governance-operation-journal.js:17-19 | the ECMAScript layout of digits and exponent determines both |
| CanonicalJson.NumberInjective | contracts/scripts/governance-operation-journal.js:17-19 | two numbers have the same text exactly when they are equal but for the sign of zero |
| CanonicalJson.EscapeUnique | contracts/scripts/governance-operation-journal.js:17-24 | an escaped string ends at the first bare quote and determines the string, lone surrogates included |
| CanonicalJson.ReadUnique | contracts/scripts/governance-operation-journal.js:16-24 | no text begins with two different printed values |
| CanonicalJson.CanonicalDecidesSameness | contracts/scripts/governance-operation-journal.js:16-24 | without bigints and negative zeros, canonical texts are equal exactly when the values are equal as trees, whatever the key order |
| CanonicalJson.CanonicalDecidesStringified | contracts/scripts/deployment-ceremony-helper.js:825-830 | on all values, exactly up to reading a bigint as its decimal string and dropping the sign of zero |
| CanonicalJson.BigIntCollision | contracts/scripts/deployment-ceremony-helper.js:825-830 | a bigint and its decimal string are different values with one text |
| CanonicalJson.ZeroCollision | contracts/scripts/governance-operation-journal.js:16-24 | negative zero and zero are different values with one text, alone and inside arrays |
| CanonicalReading.CanonicalReads | contracts/scripts/deployment-ceremony-helper.js:825-830 | the canonical text of every value is one JSON text of RFC 8259 without white space, and an independent reader gets the value back: same items in order, each field once with keys strictly increasing by code units, numbers with the same sign, digits and point but for the sign of zero, strings unit by unit, bigints as decimal strings |
| CanonicalReading.NumberRead | contracts/scripts/governance-operation-journal.js:17 | every printed number reads as its parts, whatever follows it that cannot continue a number |
| CanonicalReading.LaidValue | contracts/scripts/governance-operation-journal.js:17 | whichever of the four layouts is used, the text denotes 0.d1..dk times ten to the exponent with its sign |
| CanonicalReading.LayoutForm | contracts/scripts/governance-operation-journal.js:17 | a lower-case e and a signed exponent exactly for exponents above 21 or at most -6, with one digit before the point; otherwise a point exactly when digits follow it |
| CanonicalReading.UnitsRead | contracts/scripts/governance-operation-journal.js:17-19 | every escaped string reads as the string, unit by unit, up to its closing quote |
| CanonicalReading.EscapeForm | contracts/scripts/governance-operation-journal.js:17-19 | quote, backslash, controls and lone surrogate halves are escaped and nothing else, seven of them in two units, the rest as lower-case \u escapes |
| Ordering.LessExactly | contracts/scripts/governance-operation-journal.js:19 | the key order: a proper prefix comes first, otherwise the smaller code unit at the first difference decides |
| GovernanceJournal.AssertOperations | contracts/scripts/governance-operation-journal.js:120-154 | the one-pass loop accepts exactly the lists whose ids are new, whose dependencies all come earlier and whose states are in the table, inherited names included, with evidence consistent for the three states |
| GovernanceJournal.DependenciesAcyclic | contracts/scripts/governance-operation-journal.js:120-154 | along every dependency path of an accepted plan the positions fall, so there is no cycle |
| GovernanceJournal.ReplacedValid | contracts/scripts/governance-operation-journal.js:156-179 | after one operation's evidence changes, the whole journal is valid exactly when that evidence and the counter are |
| GovernanceJournal.JournalFile.RecordObservation | contracts/scripts/governance-operation-journal.js:254-277 | for any state value, the file stays untouched with an error, or the operation at the index is given the observed fields, everything else stays, and the generation grows by one unless nothing changed; the file stays valid |
| GovernanceJournal.ObservedStores | contracts/scripts/governance-operation-journal.js:262-276 | after a success, whatever state it names: state, observed id (the operation's own by default), schedule hash (the stored one by default once executed), execution hash, block number and block hash are the evidence's, all absent for planned; every other operation, the header and the digest are unchanged |
| GovernanceJournal.ObservedExactly | contracts/scripts/governance-operation-journal.js:257-275 | an observation of one of the three states succeeds exactly for this plan and operation, when it repeats what is stored or names a later state with complete evidence and the counter has room |
| GovernanceJournal.ObserveContinues | contracts/scripts/governance-operation-journal.js:254-277 | a success of a call naming one of the three states changes nothing or raises the generation by one; plan fixed, no rank falls, executed evidence fixed |
| GovernanceJournal.PromisesExactly | contracts/scripts/governance-operation-journal.js:261-275 | a successful observation keeps these promises if and only if it names one of the three states or changes nothing |
| GovernanceJournal.InheritedStateErases | contracts/scripts/governance-operation-journal.js:261-275 | two accepted observations, the first with an inherited property's name as state, take any executed operation back to planned |
| GovernanceJournal.RunContinues | contracts/scripts/governance-operation-journal.js:254-277 | the same for any sequence of calls that name one of the three states or nothing in the table, failed ones included |
| GovernanceJournal.RunAccounting | contracts/scripts/governance-operation-journal.js:254-277 | from a fresh journal and such calls: started operations <= generation <= sum of ranks <= 2n, digest and immutable view constant |
| GovernanceJournal.ExecutedIsFinal | contracts/scripts/governance-operation-journal.js:254-277 | under such calls evidence of an executed operation never changes |
| GovernanceJournal.ReplayIsNoOp | contracts/scripts/governance-operation-journal.js:254-277 | recording accepted evidence again succeeds and changes nothing, whatever its state |
| GovernanceJournal.ObservationsCommute | contracts/scripts/governance-operation-journal.js:254-277 | such observations of distinct operations succeed in either order with the same journal |
| GovernanceJournal.ReserveResumes | contracts/scripts/governance-operation-journal.js:236-252 | after any run of such calls, reserving again succeeds exactly for the same plan and returns the journal with all its evidence |
| GovernanceJournal.ReserveCreates | contracts/scripts/governance-operation-journal.js:236-252 | without a journal, reserving succeeds exactly for a valid one and stores just that |
| Reservation.MergeKeeps | contracts/scripts/deployment-ceremony-helper.js:1308-1318 | a merge is valid and continues the old entry; each field is the new one's value, gone where the new entry has it undefined, and the old value where the new entry lacks it |
| Reservation.MergeExactly | contracts/scripts/deployment-ceremony-helper.js:1308-1318 | a merge succeeds exactly for a valid entry with the same name, address and transaction hash that does not fall back from mined |
| Reservation.UpdateKeeps | contracts/scripts/deployment-ceremony-helper.js:1320-1372 | a recording, shared or of a board, raises the generation by one, stamps its time, lays the deployment over one entry field by field (new value, gone where undefined, old value where absent), leaves every other entry, continues the record and keeps it valid |
| Reservation.UpdatedExactly | contracts/scripts/deployment-ceremony-helper.js:1320-1372 | a recording succeeds exactly when its entry can be merged, its key is one of the seven or, on a positive board number, of the four, and the generation has room |
| Reservation.UnknownKeyRefused | contracts/scripts/deployment-ceremony-helper.js:1129-1145 | a contract key outside the seven is refused whatever the entry |
| ReservationRuns.MutualExclusion | contracts/scripts/deployment-ceremony-helper.js:1236-1306 | in every run, no two processes are inside the lock |
| ReservationRuns.LockRemoval | contracts/scripts/deployment-ceremony-helper.js:1288-1305 | the lock disappears only through its owner's release or the recovery of a token no process carries |
| ReservationRuns.OneReservation | contracts/scripts/deployment-ceremony-helper.js:1205-1234 | at most one reserve call ever succeeds |
| ReservationRuns.NeverNothing | contracts/scripts/deployment-ceremony-helper.js:1205-1494 | after a success, every crash point leaves an intact valid reservation or a complete archive bound to its record's digest |
| ReservationRuns.RemovedOnceArchived | contracts/scripts/deployment-ceremony-helper.js:1441-1494 | after a success the reservation goes only once the archive of its record is complete |
| ReservationRuns.StepKeeps | contracts/scripts/deployment-ceremony-helper.js:1320-1494 | after a success only a recording that replaces the reservation before there is a complete archive changes the surviving record; it is one valid update of that record exactly when that is the record it had read |
| ReservationRuns.NoLostUpdate | contracts/scripts/deployment-ceremony-helper.js:1320-1372 | from a success at which the recordings under way fit, between any two points the surviving record is continued and its generation grows by the number of recording steps taken before the archive was complete; what each of them recorded is in it (`ReservationRuns.RecordedStays`) |
| ReservationRuns.RecordedStays | contracts/scripts/deployment-ceremony-helper.js:1320-1372 | a recording that takes effect lays its deployment over what it had read, and every later surviving record has that entry, with the deployment's name, address and transaction hash, mined if the deployment was |
| ReservationRuns.NeverLostExactly | contracts/scripts/deployment-ceremony-helper.js:1205-1372 | from a point after a success this holds for every continuation of the run if and only if the recordings under way there fit the surviving record |
| ReservationRuns.UpToDateStays | contracts/scripts/deployment-ceremony-helper.js:1320-1372 | if the recordings under way at a point after a success had read the surviving record, so has every later one |
| ReservationRuns.PatientUpToDate | contracts/scripts/deployment-ceremony-helper.js:1205-1372 | when no recording is under way before a reserve has returned, every recording has read the surviving record, so nothing is ever lost |
| ReservationRuns.ArchiveFinal | contracts/scripts/deployment-ceremony-helper.js:1441-1494 | a complete archive is never written again |
| ReservationRuns.CompletionsAgree | contracts/scripts/deployment-ceremony-helper.js:1441-1494 | all completions that return, by any process at any time, return the one archive on disk; a torn one is never returned |
| ReservationPaths.CompletionReachable | contracts/scripts/deployment-ceremony-helper.js:1205-1494 | the model is not vacuous: some run reserves, completes, returns the archive and leaves no reservation and no lock |
| ReservationPaths.RecordingReachable | contracts/scripts/deployment-ceremony-helper.js:1205-1494 | for every valid entry under a known key some run reserves, records and completes, and the archive holds the reserved record with just that entry in it, its publication time, manifest digest and record digest |
| ReservationPaths.LostUpdateReachable | contracts/scripts/deployment-ceremony-helper.js:1223-1232 | some run without manifest or archive withdraws a reservation after an error, lets another reserve succeed, and then replaces that reserve's record by an update of the withdrawn one |
| ReservationPaths.RepeatedCompletion | contracts/scripts/deployment-ceremony-helper.js:1441-1473 | from any reachable point with a complete archive, a free lock and a completable manifest, a completion run from lock to release returns exactly that archive if it is for this manifest and identity and the reservation is gone or its record, and otherwise returns nothing and changes no file |
| ReservationPaths.BlockedReachable | contracts/scripts/deployment-ceremony-helper.js:1454-1473 | some run has one successful reserve, a complete archive, a free lock, no reserve under way and a reservation that a recording moved past the archived record |
| ReservationPaths.BlockedForGood | contracts/scripts/deployment-ceremony-helper.js:1388-1399 | from a complete archive, a free lock, no reserve under way and a reservation out of step with it, at every later point archive and mismatch remain and no process has taken the archive over |
| ReservationPaths.WithdrawalUnblocks | contracts/scripts/deployment-ceremony-helper.js:1223-1232 | some run is at one point in the same mismatch with a reserve about to withdraw, and ends with the archive returned |
| PathNames.ValidateRelativeLink | scripts/verify-sp1-objective-artifact.py:186-199 | accepts exactly the relative targets no prefix of which climbs above the root |
| PathNames.ParentExactly | scripts/verify-sp1-objective-artifact.py:190 | the directory of a path is the path without its last component |
| PathNames.NetExactly | scripts/verify-sp1-objective-artifact.py:191-199 | a component climbs down by one, `..` up by one |
| PathNames.NormalizeMeans | scripts/verify-sp1-objective-artifact.py:202-207 | an accepted name keeps its components and has none that climbs; two accepted names agree exactly when their components do |
| PathNames.NormalizeAgain | scripts/verify-sp1-objective-artifact.py:202-207 | normalising is idempotent except on names of the root itself |
| PathNames.NormalizeExactly | scripts/verify-sp1-objective-artifact.py:202-207 | after one leading `./`, exactly the empty name, `.`, names with a leading slash and names with a component `..` are refused; the result is `.` or the components with single slashes between |
| PathNames.PartsExactly | scripts/verify-sp1-objective-artifact.py:187-207 | the two laws that settle the components of every path: a word is one unless empty or `.`, and a slash separates |
| ArchiveMembers.OrderIrrelevant | scripts/verify-sp1-objective-artifact.py:257-292 | reordering the members changes neither readability nor meaning |
| ArchiveMembers.NameExactly | scripts/verify-sp1-objective-artifact.py:257-263 | exactly four spellings of the root are passed over; other names keep their components, and none with `..` is accepted |
| ArchiveMembers.FollowChain | scripts/verify-sp1-objective-artifact.py:295-301 | the chain loop ends, finds the first name that is no link, and fails exactly on a cycle |
| ArchiveFingerprints.ReadMembers | scripts/verify-sp1-objective-artifact.py:257-292 | succeeds exactly on readable member lists, with the files, links and plain entries they define |
| ArchiveFingerprints.GroupNames | scripts/verify-sp1-objective-artifact.py:294-304 | the groups partition all file and hard link names; fails exactly on a cycle or a dangling link |
| ArchiveFingerprints.ArchiveFingerprint | scripts/verify-sp1-objective-artifact.py:246-317 | succeeds exactly on acceptable archives, with the fingerprint of the tree they stand for |
| DirectoryFingerprints.DirectoryFingerprint | scripts/verify-sp1-objective-artifact.py:210-243 | succeeds exactly on directories without special files, escaping links or outside names, with the fingerprint of what is in them |
| FileTrees.FingerprintDecides | scripts/verify-sp1-objective-artifact.py:172-183 | fingerprints are equal exactly when the trees are, up to inode naming and the mode bits other than the six read and execute bits |
| FileTrees.FingerprintCounts | scripts/verify-sp1-objective-artifact.py:172-183 | the entries are digested in strictly increasing name order; the counts are those of directories, file names, symbolic links and file names beyond the first, and the bytes of every file count once |
| FileTrees.InstalledMode | scripts/verify-sp1-objective-artifact.py:166-169 | clearing bits outside read and execute leaves the input mode alone |
| FileTrees.InputModeBits | scripts/verify-sp1-objective-artifact.py:166-169 | the input mode has each of the six read and execute bits that the mode has, and no other bit |
| FileTrees.SameAccessExactly | scripts/verify-sp1-objective-artifact.py:166-169 | two modes have the same input mode exactly when they agree on those six bits |
| EntryText.EntriesTextInjective | scripts/verify-sp1-objective-artifact.py:172-177 | the compact ASCII JSON of the entries determines them, for names as Python decodes file names |
| EntryText.SurrogatePairCollides | scripts/verify-sp1-objective-artifact.py:172-177 | for other names it does not: a surrogate pair prints like the character it encodes |
| EntryReading.EntriesTextReads | scripts/verify-sp1-objective-artifact.py:172-177 | the text under the tree digest is one JSON text without white space that an independent reader reads as one list per entry, in order: kind, name and details as the two fingerprints build them |
| EntryReading.AsciiForm | scripts/verify-sp1-objective-artifact.py:174 | every unit is printed in printable ASCII, bare exactly when it is that and neither quote nor backslash |
| FingerprintAgreement.FingerprintsAgree | scripts/verify-sp1-objective-artifact.py:210-317 | an extraction of an acceptable archive is accepted, and the two fingerprints are equal exactly when every parent directory has a member and none names the root |
| FingerprintAgreement.ArchivesAgree | scripts/verify-sp1-objective-artifact.py:246-317 | two archives have equal fingerprints exactly when they stand for the same tree, whichever name carries a file's bytes |
| FingerprintAgreement.ExtractionExactly | scripts/verify-sp1-objective-artifact.py:246-317 | an acceptable archive has an extraction exactly when only directory members are where directories are needed, the root included |
| FingerprintAgreement.UnlistedParentDiffers | scripts/verify-sp1-objective-artifact.py:210-317 | an acceptable archive without a member for a parent directory, with an extraction whose fingerprint differs |
| FingerprintAgreement.RootMemberDiffers | scripts/verify-sp1-objective-artifact.py:258-263 | the same for an archive with a member that normalises to the root |
| OutputPublication.Directory.WriteCanonicalAt | scripts/reinspect_verifier_image_registry.py:845-953 | never replaces or removes a final name; before the descriptor is closed, success means exactly the payload on a one-link inode, refusals and the retryable failure mean no final link, the directory is found changed exactly when the first check fails, with nobody else at work a refusal to overwrite means that a name was taken, and a failure is terminal exactly when the link had been asked for; the caller gets that outcome, or an unclassified error exactly when closing fails; undisturbed, it publishes, or refuses a taken name leaving all as it was |
| OutputPublication.Directory.Publish | scripts/reinspect_verifier_image_registry.py:903-932 | link, checks and removal of the temporary, with the same guarantees for this stage |
| OutputPublication.UnclassifiedPublication | scripts/reinspect_verifier_image_registry.py:949-953 | a publication that is complete and yet ends in an error without a publication state, because only the close failed |
| Executor.ActiveMeansInFlight | agent/verifier-executor.py:328-332 | in every run a key is active exactly when a job queued, executing or being admitted carries it |
| Executor.InFlightDistinct | agent/verifier-executor.py:484-594 | the keys in flight are pairwise distinct and the queue holds at most 1024 jobs |
| Executor.KeyExactly | agent/verifier-executor.py:328-332 | an operator's job is keyed by its board and request id, a rerun by its board and request hash; without that field there is no key |
| Executor.AdmissionExactly | agent/verifier-executor.py:573-587 | in every run a request is admitted exactly when no job in flight has its key, and answered as a duplicate exactly otherwise |
| Executor.FirstInFirstOut | agent/verifier-executor.py:484-587 | the jobs queued so far are those begun so far, in the same order, and then those still in the queue |
| Executor.JobServed | agent/verifier-executor.py:484-587 | for every job with a key some run executes it, closes its connection and leaves nothing behind |
| Executor.ControlServed | agent/verifier-executor.py:520-592 | some run answers a control request on a thread of its own and gives the slot back |
| Executor.QueueFills | agent/verifier-executor.py:582-587 | some run queues 1024 jobs, turns the next one away, drops its key and closes its connection |
| Executor.ConnectionsConserved | agent/verifier-executor.py:484-594 | every accepted connection has exactly one owner or has been closed exactly once |
| Executor.QuietMeansClean | agent/verifier-executor.py:484-594 | when nothing is in progress all connections are closed and no key is left |
| Executor.SlotsConserved | agent/verifier-executor.py:520-594 | at every point auxiliary threads, the slot being handed over and the free slots number 64 less the slots lost to failed thread starts |
| Executor.CapacityLost | agent/verifier-executor.py:555-594 | between any two points the slots in use or free shrink by exactly the failed thread starts; after one, 64 threads are never in service again |
| Executor.FailuresReachable | agent/verifier-executor.py:587-594 | for every n up to 64 some run has lost exactly n slots |
| Executor.ExhaustedForGood | agent/verifier-executor.py:587-590 | once all slots are lost there is no auxiliary thread and no request gets a slot |
| ExecutorPeers.ReadRequestFrame | agent/verifier-executor.py:62-80 | an accepted frame is the stream up to its first newline, within the limit, however it was cut; a stream that is one such frame is accepted when delivered in time |
| ExecutorPeers.BuildPeerBoardMap | agent/verifier-executor.py:238-264 | succeeds exactly when every board and prefix name a non-root user of their own, with that binding and no other entry |
| ExecutorPeers.BuildRerunPeerUids | agent/verifier-executor.py:335-345 | succeeds exactly when the rerun users exist with distinct non-root uids, and returns exactly these |
| ExecutorPeers.RolesAreSeparate | agent/verifier-executor.py:267-294 | a peer is authorised exactly when it is the operator user of the board it names and asks for bridge, execute or fence, or its rerun user and asks for one of the four rerun operations |
| Rehearsal.StdoutReconstructed | scripts/rehearse_verifier_image.py:445-462 | from a hash alone, standard output is recovered well enough to recompute the integrity violations |
| Rehearsal.ImageReproduced | scripts/rehearse_verifier_image.py:523-557 | the recomputed image violations equal the recorded ones, except on repository digests given as an object |
| Rehearsal.ProducerAccepted | scripts/rehearse_verifier_image.py:930-1071 | for every image, dossier and outcome the report built passes the validator unchanged if and only if the schema admits it and the digests were not misread as above |
| Rehearsal.MisreadOccurs | scripts/rehearse_verifier_image.py:1004-1026 | a valid dossier and an image in order but for digests given as an object, whose report is built and refused |
| Rehearsal.AcceptedSuccessMeans | scripts/rehearse_verifier_image.py:418-595 | an accepted report of success implies an expected exit code matching a bound, canonical verdict and an image that is the dossier's for its platform |
| Rehearsal.AcceptedMeans | scripts/rehearse_verifier_image.py:418-595 | the conclusions of every accepted report, success or not, are exactly those its evidence bears out, for the pinned dossier, the one board of that name and the runner policy |
| Rehearsal.SuccessExactly | scripts/rehearse_verifier_image.py:930-1074 | a rehearsal reports success exactly for an expected exit code that fits a sound verdict and an image in order, and then its report is accepted wherever the schema admits it |
| Rehearsal.ReportRecords | scripts/rehearse_verifier_image.py:938-1074 | the report's plain fields are the evidence's, with exit codes 124 and 125 and their failure kinds, the hash of standard output and the memory rounded up |
| Rehearsal.ExitContractExactly | scripts/rehearse_verifier_image.py:126-140 | no violation exactly for a valid verdict with exit code 0 or an invalid one with 1, and which violation otherwise |
| Rehearsal.IntegrityExactly | scripts/rehearse_verifier_image.py:143-174 | no violation exactly for a verdict of the right shape that names what was executed and is all of standard output but for one newline |
| Rehearsal.WrongFieldExactly | scripts/rehearse_verifier_image.py:162-170 | each of the four identity fields is reported exactly when it does not hold what was executed |
| Rehearsal.LabelsExactly | scripts/rehearse_verifier_image.py:177-198 | no violation exactly when the five named labels hold commit, source hash, algorithm, problem id and version |
| Rehearsal.ImageExactly | scripts/rehearse_verifier_image.py:357-404 | no violation exactly for an image of a dossier platform, pulled by digest, with its id, labels, runtime (a missing user replaced) and source |
| Rehearsal.FoundExactly | scripts/rehearse_verifier_image.py:368-371 | the platform record used is the first of that platform, and none exactly when there is none |
| Rehearsal.SelectExactly | scripts/rehearse_verifier_image.py:326-333 | a board is selected exactly when it is the only one of its name |
| SemVer.Construct | scripts/check_sp1_dependency_security.py:43-53 | accepts exactly identifiers without leading zeros in numeric ones |
| SemVer.NumeralUnique | scripts/check_sp1_dependency_security.py:51-53 | accepted numerals of equal value are the same text |
| SemVer.NumberExactly | scripts/check_sp1_dependency_security.py:58-77 | numeric identifiers are compared by their value in base ten |
| SemVer.Trichotomy | scripts/check_sp1_dependency_security.py:41-77 | exactly one of less, equal, greater; the derived `>` is swapped `<` and `>=` is swapped `<=` |
| SemVer.Transitivity | scripts/check_sp1_dependency_security.py:58-77 | `<` is transitive |
| SemVer.LtIsPrecedence | scripts/check_sp1_dependency_security.py:58-77 | `<` is the precedence of section 11 of Semantic Versioning 2.0.0 |
| SemVer.LeadingZeroBreaksOrder | scripts/check_sp1_dependency_security.py:51-53 | without the constructor's check, two versions would each be greater than the other |
| SemVer.RangeMeans | scripts/check_sp1_dependency_security.py:80-92 | a range is the interval between its ends in that precedence |
| SemVer.RangeConvex | scripts/check_sp1_dependency_security.py:80-92 | between two versions in a range there is none outside it |
| OperationEvidence.IndexEvents | contracts/scripts/deploy-base-sepolia.js:1185-1193 | after one pass the entry for any id is what a query for that id returns |
| OperationEvidence.QueryExactly | contracts/scripts/deploy-base-sepolia.js:1185-1193 | a query finds the events of its id in the order of the log, whatever the case of the letters |
| OperationEvidence.CollectIndexed | contracts/scripts/deploy-base-sepolia.js:1195-1233 | the evidence assembled from the index is the evidence of querying each candidate |
| OperationEvidence.CollectByQuery | contracts/scripts/deploy-base-sepolia.js:1700-1741 | the same specification for the per-operation loop |
| OperationEvidence.ExecutedExactly | contracts/scripts/deploy-base-sepolia.js:1207-1231 | an operation counts as executed exactly when one and not both candidates have state 2 and a single event; the evidence is that event's, otherwise incomplete and empty, and the check lists id, state and event count of each candidate |
| SetupCompletion.CompleteExactly | contracts/scripts/deployment-ceremony-helper.js:1570-1602 | complete means every required name is present and true in its last entry and every operation has sound evidence |
| SetupCompletion.AssessedExactly | contracts/scripts/deployment-ceremony-helper.js:1570-1597 | the assessed checks are one per required name in order and then one per operation, each under its own name and true exactly when that check passed or that operation is proven |
| SetupCompletion.RequiredExactly | contracts/scripts/deployment-ceremony-helper.js:1496-1568 | exactly which check names are required, for manifests with one board and with several |
| SetupCompletion.LastCheckExactly | contracts/scripts/deployment-ceremony-helper.js:1571-1575 | the last check of a name decides, and none exactly when no check has it |
| SetupCompletion.LastEvidenceExactly | contracts/scripts/deployment-ceremony-helper.js:1576-1580 | the same for the evidence of an operation id, whatever the case of its letters |
| SetupCompletion.SoundExactly | contracts/scripts/deployment-ceremony-helper.js:1581-1594 | evidence counts exactly when executed under the operation's own or its fallback's id, with a transaction hash of 64 hexadecimal digits and a safe block number |
| SetupCompletion.AssessSetupCompletion | contracts/scripts/deployment-ceremony-helper.js:1570-1602 | the two loops report completeness exactly then |
| SetupCompletion.CompleteSetupManifest | contracts/scripts/deployment-ceremony-helper.js:1597-1669 | succeeds exactly when complete, registered and, in production, anchored; every operation then carries execution evidence naming its primary or fallback id |
| SetupCompletion.RegistrationExactly | contracts/scripts/deployment-ceremony-helper.js:1639-1662 | the registration of a problem is the first transaction of its tag |
| SetupCompletion.CompleteMeansExecuted | contracts/scripts/deployment-ceremony-helper.js:1576-1600 | with collected evidence, completion proves each operation was executed on chain exactly once under one of its ids |
| SetupCompletion.CollectedNeverCompletes | contracts/scripts/deployment-ceremony-helper.js:1496-1520 | a multi-board snapshot made of the collector's checks never completes, for want of the `programId` check |
| SetupCompletion.CollectedNeverProgramId | contracts/scripts/deploy-base-sepolia.js:1235-1475 | no check name the multi-board collector emits is a `programId` check, whatever the problem ids and keys |
| FinalityAnchor.CollectedIsAgreed | contracts/scripts/finality-anchor.js:50-93 | an anchor is collected exactly when both operators agree on all four points with the chain's relations, and it is what they said |
| FinalityAnchor.ValidateExactly | contracts/scripts/finality-anchor.js:110-131 | a recheck is accepted exactly when nothing went back, equal numbers keep their hashes, authority is unchanged and both endpoints still have the previous points |
| FinalityAnchor.ValidateWithoutEndpoints | contracts/scripts/finality-anchor.js:110-131 | without endpoints to ask, a recheck is accepted exactly on the relations between the two anchors |
| FinalityAnchor.RunAdvances | contracts/scripts/finality-anchor.js:110-136 | the same between any two anchors of a run of rechecks, with the cross-relations in each rechecked one |
| FinalityAnchor.SkippingAccepted | contracts/scripts/finality-anchor.js:110-131 | skipping any number of rechecks would be accepted too, and going back never, unless nothing moved |
| ScoreAtoms.AtomsFromScoreRational | contracts/scripts/deploy-demo.js:29-40 | fails exactly on a zero denominator, otherwise returns the exact ceiling under truncating division |
| ScoreAtoms.ErrorBelowOne | contracts/scripts/deploy-demo.js:29-40 | the error is at least zero and below one atom |
| ScoreAtoms.Monotone | contracts/scripts/deploy-demo.js:29-40 | a larger rational never gets fewer atoms |
| ScoreAtoms.SameForAllRepresentations | contracts/scripts/deploy-demo.js:29-40 | all representations of one rational, signs included, give the same atoms |
| SubordinateRanges.NoOverlap | scripts/p42_rootless_docker_preflight.py:66-75 | the sorted adjacent scan finds no overlap exactly when all ranges are pairwise disjoint |
| SubordinateRanges.DisjointIffNoSharedId | scripts/p42_rootless_docker_preflight.py:25-33 | ranges are pairwise disjoint exactly when no ID has two holders |
| SubordinateRanges.HoldsExactly | scripts/p42_rootless_docker_preflight.py:25-33 | a range holds exactly its count of ids, one after the other from its start |
| SubordinateRanges.ValidateSubordinateIdFile | scripts/p42_rootless_docker_preflight.py:36-80 | accepts exactly valid, disjoint files in which the user has one range, of full size, and returns that range |
| Quorum.ValidExactly | contracts/scripts/deployment-ceremony-helper.js:306-323 | accepted thresholds are exactly the strict majorities short of all signers, of at least three |
| Quorum.OverrideLeast | contracts/scripts/deployment-ceremony-helper.js:306-310 | the override threshold is the least number above the threshold that comes to two thirds of the signers |
| Quorum.MeetExactly | contracts/scripts/deployment-ceremony-helper.js:312-323 | every two standard quorums share a signer if and only if the threshold is a strict majority |
| Quorum.OverrideCovers | contracts/scripts/deployment-ceremony-helper.js:306-323 | an override quorum meets every standard quorum and still is one after losing any one signer |
| Quorum.OverridesShareThird | contracts/scripts/deployment-ceremony-helper.js:306-310 | any two override quorums share at least a third of the signers, rounded up |
| Quorum.OverrideReachable | contracts/scripts/deployment-ceremony-helper.js:312-323 | for an accepted threshold an override quorum exists |

## Left out

- Update in place by concurrent processes: the publication board loop, the reservation files and the executor's threads are step machines over values, because Dafny methods do not interleave; the methods of `PublishJournal.JournalFile` and `GovernanceJournal.JournalFile` show the single-process updates in place.
- Liveness: a process may stop at any step; that a push and a completion can be reached is shown, not that they always are.
- Timing: retry counts, deadlines, process killing and the authorization fence depend on the clock and the operating system.
- Cryptography: digests are free constructors; signatures, ABI encoding and address derivation are not modelled.
- Text parsing: how the tools read JSON and YAML (`JsonReader` is a specification of the printed texts), regular expressions for formats, and command lines; a JSON schema is a predicate over reports, and `Rehearsal` takes a list with non-text digests as giving no report.
- File ownership, permission bits, inode stability and no-follow checks of reads; such a check may fail at any step, and what follows is modelled.
- Durability of `fsync`: a crash keeps what was written, torn files excepted.
- Torn creation of the governance journal file: creation is one step there.
- JSON numbers that are not integers: verdicts with fractions, or with NaN and infinities, on which printing may fail so that no report is built.
- GovernanceJournal.JournalFile.RecordObservation: an absent field of an observation is read as null, which the code treats alike for the three states.
- Lower-casing is ASCII, which is what hexadecimal ids need.
- Container, registry, RPC and explorer traffic; board-binding promotion, CI artifact replay, cgroup attestation and web configuration, which are conjunctions of equality checks.
- FingerprintAgreement.FingerprintsAgree: says what an extraction is instead of modelling how a tar program writes one.
- FileTrees.FingerprintDecides: its digest is a free constructor over the sorted entry list; that the printed list determines the entries is `EntryText.EntriesTextInjective`.
- OutputPublication.Directory.WriteCanonicalAt: does not say that the refusal to overwrite comes from the final name only, because the code reports a taken temporary name the same way.
- CanonicalReading.CanonicalReads: a string is read as UTF-16 code units, and a number as decimal digits with a point; which double they stand for is not part of this model.
- SetupCompletion.CompleteSetupManifest: role acceptances enter as an accepted-or-not input, and the recomputed configuration hash is left out.
- Executor.ConnectionsConserved: a connection that is still owned by a thread that never ends stays owned; nothing forces it to be closed.
- ExecutorPeers.BuildRerunPeerUids: refuses a board id without a numeric part itself; in the code the pass before it has already done so.
- ReservationPaths.BlockedForGood: leaves open a reservation of a lower generation than the archive's record, such as a reserve that came late and failed leaves.
- ReservationPaths.RepeatedCompletion: the archive and the reservation are read in one step under the lock.
