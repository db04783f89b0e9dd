# Verified models of the build tooling and the prefix compilers

This project models the parts of the repository whose correctness rests on more than one function:
the remote build protocol, the incremental evidence pipeline, the content-addressed generation store
and its catalogue check, document segmentation and packing, the bootstrap pointer and prefill checks,
and four text transformers. `dafny verify dfyconfig.toml` checks everything.

How the modules follow the program:

| files | program |
|---|---|
| `Names`, `Text`, `Links`, `SourceTree`, `Materialize`, `RoundTrip` | capturing a work tree as an immutable base plus a delta, and rebuilding it on the worker; how symbolic links resolve |
| `RemoteBuild`, `RemoteFence`, `RemoteSource`, `TwoDirectories` | controllers of any checkout, the build lock, lock-free `status` processes, durable job records, remote storage and workers as one transition system; what its runs keep, and what two record directories break |
| `BuildOnce` | the worker's job directory on a volume whose uncommitted writes are lost |
| `EvidenceTables`, `EvidencePipeline`, `StaleEvidence` | the SQLite tables of the evidence compiler, its incremental steps, and the from-scratch build they have to equal |
| `CardOrder`, `CardSelection` | balanced order, bounded selection and trimming of evidence cards |
| `SourceUnits`, `Atomizer`, `Packing` | section parser, cards, atomizer and batch packer |
| `Catalogue`, `GenerationStore`, `GenerationExport` | catalogue closure, publication of generations by crashing processes, export and its round trip |
| `JsonPointer`, `Prefill`, `Tables` | RFC 6901 evaluation and the selector that must not overwrite protected values |
| `RustLexer`, `MakefileGlobal`, `MakeDirectives`, `CodebaseList`, `TomlEscape` | the Rust comment stripper, the Makefile sanitiser against Make's own reading of conditionals, the diff-maintained file list and the TOML escaper |

Modelling decisions that hold throughout:

- SHA-256 is injective: a free constructor over its input, or a function whose injectivity is stated where a proof needs it.
- Raised exceptions are `Result.Raised`; which message is raised is not distinguished, since every caller treats them alike.
- A protocol step is one durable effect: a record write (temporary file and rename), a batch upload, a directory rename, a database commit. A crash may come between any two steps and loses what is volatile.
- Tokenizers, chat templates, the budget planner, the JSON reader, path heuristics and the clock are arbitrary functions or parameters.
- Strings are sequences of Unicode scalar values; bytes are explicit where the code works on bytes.

Where the code does not have a property its documentation suggests, the model keeps the code and states the exact condition:

- `RemoteFence.NoPublicationWhileLive`: the build lock is one file per host, but the job records that fence a live worker stand under `CARGO_TARGET_DIR` or the checkout's own `target`. No source is uploaded past a live worker when all controllers share one record directory, and `TwoDirectories.Unfenced` gives, for any two sites with different directories, a run that uploads past a live worker and leaves it with a source its request does not name.
- `Links.PortableExactly`, `RoundTrip.AcceptedEverywhere`: a captured tree is acceptable to workers in every directory exactly when none of its links ever steps out of it; one that leaves the tree and re-enters it by the tree's own directory name is captured, and refused by a worker whose directory has another name (`RoundTrip.PortabilityGap`).
- `RustLexer.NewlinesKept`: newlines are kept exactly when no character literal escapes one (`RustLexer.NewlineLost`).
- `MakeDirectives.CutExactly`: the removed block ends at Make's matching `endif` exactly when the code reads every line up to it as Make does. An `endif` followed by anything is one to Make and none to the code (`MakeDirectives.EndifRead`), so the block runs on to a bare `endif` or to the end of the file (`MakeDirectives.CommentedEndif`).
- `CodebaseList.ListExactly`: the maintained paths are right exactly when no listed file was the source of a copy, because the parser counts a copy's source as deleted. Git reports copies to this command only where `diff.renames` is set to `copies`, and then from files changed in the same diff (`CodebaseList.CopyDropsSource`).
- `CodebaseList.EntriesExactly`: a changed entry is marked exactly when git calls the change a modification; a change of type leaves mark and findings as they were (`CodebaseList.TypeChangeUnmarked`).
- `CodebaseList.FreshExactly`: stripping the output of `git ls-files -z` costs the first path its leading white space (`CodebaseList.SpacedNameLost`).
- `Atomizer.AtomizeText`: tokens are conserved exactly for a positive maximum or a document without tokens; a zero maximum raises, a negative one drops every line.
- `EvidencePipeline.ViewExactly`: over metadata the compiler did not write itself, an incremental extraction equals a rebuild exactly when no surviving group belongs to a document without a URL, since the quarantine branch of `distill_lane` leaves the old row (`StaleEvidence.StaleRowSurvives`). The compiler's own writers always store a URL, and over those `EvidencePipeline.Store.Refresh` needs no such condition.

## Model

| member | source | states |
|---|---|---|
| Links.StayFollows | scripts/modal_source_sync.py:59-69 | a walk through links, chained and circular ones included, that never steps out of the tree takes the same way under every root |
| Links.PortableExactly | scripts/modal_source_sync.py:65-69 | the links of a tree lead inside it wherever the tree stands if and only if none of them ever steps out of it |
| SourceTree.DescribeInjective | scripts/modal_source_sync.py:59-78 | two trees with the same description are the same tree, whatever directories they stand in |
| SourceTree.WriteArchive | scripts/modal_source_sync.py:92-137 | archiving succeeds exactly when every open file yields as many bytes as described; the members carry those bytes, in listing order |
| SourceTree.CheckArchive | scripts/modal_source_sync.py:92-137 | the readback accepts exactly the archives whose file members have the described digests |
| SourceTree.ReadBack | scripts/modal_source_sync.py:92-137 | a member passes the readback exactly when the streamed bytes are the described ones, and then it is the member of an undisturbed capture |
| SourceTree.ArchiveChecked | scripts/modal_source_sync.py:92-137 | writing and reading back succeed exactly when all streams agree, and give the tree's own members |
| SourceTree.Capture | scripts/modal_source_sync.py:40-137 | a capture succeeds exactly when names are allowed, directories and links resolve inside the tree, the streams agree and the repository is the same before and after; it is then the manifest and archive of that one tree |
| Materialize.Extract | scripts/modal_build_worker.py:156-194 | one archive is extracted exactly when it covers the declared names and asks for no file in place of the root; each regular file of it is written once and nothing else changes |
| Materialize.CreateLinks | scripts/modal_build_worker.py:195-199 | exactly the symlinks of the final manifest are added, and only one in place of the root fails |
| Materialize.ExtractAll | scripts/modal_build_worker.py:151-194 | base then delta give every regular file of the final manifest, each written exactly once |
| Materialize.Materialize | scripts/modal_build_worker.py:79-201 | success exactly on acceptable storage for the expected digest; then the tree's description is the manifest's |
| Materialize.VerifiedExactly | scripts/modal_build_worker.py:106-124 | the final verification of an extracted tree objects exactly when a link, followed through other links, ends outside the worker's own root |
| RoundTrip.CapturedValid | scripts/modal_build_worker.py:79-103 | a captured manifest passes the worker's validation exactly for admissible trees |
| RoundTrip.ArchivePinned | scripts/modal_build_worker.py:127-159 | a stored archive matches a captured manifest exactly when it is the archive that capture wrote |
| RoundTrip.AcceptedExactly | scripts/modal_build_worker.py:79-201 | a stored base and delta are accepted exactly when the archive is the current one, the trees are admissible and links end inside |
| RoundTrip.AcceptedEverywhere | scripts/modal_build_worker.py:79-201 | they are accepted by workers in every directory exactly when, besides, no link ever steps out of the tree |
| RoundTrip.CaptureStill | scripts/modal_source_sync.py:92-137 | capturing a repository that does not change meanwhile always succeeds |
| RoundTrip.PublishAndMaterialize | scripts/modal_build_worker.py:127-201 | diff and patch: for every baseline tree and current tree, materializing base plus delta succeeds exactly on admissible trees with inside links, and yields exactly the current tree, each regular file written once |
| RoundTrip.SameTree | scripts/modal_build_worker.py:106-124 | a tree verified against the manifest is the captured tree |
| RoundTrip.PortabilityGap | scripts/modal_source_sync.py:59-78 | a link through the tree's own directory name is inside here and outside for a worker with another name |
| RemoteFence.FenceStep | scripts/modal_build.py:101-250 | every step of every process in every directory, crashes and lock-free status writes included, keeps the fencing invariant |
| RemoteFence.RunFence | scripts/modal_build.py:101-250 | the fencing invariant holds in every state of every run |
| RemoteFence.Fencing | scripts/modal_build.py:144-214 | in every reachable state a live worker has an unsettled record, at most one record of a directory is unsettled, and settled records tell the truth about their calls |
| RemoteFence.NoPublicationPastOwn | scripts/modal_source_sync.py:182-241 | no controller uploads past a live worker recorded in its own directory |
| RemoteFence.NoPublicationWhileLive | scripts/modal_source_sync.py:182-241 | with one record directory no upload, of source or of the cache marker in the same batch, happens while a worker is submitted or executing |
| TwoDirectories.Unfenced | scripts/modal_source_sync.py:166-189 | for any two sites with different record directories there is a run in which one uploads past the other's live worker, which then finds no source that its request names |
| RemoteSource.StorageStep | scripts/modal_source_sync.py:192-241 | every step, of whatever checkout, keeps the invariant that ties storage, captures and requests together |
| RemoteSource.RunStorage | scripts/modal_source_sync.py:192-241 | that invariant holds in every state of every run |
| RemoteSource.BaselineImmutable | scripts/modal_source_sync.py:205-232 | once the baseline manifest is visible, the baseline pair never changes again |
| RemoteSource.TornPublication | scripts/modal_build_worker.py:127-159 | whatever the crashes, storage is acceptable exactly when the manifest's own archive is in place and the trees are admissible; then the tree is the one a single capture recorded |
| RemoteSource.LiveWorkerSource | scripts/modal_build.py:104-177 | with one record directory a live worker always finds exactly the source its request names |
| BuildOnce.StepKeeps | scripts/modal_build_worker.py:216-236 | admission, commits, deaths and answers keep the accounting of events against the volume |
| BuildOnce.AtMostOnce | scripts/modal_build_worker.py:216-309 | over every sequence of executions and deaths Cargo starts at most once per job, and all answers for a job give the same receipt, after Cargo started for that request |
| BuildOnce.ReuseRefused | scripts/modal_build_worker.py:216-236 | a job ID with other inputs, or a torn request, is refused without any effect |
| EvidenceTables.InsertAtomsLawful | scripts/prefix/Defensive-compiler.py:1095-1118 | inserting a document's atoms keeps the tables lawful; in particular no triage row waits for a reused atom id |
| EvidenceTables.InvalidateLawful | scripts/prefix/Defensive-compiler.py:399-403 | invalidating a document removes its atoms, triage rows and groups and nothing a lawful table needs |
| EvidenceTables.PutLawful | scripts/prefix/Defensive-compiler.py:983-1091 | storing a scanned file keeps the tables lawful and changes exactly its text and, if that changed, its groups |
| EvidenceTables.DropLawful | scripts/prefix/Defensive-compiler.py:983-1091 | dropping a vanished document keeps the tables lawful and removes exactly its rows |
| EvidenceTables.SpansExact | scripts/prefix/Defensive-compiler.py:1260-1288 | the line spans read from atoms and triage rows are those the configuration routes to the lane |
| EvidenceTables.AtomsEqualFresh | scripts/prefix/Defensive-compiler.py:1095-1118 | after a build the atom and triage rows, up to ids, are those of a build from scratch |
| EvidencePipeline.LaneRowExact | scripts/prefix/Defensive-compiler.py:1260-1288 | the row extracted from the tables is the row a build from scratch would extract |
| EvidencePipeline.CollectSourced | scripts/prefix/Defensive-compiler.py:1062-1067 | a scan whose repositories have URLs leaves every document with a URL |
| EvidencePipeline.LaneAsks | scripts/prefix/Defensive-compiler.py:1260-1288 | over finished atoms and triage a lane asks for the provenance of exactly the documents that yield a row |
| EvidencePipeline.SourcedEqualsFresh | scripts/prefix/Defensive-compiler.py:1260-1288 | after all three lanes over documents with URLs all derived tables, row ids forgotten, are those of a rebuild |
| EvidencePipeline.IncrementalEqualsFresh | scripts/prefix/Defensive-compiler.py:1260-1288 | over any metadata: after all three lanes the groups equal the from-scratch ones if and only if every group that survived so far belongs to a document with a URL |
| EvidencePipeline.ViewExactly | scripts/prefix/Defensive-compiler.py:1260-1288 | the same for all derived tables together, row ids forgotten |
| EvidencePipeline.Store.Collect | scripts/prefix/Defensive-compiler.py:983-1091 | it succeeds exactly on a complete scan; a failed one leaves the database unchanged, a successful one leaves exactly the scanned documents and the groups of unchanged ones, each document with a URL |
| EvidencePipeline.Store.AtomsBuild | scripts/prefix/Defensive-compiler.py:1095-1118 | a finished build leaves every document with exactly its atoms; an interrupted one leaves lawful tables |
| EvidencePipeline.Store.Triage | scripts/prefix/Defensive-compiler.py:1167-1192 | every atom gets its deterministic route, and an interruption keeps the rows committed so far lawful |
| EvidencePipeline.Store.DistillLane | scripts/prefix/Defensive-compiler.py:1260-1288 | one lane's rows become the extracted ones and other lanes' rows stay; unless stopped it fails exactly on unfinished triage or incomplete provenance, and then every row is an old or a from-scratch one |
| EvidencePipeline.Store.Extract | scripts/prefix/Defensive-compiler.py:1260-1288 | three lanes in turn: success exactly when every document that yields a card has complete provenance, and then the derived tables are those of a rebuild |
| EvidencePipeline.Store.Derive | scripts/prefix/Defensive-compiler.py:1095-1288 | everything after the scan, with the same condition for success and the same result |
| EvidencePipeline.Store.Refresh | scripts/prefix/Defensive-compiler.py:983-1288 | collect, atoms, triage and lanes from whatever earlier runs, interrupted ones included, left: success exactly on a complete scan with complete provenance, and then equal to a rebuild; an incomplete scan changes nothing, a failed extraction leaves only old and from-scratch groups |
| StaleEvidence.StaleRowSurvives | scripts/prefix/Defensive-compiler.py:1260-1288 | a concrete database with foreign metadata on which the quarantine branch keeps a row that a rebuild would not have |
| CardOrder.BalancedCards | scripts/prefix/Defensive-compiler.py:2005-2015 | the round-robin order is a permutation, turn by turn and within a turn by source name, each source in rank order; at every prefix no source leads an unexhausted one by more than one card |
| CardOrder.BalancedUnique | scripts/prefix/Defensive-compiler.py:2005-2015 | there is exactly one such order |
| CardSelection.ChosenInOrder | scripts/prefix/Defensive-compiler.py:1412-1428 | the selected cards stand in the order offered, and a card is selected exactly when it is acceptable after those selected before it |
| CardSelection.ChosenStops | scripts/prefix/Defensive-compiler.py:1412-1428 | once the budget is used up everything that follows is omitted |
| CardSelection.ChosenPicked | scripts/prefix/Defensive-compiler.py:1412-1428 | the selection stays within budget and card limits and repeats no long text |
| CardSelection.Greedy | scripts/prefix/Defensive-compiler.py:1412-1428 | the loop's picks and omissions are exactly that selection and what it passes over |
| CardSelection.Trim | scripts/prefix/Defensive-compiler.py:1472-1487 | trimming ends with the longest part that renders within budget and keeps the mandatory cards, and fails exactly when there is none |
| CardSelection.SelectCards | scripts/prefix/Defensive-compiler.py:1400-1487 | the greedy selection is the mandatory cards, then what the balanced order offers and is acceptable in turn; on success selected and omitted divide all cards, and the selected ones are the longest allowed part of it that renders within budget; failure exactly when there is none |
| CardSelection.IdsPartition | scripts/prefix/Defensive-compiler.py:1507-1519 | the reported identifiers partition those of all cards |
| SourceUnits.BelowVisible | scripts/prefix/brassclaw-prefix-upgrade.py:1590-1593 | filtering the stack of open headings gives exactly the recursive chain of nearest preceding smaller levels |
| SourceUnits.AncestorsExactly | scripts/prefix/brassclaw-prefix-upgrade.py:1590-1593 | the chain rises in position and in level and holds exactly the earlier, higher headings after which no heading as high has come |
| SourceUnits.PushHeading | scripts/prefix/brassclaw-prefix-upgrade.py:1590-1593 | one heading: the recorded parents are its ancestors, and the stack again holds what is visible |
| SourceUnits.ScanHeadings | scripts/prefix/brassclaw-prefix-upgrade.py:1570-1594 | the loop's boundaries and parent lists are the reference's for every document and suffix |
| SourceUnits.Segment | scripts/prefix/brassclaw-prefix-upgrade.py:1560-1597 | the units equal the recursive reference |
| SourceUnits.UnitsPartition | scripts/prefix/brassclaw-prefix-upgrade.py:1594-1597 | units partition the lines in order and concatenate back to the text |
| SourceUnits.UnitByStart | scripts/prefix/brassclaw-prefix-upgrade.py:1594-1597 | a unit is determined by its first line |
| SourceUnits.AcceptedExactly | scripts/prefix/brassclaw-prefix-upgrade.py:1616-1628 | a card is accepted exactly when its range, excerpt and parent context are those of a unit of the document |
| SourceUnits.BuiltCardsAccepted | scripts/prefix/brassclaw-prefix-upgrade.py:1602-1628 | every card built from a unit is accepted |
| Atomizer.SplitConserves | scripts/prefix/brassclaw-prefix-upgrade.py:554-555 | the parts concatenate to the line and all but the last are full |
| Atomizer.Atomize | scripts/prefix/brassclaw-prefix-upgrade.py:558-598 | pieces carry all tokens in order over ordered line ranges; groups are whole lines, bounded, and end only because the next line would not do |
| Atomizer.AtomizeText | scripts/prefix/brassclaw-prefix-upgrade.py:558-598 | the same for every configuration, with the exact condition for conservation and for raising |
| Atomizer.WithinMaximum | scripts/prefix/brassclaw-prefix-upgrade.py:582-596 | with a target no larger than the maximum no piece exceeds the maximum |
| Packing.PackAdaptive | scripts/prefix/brassclaw-prefix-upgrade.py:601-624 | batches are nonempty and concatenate to the items; two or more items are together only within both limits; no batch is closed early or kept open late, and a first item that is rich alone is joined by others only where it came over from a batch it did not fit into |
| Packing.Place | scripts/prefix/brassclaw-prefix-upgrade.py:605-620 | one item enters the open batch or starts the next one, and nothing else moves |
| Catalogue.ChainResolves | scripts/prefix/base-promt-compiler.py:408-431 | every dependency chain of any length from a selected component of an accepted versioned export resolves inside the same selection |
| Catalogue.ChainUnique | scripts/prefix/base-promt-compiler.py:416-421 | to exactly one pinned revision at every link |
| Catalogue.OneRevision | scripts/prefix/base-promt-compiler.py:416-421 | a selection pins at most one revision of a component |
| Catalogue.IndexComponents | scripts/prefix/base-promt-compiler.py:364-392 | the component loop accepts exactly sound, distinct components of one class per UUID; its dictionaries hold exactly them, and each is filed once, in order, with its exact source |
| Catalogue.CheckSelection | scripts/prefix/base-promt-compiler.py:412-431 | a selection is accepted exactly when its members are carried, pinned once, hold the recipe and are closed under dependencies |
| Catalogue.ClosedExact | scripts/prefix/base-promt-compiler.py:425-428 | the test over the dictionaries is closure of the selection |
| Catalogue.CheckRoot | scripts/prefix/base-promt-compiler.py:392-404 | the retained root is accepted exactly when it is carried and its dependencies are as the format demands |
| Catalogue.CheckSelections | scripts/prefix/base-promt-compiler.py:405-432 | all selections are accepted exactly when each is and none repeats; the collected keys are those of the root and the members, and each selection is filed once, in order |
| Catalogue.CatalogueRecords | scripts/prefix/base-promt-compiler.py:320-437 | a transfer is accepted exactly when the declarative conditions hold, and files every component and selection in order, then the transfer |
| Catalogue.FiledExactly | scripts/prefix/base-promt-compiler.py:432-433 | the filed components are exactly the retained root and the selected revisions |
| Catalogue.FiledOnce | scripts/prefix/base-promt-compiler.py:376-391 | no two component records share a location |
| GenerationStore.StepInv | scripts/prefix/base-promt-compiler.py:292-317 | every step of every process keeps the lock discipline, the staging invariant and all visible generations |
| GenerationStore.RenameWhole | scripts/prefix/base-promt-compiler.py:305-313 | what a rename makes visible is the whole payload of a request |
| GenerationStore.Immutable | scripts/prefix/base-promt-compiler.py:292-317 | over every run a visible generation never changes or disappears |
| GenerationStore.VisibleComplete | scripts/prefix/base-promt-compiler.py:292-317 | a visible generation is all the payloads of one earlier request |
| GenerationStore.OutcomeHolds | scripts/prefix/base-promt-compiler.py:297-304 | a returning call has its own payloads visible, a refused one has other files visible, for the rest of the run |
| GenerationExport.DecodeEncode | scripts/prefix/base-promt-compiler.py:286 | decoding undoes Base64 encoding for every byte string |
| GenerationExport.RelativeExactly | scripts/prefix/base-promt-compiler.py:64-74 | the name check accepts exactly the names without empty, hidden or forbidden components |
| GenerationExport.SameGeneration | scripts/prefix/base-promt-compiler.py:253-259 | two sealed payloads with the same generation agree on every file but the receipt |
| GenerationExport.Collect | scripts/prefix/base-promt-compiler.py:279-286 | all files are encoded exactly when every one passes its check |
| GenerationExport.Export | scripts/prefix/base-promt-compiler.py:263-289 | an export succeeds exactly when the directory is what its own receipt says and the package is within capacity |
| GenerationExport.SealedExportable | scripts/prefix/base-promt-compiler.py:253-289 | what the compiler seals is always exportable up to its size |
| GenerationExport.ArtifactsDecode | scripts/prefix/base-promt-compiler.py:286 | the exported artifacts decode to exactly the files |
| GenerationExport.ExportRestores | scripts/prefix/base-promt-compiler.py:263-289 | read back and decoded, exported bytes give the files they were made from and no others |
| GenerationExport.PublishedExports | scripts/prefix/base-promt-compiler.py:253-317 | over every run of crashing publishers, every visible generation is exportable under its own name, and what is exported restores exactly its files |
| GenerationExport.ExportVisible | scripts/prefix/base-promt-compiler.py:253-317 | an export of a visible generation fails only for its size, and its bytes restore that generation as it is at any later time of the run |
| JsonPointer.DecodedIsUnescape | scripts/prefix/bootstrap_answer.py:152-178 | the two ordered replacements equal a single-pass unescape on every well-escaped token |
| JsonPointer.CheckEscapes | scripts/prefix/bootstrap_answer.py:152-178 | the validity scan accepts exactly the well-escaped tokens |
| JsonPointer.IndexBound | scripts/prefix/bootstrap_answer.py:152-178 | comparing decimal strings by length, then lexicographically, accepts an index exactly when its value is below the list length |
| JsonPointer.Resolve | scripts/prefix/bootstrap_answer.py:152-178 | the evaluator equals sections 3 and 4 of RFC 6901 on every nonempty pointer |
| JsonPointer.EscapeRoundTrip | scripts/prefix/bootstrap_answer.py:152-178 | unescaping undoes escaping, and an escaped key holds no slash |
| JsonPointer.PointerRoundTrip | scripts/prefix/bootstrap_answer.py:152-178 | the pointer to any path of keys resolves to what following the keys gives |
| Prefill.CheckNeeds | scripts/prefix/bootstrap_answer.py:271-287 | prerequisites are accepted exactly when well formed and distinct, and met exactly when each is independently verified with equal value and evidence |
| Prefill.CollectUpdates | scripts/prefix/bootstrap_answer.py:299-305 | the update loop lists exactly the changed fields in order and finds exactly whether a preserved one is among them |
| Prefill.CheckChoice | scripts/prefix/bootstrap_answer.py:249-308 | an option is refused exactly when malformed; its state follows the precedence of the tests |
| Prefill.UpdatesSafe | scripts/prefix/bootstrap_answer.py:288-308 | updates come only with a checked candidate; storing them is accepted, gives exactly the four values and leaves preserved fields alone |
| Prefill.CheckPrefill | scripts/prefix/bootstrap_answer.py:311-409 | the whole selection succeeds exactly on acceptable inputs with the outcome that the candidates determine |
| Prefill.ProtectedSurvive | scripts/prefix/bootstrap_answer.py:311-409 | for any planner, the returned updates belong to an offered option, give exactly its values and leave preserved fields alone |
| Prefill.OrderIrrelevant | scripts/prefix/bootstrap_answer.py:311-409 | neither refusal nor outcome depends on the order of options or observations |
| Prefill.DeterministicExactly | scripts/prefix/bootstrap_answer.py:373-382 | the deterministic choice is made exactly when one option and no other is admissible |
| Tables.SameTable | scripts/prefix/bootstrap_answer.py:328-343 | lists with distinct keys fill the same dictionary in any order |
| RustLexer.StripCommentsAndStrings | scripts/check_gateway_boundaries.py:130-282 | the mode-flag loop computes the reference that blanks whole comments and literals |
| RustLexer.StripBlanks | scripts/check_gateway_boundaries.py:130-282 | same length, each position the original character or a space, and nothing left that opens a comment or literal |
| RustLexer.StripIdempotent | scripts/check_gateway_boundaries.py:130-282 | a second pass changes nothing |
| RustLexer.NewlinesKept | scripts/check_gateway_boundaries.py:208-213 | newlines are kept if and only if no character literal escapes one |
| RustLexer.NewlineLost | scripts/check_gateway_boundaries.py:208-213 | the smallest input that loses a newline |
| MakefileGlobal.KeepTokens | crates/brassclaw_embedded_postgres/build.rs:598-615 | the token loop computes the reference filter |
| MakefileGlobal.KeptClean | crates/brassclaw_embedded_postgres/build.rs:600-615 | kept tokens are a subsequence of the originals, without `-isysroot` or a token to drop |
| MakefileGlobal.FlagsLineStable | crates/brassclaw_embedded_postgres/build.rs:594-626 | a rebuilt assignment is not rebuilt again |
| MakefileGlobal.FixedOnce | crates/brassclaw_embedded_postgres/build.rs:496-568 | a fixed line needs no further fixing, whichever rule fixed it |
| MakefileGlobal.BlockMatches | crates/brassclaw_embedded_postgres/build.rs:473-493 | the removed block ends where the nesting, as the code reads it, is back for the first time, or at the end of the file |
| MakeDirectives.CutAgrees | crates/brassclaw_embedded_postgres/build.rs:473-493 | where the code reads every line up to Make's matching `endif` as Make does, the cut ends with it |
| MakeDirectives.CutLater | crates/brassclaw_embedded_postgres/build.rs:473-493 | the code never stops before Make's `endif`, and once it missed one it stops later, unless the file ends |
| MakeDirectives.CutExactly | crates/brassclaw_embedded_postgres/build.rs:473-493 | the cut ends at Make's `endif` if and only if no line up to it is read differently, or the file ends there |
| MakeDirectives.SanitisedAgrees | crates/brassclaw_embedded_postgres/build.rs:463-569 | a file without such a line loses exactly Make's blocks |
| MakeDirectives.EndifRead | crates/brassclaw_embedded_postgres/build.rs:478-482 | anything after `endif` hides it from the code and not from Make |
| MakeDirectives.UnreadEndif | crates/brassclaw_embedded_postgres/build.rs:473-493 | for any closing line that only Make reads as one, Make's block ends there and the code removes the rest of the file with it |
| MakeDirectives.CommentedEndif | crates/brassclaw_embedded_postgres/build.rs:473-493 | a concrete file with a commented `endif` that loses its rule |
| MakefileGlobal.SanitiseLines | crates/brassclaw_embedded_postgres/build.rs:463-569 | the line loop cuts exactly the `ifdef PROFILE` blocks, fixes the assignments, leaves other lines alone and reports a change exactly when there is one |
| MakefileGlobal.SanitiseFile | crates/brassclaw_embedded_postgres/build.rs:449-586 | the file is written exactly when some line is removed or rewritten |
| MakefileGlobal.SanitiseIdempotent | crates/brassclaw_embedded_postgres/build.rs:449-586 | for every file a second run reports no change |
| CodebaseList.ChangedFiles | scripts/sweepfix.py:384-427 | the token loop computes the reference scan of the stripped output, malformed streams included |
| CodebaseList.ScanRecorded | scripts/sweepfix.py:400-426 | on a stream of changes the parser never loses step, whatever the paths look like |
| CodebaseList.ChangesRecovered | scripts/sweepfix.py:384-427 | the parser recovers the changes git wrote, through stripping and splitting |
| CodebaseList.Maintain | scripts/sweepfix.py:600-629 | deletions, then marks, then additions give exactly the described list |
| CodebaseList.ListExactly | scripts/sweepfix.py:600-629 | the maintained paths are the gated files of the new commit if and only if no listed file was the source of a copy |
| CodebaseList.CopyDropsSource | scripts/sweepfix.py:398-409 | an edited and copied file, as git reports it with copies enabled, is taken off the list |
| CodebaseList.EntriesExactly | scripts/sweepfix.py:611-629 | every entry of the new list: new files are marked, a changed one is marked with cleared findings if and only if git calls the change a modification, and everything else is as it was |
| CodebaseList.TypeChangeUnmarked | scripts/sweepfix.py:611-629 | a concrete file that becomes a link and keeps its mark and findings |
| CodebaseList.HistoryExact | scripts/sweepfix.py:560-629 | after any sequence of commits the list holds exactly the gated tracked files of the last |
| CodebaseList.FreshList | scripts/sweepfix.py:546-558 | the first list marks every listed file that passes the gate |
| CodebaseList.FreshExactly | scripts/sweepfix.py:373-381 | it is the gated tracked files if and only if the first listed path starts without white space, or the difference passes no gate |
| CodebaseList.SpacedNameLost | scripts/sweepfix.py:373-381 | a concrete listing whose only name loses its leading space |
| TomlEscape.EscapedPerCharacter | scripts/sweepfix.py:441-458 | the ordered global replacements equal a per-character escape |
| TomlEscape.EscapeRoundTrip | scripts/sweepfix.py:441-458 | between quotes the escaped text reads back as the original and ends at the closing quote |
| TomlEscape.EscapedClean | scripts/sweepfix.py:430-458 | no control character is left and every quote stands behind a backslash |

## Left out

- Modal, git, SQLite, tar, gzip, rsync, Cargo and the file system themselves: storage is a map, an archive a sequence of members, the database a record of maps with commit and rollback.
- SourceTree.DescribeTree: links are followed as non-strict `Path.resolve` does since Python 3.13, the worker's version; earlier versions raise on a circle of links. Only the tree's own entries are links: links among ignored files or outside the tree are not modelled.
- SourceTree.Capture: the repository may change between the describe pass, the reading of each file and the closing check, but each of the two passes sees one moment; a listed name whose file is missing is not part of the tree.
- RemoteFence.Fencing: all controllers take the same lock; hosts with locks of their own, or different values of `BRASSCLAW_MODAL_LOCK`, are not modelled.
- BuildOnce.AtMostOnce: executions for one volume follow each other, as one container at a time is configured; two containers with the same job ID at once are not modelled.
- EvidencePipeline.Store.Refresh: the configuration is fixed; `fetch_web_documents`, model-driven triage and the first and last atom id columns of a group are not modelled.
- CardOrder.BalancedCards: the sort key is an integer rank standing for its place in the order of priority, path, line and identity.
- CardSelection.SelectCards: how mandatory cards are found (`required_reference_cards`) is a parameter; rendering and token counts are arbitrary functions.
- SourceUnits.Accepts: the fields of a card that are plain comparisons with constants are not modelled beyond schema and status.
- Atomizer.Atomize: lines arrive as token lists; the tokenizer is not modelled.
- Packing.PackAdaptive: four fifths of the budget is a parameter, since the code rounds a floating-point product.
- Catalogue.CatalogueRecords: JSON shape tests are part of the reader parameter; a value that fails them is one the reader refuses.
- GenerationExport.Export: directories hold regular files only; symlinks inside a generation and files that change while they are read are not modelled.
- Prefill.CheckPrefill: the four budget values are integers; the extraction task of the answer protocol is not modelled, since the selector refuses it.
- MakefileGlobal.SanitiseFile: a missing file and a failing write, which only return false, are not modelled.
- MakeDirectives.CutExactly: recipe lines, continuation lines and `define` bodies, in which Make reads no directive, are not told apart; the converse is stated for files without an `endif` between white space outside ASCII, which only the code trims.
- CodebaseList.FreshList: writing and re-reading the TOML file is covered only by its string escaping.
- `validate_command`, `update_cache`, artifact download and image setup of the remote build, `_blank_test_modules` and the brace walk of the gateway check, `sanitise_pg_cflags`, `check_bootstrap_evidence`, `load_package` and `prepare_package`: each is one pass of independent checks, or calls of other programs, without state that a later step relies on.
- `scripts/prefix/Homeassistant-compiler.py`: a near-duplicate of the evidence compiler.
