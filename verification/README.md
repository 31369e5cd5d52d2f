# Verified model of the repository tooling

This Dafny project models the parts of the repository's Python tooling where an error would be hard to see in review,
and proves what those parts are for. It verifies with Dafny 4.11: `dafny verify dfyconfig.toml`.

**Dependency graphs** (`DependencyGraph`, `CycleDetection`, `IterativeCycles`, `CycleTheorems`, `ReviewImpact`,
`RelatesClusters`). The relations analysis finds cycles with a stack of frames, each holding a node, a path and a
resume index; the review-impact tool finds them with a recursive search. Both methods are proved to return the same
list, that of `CycleDetection.CyclesOf`, for every graph whose keys are visited in the same order. The iterative
search has two branches for a new frame whose node is on the stack or already finished; `IterativeCycles.Step` asserts
that both conditions are always false. Every reported list is a simple closed walk, and the list is empty exactly for
acyclic graphs. Every loop takes an edge that ends a report, so without these edges no loop is left, and the reports
that leave one node are the loops its successors close on one simple path to it, each of them and in order.
`FindCycles` says this about the `depends_on` edges it was given. The impact of a document is reachability in the
reverse graph; the clusters are the connected components.

**Publishing evidence** (`FileSystem`, `PublicationLog`, `EvidenceFiles`, `DirectoryWalk`, `Confirmation`,
`EvidencePublication`, `DryRun`, `ExampleRuns`). A `Kernel` object is the file system seen from one run: parent
entries, inodes, file bytes, descriptors, and a ghost log of the calls with the state before and after each. Before
every call other processes may change anything except the directory that the run is staging, its files and the entry
that names it, and every call may fail. `PublishEvidenceBundle` follows the try statement, its handlers and its
finally block; the confirmation after the rename walks down the parent's path, with every open and close in the log.
Over all runs the target name changes at most once, from absent to a directory with exactly the four payloads, and
with a guard the two calls before the rename found revision and state as expected. A file is opened, wrapped in a file
object, and read or written and closed, in three calls; the calls of `fsync` and `fstat` have their events. The
function returns exactly when no call failed and every reading, listing, walk and identity found what it should
(`Clean`), and every other end has its call. No descriptor is closed twice unless a close fails in the walk; none
stays open that was not open before unless that happens or an opened file cannot be wrapped. `RunDryRun` is
`_run_dry_run` around it: the steps that make none of these calls are parameters that say whether and how they fail.
It plans exactly when nothing hinders it, and is blocked exactly when there are findings and the state is unchanged at
the second reading.

**The fingerprint stream** (`FingerprintFraming`, `StreamLayout`). The bytes given to the hash before hashing: length
framing, its decoder, the records of one repository state, where each of them stands, and the order of the untracked
paths. The hash is not modelled.

**The JSON contract validator** (`JsonSchema`, `JsonContract`, `JsonTheorems`, `JsonMeaning`, `JsonRanks`,
`AllOfOrder`, `AlikeRanks`, `RefReading`, `JsonValidator`). `Raises`, `Satisfies` and `Violations` say when validation
raises, what a schema means, and which findings there are; `ValidateInstance` is the validator with its loops, proved
to return exactly those findings, sorted and without repetition. `JsonMeaning` spells every keyword out in its own
terms. Schemas may refer to themselves: the hypothesis `Covered` is a table of schemas with a rank that falls along
`$ref` and `allOf`, and the recursion is on the instance, then on the rank. `JsonRanks.RankIffLoopless` says when
there is such a table: exactly when no chain of `$ref` and `allOf` returns to its start.

**Counting audits and bounded findings** (`BoundedFindings`, `EdgeAudit`, `EdgeMeaning`, `AuditGaps`). The edge
audit's counters, classes, policy signals and truncated finding list, each read off the records, and the running total
of the gap report.

**Relations frontmatter** (`RelationsParsers`, `RelationsRoundTrip`, `FrontmatterRoundTrip`). Both readers line by
line, the printing of entries and bare texts as a canonical block, and the round trip through both, with other fields,
blank lines and comments around and inside, and any indentation.

**Path scopes and handoffs** (`PathScope`, `HandoffBinding`, `HandoffTheorems`, `HandoffMeaning`). Normalising
repository paths, matching scopes, the guard that compares allowed with forbidden scopes, the binding of a handoff to
its task, the findings of each of its seventeen codes, and the handoff of a dry run.

**Markdown rows** (`MarkdownRow`, `MarkdownCells`). The splitter for task-board rows, and a grammar of the cells that
survive being printed in a row.

`Ordering`, `Text`, `Bytes` and `Wrappers` hold what Python's library provides: stable sorting, `sorted` of a set,
`split`, `join`, `strip`, bytes, and optional values.

## Results that differ from what one might expect

- `json_contract` applies the keywords beside `$ref`. Section 8.3 of draft-handrews-json-schema-01 says that they are
  ignored. The model follows the code. Whatever satisfies a schema in the code's reading does so in the other;
  `RefReading.ReadingsAgree` says when they agree, `RefReading.ReadingsDiffer` is a schema and an instance on which they
  do not.
- A type mismatch returns one finding and drops all others of that node, also those of `$ref` and `allOf`.
- An explicit `null` is not an absent keyword everywhere: `additionalProperties: null` forbids additional properties,
  and a `null` under `allOf`, `required` or `properties` makes the validator raise where it iterates over it. `Raises`
  says exactly where.
- An error that leaves `publish_evidence_bundle` carries the evidence path exactly when the rename happened. One level up
  this holds only conditionally: the handler in `_run_dry_run` looks at the repository state again, and if that check
  fails its own error replaces the one with the path. `DryRun.RunDryRun` states this as an if-and-only-if.
- The walk in `_open_directory_no_symlinks` closes a descriptor twice, and leaves the newest one open, exactly when a
  close fails while the next component is already open (`DirectoryWalk.CloseLost`, a property of the logged calls). The
  same holds of the double close in a whole publication, whose only walk is the one after the rename.
- A publication leaves a descriptor open exactly when a close is lost in that walk, or when `os.fdopen` refuses an opened
  payload file, whose descriptor nobody closes then; after the rename another process can bring this about by putting a
  directory in the file's place. Either way the run ends with `OUTPUT_FINALIZATION_UNCONFIRMED`, or before the rename with
  `OUTPUT_WRITE_FAILED`.
- `review_impact` keeps the last document of an id in the forward map and all of them in the reverse map. With a shared
  id the maps need not be transposes of each other; `TransposeIffNothingLost` gives the condition. A reported cycle always
  shows in the impact sets of its ids, but a document can impact itself without a reported cycle:
  `NoCyclesIffNoSelfImpact` says exactly when, `SharedIdHidesCycle` is such a case.
- Of the two readers of `relations` only relations_parser takes quotes off the values. `ReadersAgree` says exactly when
  they yield the same list, `QuotedValueDiffers` is a file on which they do not.
- The scope guard strips trailing slashes. Between directories it decides coverage exactly; `PathScope.GuardExact` lists
  the two families of scopes that it blocks although the forbidden scope does not cover the allowed one.

## Model

| member | source | states |
|---|---|---|
| DependencyGraph.BuildDependsOnGraph | scripts/docmeta/generate_relations_analysis.py:77-80 | the loop builds `DependsOnGraph`: keys in order of the first `depends_on` edge of each source, with its targets in edge order |
| DependencyGraph.TargetsInOrder | scripts/docmeta/generate_relations_analysis.py:77-80 | the targets of a source are those of its edges, one for each, in their order |
| DependencyGraph.SourcesInOrder | scripts/docmeta/generate_relations_analysis.py:77-80 | the keys come in the order of their first edges |
| DependencyGraph.NextIffEdge | scripts/docmeta/generate_relations_analysis.py:77-80 | the graph has a step exactly where there is a `depends_on` edge |
| CycleDetection.RecursiveSearch.Dfs | scripts/docmeta/review_impact.py:108-120 | one recursive visit: entered nodes, cycles and finishing order are those of `Visit`, and the recursion stack is restored |
| CycleDetection.RecursiveSearch.FindCycles | scripts/docmeta/review_impact.py:103-126 | from empty collections the search returns `CyclesOf` the graph |
| IterativeCycles.FindCycles | scripts/docmeta/generate_relations_analysis.py:69-126 | for every edge list the iterative search terminates with the list of the recursive one: empty exactly when no `depends_on` edges form a loop; every report is such a loop without repetition; every loop takes an edge that ends a report; and the reports of each node are all the loops its successors close on one simple path to it |
| IterativeCycles.SearchGraph | scripts/docmeta/generate_relations_analysis.py:86-124 | the two nested loops compute `CyclesOf`; unfinished nodes, fresh frames and stack height bound the inner loop |
| IterativeCycles.Step | scripts/docmeta/generate_relations_analysis.py:90-124 | one pop keeps the stack invariant and what unwinding the whole stack would still yield |
| IterativeCycles.Scan | scripts/docmeta/generate_relations_analysis.py:107-119 | scanning from a resume index reports the back edges up to the first unvisited neighbour |
| IterativeCycles.UnwindPushed | scripts/docmeta/generate_relations_analysis.py:114-117 | pushing a continuation and a new frame means visiting the neighbour and then resuming the node |
| IterativeCycles.PopStep | scripts/docmeta/generate_relations_analysis.py:121-123 | finishing a node moves it from the stack to the finished set and leaves the rest of the work as it was |
| CycleTheorems.ReportsAreSimpleCycles | scripts/docmeta/generate_relations_analysis.py:113-115 | every reported list is a closed walk of the graph that repeats no node but its ends |
| CycleTheorems.ExploreFinishes | scripts/docmeta/review_impact.py:108-120 | without a report every entered node is finished, and all its neighbours finished before it |
| CycleTheorems.NoReportIffAcyclic | scripts/docmeta/generate_relations_analysis.py:69-126 | nothing is reported exactly when the graph has no closed walk |
| CycleTheorems.EveryLoopMeetsReport | scripts/docmeta/generate_relations_analysis.py:107-119 | every closed walk takes an edge with which a report ends: without these edges the graph is acyclic |
| CycleTheorems.ReportsPerNode | scripts/docmeta/generate_relations_analysis.py:110-114 | for each node there is one simple path to it such that the reports whose last edge leaves the node are the loops that its successors close on that path, each occurrence and in order |
| ReviewImpact.BuildDependencies | scripts/docmeta/review_impact.py:59-100 | forward map and file map hold the last document of each id, the forward map in the order of the first ones; the reverse map holds every occurrence of a dependency |
| ReviewImpact.LastWithIsLast | scripts/docmeta/review_impact.py:91-95 | the document kept for an id is the last one that declares it |
| ReviewImpact.IdsInOrder | scripts/docmeta/review_impact.py:91-95 | the ids come in the order of their first documents |
| ReviewImpact.MarksCount | scripts/docmeta/review_impact.py:97-100 | a document is recorded once for every occurrence of a dependency |
| ReviewImpact.TransposeIffNothingLost | scripts/docmeta/review_impact.py:91-100 | the two maps are transposes of each other exactly when no earlier document of a shared id has a dependency that the last one lacks |
| ReviewImpact.DistinctIdsTranspose | scripts/docmeta/review_impact.py:91-100 | with distinct ids the reverse map is the transpose of the forward map |
| ReviewImpact.TransitiveImpact | scripts/docmeta/review_impact.py:149-161 | the worklist terminates with exactly the ids reachable by a non-empty path in the reverse map |
| ReviewImpact.NoCyclesIffNoSelfImpact | scripts/docmeta/review_impact.py:103-161 | a reported cycle means that some document is in its own impact set; the converse holds exactly unless all dependencies form a loop but those of the last documents do not |
| ReviewImpact.ReportedCycleImpactsItself | scripts/docmeta/review_impact.py:103-161 | every id on a reported cycle is in its own impact set, whatever ids the documents share |
| ReviewImpact.DecidedByTwoSearches | scripts/docmeta/review_impact.py:103-128 | the exceptional condition is decided by the same cycle search, on the forward map and on the dependencies of all documents |
| ReviewImpact.NothingLostNoHiddenLoop | scripts/docmeta/review_impact.py:91-100 | it does not occur when no overwritten document has a dependency that the last one lacks |
| ReviewImpact.SharedIdHidesCycle | scripts/docmeta/review_impact.py:91-100 | two documents with one id that meet the exceptional condition: no cycle is found although the id is in its own impact set |
| ReviewImpact.HarmlessLoss | scripts/docmeta/review_impact.py:91-100 | two documents that lose a dependency without meeting it |
| RelatesClusters.BuildAdjacency | scripts/docmeta/generate_relates_to_audit.py:145-152 | every `relates_to` edge gives both directions, other kinds give nothing |
| RelatesClusters.FindComponent | scripts/docmeta/generate_relates_to_audit.py:160-171 | the search lists, once each, exactly the nodes connected to the start |
| RelatesClusters.FindRelatesToClusters | scripts/docmeta/generate_relates_to_audit.py:137-176 | the sorted clusters cover exactly the endpoints of `relates_to` edges, by decreasing size, ties by smallest member, the members of each ascending |
| RelatesClusters.ClusterIffConnected | scripts/docmeta/generate_relates_to_audit.py:157-176 | two documents share a cluster exactly when they are connected ignoring direction; no document is in two clusters |
| FileSystem.Kernel.RenameNoReplace | scripts/agent/run_task.py:697-732 | the rename succeeds only while the source name exists and the target name is free, and then moves exactly that entry |
| FileSystem.Kernel.Wrap | scripts/agent/run_task.py:634 | a file is wrapped only if it is a regular one; where that fails the descriptor stays open |
| FileSystem.Kernel.CreateFile | scripts/agent/run_task.py:628-633 | exclusive creation adds one empty file to the directory being staged, under a name that was free, and changes nothing else |
| FileSystem.Kernel.OpenFile | scripts/agent/run_task.py:641-645 | opening finds what the name stands for in the directory at that moment, regular or not |
| FileSystem.Kernel.WriteFile | scripts/agent/run_task.py:635-637 | writing changes only that file and closes it; what it stored is not known before it is read back |
| FileSystem.Kernel.OpenPart | scripts/agent/run_task.py:667 | a component opens what the name stands for in the directory of the descriptor at that moment |
| FileSystem.Kernel.Close | scripts/agent/run_task.py:668 | an open descriptor is gone even when the close reports a failure; closing any other descriptor fails |
| FileSystem.Kernel.Sync | scripts/agent/run_task.py:693-694 | one event for each call, which changes nothing and may fail |
| EvidenceFiles.WritePayloads | scripts/agent/run_task.py:1152-1153 | completing means that no call failed and that the four payloads were created, wrapped and written, one after the other, after which an empty directory has exactly their names; a descriptor stays open exactly when one cannot be wrapped, and every other end has a failed call |
| EvidenceFiles.CheckPayloads | scripts/agent/run_task.py:1154-1165 | completing means that the directory holds exactly the four payloads; otherwise a call failed or a file read back differs |
| EvidenceFiles.FilesByReading | scripts/agent/run_task.py:1154-1164 | with exactly the four names listed, and each opened, wrapped and read back, the directory holds exactly the four payloads |
| EvidenceFiles.PrePublishGuard | scripts/agent/run_task.py:1166-1167 | completing with a guard means that the last two calls found revision and state as expected |
| Confirmation.ConfirmParent | scripts/agent/run_task.py:986-1025 | completing means that the path led component by component to the directory of the parent descriptor; a descriptor is closed twice and one stays open exactly when a close in the walk is lost; the runner errors carry the evidence path |
| Confirmation.ConfirmTarget | scripts/agent/run_task.py:1028-1062 | completing means that the target name stood for the published directory; errors carry the evidence path |
| Confirmation.Confirm | scripts/agent/run_task.py:1170-1194 | completing means that the parent was synced and parent path, target name and all four payloads were confirmed after the rename; otherwise a call failed or one of them was not what it should be |
| EvidencePublication.Attempt | scripts/agent/run_task.py:1148-1194 | the whole try block: what it may call, when it counts as published, and which descriptors it leaves, with one more exactly when a close is lost or a file cannot be wrapped |
| EvidencePublication.CleanupStaging | scripts/agent/run_task.py:952-973 | lists, unlinks what was listed, closes and removes the run's own directory, going on after every failure |
| EvidencePublication.Finally | scripts/agent/run_task.py:1212-1256 | the calls of the finally block on every path, and the two exits that leave the parent open |
| EvidencePublication.PublishEvidenceBundle | scripts/agent/run_task.py:1143-1257 | over every fault path: the target changes at most once, only from absent to the four payloads and right after the recheck; own files only, no removal after publication; a descriptor is closed twice exactly when a close in the walk after the rename fails with the next component open; one stays open that was not exactly then or when an opened file cannot be wrapped; otherwise staging and parent are closed unless the block raises; evidence path exactly when renamed; it returns exactly when no call failed and all found what they should, and every other end has its call |
| EvidencePublication.ReturnedIffClean | scripts/agent/run_task.py:1148-1257 | the normal return is equivalent to a log without a failed call in which every reading, listing, walk and identity is the expected one |
| DryRun.CheckRepository | scripts/agent/run_task.py:1417-1423 | completing means that revision and then state were read and equal to the expectation, and every other end has its reading and code |
| DryRun.PersistEvidence | scripts/agent/run_task.py:1381-1415 | run id and clock are checked before anything is called; a publication is preceded directly by both checks, and the path is known exactly when there was one |
| DryRun.Body | scripts/agent/run_task.py:1327-1423 | the revision is read and validated; completing means that both were equal to it and to the first state in the last two calls, or just before the rename |
| DryRun.RunDryRun | scripts/agent/run_task.py:1260-1436 | from the first reading of the state: planned exactly when no step fails, the revision is valid, all readings are equal and, if evidence is kept, its publication returns; blocked exactly when there are findings and the second reading equals the first; otherwise the error of the try statement as its handler makes it. A publication was rechecked against what was read first, and is reported with its path exactly when the handler's last check did not fail |
| DryRun.RunIdMeans | scripts/agent/run_task.py:65 | a run id is a date, a time of day and twelve hexadecimal digits between fixed separators |
| DryRun.RevisionMeans | scripts/agent/run_task.py:55 | a revision is forty lower-case hexadecimal digits |
| ExampleRuns.PathLostAfterPublication | scripts/agent/run_task.py:1425-1436 | a complete log with a published bundle: reported with its path if the handler finds the state as before, without it if not |
| ExampleRuns.FinishedIsSafe | scripts/agent/run_task.py:1148-1257 | the calls of that publication satisfy all that is proved of every log |
| DirectoryWalk.OpenDirectoryNoSymlinks | scripts/agent/run_task.py:660-675 | success means that the components led to the directory of the one descriptor left open; a descriptor is closed twice, and the newest left open, exactly when a close failed with the next component open |
| ExampleRuns.WalkBothWays | scripts/agent/run_task.py:660-675 | a complete log of a walk that arrives, and the same with a lost close: closed twice, and the component left open |
| ExampleRuns.DirectoryStaysOpen | scripts/agent/run_task.py:640-647 | a payload name that stands for a directory: opened, not wrapped, and left open without a lost close |
| FingerprintFraming.BigEndianRoundTrip | scripts/agent/run_task.py:340 | the eight length bytes determine every length below 2^64 |
| FingerprintFraming.DecodeEncode | scripts/agent/run_task.py:338-341 | the decoder inverts the framing of all parts below the length limit |
| FingerprintFraming.StreamDeterminesState | scripts/agent/run_task.py:432-442 | equal streams mean equal head, index diff, worktree diff and untracked records |
| FingerprintFraming.HashRecord | scripts/agent/run_task.py:338-341 | appends the framing of label and payload, or reports the overflow of a length |
| FingerprintFraming.ListingOrderIrrelevant | scripts/agent/run_task.py:437 | the order in which untracked paths were listed does not matter, and none is lost or doubled |
| FingerprintFraming.RepositoryStateStream | scripts/agent/run_task.py:432-450 | what was hashed is the encoding of the state; otherwise the head changed, a path could not be read, or a length overflowed |
| StreamLayout.StreamMeans | scripts/agent/run_task.py:432-447 | each part stands behind its name, each name and each part behind its length in eight bytes, in the order head, index diff, worktree diff, and path, kind, mode and content of every untracked file |
| StreamLayout.LengthMeans | scripts/agent/run_task.py:340 | the eight length bytes are the digits to base 256, the most significant first, and reach up to 2^64 |
| StreamLayout.PathsAscend | scripts/agent/run_task.py:437 | the untracked paths ascend by their bytes: a prefix first, else by the first difference |
| JsonSchema.ResolvePointer | scripts/agent/json_contract.py:77-90 | the token loop finds the object at the decoded key path, or nothing |
| JsonSchema.DecodeInvertsEncode | scripts/agent/json_contract.py:82 | decoding inverts the escaping of section 3 of RFC 6901 for every token |
| JsonSchema.EscapedPathResolves | scripts/agent/json_contract.py:77-90 | an escaped key path resolves to the object at that path and to nothing else |
| JsonContract.ChecksDescend | scripts/agent/json_contract.py:217-302 | every inner call is about a smaller value, or about the same value and a schema of smaller rank |
| JsonTheorems.SatisfiesMeans | scripts/agent/json_contract.py:217-333 | the meaning of a schema, keyword by keyword, for those that apply further schemas |
| JsonMeaning.TypeMeans | scripts/agent/json_contract.py:186-197 | what each of the five types accepts, and the one finding for everything else |
| JsonMeaning.TypeOkMeans | scripts/agent/json_contract.py:226-228 | the type of a schema with any other keywords |
| JsonMeaning.ObjectMeans | scripts/agent/json_contract.py:234-255 | an object satisfies its keywords exactly when all required fields are there and, unless open, none is undeclared |
| JsonMeaning.ArrayMeans | scripts/agent/json_contract.py:257-309 | an array satisfies its keywords: bounds, uniqueness, and no item beyond a closed list of schemas |
| JsonMeaning.StringMeans | scripts/agent/json_contract.py:311-328 | a string satisfies its keywords: bounds and pattern |
| JsonMeaning.EnumMeans | scripts/agent/json_contract.py:230-232 | an enumeration holds exactly when some listed value is equal in Python |
| JsonMeaning.PyEqMeans | scripts/agent/json_contract.py:231 | two values are equal in Python exactly when they are with 0 for false and 1 for true |
| JsonMeaning.ObjectFindingsMean | scripts/agent/json_contract.py:234-255 | which finding stands at which path of an object, and for which fault |
| JsonMeaning.ArrayFindingsMean | scripts/agent/json_contract.py:257-309 | the same of an array |
| JsonMeaning.StringFindingsMean | scripts/agent/json_contract.py:311-328 | the same of a string |
| JsonMeaning.EnumFindingsMean | scripts/agent/json_contract.py:230-232 | the same of an enumeration |
| JsonMeaning.OwnFindingsMean | scripts/agent/json_contract.py:230-328 | what a node reports itself: about its enumeration and, by the kind of value, about the object, array or string |
| JsonMeaning.FindingsMean | scripts/agent/json_contract.py:204-333 | a finding of a node of fitting type is its own or comes from its reference, an `allOf` child, a declared property or an item; otherwise there is the one about the type |
| JsonMeaning.SameReported | scripts/agent/json_contract.py:217-224 | what the reference and the `allOf` children contribute |
| JsonMeaning.PropertyReported | scripts/agent/json_contract.py:242-253 | what the declared properties contribute, each below its name |
| JsonMeaning.ItemReported | scripts/agent/json_contract.py:280-302 | what the items contribute, each below its index |
| Text.DecimalRead | scripts/agent/json_contract.py:276 | an index is written in decimal digits that stand for it, without leading zeros |
| JsonMeaning.SupportedMeans | scripts/agent/json_contract.py:93-183 | a schema is supported exactly when its keywords are known and well formed and all schemas inside it are supported |
| JsonMeaning.KeysMean | scripts/agent/json_contract.py:25-44 | the known keywords |
| JsonMeaning.AssertionsMean | scripts/agent/json_contract.py:107-146 | the values that the assertion keywords may have |
| JsonMeaning.ApplicatorsMean | scripts/agent/json_contract.py:103-183 | the values that the other keywords may have |
| JsonMeaning.InsideMeans | scripts/agent/json_contract.py:148-183 | which schemas are inside a node |
| JsonMeaning.RaisesMeans | scripts/agent/json_contract.py:204-333 | validation raises exactly where a schema is unsupported, the node raises by itself, or a call inside does |
| JsonMeaning.OwnRaisesMeans | scripts/agent/json_contract.py:217-245 | a node raises by itself at a reference that names no object, and where the code iterates over an explicit null |
| JsonTheorems.NoFindingsIffSatisfied | scripts/agent/json_contract.py:204-333 | where validation does not raise, no findings means exactly that the instance satisfies the schema |
| JsonTheorems.FindingBelow | scripts/agent/json_contract.py:204-333 | every reported path extends the starting path |
| AllOfOrder.AllOfOrderIrrelevant | scripts/agent/json_contract.py:204-333 | order and repetition of `allOf` lists, at any depth of the schema and of the root that references resolve in, change neither findings nor raising |
| AlikeRanks.ReorderedRoot | scripts/agent/json_contract.py:213-224 | a call whose schema is its own root, with `allOf` lists reordered anywhere in it, terminates too and has the same outcome |
| AlikeRanks.ReorderedRanks | scripts/agent/json_contract.py:217-224 | where a schema has a rank table, so has every reordering of it under every reordering of the root |
| AlikeRanks.LooplessReordered | scripts/agent/json_contract.py:217-224 | chains that do not return to their start stay so when lists are reordered |
| AlikeRanks.ReorderedNeverRaises | scripts/agent/json_contract.py:204-224 | a reordering of a supported, closed and loopless root makes no call raise |
| AlikeRanks.ClosedNeedNotStay | scripts/agent/json_contract.py:77-90 | a closed root and a reordering of it whose reference leaves the tree: the reordering is in an annotation |
| AllOfOrder.PointerAlike | scripts/agent/json_contract.py:77-90 | a reference resolves to nodes that differ in the order of `allOf` lists only, if their roots do |
| JsonTheorems.SupportedRootNeverRaises | scripts/agent/json_contract.py:93-183 | a supported root whose references stay in its tree, without nulls where the code iterates, makes no call raise |
| JsonRanks.RankIffLoopless | scripts/agent/json_contract.py:217-224 | a rank table for a complete set of schemas exists exactly when no chain of `$ref` and `allOf` on one instance returns to its start |
| JsonRanks.LooplessRootNeverRaises | scripts/agent/json_contract.py:204-224 | a supported root without such a chain has a table of its whole tree, and no call raises |
| JsonTheorems.NumberFreeEquality | scripts/agent/json_contract.py:231 | without numbers Python's equality in `enum` is equality of JSON values |
| RefReading.SatisfiedInBoth | scripts/agent/json_contract.py:217-333 | what satisfies a schema still does when everything beside `$ref` is ignored |
| RefReading.ReadingsAgree | scripts/agent/json_contract.py:217-333 | both readings agree where only annotations and definitions stand beside a reference |
| RefReading.ReadingsDiffer | scripts/agent/json_contract.py:217-229 | a schema with a type beside its reference and an instance that only the code rejects |
| JsonValidator.SameInstancePart | scripts/agent/json_contract.py:217-224 | collects the findings of `$ref` and `allOf`, or raises because one of them does |
| JsonValidator.KeysPart | scripts/agent/json_contract.py:242-255 | every key contributes its property's findings or the unexpected field |
| JsonValidator.UniquePart | scripts/agent/json_contract.py:270-278 | one finding at each index whose value occurred before |
| JsonValidator.ItemsPart | scripts/agent/json_contract.py:280-302 | every item that has a schema is validated against it |
| JsonValidator.ValidateInstance | scripts/agent/json_contract.py:204-333 | raises exactly when `Raises` says so, else returns the findings strictly sorted by path and message |
| JsonValidator.ValidateType | scripts/agent/json_contract.py:186-228 | on a schema that only names a type the validator returns no finding for the values of that type and one for all others |
| BoundedFindings.AppendKeepsPrefix | scripts/docmeta/audit_domain_edge_references.py:368-375 | sorting one more finding into the first k keeps the first k of all |
| BoundedFindings.FindingLog.Append | scripts/docmeta/audit_domain_edge_references.py:358-377 | the list holds the first k of the stable sort of all findings; truncation is reported exactly when there are more than k |
| BoundedFindings.FindingLog.Finish | scripts/docmeta/audit_domain_edge_references.py:545 | the report is the stable sort of all findings, cut at the limit |
| BoundedFindings.ReportMeans | scripts/docmeta/audit_domain_edge_references.py:350-377 | the report is sorted by classification, side, edge and target; only findings that come after all reported ones are left out, and only beyond the limit; findings with the same key stay in the order in which they were found |
| Ordering.TextLeMeans | scripts/docmeta/audit_domain_edge_references.py:350-356 | texts ascend by their characters: a prefix first, else by the first difference |
| EdgeAudit.LoadNodes | scripts/docmeta/audit_domain_edge_references.py:169-218 | the ids found, and every counter of the node records with the kind of line it counts |
| EdgeAudit.ClassifyEdgeSide | scripts/docmeta/audit_domain_edge_references.py:303-348 | the class of a side, and a finding with the safe form of the type hint exactly when the side is no clean reference |
| EdgeAudit.AuditEdges | scripts/docmeta/audit_domain_edge_references.py:419-493 | every counter is the count of its property over the records, and the log holds all findings in order |
| EdgeAudit.RecordsConserved | scripts/docmeta/audit_domain_edge_references.py:251-268 | records are auditable, malformed, invalid or no objects, and nothing else |
| EdgeAudit.SidesConserved | scripts/docmeta/audit_domain_edge_references.py:453-491 | the six classes sum to twice the auditable edges |
| EdgeAudit.MissingConserved | scripts/docmeta/audit_domain_edge_references.py:462-493 | missing sides are edges with any plus edges with both sides missing |
| EdgeAudit.PolicySignals | scripts/docmeta/audit_domain_edge_references.py:495-543 | each signal in terms of the counters |
| EdgeAudit.ReadyIff | scripts/docmeta/audit_domain_edge_references.py:495-515 | the readiness signal on the counters is readiness of the records |
| EdgeAudit.Audit | scripts/docmeta/audit_domain_edge_references.py:379-567 | the balanced report, whose signals are those of its counters; readiness holds exactly for clean runtime records whose sides all resolve, and then implies no finding and no cleanup or policy signal |
| EdgeMeaning.ClassMeans | scripts/docmeta/audit_domain_edge_references.py:303-348 | every side is of the one class that its id and its hint describe |
| EdgeMeaning.SummaryMeans | scripts/docmeta/audit_domain_edge_references.py:419-493 | each counter is the number of places in the file that show its property, read off the records |
| EdgeMeaning.FindingsMean | scripts/docmeta/audit_domain_edge_references.py:419-491 | the findings line by line: one for a malformed record, else those of source and target with class, reference and hint |
| EdgeMeaning.NodeIdsMean | scripts/docmeta/audit_domain_edge_references.py:194-210 | the node ids are the texts that some object has as its id, without the blank ones |
| RelationsParsers.ExtractLine | scripts/docmeta/relations_parser.py:85-130 | one pass of the line loop of relations_parser |
| RelationsParsers.ExtractRelationsFromContent | scripts/docmeta/relations_parser.py:60-136 | the loop over the lines between the first two markers |
| RelationsParsers.ParseLine | scripts/docmeta/docmeta.py:82-161 | one pass of the line loop of parse_frontmatter, for the relations field |
| RelationsParsers.ParseFrontmatterRelations | scripts/docmeta/docmeta.py:65-169 | the loop over the lines of the matched frontmatter |
| RelationsRoundTrip.PairsHold | scripts/docmeta/relations_parser.py:117-130 | the item of an entry holds exactly the printed key and value pairs |
| RelationsRoundTrip.ExtractDocument | scripts/docmeta/relations_parser.py:85-136 | reading the lines of a document gives the printed entries without the quotes around values, and the bare texts, in their order, with any other fields, blank lines and comments around |
| RelationsRoundTrip.ExtractRoundTrip | scripts/docmeta/relations_parser.py:60-136 | the same for whole files; the entries come back as printed exactly when no value is quoted |
| RelationsRoundTrip.CanonicalRoundTrip | scripts/docmeta/relations_parser.py:60-136 | any list of entries and bare texts printed under the heading is read back without quotes, and as it was exactly when no value is quoted |
| RelationsRoundTrip.ExtractEmptyList | scripts/docmeta/relations_parser.py:97-104 | `relations: []` opens no list |
| RelationsRoundTrip.QuotesGo | scripts/docmeta/relations_parser.py:51-57 | matching quotes are taken off, and no others |
| RelationsRoundTrip.NoiseIff | scripts/docmeta/relations_parser.py:86-92 | a line is passed over exactly when it is blank or its first visible character is a hash |
| Text.StrippedCharacters | scripts/docmeta/relations_parser.py:86 | which characters `strip` removes |
| RelationsRoundTrip.HeadingDecides | scripts/docmeta/relations_parser.py:95-104 | a line with a colon that starts with neither space nor tab decides whether a list is open, and no other line does |
| RelationsRoundTrip.NoMarksNothing | scripts/docmeta/relations_parser.py:73-78 | without two markers, the first at the very start, there are no relations |
| FrontmatterRoundTrip.ParseDocument | scripts/docmeta/docmeta.py:82-167 | parse_frontmatter reads the printed entries, quotes included, from the same lines |
| FrontmatterRoundTrip.ParseRoundTrip | scripts/docmeta/docmeta.py:65-169 | the same for whole files |
| FrontmatterRoundTrip.InlineListRead | scripts/docmeta/docmeta.py:141-147 | an inline list is read as its bare items |
| FrontmatterRoundTrip.InlineQuotesGo | scripts/docmeta/docmeta.py:144-146 | quotes around an inline item are taken off |
| FrontmatterRoundTrip.ScalarRead | scripts/docmeta/docmeta.py:156-161 | a single value is no list |
| FrontmatterRoundTrip.LineBreaks | scripts/docmeta/docmeta.py:82 | at which characters lines end |
| FrontmatterRoundTrip.MarkerLines | scripts/docmeta/docmeta.py:73-76 | a field is found only after an opening marker line and before another one |
| FrontmatterRoundTrip.ReadersAgree | scripts/docmeta/docmeta.py:65-169 | on these files both readers yield the same list exactly when no value is enclosed in matching quotes |
| FrontmatterRoundTrip.QuotedValueDiffers | scripts/docmeta/relations_parser.py:51-57 | a file with one quoted value: one reader keeps the quotes, the other takes them off |
| PathScope.NormalizeIff | scripts/agent/validate_handoff.py:64-81 | a value normalises to its cleaned text exactly when that is a normal path |
| PathScope.NormalMeans | scripts/agent/validate_handoff.py:64-81 | a normal path character by character: no slash or drive letter in front, no backslash, no white space at its ends, and neither nothing nor dots between its slashes, of which it may end with one |
| PathScope.NormalizeIdempotent | scripts/agent/validate_handoff.py:64-81 | normalisation is idempotent and yields normal paths only |
| PathScope.SlashPrefixIffSegments | scripts/agent/validate_handoff.py:89-90 | prefixing up to a slash is proper prefixing of segments |
| PathScope.MatchesBySegments | scripts/agent/validate_handoff.py:84-91 | a scope matches exactly the file paths inside it, segment by segment |
| PathScope.BlocksIffPrefix | scripts/agent/check_non_ideal_task.py:72-83 | on normal scopes the guard is prefixing of segments |
| PathScope.DirectoryGuardExact | scripts/agent/check_non_ideal_task.py:76-83 | between directories the guard blocks exactly when every path in the allowed scope is in the forbidden one |
| PathScope.GuardExact | scripts/agent/check_non_ideal_task.py:76-83 | the guard never misses a covered scope, and blocks without coverage in exactly two cases |
| HandoffBinding.ValidatePaths | scripts/agent/validate_handoff.py:124-179 | the findings about declared paths, contradictions and deletions, in their order |
| HandoffBinding.ValidateClaims | scripts/agent/validate_handoff.py:182-204 | undeclared and unaddressed claims, each sorted |
| HandoffBinding.ValidateEvidence | scripts/agent/validate_handoff.py:207-283 | the findings about produced, missing and expected evidence |
| HandoffBinding.ValidateResults | scripts/agent/validate_handoff.py:286-364 | repeated and missing results, and contradictory outcomes |
| HandoffBinding.ValidateBinding | scripts/agent/validate_handoff.py:367-398 | identity, digest and the four validations, in their order |
| HandoffTheorems.CleanIffConsistent | scripts/agent/validate_handoff.py:367-398 | binding finds nothing exactly when task and handoff are consistent |
| HandoffMeaning.BindingMeans | scripts/agent/validate_handoff.py:124-398 | for each of the seventeen codes its findings are about exactly what is wrong in that way: listed entries as often and in the order in which they are listed, names once and ascending, repeated results with their places, and the outcomes that contradict the rest |
| HandoffMeaning.BindingInOrder | scripts/agent/validate_handoff.py:367-398 | the report goes through codes and fields in one fixed order |
| HandoffTheorems.ReadyMeansDone | scripts/agent/validate_handoff.py:325-341 | a clean handoff that is ready for review: every required command passed, every expected file exists, all claims are addressed |
| HandoffTheorems.DryRunFindings | scripts/agent/run_task.py:505-526 | the dry-run handoff has one finding per expected evidence path that does not normalise and one per repeated command, and no others |
| HandoffTheorems.InvalidMultiplicity | scripts/agent/validate_handoff.py:253-267 | each such path is reported as often as it is listed |
| HandoffTheorems.RepeatedCount | scripts/agent/validate_handoff.py:291-302 | there are as many repetitions as commands beyond the distinct ones |
| HandoffTheorems.DryRunClean | scripts/agent/run_task.py:505-526 | it is clean exactly with neither defect |
| HandoffTheorems.NothingPassed | scripts/agent/run_task.py:505-526 | a dry run reports none of the required commands as passed |
| MarkdownRow.SplitMarkdownRow | scripts/docmeta/generate_task_index.py:170-207 | the scan yields the cells of `Cells`, and nothing for a line that is no row |
| MarkdownRow.CellsRead | scripts/docmeta/generate_task_index.py:180-204 | a text with balanced code spans and no bare pipe is read into one cell |
| MarkdownRow.SplitRowOfCells | scripts/docmeta/generate_task_index.py:170-207 | splitting a printed row of well-formed cells gives back exactly the cells |
| MarkdownRow.EscapedCell | scripts/docmeta/generate_task_index.py:183-186 | every trimmed text is a well-formed cell once its pipes, backticks and backslashes are escaped |
| MarkdownCells.GrammarWellFormed | scripts/docmeta/generate_task_index.py:180-204 | every trimmed text of plain characters, escape pairs and code spans of k backticks without an inner run of k is a well-formed cell |
| AuditGaps.Aggregation.Process | scripts/docmeta/generate_audit_gaps.py:43-78 | after each document the total is the number of stored gaps and the map holds the last gaps of each id |
| AuditGaps.Aggregate | scripts/docmeta/generate_audit_gaps.py:24-78 | the same at the end of a run; an id is present exactly when its last list is not empty |
| AuditGaps.DistinctTotal | scripts/docmeta/generate_audit_gaps.py:24-78 | without repeated ids the total counts every gap of every document |

## Left out

- Calls of git, `psql`, ctypes and the operating system are steps that may fail; SHA-256 is not modelled, so nothing is
  said about collisions.
- How the descriptors of the evidence parent are acquired (`_acquire_default_evidence_target`,
  `_acquire_custom_evidence_target`) and the schema and binding checks before staging: how they end is a parameter.
- Loading and checking the task, the plan and the handoff of a dry run: how they end is a parameter. The two timestamps
  compared for the clock error are numbers.
- Descriptor numbers: the model never hands out a number again, so a second close fails instead of hitting a newer file.
- The close that a file object does is part of reading or writing, and has no entry of its own in the log.
- Changes to the files inside the private staging directory by other processes: only this run writes there until the rename.
- JSON text, numbers other than integers, `pattern` (a predicate of the context), the wording of messages (a function
  of what they say), and `json.dumps` in `uniqueItems`, where the model compares values.
- A list under the schema keyword `type` raises a TypeError in the code; the model counts it as an unsupported schema.
- What happens with a schema whose `$ref` or `allOf` chain on one instance is endless: the code then exceeds Python's
  recursion limit.
- File discovery, manifests, warnings, report files, argument parsing and exit codes of the docmeta tools.
- The file names derived from impacted ids, and the choice between `depends_on` and legacy relations.
- Fields other than `relations` in `parse_frontmatter`, and reading files with other encodings or line endings.
- Markdown rows without the closing pipe, board sections and task states.
- The other checks of the non-ideal-task guard, and the hash by which the edge audit hides references and hints.
- FrontmatterRoundTrip.ParseRoundTrip: holds for blocks whose lines start with a space, with a trimmed value on one line for each key.
