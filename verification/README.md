# Verification models for PyFlow

A Dafny 4.11 project that models the hard parts of PyFlow's language server,
its program transformations and its pinned analysis results, and proves
properties of every run or every input. `dafny verify dfyconfig.toml` checks it.

## What is modelled

**Editor state and snapshots.** `Documents` keeps versioned overlays under a
revision. `AnalysisManager` has the locked sections of the manager;
`SnapshotProtocol` interleaves them with the unlocked reads between them, for
any number of concurrent operations, and `SnapshotOperations` says what each
operation does when nothing interferes. Revisions always agree in the end, and
every published program has a known origin. Texts need more: `SnapshotTexts`
says of each kind of publication, under any overlap of operations, when it leaves
the texts right, and `SnapshotRaces` reaches the interleavings that lose an edit.
There the code contradicts the comment at `src/pyflow/lsp/server.py:291-293`:
a load can publish an older revision after a newer one.

**Source index.** `SourceIndex` and `IncrementalIndex` follow a file from its
text through its shard to its resolution, and prove that reusing cached
resolutions outside the dependency closure gives the index built from scratch.
The proof needs every qualified name to belong to the file of its longest module
prefix, and a fixed path-to-module map; `StaleIndexExamples` shows both are
needed. `Resolver` covers alias chains, `Positions`, `RetainedRanges` and
`RenameEdits` the arithmetic of offsets, lines and UTF-16 columns.

**Transformations.** `CallIR` is a small intermediate representation with an
evaluator: locals by identity, Python's argument binding (`BindMeans`, `BoundValues`
and `BoundOthers` say what it binds), a store threaded through calls, fuel for
recursion. `ArgumentNormalization` proves that replacing
`*args` of known length preserves every call; `ArgumentNormalizationPass` adds
the guards and the loop over the live code. The analysis does not visit method
names and `*`/`**` operands, so `HiddenVariadicUse` gives a program that the
guards accept and the rewrite breaks, and says for single calls exactly when one
breaks. `CallLowering` and `LoweringMeaning`
treat the lowering of operators to intrinsic calls; setters are evaluated value
first (`src/pyflow/language/python/ast.py`) but called with the value last, and
the condition under which nobody can tell is stated exactly, unbound locals
included: two calls in the wrong order can be told apart, and so can a reference
that fails before or after a call.

**Traversals and results.** `AstCollector` proves the explicit-stack collector
equal to the recursive visitor, `ProgramCuller` the call graph search and the
direct-call worklist equal to reachability (`Reachability`), and `Session`
characterises lookups in the result registry by the history of events.

**Transport and handler.** `Framing` reads and writes framed messages,
`Dispatcher` runs one task per message with the request table, cancellation and
the output lock, `RefreshLoop` and `PublishEpochs` are the background refresh
and the diagnostics pushed per document. Tasks are cooperative: a step runs from
one suspension point to the next. The section behind the output lock has no
suspension point, so the lock is always free when a task asks for it, and
requests are answered however often they are cancelled; `Dispatcher` also says
what would hold if something could be suspended behind the lock.

Classes hold the fields the source updates in place, and their methods are
proved against the functions that the state machines and lemmas use. Clocks,
file contents, parsing, `difflib`, JSON and handler results are parameters or
choices of the environment.

## Model

| member | source | states |
|---|---|---|
| `SnapshotProtocol.NextSound` | src/pyflow/lsp/server.py:290-359 | every step of every interleaving of edits, refreshes, loads, configurations and closes keeps the protocol invariant: history sound, captures sound, and the current snapshot up to date or an update owed |
| `SnapshotProtocol.QuiescentSnapshotIsCurrent` | src/pyflow/lsp/server.py:398-475 | in every run, once all operations have returned and a snapshot of the current generation is published, its source revision is the documents' revision |
| `SnapshotProtocol.PublishedHistory` | src/pyflow/lsp/server.py:95-115 | in every run published revisions strictly increase; a fresh snapshot has its own revision as semantic revision and a program that is empty or extracted from its own sources, a stale one carries program and semantic revision of an earlier fresh one |
| `SnapshotProtocol.OnlyCurrentBuildsArePublished` | src/pyflow/lsp/server.py:431-475 | a step publishes only by finishing a build captured in the generation that is current at that moment, and never on a closed manager |
| `SnapshotProtocol.NothingPublishedAfterClose` | src/pyflow/lsp/server.py:499-522 | from a close to the next configuration nothing is published and nothing can be read, in every run |
| `SnapshotProtocol.AnalysesPublishInOrder` | src/pyflow/lsp/server.py:290-357 | in every run compiler analyses are published in the order of the document revisions they analysed |
| `SnapshotTexts.PatchAgreesExactlyWhenItsBaseDoes` | src/pyflow/lsp/server.py:441-451 | in every run the patch of one path publishes its open text, or else its text on the disk if it is a workspace file, or drops it, and keeps all else; it leaves all published texts in agreement with the open documents if and only if the captured snapshot agreed on every other file |
| `SnapshotTexts.FullPublicationAgrees` | src/pyflow/lsp/server.py:421-451 | in every run, whatever overlaps, a publication of all files publishes exactly the workspace's files and the open Python documents: open ones with their current text, others with the text read from the disk |
| `SnapshotTexts.SourceLoadPublishes` | src/pyflow/lsp/server.py:85-117 | in every run a source load, at whatever revision, publishes exactly the listed files and the open Python documents, each with the text it read: open text, else disk text, else empty |
| `SnapshotTexts.CurrentSourceLoadAgrees` | src/pyflow/lsp/server.py:85-117 | in every run a source load committed at the documents' revision leaves every open listed and Python document published with its text |
| `SnapshotTexts.CompilerLoadAgreesExactly` | src/pyflow/lsp/server.py:290-357 | in every run a compiler load publishes exactly the listed files it could read, overlay before disk, and its texts are right if and only if what it read is the current text of every open listed file |
| `SnapshotTexts.LoadReadTogetherAgrees` | src/pyflow/lsp/server.py:290-357 | it does when no operation on the documents was accepted between its two reads and none since |
| `SnapshotTexts.SequentialTextsAgree` | src/pyflow/lsp/server.py:398-451 | when operations run one at a time, every published text of an open document is the document's text whenever none is in flight |
| `SnapshotRaces.ConcurrentEditsLoseText` | src/pyflow/lsp/server.py:441-451 | from every idle state two overlapping edits of different files have an interleaving that ends at the right revision with the first edit missing from the published texts |
| `SnapshotRaces.LoadCanMissAnEdit` | src/pyflow/lsp/server.py:294-295 | a load that reads overlays and revision one after the other can publish the disk text under the revision of an edit it did not see, with no repair owed |
| `SnapshotRaces.LoadCanOverwriteNewer` | src/pyflow/lsp/server.py:290-293 | a load can publish an older source revision after a newer one; the check after its commit then still owes a publication |
| `SnapshotOperations.MutationAlone` | src/pyflow/lsp/server.py:398-416 | run on its own, an accepted operation on a document publishes that document over the earlier semantics on a loaded manager, and nothing before the first load |
| `SnapshotOperations.RefreshAlone` | src/pyflow/lsp/server.py:124-140 | run on its own, a refresh takes over the discovered files and publishes exactly them and the open Python documents |
| `SnapshotOperations.SourceLoadAlone` | src/pyflow/lsp/server.py:85-117 | run on its own, a source load starts a generation and publishes all it is to list with an empty program |
| `SnapshotOperations.ReloadAlone` | src/pyflow/lsp/server.py:290-357 | run on its own with the analysis lock free, a reload publishes the program of the listed files it could read and frees the lock |
| `SnapshotOperations.ConfiguredLoadAlone` | src/pyflow/lsp/server.py:290-357 | the same for a load that starts a generation |
| `SnapshotOperations.FailedLoadAlone` | src/pyflow/lsp/server.py:290-357 | a compiler load that fails leaves the system as it was |
| `AnalysisManager.AnalysisManager.ConfigureWorkspace` | src/pyflow/lsp/server.py:512-522 | starts a new generation, opens the manager and leaves the old snapshot in place |
| `AnalysisManager.AnalysisManager.CommitLoad` | src/pyflow/lsp/server.py:95-115 | publishes with the next revision exactly when the captured generation is current and the manager open; otherwise nothing changes |
| `AnalysisManager.AnalysisManager.CommitSyntax` | src/pyflow/lsp/server.py:452-475 | publishes captured semantics over new sources exactly when not closed, not reconfigured and not overtaken by a newer document revision |
| `AnalysisManager.AnalysisManager.PublishSyntaxSnapshot` | src/pyflow/lsp/server.py:421-497 | run alone, leaves a snapshot at the documents' revision; a publication of all files has exactly the workspace's files and open Python documents, with open text, else disk text, else empty; a patch has its path's open text, else disk text if in the workspace, else drops it, and keeps every other entry |
| `AnalysisManager.AnalysisManager.LoadSourceFiles` | src/pyflow/lsp/server.py:85-117 | run alone, leaves a loaded, open manager with a fresh snapshot at the documents' revision of exactly the listed files and open Python documents, with open text, else disk text, else empty |
| `Documents.WorkspaceDocuments.Open` | src/pyflow/lsp/workspace.py:265-278 | accepts and stores the text exactly when the version is not stale; a refusal changes nothing |
| `Documents.WorkspaceDocuments.Change` | src/pyflow/lsp/workspace.py:280-316 | accepts exactly when not stale and every change applies, storing their in-order result; a stale or malformed edit changes nothing |
| `Documents.WorkspaceDocuments.Close` | src/pyflow/lsp/workspace.py:318-324 | forgets an open document under a new revision and reports whether there was one |
| `Documents.ChangeReplaces` | src/pyflow/lsp/workspace.py:297-313 | a ranged change with positions in order replaces exactly the text between them by the text it brings, a full one replaces all, and any other fails |
| `Documents.RevisionCountsAccepted` | src/pyflow/lsp/workspace.py:265-324 | over every run the revision grows by exactly the number of accepted operations |
| `Documents.RevisionDeterminesOverlays` | src/pyflow/lsp/workspace.py:265-336 | two moments of a run with the same revision have the same documents, texts and versions |
| `Documents.OnlyAcceptedLeaveATrace` | src/pyflow/lsp/workspace.py:280-316 | an operation is accepted exactly when it leaves a new revision; a rejected one leaves the state as it was |
| `Documents.DocumentIsFoldOfItsEvents` | src/pyflow/lsp/workspace.py:280-316 | after every run a document is the in-order fold of the accepted operations on its own path |
| `Documents.VersionsStrictlyIncrease` | src/pyflow/lsp/workspace.py:268-276 | while versions are supplied and the document stays open, its version rises strictly with every accepted operation |
| `Positions.LspCharacterToOffset` | src/pyflow/lsp/workspace.py:51-58 | the counting loop finds the first index at which the given UTF-16 units are used up |
| `Positions.UnitsAreUtf16` | src/pyflow/lsp/workspace.py:51-62 | columns count the code units of the UTF-16 encoding |
| `Positions.SplitLinesAreLines` | src/pyflow/lsp/workspace.py:361-361 | lines are cut behind line breaks and nowhere else, CR LF counting as one |
| `Positions.PositionDenotes` | src/pyflow/lsp/workspace.py:360-367 | a position denotes the first place of its line behind which as many UTF-16 units of the line lie as its column says, the line's end, or the text's end |
| `Positions.CharacterRoundTrip` | src/pyflow/lsp/workspace.py:51-62 | the column of an offset in a line, read back, is that offset |
| `Positions.RowAtBrackets` | src/pyflow/lsp/workspace.py:536-541 | the row found for an offset is the one whose start and successor's start enclose it |
| `Positions.CoordinatesRoundTrip` | src/pyflow/lsp/workspace.py:360-367 | for every offset of every text, writing it as line and UTF-16 column and reading it back is the identity |
| `Positions.OffsetMonotone` | src/pyflow/lsp/workspace.py:360-367 | a later position never denotes an earlier offset |
| `Positions.PositionRoundTrip` | src/pyflow/lsp/workspace.py:360-367 | reading a position and writing it back gives the same position if and only if it is canonical |
| `RetainedRanges.CommonPrefixLength` | src/pyflow/lsp/workspace.py:468-472 | the loop finds the longest common prefix |
| `RetainedRanges.CommonSuffixLength` | src/pyflow/lsp/workspace.py:473-477 | the loop finds the longest common suffix outside the prefix |
| `RetainedRanges.IndentedRows` | src/pyflow/lsp/workspace.py:498-517 | the table has exactly the rows of matching blocks, each with the shift to a row of equal content |
| `RetainedRanges.Align` | src/pyflow/lsp/workspace.py:468-517 | the two loops and the row table make an alignment of the texts: longest common ends, matching blocks, and exactly the rows matched up to indentation |
| `RetainedRanges.MappedMeans` | src/pyflow/lsp/workspace.py:519-534 | an offset is mapped by its row if that is in the table and the offset in its content, else by the first block that holds it, else by common prefix or suffix, else not at all |
| `RetainedRanges.RangeIsKeptExactly` | src/pyflow/lsp/workspace.py:543-557 | a range is kept if and only if both ends are mapped and its text is found between the mapped ends, where it is then placed |
| `RetainedRanges.FullRangeLands` | src/pyflow/lsp/workspace.py:543-557 | a full range lands with mapped ends where they are mapped, a lost start at the front of the edit, a lost end at its back, the end not before the start |
| `RetainedRanges.KeptEntriesStay` | src/pyflow/lsp/workspace.py:568-606 | every entry whose range is kept stays in its new place |
| `RetainedRanges.MappedInBounds` | src/pyflow/lsp/workspace.py:519-534 | the offset mapping never leaves the new text |
| `RetainedRanges.MappedKeepsTheCharacter` | src/pyflow/lsp/workspace.py:519-534 | away from block ends a mapped offset points at the character it pointed at before the edit |
| `RetainedRanges.KeptRangeSpellsTheSame` | src/pyflow/lsp/workspace.py:543-557 | a range kept through a syntax error spells in the new source exactly what it spelled in the old one |
| `RetainedRanges.FullRangeSurvives` | src/pyflow/lsp/workspace.py:543-557 | a full declaration range is never dropped and its ends stay in order inside the new text |
| `RetainedRanges.OutsideTheEditIsMapped` | src/pyflow/lsp/workspace.py:519-534 | an offset before or behind the edited interval is never lost |
| `RetainedRanges.RetainedSpellTheSame` | src/pyflow/lsp/workspace.py:568-606 | every retained reference, call, target, dynamic write or keyword comes from an old one for the same item and spells the same text |
| `RetainedRanges.RetainedSymbolsSpellTheSame` | src/pyflow/lsp/workspace.py:559-567 | every retained symbol is an old one whose name spells the same text, with the ends of its declaration in order inside the new text |
| `RenameEdits.ApplyEdits` | src/pyflow/lsp/refactor.py:26-40 | applying sorted disjoint edits from last to first gives the left-to-right splice of gaps and replacements |
| `RenameEdits.TranslateLoop` | src/pyflow/lsp/refactor.py:60-68 | the accumulating loop computes the position that the recursive description gives |
| `RenameEdits.TranslateFollowsTheText` | src/pyflow/lsp/refactor.py:60-68 | an unedited offset lands on the same character of the new text, the end on the end, and an edited one at the start of its replacement |
| `RenameEdits.TranslateStrictlyIncreasing` | src/pyflow/lsp/refactor.py:60-68 | on unedited offsets the translation is strictly increasing |
| `Resolver.ImportTargetMeans` | src/pyflow/lsp/resolution.py:62-78 | an import that starts with a visible namespace names itself, any other is taken relative to the innermost enclosing package under which it starts with a namespace, if there is one |
| `Resolver.CanonicalSettlesFirst` | src/pyflow/lsp/resolution.py:45-60 | on every finite alias graph, cyclic ones included, canonicalisation returns the first symbol of the chain that has no target or lies on a cycle |
| `Resolver.FirstSettledUnique` | src/pyflow/lsp/resolution.py:45-60 | there is only one such first symbol |
| `Resolver.CanonicalIdempotent` | src/pyflow/lsp/resolution.py:45-60 | canonicalising twice is canonicalising once |
| `Resolver.OneAliasPassSuffices` | src/pyflow/lsp/workspace.py:1001-1015 | one lookup in the alias map is canonicalisation for every symbol, and a second changes nothing |
| `SourceIndex.ResolveFile` | src/pyflow/lsp/workspace.py:675-765 | the loops with the shared alias map compute the resolution described symbol by symbol, with the dependencies it records |
| `SourceIndex.ResolutionMeans` | src/pyflow/lsp/workspace.py:675-765 | each reference resolves to what its known target, or else its own symbol, settles on, each call to what its callee settles on with the module as default caller, and the dependencies are exactly the files these and the imports' longest module prefixes lead to |
| `SourceIndex.WorkspaceMeans` | src/pyflow/lsp/workspace.py:767-830 | the workspace tables hold under each key the entry of the last file that has one, the module of each parsed file and every declared symbol |
| `SourceIndex.LongestModuleLoop` | src/pyflow/lsp/workspace.py:750-757 | dropping trailing parts finds the file of the longest prefix that is a module |
| `IncrementalIndex.AffectedFiles` | src/pyflow/lsp/workspace.py:626-673 | the worklist returns exactly the touched files and what depends, through any number of files, on a changed interface, or all files when the file set changed or a file with fixtures or a dynamic write is reached |
| `IncrementalIndex.AffectedMeans` | src/pyflow/lsp/workspace.py:626-673 | told by files and fields: everything when files came or went or a reached file has fixtures or dynamic writes, else the touched files and all reached from a touched one whose symbols, imports, fixtures or health changed |
| `IncrementalIndex.Rebuild` | src/pyflow/lsp/workspace.py:767-930 | holds for each file its cached resolution outside the affected set and a new one inside, with exactly their reverse dependencies |
| `IncrementalIndex.WithSourceFiles` | src/pyflow/lsp/workspace.py:441-458 | an unchanged text keeps its shard, a changed one that parses gets exactly its parse, one that does not parse an earlier good shard rebased, or its parse when there is none; resolutions are reused or computed |
| `IncrementalIndex.TextEditsKeepModules` | src/pyflow/lsp/workspace.py:441-458 | once every file has parsed, edits of texts keep the path-to-module map and only changed files may get another shard |
| `IncrementalIndex.UnaffectedResolvesTheSame` | src/pyflow/lsp/workspace.py:905-929 | a file outside the affected set keeps exactly the resolution it would be given anew |
| `IncrementalIndex.ReusedIsFresh` | src/pyflow/lsp/workspace.py:905-929 | reusing cached resolutions gives the same resolved references, calls and dependencies as resolving every file from scratch |
| `IncrementalIndex.EverySessionStaysFresh` | src/pyflow/lsp/workspace.py:441-458 | in every session of edits over a fixed file set and module map, each index equals the one built from scratch |
| `IncrementalIndex.EveryTextSessionStaysFresh` | src/pyflow/lsp/workspace.py:441-458 | over every sequence of texts of a fixed set of once parsed files that define only names their own files own, each index that updating the one before gives equals the one built from scratch |
| `IncrementalIndex.ParsedTextsAreRead` | src/pyflow/lsp/workspace.py:452-457 | in every session, files coming and going, a file whose text parses has exactly the parse of that text |
| `IncrementalIndex.ParsedTextsLeaveNoHistory` | src/pyflow/lsp/workspace.py:441-458 | when all texts parse, the index is the resolution from scratch of the parses of the texts, whatever the session was |
| `StaleIndexExamples.UnownedNameGoesStale` | src/pyflow/lsp/workspace.py:750-757 | an edit that defines a name under another file's module prefix leaves an importing file with its old resolution |
| `StaleIndexExamples.PackageNameIsUnowned` | src/pyflow/lsp/workspace.py:750-757 | the name that edit defines belongs to another file, which a condition of the reuse theorem excludes |
| `StaleIndexExamples.OrdinaryEditFollows` | src/pyflow/lsp/workspace.py:626-673 | an edit that changes an imported interface meets every condition of the reuse theorem and affects the importing file |
| `StaleIndexExamples.RepairedFileGoesUnnoticed` | src/pyflow/lsp/workspace.py:750-757 | when a file that never parsed starts to parse, an importing file keeps its unresolved reference |
| `ArgumentNormalization.NormalizedParameters` | src/pyflow/optimization/argumentnormalization.py:256-301 | the extra locals become the last positional parameters under names no keyword matches, `*args` goes, defaults are dropped only with extra locals, all else stays |
| `ArgumentNormalization.BindNormalized` | src/pyflow/optimization/argumentnormalization.py:281-299 | called with exactly the accepted arguments, a code and its normalisation bind corresponding locals, the extra ones holding the items of the variadic tuple, with defaults dropped |
| `ArgumentNormalization.SpreadArgs` | src/pyflow/optimization/argumentnormalization.py:208-249 | passing the extra locals positionally passes what `*args` passed |
| `ArgumentNormalization.SameInvoke` | src/pyflow/optimization/argumentnormalization.py:256-301 | every invocation of the whole program, recursive ones included, gives the same result, store or failure before and after normalising one code |
| `ArgumentNormalization.NormalizationPreservesCalls` | src/pyflow/optimization/argumentnormalization.py:256-301 | normalising `*args` of known length preserves every call from outside the code for bodies that use the variadic local only as `*args` and call sites the blocker accepts |
| `ArgumentNormalizationPass.AcceptedBody` | src/pyflow/optimization/argumentnormalization.py:85-122 | a body is free of the variadic local if and only if the analysis accepts it and the expressions the analysis skips do not mention it |
| `ArgumentNormalizationPass.ApplicableExactly` | src/pyflow/optimization/argumentnormalization.py:122-176 | the analysis reports a length if and only if the code is standard, not descriptive, all known lengths of its variadic local are that one, and it uses the local nowhere the analysis looks |
| `ArgumentNormalizationPass.UnblockedExactly` | src/pyflow/optimization/argumentnormalization.py:321-372 | the blocker lets a code pass if and only if it is no entry point and no method and every call in the program that may reach it reaches only it, with exactly the positional arguments |
| `ArgumentNormalizationPass.UntouchedBody` | src/pyflow/optimization/argumentnormalization.py:193-251 | a body free of the rewritten locals is left as it is, so under the guards the branches that extend argument lists never fire |
| `ArgumentNormalizationPass.ChosenExactly` | src/pyflow/optimization/argumentnormalization.py:375-422 | the pass chooses exactly the lengths that analysis and blocker accept, zero included |
| `ArgumentNormalizationPass.NormalizingOne` | src/pyflow/optimization/argumentnormalization.py:321-372 | one rewrite chosen by analysis and blocker changes no call of an entry point and no body |
| `ArgumentNormalizationPass.Pass.Evaluate` | src/pyflow/optimization/argumentnormalization.py:375-422 | the loop over the live code, in any order, normalises exactly the codes chosen by the program before the pass, reports whether there was one, and no call of an entry point changes its outcome |
| `HiddenVariadicUse.HiddenUseShowsExactly` | src/pyflow/optimization/argumentnormalization.py:85-122 | for an accepted code that returns one call over references and operations on them, normalisation preserves every accepted call of it under all machines, stores and fuels if and only if no operand the analysis skips mentions the variadic local |
| `HiddenVariadicUse.OneCallSplits` | src/pyflow/optimization/argumentnormalization.py:85-122 | of one call the analysis sees callee or receiver, positional and keyword arguments, and misses the method name and the operands of `*` and `**` |
| `HiddenVariadicUse.GuardsAccept` | src/pyflow/optimization/argumentnormalization.py:90-108 | a program whose variadic local occurs inside a `*` operand passes analysis and blocker |
| `HiddenVariadicUse.NormalizationChangesTheOutcome` | src/pyflow/optimization/argumentnormalization.py:256-301 | on that program the entry point returns before normalisation and raises for an unbound local after it |
| `CallLowering.ExportForExactly` | src/pyflow/optimization/callconverter.py:114-267 | an operator gets an export whose name stands for it, sized and plain builders first; without one optional operators stay and the others fail; a global access also needs an own local |
| `CallLowering.LoweredForm` | src/pyflow/optimization/callconverter.py:35-46 | an operator with an export becomes a direct call with positional arguments only, the own local first at a global access, a setter's value last, dropped behind a setter and unpacked behind an unpacking |
| `CallLowering.LoweringTellsByTheTree` | src/pyflow/optimization/callconverter.py:49-267 | lowering fails if and only if some part of the tree misses a needed export; otherwise it leaves no part that something is exported for |
| `CallLowering.LoweredIsSettled` | src/pyflow/optimization/callconverter.py:49-267 | lowering leaves no operator it has an unconditional or available export for |
| `CallLowering.LoweringIsIdempotent` | src/pyflow/optimization/callconverter.py:282-286 | lowering twice equals lowering once |
| `CallLowering.LoweringSucceedsWhenLowerable` | src/pyflow/optimization/callconverter.py:114-267 | lowering fails exactly when some operator of the tree misses a needed export |
| `CallLowering.Code.Convert` | src/pyflow/optimization/callconverter.py:270-286 | lowers in place once: fails exactly when a part misses a needed export and then keeps body and flag, leaves no part that something is exported for, and does not touch a code already lowered |
| `LoweringMeaning.EvalKeeps` | src/pyflow/optimization/callconverter.py:229-267 | evaluating a tree changes no local that it does not bind |
| `LoweringMeaning.ValueFirstOrLast` | src/pyflow/optimization/callconverter.py:238-267 | independent setter operands give the same values, effects and failures, unbound locals included, whether the value is evaluated first or last |
| `LoweringMeaning.PickedDenotes` | src/pyflow/optimization/callconverter.py:114-267 | when every export does what the operator its name stands for does, the export that lowering picks does what the operator does |
| `LoweringMeaning.IntrinsicMeansOperator` | src/pyflow/optimization/callconverter.py:38-43 | an intrinsic call with its arguments in call order does what the operator does |
| `LoweringMeaning.LoweringPreservesMeaning` | src/pyflow/optimization/callconverter.py:49-267 | under every interpretation in which each export does what the operator its name stands for does, a lowered tree with independent setter operands has the same values, stores, exits and failures from every store that binds the locals assumed bound |
| `LoweringMeaning.SimpleSettersExactly` | src/pyflow/optimization/callconverter.py:238-267 | given the locals known to be bound, a setter with simple operands keeps its meaning under all interpretations and stores if and only if calls are on one side only and no reference that may be unbound can fail at a visibly different moment |
| `LoweringMeaning.OrderShows` | src/pyflow/optimization/callconverter.py:238-267 | for operands outside that condition there is a store from which the lowered setter has another outcome |
| `AstCollector.GetOps.Dispatch` | src/pyflow/analysis/astcollector.py:29-161 | the recursive dispatcher collects what the recursive description says, up to a type error |
| `AstCollector.GetOps.Process` | src/pyflow/analysis/astcollector.py:163-246 | the explicit-stack loop ends on every finite tree with exactly what the recursive visitor collects, or the same partial result and type error |
| `AstCollector.PushedAreVisited` | src/pyflow/analysis/astcollector.py:211-245 | pushing nodes in reverse visits them in order before the rest of the stack |
| `AstCollector.VisitAllCollects` | src/pyflow/analysis/astcollector.py:29-161 | visiting succeeds if and only if all values are supported, and then adds operations in post-order, copies in pre-order and the set of symbols |
| `AstCollector.GetAll` | src/pyflow/analysis/astcollector.py:255-258 | succeeds if and only if no unsupported value occurs below the root; the operations are exactly those that occur, in post-order, the copies those that occur, in pre-order, and the symbols those that occur |
| `AstCollector.OperationOrder` | src/pyflow/analysis/astcollector.py:66-161 | for each kind of node its operations are those of its parts in the order of the parts, then the node itself if it is one |
| `AstCollector.CopyOrder` | src/pyflow/analysis/astcollector.py:66-75 | for each kind of node its copies are the node itself if it is one, then those of its parts in order |
| `ProgramCuller.EdgesMean` | src/pyflow/analysis/programculler.py:75-107 | a node calls another if and only if all its call facts are published and one of them names the other |
| `ProgramCuller.CallGraphFinder.Children` | src/pyflow/analysis/programculler.py:75-107 | fails exactly when a call fact of the node is missing; otherwise lists its targets and keeps all tables exact projections of the processed nodes |
| `ProgramCuller.CallGraphFinder.Process` | src/pyflow/analysis/programculler.py:27-36 | ends on a finite universe; adds only reached nodes with published facts and processed successors, or fails because something below lacks a fact |
| `ProgramCuller.MakeCGF` | src/pyflow/analysis/programculler.py:110-152 | succeeds if and only if every entry is published and everything the entries reach has its facts; the processed nodes are then exactly those reached |
| `ProgramCuller.FindLiveContexts` | src/pyflow/analysis/programculler.py:171-174 | maps each live code to exactly the contexts in which the entries reach it |
| `ProgramCuller.FindLiveCode` | src/pyflow/analysis/programculler.py:155-168 | gives exactly the live codes and the call graph between them, headed by the entries |
| `ProgramCuller.DirectEdgesMean` | src/pyflow/api/ifds.py:308-324 | a code calls another directly if and only if one of its operations is a direct call of it |
| `ProgramCuller.DirectCallTargets` | src/pyflow/api/ifds.py:308-324 | the worklist returns exactly the codes that direct calls reach from the seeds |
| `ProgramCuller.DirectCallTargetsAreLeast` | src/pyflow/api/ifds.py:308-324 | that set is the least one with the seeds and closed under direct calls |
| `Reachability.ReachStaysInClosed` | src/pyflow/api/ifds.py:308-324 | a set with the seeds and closed under successors contains everything reached |
| `Session.LookupIsLastSparedRecord` | src/pyflow/application/session.py:30-60 | in every history a lookup gives r if and only if r is the last result recorded under the key and every event since spared it |
| `Session.NothingIsRevived` | src/pyflow/application/session.py:101-132 | once a result cannot be looked up, no later event but recording under its key brings one back |
| `Session.KeyOfKey` | src/pyflow/application/session.py:71-78 | analysis keys are not aliases of other keys |
| `Session.AliasesAre` | src/pyflow/application/session.py:71-78 | the refresh, simplify and path-sensitive names stand for their analyses and all other names for themselves |
| `Session.AnalysisSession.SetOptions` | src/pyflow/application/session.py:101-108 | new options retire all results and the pass manager; equal options change nothing |
| `Session.AnalysisSession.MarkAsChanged` | src/pyflow/application/session.py:124-132 | advances the revision and re-stamps exactly the preserved results that were current before |
| `Session.AnalysisSession.GetPassManager` | src/pyflow/application/session.py:90-99 | a pass manager in use was built for the current options |
| `Dispatcher.AnsweredHoweverOftenCancelled` | src/pyflow/lsp/transport.py:326-334 | as long as nothing is suspended holding the output lock, exactly the responses due are sent however often a request is cancelled, and no task waits for the lock |
| `Dispatcher.EveryMessageIsAnsweredOnce` | src/pyflow/lsp/transport.py:212-251 | in every run a single message has at most one response, with its id; once its task has ended it has exactly the responses due to it unless it was cancelled twice |
| `Dispatcher.RequestsAndNotifications` | src/pyflow/lsp/transport.py:253-320 | a valid request other than `$/cancelRequest` cancelled at most once is answered once with its id, a valid notification never |
| `Dispatcher.ReceivedCancellationReachesItsTarget` | src/pyflow/lsp/transport.py:286-291 | a received `$/cancelRequest` cancels exactly the task registered under the id it names, when there is one, changes no other task and sends nothing |
| `Dispatcher.CancellationRoundTrip` | src/pyflow/lsp/transport.py:235-251 | a request in its handler that a received cancellation names is answered with the error for cancelled requests under its id |
| `Dispatcher.FirstStretchReplies` | src/pyflow/lsp/transport.py:253-320 | what is sent for a message that ends in its first stretch: each invalid form, unknown method, result and failure has its code of section 5.1 of JSON-RPC 2.0 and notifications get nothing |
| `Dispatcher.LaterStretchReplies` | src/pyflow/lsp/transport.py:295-320 | a handler that ends after it was suspended is answered in the same way |
| `Dispatcher.StepsKeepForeignEntries` | src/pyflow/lsp/transport.py:249-251 | no step changes the table entry of another task, except that a starting task takes over its own id; a finished task has no entry |
| `Dispatcher.DuplicateIdKeepsItsOwnerExactly` | src/pyflow/lsp/transport.py:235-251 | in every state of the invariant, when another task with the id of a registered task ends, the registered task keeps its entry if and only if the other had been running; one that begins and ends in a single stretch withdraws the entry it took over |
| `Dispatcher.DuplicateIdsDoNotInterfere` | src/pyflow/lsp/transport.py:249-251 | a running request that ends leaves the entry of the task registered under the same id, and a cancellation for the id still reaches that task |
| `Dispatcher.TwoRequestsWithOneId` | src/pyflow/lsp/transport.py:235-251 | that situation is reached: two running requests share an id, the first ends and the second is cancelled |
| `Dispatcher.DueToRequestsAndNotifications` | src/pyflow/lsp/transport.py:253-320 | the responses due by the code agree with sections 4.1 and 5 of JSON-RPC 2.0 for valid requests and notifications |
| `Dispatcher.JsonRpcServer.Dispatch` | src/pyflow/lsp/transport.py:212-251 | a task from its start to its first suspension moves the server exactly as the state machine says |
| `Dispatcher.JsonRpcServer.WakeSender` | src/pyflow/lsp/transport.py:326-334 | a sender that wakes writes once, or follows the cancellation branches |
| `Framing.DecimalParses` | src/pyflow/lsp/transport.py:58 | a printed length parses back |
| `Framing.DigitsAreRead` | src/pyflow/lsp/transport.py:186-187 | a text is read as a length if and only if it is digits with single underscores between them |
| `Framing.HeaderMeans` | src/pyflow/lsp/transport.py:178-195 | a line of blanks ends the headers, one without a colon is malformed, the length is told by its name in any case and has to be a number, other headers are passed over |
| `Framing.BadHeaders` | src/pyflow/lsp/transport.py:178-195 | behind any passed headers the end of the stream gives no message and a malformed or unreadable line an error, after which reading goes on behind it |
| `Framing.HeadersAndBody` | src/pyflow/lsp/transport.py:197-206 | a missing length and one that is negative or too large give their errors and reading goes on, a stream cut off ends it, and else exactly so many bytes are the body |
| `Framing.LastLengthWins` | src/pyflow/lsp/transport.py:176-196 | a header part of well-formed lines gives the last Content-Length, whatever other headers there are, and ends after its blank line |
| `Framing.FrameIs` | src/pyflow/lsp/transport.py:49-62 | a framed message is its Content-Length line, the Content-Type line if there is one, a blank line and the body |
| `Framing.FrameRoundTrip` | src/pyflow/lsp/transport.py:49-62 | a framed message within the size limit is read back, with or without Content-Type, leaving exactly the bytes behind it |
| `Framing.FramesRoundTrip` | src/pyflow/lsp/transport.py:176-206 | any concatenation of framed messages is read as their bodies in order, followed by whatever the remaining bytes give |
| `Framing.ReadMessage` | src/pyflow/lsp/transport.py:176-210 | the reading loop gives the described outcome (message, missing or malformed header, bad length, size limit, truncation, end) and leaves the described rest |
| `Framing.Run` | src/pyflow/lsp/transport.py:144-163 | the reader loop reports every outcome in order until the stream ends or is cut off |
| `RefreshLoop.OneWorkerPerFlag` | src/pyflow/lsp/lsp_handler.py:317-368 | in every run, shutdowns included, at most one refresh task is live at every suspension point; until a shutdown a set dirty flag implies a live task that has not cleared it |
| `RefreshLoop.NotificationLeadsToRefresh` | src/pyflow/lsp/lsp_handler.py:291-293 | each notification is followed by a refresh that starts after it, unless the current worker was cancelled by a shutdown and has not run since: three steps of the worker suffice whatever else happens, even when refreshes raise |
| `RefreshLoop.NotificationHeardExactly` | src/pyflow/lsp/lsp_handler.py:317-332 | after any run, shutdowns included, a notification in a loaded state leads to a refresh before all workers have ended if and only if the current worker was not a live cancelled one |
| `RefreshLoop.RefreshRepeatedExactly` | src/pyflow/lsp/lsp_handler.py:334-368 | after any run a refresh is repeated without further notifications if and only if a watched file changed during it, or it succeeded and another publication overtook its sources |
| `RefreshLoop.WorkersEnd` | src/pyflow/lsp/lsp_handler.py:334-368 | left to themselves, the workers come to an end from every state of the invariant |
| `RefreshLoop.NotificationLostAfterStop` | src/pyflow/lsp/lsp_handler.py:324-332 | such a state is reached by a shutdown, a load and a notification before the cancelled worker has run |
| `RefreshLoop.LspHandler.RunSemanticRefresh` | src/pyflow/lsp/lsp_handler.py:334-368 | each stretch of the worker between suspension points moves flag, task and attempts as the state machine says |
| `RefreshLoop.LspHandler.ScheduleSemanticReload` | src/pyflow/lsp/lsp_handler.py:317-322 | sets the flag and starts a worker exactly when none is live |
| `PublishEpochs.OnePublisherPerDocument` | src/pyflow/lsp/lsp_handler.py:255-263 | at every suspension point a document has at most one un-cancelled publish task, it is the one in the table, of the latest epoch, and the document is open |
| `PublishEpochs.EveryEditIsPublished` | src/pyflow/lsp/lsp_handler.py:204-263 | every accepted open, every accepted change and every save of a recorded document cancels the document's earlier tasks, and its own task, left to run, writes diagnostics under the recorded version |
| `PublishEpochs.DiagnosticsAreForOpenDocuments` | src/pyflow/lsp/lsp_handler.py:265-289 | diagnostics are written only for a document open at that moment, by its one publisher, for the latest epoch and under the version the handler recorded |
| `PublishEpochs.RecordFollowsTheStoreExactly` | src/pyflow/lsp/lsp_handler.py:204-248 | in every run the handler's record of a document agrees with the document store if and only if the last step that bore on the document left them in agreement: an open that has to wait repeats the record, an open that waited finds its version in the store, a change finds the document recorded; any other open and a close always do |
| `PublishEpochs.RecordFollowsTheStore` | src/pyflow/lsp/lsp_handler.py:204-248 | while every step meets its condition, the whole record of open documents and versions is the store's |
| `PublishEpochs.TakenIsTheStoresStep` | src/pyflow/lsp/workspace.py:265-324 | the versions compared with the record are those of the document store, call by call |
| `PublishEpochs.UnopenedChangeIsNotRecorded` | src/pyflow/lsp/lsp_handler.py:217-232 | the store takes a change of a document that was never opened, and the handler does not record it |
| `PublishEpochs.WaitingOpenForgetsAChange` | src/pyflow/lsp/lsp_handler.py:209-215 | an open that waited for the first load overwrites the version of a change made meanwhile, and diagnostics carry the older version |
| `PublishEpochs.NothingAfterShutdown` | src/pyflow/lsp/lsp_handler.py:265-289 | after a shutdown no diagnostics are written in any run, whatever tasks were running |
| `PublishEpochs.CloseSettlesExactly` | src/pyflow/lsp/lsp_handler.py:204-248 | in every reachable state a close leaves diagnostics to come, without the client opening the document again, if and only if the server pushes, is not shut down and an open of the document still waits for the first load |
| `PublishEpochs.CloseOvertakesUnloadedOpen` | src/pyflow/lsp/lsp_handler.py:204-215 | before the first load a close can overtake an open, after which diagnostics are pushed for the closed document |
| `PublishEpochs.LspHandler.HandleDidClose` | src/pyflow/lsp/lsp_handler.py:235-248 | withdraws document and task, starts a new epoch and writes the empty list when pushing |
| `PublishEpochs.LspHandler.PublishDocument` | src/pyflow/lsp/lsp_handler.py:265-289 | each stretch of a publish task between suspension points moves the handler as the state machine says |

## Left out

- IncrementalIndex.EverySessionStaysFresh: for a fixed file set and path-to-module map and names owned by their longest module prefix; outside that the index can be stale, as `StaleIndexExamples` shows
- IncrementalIndex.EveryTextSessionStaysFresh: the parser is given, with the properties in `Frontend`, and each text defines only names that the module map gives to its own file; the files with dynamic writes are given for each edit
- IncrementalIndex.AffectedFiles: which files write to a dynamic namespace is given, not resolved
- IncrementalIndex.Rebuild: references, calls and dependencies; the other workspace maps are not part of this model
- IncrementalIndex.UnaffectedResolvesTheSame: for lookups along import chains; member and keyword lookups are not part of this model
- IncrementalIndex.ReusedIsFresh: for lookups along import chains; member and keyword lookups are not part of this model
- SourceIndex.ResolveFile: references and calls along import chains only; uncertain members, keyword candidates and inherited fixtures are not part of this model
- Resolver.CanonicalSettlesFirst: chains without overloads and framework models; `member` and `names` mutate their own tables and are not part of this model
- SnapshotTexts.SequentialTextsAgree: for operations that run one at a time, because concurrent ones can lose an edit
- SnapshotProtocol.QuiescentSnapshotIsCurrent: an unlocked read counts as one step, and a failed load leaves its generation without a publication
- RetainedRanges.RetainedSymbolsSpellTheSame: scopes, which are widened after they are moved, are not part of this model
- RetainedRanges.MappedKeepsTheCharacter: at the closed end of a block the mapping speaks about a boundary, not about the character behind it
- ArgumentNormalizationPass.Pass.Evaluate: for programs in which no skipped operand mentions a variadic local; the live code is the whole program, and every operation with call facts is a call
- LoweringMeaning.LoweringPreservesMeaning: setter operands must not interfere, given the locals bound on entry; failures of reads are compared by kind, not by the reported name, and the running function that a global intrinsic gets is a local of its own; `For`, `try`, generators, type switches and definitions are not in the tree
- LoweringMeaning.SimpleSettersExactly: operands are references, constants or calls of references
- CallLowering.Code.Convert: annotations carried over to the new calls are not part of this model
- AstCollector.GetOps.Process: the classification of node types is given, one constructor for each way a type is treated
- ProgramCuller.CallGraphFinder.Process: recursion depth is unlimited here, as it is not in Python
- Dispatcher.EveryMessageIsAnsweredOnce: single messages only; batches appear as a source of cancellations, handlers return serialisable results and let a cancellation through only when there was one, and the in-flight semaphore only delays starts
- Dispatcher.AnsweredHoweverOftenCancelled: for a lock that nothing is suspended behind, as in the code; `CancelledTwiceWhileWaiting` shows what that prevents
- HiddenVariadicUse.HiddenUseShowsExactly: for bodies that return one call; elsewhere a hidden use may never be evaluated
- PublishEpochs.RecordFollowsTheStoreExactly: a document has one name; two URIs of one path are two documents to the handler
- Framing.FrameRoundTrip: a content type holds no line feed; JSON decoding and the line-length limit of the stream reader are not part of this model
- RefreshLoop.NotificationHeardExactly: progress is counted in worker steps; that the event loop keeps scheduling the workers is assumed
- PublishEpochs.DiagnosticsAreForOpenDocuments: the recorded version can be older than the document's, as `WaitingOpenForgetsAChange` shows
- Session.LookupIsLastSparedRecord: the facts kept on the catalog and the passes themselves are not part of this model
- command line, output formatting, tool tables, subprocesses, timers, file discovery: no state worth proving
- the type, taint, IFDS and context-sensitive engines: their facts enter as given tables
- hover, completion, signatures, highlights: presentation of a snapshot
