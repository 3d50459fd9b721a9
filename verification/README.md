# Verified models of the release and maintenance scripts

A Dafny model of the scripts in this repository whose logic is easy to get
wrong, with proofs of what they promise. Each module names the file it models.

| modules | program |
|---|---|
| DependencyCheck, PublishLocks, PublishRun, PublishProofs, PublishTheorems, PublishStarts, PublishDiscards | the concurrent npm publisher: cycle check, FIFO semaphore, keyed mutex, and all interleavings of a run as a transition system |
| InlineSyntax, InlineParsed, InlineEval, InlineRuns, InlineGuards, InlineExact, InlineStmts, InlineSim, InlineNames, InlineReplace, InlineTheorem, InlineTraces, InlineCapture, InlineCaptureRuns, InlineEdits | the function inliner: printing and re-reading inverted guards, strict-mode inlining over a small effectful language with exceptions, and when new names capture others |
| DeckHome, DeckMigration, DeckTheorems, DeckFamilies, DeckRefusal, DeckCuts | the crash-tolerant deck migration: attempts that may be cut off after any file operation |
| ChangelogText, ChangelogDoc, ChangelogNormal, ChangelogTail, ChangelogCollapse, ChangelogPatterns, NumberPatterns, Utf8Text | changelog parser, printer, archive footer and size budget |
| ChangelogItems, ChangelogCompact, ChangelogClean, ChangelogSections, ReleaseOrder, ChangelogFix, ChangelogPromote, ChangelogPromoted, ChangelogIdempotent, ChangelogTwice, ChangelogSettled, ChangelogJoined, ChangelogAgain, ChangelogAlike | the changelog fixer: dropping, promoting, normalizing and ordering entries, and when a second run is a no-op |
| DiffPairing, DiffScan, DiffExact, Decimal | which added bullets of a diff are promotable, and which diffs are read right |
| UnionFind, CloneClusters, CloneRegions, Intervals | clone detection |
| NativeStamp, AdhocSignature | version stamping of native addons and the page hashes of their ad-hoc signature |
| ReleaseNotes, ReleaseMerge | merging changelog sections into release notes |
| SessionScan, SessionTop, SelectorCoverage, StableSort | session statistics: largest results, residency, read coverage |
| Prelude | shared vocabulary |

Code that updates state is modelled by classes and methods with loops, each
proved against a specification function; the theorems are lemmas about those
functions. `dafny verify dfyconfig.toml` checks everything.

Some statements one would expect are false of the code as it stands. The code
is modelled as it is; each has its exact condition and a concrete input:

- Guard inversion flips `<` to `>=`, which is not the complement on NaN
  (`InlineExact.FaithfulIffNoOrderFlip`, `InlineExact.NanGuardIsLost`).
- Strict inlining looks for new names among those of the target block only, and
  gives the tail of a guarded helper a block of its own, so it can capture a
  name that the helper takes from outside or that a guard mentions
  (`InlineCapture.CaptureIff`, `InlineCapture.StraightLineIff`,
  `InlineCaptureRuns.TemporaryCaptures`, `InlineCaptureRuns.GuardReadsTailLocal`).
- A crash between a database and its journals can separate them for good
  (`DeckFamilies.FamilyAcrossCrash`, `DeckTheorems.CrashSplitsFamily`).
- The changelog fixer is not idempotent when a title is repeated
  (`ChangelogAgain.SecondRunIff`, `ChangelogAgain.TwiceFixedChangesAgain`).
- An added line whose text starts with `++ b/` is taken for a file header of
  the diff, and the items below it are numbered wrong
  (`DiffExact.ReadsExactlyIff`, `DiffExact.HeaderTextMisleads`).
- A version that holds the stamp magic makes the addon impossible to stamp
  again (`NativeStamp.RestampableIff`, `NativeStamp.MagicVersionSticks`).

## Model

| member | source | states |
|---|---|---|
| DependencyCheck.CycleCheck.Visit | scripts/ci-release-publish.ts:536-543 | A visit that returns normally leaves the name finished and every finished prefix intact; one that throws reports a real dependency walk that ends at a name it already contains |
| DependencyCheck.AssertAcyclic | scripts/ci-release-publish.ts:533-545 | Returns normally if and only if the dependency relation on known names has no cycle (a self-dependency is one), and then a topological rank exists; otherwise the reported chain is a genuine cycle |
| DependencyCheck.RankedIsAcyclic | scripts/ci-release-publish.ts:533-545 | A topological rank rules out every closed dependency walk, of any length |
| DependencyCheck.ReportIsCycle | scripts/ci-release-publish.ts:539 | Whatever chain has the reported shape witnesses a cycle |
| PublishLocks.Semaphore.Enter | scripts/ci-release-publish.ts:515-522 | Enters at once exactly when a slot is free, otherwise queues last; the whole new state is given |
| PublishLocks.Semaphore.Exit | scripts/ci-release-publish.ts:525-529 | Hands the slot to the oldest waiter without freeing it in between, or frees it when nobody waits |
| PublishLocks.RequestKeepsOk | scripts/ci-release-publish.ts:512-531 | Asking for a slot keeps: at most `limit` holders, nobody waits while a slot is free, grants in request order |
| PublishLocks.YieldKeepsOk | scripts/ci-release-publish.ts:512-531 | Leaving keeps the same three facts, and the next grant is the oldest waiter |
| PublishLocks.KeyedMutex.Enqueue | scripts/ci-release-publish.ts:392-394 | The caller becomes the new tail of its key and awaits the previous tail |
| PublishLocks.KeyedMutex.Resume | scripts/ci-release-publish.ts:395-397 | The section starts exactly when the awaited predecessor has released |
| PublishLocks.KeyedMutex.Release | scripts/ci-release-publish.ts:398-400 | Resolves the own promise only |
| PublishLocks.JoinKeepsOk | scripts/ci-release-publish.ts:390-395 | A new caller keeps the promise chain: everyone awaits the nearest earlier caller of the same key, and callers of a key are served in order |
| PublishLocks.StartKeepsOk | scripts/ci-release-publish.ts:395-397 | A caller that starts does so after every earlier caller of its key has released |
| PublishLocks.ResolveKeepsOk | scripts/ci-release-publish.ts:398-400 | Releasing keeps the chain and the service order |
| PublishLocks.MutualExclusion | scripts/ci-release-publish.ts:385-402 | Two callers that hold the lock at the same time never share a key |
| PublishLocks.OldestUnreleasedIsRunnable | scripts/ci-release-publish.ts:388-402 | While any caller of a key waits, some unreleased caller can run: the chain never blocks itself |
| PublishProofs.InitialInvariant | scripts/ci-release-publish.ts:562-564 | The invariant of the run holds before the first step |
| PublishProofs.StepKeepsInvariant | scripts/ci-release-publish.ts:556-590 | Every step of every schedule keeps it: slots, key chains, phases, event log and settled outcomes agree |
| PublishProofs.ReachableInvariant | scripts/ci-release-publish.ts:556-590 | It holds after every schedule, under every outcome of the packs and publishes |
| PublishProofs.StepMoves | scripts/ci-release-publish.ts:556-590 | A step moves its own job strictly forward and wakes at most one job, which was queued |
| PublishTheorems.SlotDiscipline | scripts/ci-release-publish.ts:511-531 | In every reachable state at most `limit` jobs hold a slot, a job queues only while all are taken, and slots were granted in the order they were asked for |
| PublishTheorems.PackExclusion | scripts/ci-release-publish.ts:441-443 | Two jobs that share a pack lock are never packing at the same time |
| PublishTheorems.NoDeadlock | scripts/ci-release-publish.ts:556-590 | While some job is unsettled some step is enabled, although the pack lock is awaited while holding a slot; the step leaves out no lock: a pack that has one ends only after holding it |
| PublishTheorems.WaiterMoves | scripts/ci-release-publish.ts:572-574 | Among jobs that only wait for prerequisites, the first in topological order can go on |
| PublishTheorems.RunsAreFinite | scripts/ci-release-publish.ts:556-590 | No schedule has more than nine steps per job |
| PublishTheorems.RunExtends | scripts/ci-release-publish.ts:588 | A run that has not settled every job can be extended |
| PublishTheorems.RunsComplete | scripts/ci-release-publish.ts:588 | Every run can be completed to one that settles every job |
| PublishTheorems.ResultIsDoomedJobs | scripts/ci-release-publish.ts:565-589 | The returned list is, in input order, exactly the jobs with a dependency walk to a job whose own pack or publish fails |
| PublishTheorems.ScheduleIndependence | scripts/ci-release-publish.ts:556-590 | Any two completed runs settle every job alike and return the same list |
| PublishTheorems.PublishAfterPrerequisites | scripts/ci-release-publish.ts:572-579 | A publish is logged only after every known prerequisite settled well, and a published job is never discarded |
| PublishStarts.PacksGoFirst | scripts/ci-release-publish.ts:565-588 | The packs get their slots in input order and before any publish; until every job has been started nothing is published, discarded or settled |
| PublishDiscards.SettledJobs | scripts/ci-release-publish.ts:565-587 | What becomes of every settled job: it is discarded if and only if its pack succeeds, it has a hook and a prerequisite settled false; it is published if and only if its pack succeeds and every prerequisite settled well; it settles well if and only if its publish also succeeds |
| PublishDiscards.DiscardAfterFailure | scripts/ci-release-publish.ts:574-579 | A discard happens once, for a job with a hook whose prerequisite settled false before it, and the job settles false after it |
| InlineSyntax.ParsePrint | scripts/inline-functions.ts:303-312 | Reading a printed tree at any precedence level it may stand at, followed by any text that cannot continue it, gives the tree back |
| InlineSyntax.ParseInvertsPrint | scripts/inline-functions.ts:303-312 | Printing loses nothing: every well-formed condition is read back from its text |
| InlineSyntax.SubstWellFormed | scripts/inline-functions.ts:293-301 | Substituting operands keeps a condition well-formed and as tightly binding |
| InlineParsed.ParsesIff | scripts/inline-functions.ts:303-312 | Reading is the inverse of printing in both directions: a condition is read from a text if and only if it is well-formed and prints as that text |
| InlineParsed.Precedence | scripts/inline-functions.ts:303-312 | `!` binds before order, order before equality, equality before `&&` and `&&` before `&#124;&#124;` |
| InlineParsed.LeansLeft | scripts/inline-functions.ts:303-312 | Chains of comparators of one level are read from the left |
| InlineEval.NumbersCompare | scripts/inline-functions.ts:303-312 | What the eight comparators mean on numbers and on NaN |
| InlineEval.OthersCompare | scripts/inline-functions.ts:303-312 | and on booleans and `undefined` |
| InlineGuards.NegatedTextIsTree | scripts/inline-functions.ts:315-349 | The text `negate` prints is that of a well-formed tree that binds at least as tightly as the returned precedence says |
| InlineGuards.CombinedIsNegatedChain | scripts/inline-functions.ts:352-356 | Combining guards prints the negation of their `&#124;&#124;` chain |
| InlineGuards.CombinedTextParses | scripts/inline-functions.ts:352-356 | The combined text parses, under `&#124;&#124;` < `&&` < atom, to the negated chain and to nothing else |
| InlineGuards.FlipComplements | scripts/inline-functions.ts:326-329 | A flipped comparator is the complement exactly when it is an equality or its operands are ordered |
| InlineGuards.NegTreeComplements | scripts/inline-functions.ts:315-345 | On ordered operands the negated condition runs the same effects in the same order and has the opposite truth value, or throws at the same point |
| InlineGuards.ChainIsSequence | scripts/inline-functions.ts:351-356 | Evaluating the `&#124;&#124;` chain is running the guard clauses one after the other |
| InlineGuards.CombinedGuardsAgree | scripts/inline-functions.ts:351-356 | What the printed text parses to runs the same effects in the same order as the sequential guard clauses and is true exactly when none of them returns |
| InlineExact.FaithfulIffNoOrderFlip | scripts/inline-functions.ts:315-356 | For guards over unknown operands: the printed condition agrees with the guard clauses under every interpretation if and only if no order comparison gets flipped |
| InlineExact.FlipMisleads | scripts/inline-functions.ts:326-329 | A flipped order comparison has an interpretation (a NaN operand) under which the negation is not the complement |
| InlineExact.NanGuardIsLost | scripts/inline-functions.ts:326-329 | The concrete failure: `if (a < b) return;` runs the tail on NaN, its inversion `a >= b` skips it |
| InlineStmts.ExecAppend | scripts/inline-functions.ts:837-900 | Running a concatenation is running its parts in turn, an exception in the first part ending both |
| InlineStmts.ExecBlockUntouched | scripts/inline-functions.ts:787-792 | A block leaves every binding outside its own declarations and writes as it was |
| InlineStmts.FixedUnwritten | scripts/inline-functions.ts:650 | The check that a helper never writes its parameters covers every nested write |
| InlineRuns.SetThenRead | scripts/inline-functions.ts:837-900 | An assignment to a binding is what a later read finds and changes no other; before the declaration has run it throws |
| InlineRuns.SetOuter | scripts/inline-functions.ts:837-900 | An assignment to any other name is one write of the interpretation and throws exactly when that does |
| InlineRuns.BlockIsBody | scripts/inline-functions.ts:837-900 | A block without declarations is its statements: what they assign stays assigned |
| InlineRuns.BranchRuns | scripts/inline-functions.ts:890-896 | A conditional runs the branch its condition selects |
| InlineSim.EvalMirrors | scripts/inline-functions.ts:294-301 | An expression and its substituted copy evaluate alike in frames that mirror each other |
| InlineSim.ExecMirrors | scripts/inline-functions.ts:883-899 | A statement and its substituted copy run alike and end in frames that mirror each other again |
| InlineSim.ExecBlockMirrors | scripts/inline-functions.ts:883-899 | So do whole blocks with their own declarations |
| InlineNames.FindFreshName | scripts/inline-functions.ts:501-507 | The search ends, and finds the base name when it is free and otherwise a numbered one that is not taken |
| InlineNames.SecondName | scripts/inline-functions.ts:501-507 | The numbers tried start at two and leave none out |
| InlineReplace.BuildReplacement | scripts/inline-functions.ts:837-900 | The loops over parameters, references and tail locals compute the replacement plan: prefix, substitution, reserved names, condition and tail |
| InlineTheorem.PrefixRuns | scripts/inline-functions.ts:848-881 | The hoisted prefix evaluates the arguments left to right, each once, stops where they throw, and leaves every used value in its temporary and everything else alone |
| InlineTheorem.InsertedAreNew | scripts/inline-functions.ts:843-899 | The names the splice adds to the target block were not in use there |
| InlineTheorem.GuardedBodyAgrees | scripts/inline-functions.ts:890-896 | The inverted-guard `if` with the substituted tail does what the guards and the tail do in the called helper |
| InlineTheorem.GuardlessTailAgrees | scripts/inline-functions.ts:793-823 | The substituted tail with renamed locals does what the called helper does |
| InlineTheorem.TargetsAreNew | scripts/inline-functions.ts:843-880 | Every name the plan puts in place of another is one the fresh-name search finds, parameter by parameter and declaration by declaration |
| InlineTheorem.PlanIsFresh | scripts/inline-functions.ts:793-823 | When those names avoid what the helper takes from outside and declares inside, the substitution captures nothing that is still mentioned |
| InlineTheorem.StrictInliningPreserves | scripts/inline-functions.ts:837-900 | Main result: for every caller state and interpretation, a call of an accepted helper and its strict-mode replacement have the same effects, the same exceptions and the same caller bindings, with missing, unused and effectful arguments included, when the names found by the fresh-name search are no outer or inner names of the helper |
| InlineTraces.ExecSees | scripts/inline-functions.ts:837-900 | Whatever a statement does, it never reads or writes an outer variable whose name its frame binds |
| InlineTraces.EvalParts | scripts/inline-functions.ts:315-356 | A condition evaluated on its own, in the caller and in the helper either does the same thrice, or the two real runs see different outer names |
| InlineTraces.GuardsPart | scripts/inline-functions.ts:351-356 | The same for guard clauses in sequence |
| InlineCapture.NewAreInserted | scripts/inline-functions.ts:843-899 | Every name the search finds is declared in the block the replacement is spliced into |
| InlineCapture.OuterIsCaptured | scripts/inline-functions.ts:874-877 | A found name that the helper takes from outside and reaches: some run of the replacement differs from the call |
| InlineCapture.GuardIsCaptured | scripts/inline-functions.ts:890-896 | A guard that mentions a declaration of the tail and reaches it: some run of the replacement differs from the call |
| InlineCapture.CaptureIff | scripts/inline-functions.ts:837-900 | Exact condition, when all names concerned are reached: the replacement behaves like the call for everything that may be read and every place if and only if the fresh-name search finds no name the helper takes from outside and no guard mentions a declaration of the tail |
| InlineCapture.StraightLineReaches | scripts/inline-functions.ts:837-900 | Helpers without guards or conditional evaluation reach every name they take from outside |
| InlineCapture.StraightLineIff | scripts/inline-functions.ts:501-507 | For them the fresh-name search alone decides, with no condition on runs |
| InlineCaptureRuns.TemporaryCaptures | scripts/inline-functions.ts:874-877 | Concrete run: a helper that reads an outer `__inl_p` reads the temporary of its parameter `p` instead |
| InlineCaptureRuns.GuardReadsTailLocal | scripts/inline-functions.ts:890-896 | Concrete run: a guard that mentions a declaration of the tail throws in the helper and reads an outer variable in the replacement |
| InlineCaptureRuns.InnerDeclarationCaptures | scripts/inline-functions.ts:874-877 | Concrete run: a nested declaration named like a temporary changes the value written, although no outer name is involved |
| InlineEdits.LastEditFirst | scripts/inline-functions.ts:297-300 | For disjoint ranges, making the last edit first does not move the others |
| InlineEdits.SubText | scripts/inline-functions.ts:294-301 | The loop from the last edit to the first is the simultaneous replacement of all ranges |
| DeckMigration.DeckRoot.ExistingFiles | deck/scripts/migrate-omp-deck.ts:114-128 | Finds exactly the files at or below one of the state paths |
| DeckMigration.FamiliesDisjoint | deck/scripts/migrate-omp-deck.ts:328 | Two databases never share a journal file |
| DeckMigration.DeckRoot.Classify | deck/scripts/migrate-omp-deck.ts:318-331 | Decides exactly which files are identical to the staged copy, which differ, and which move aside |
| DeckMigration.DeckRoot.AddFamilies | deck/scripts/migrate-omp-deck.ts:327-331 | Extends the owned differing files to whole database families and adds nothing else |
| DeckMigration.DeckRoot.MoveAll | deck/scripts/migrate-omp-deck.ts:339-348 | Moves a prefix of the displaced files, up to the crash point, to a new archive under unchanged relative paths and changes nothing else |
| DeckMigration.DeckRoot.InstallAll | deck/scripts/migrate-omp-deck.ts:349-366 | Links missing files up to the crash point, never replaces an entry, and stops at the first path in the way |
| DeckMigration.DeckRoot.Migrate | deck/scripts/migrate-omp-deck.ts:310-372 | One attempt, from any state, with or without `--force`, cut off after any number of moves and installs, as a function of the state before |
| DeckMigration.ScanStillHolds | deck/scripts/migrate-omp-deck.ts:318-351 | After the displacement a file is skipped exactly when it still holds its staged copy |
| DeckTheorems.FillGrows | deck/scripts/migrate-omp-deck.ts:350-366 | The install loop only adds staged copies, and stops only by a crash or at an occupied path |
| DeckTheorems.FillResumes | deck/scripts/migrate-omp-deck.ts:350-366 | An install loop cut off anywhere and then run to the end reaches the state and verdict of one uninterrupted loop |
| DeckTheorems.FillFinished | deck/scripts/migrate-omp-deck.ts:350-366 | A finished loop has every transfer path equal to its staged copy |
| DeckTheorems.FillCompletes | deck/scripts/migrate-omp-deck.ts:350-366 | The loop finishes exactly when no transfer path is blocked |
| DeckTheorems.UnforcedOnlyAdds | deck/scripts/migrate-omp-deck.ts:320-323 | Without `--force` an attempt changes and removes nothing, and writes the marker exactly when it completes |
| DeckTheorems.ResumeOnce | deck/scripts/migrate-omp-deck.ts:310-372 | An unforced attempt after one crashed attempt ends in the same state with the same verdict as without the crash |
| DeckTheorems.ConvergesWithoutForce | deck/scripts/migrate-omp-deck.ts:310-372 | Any number of unforced attempts crashed anywhere, then one uninterrupted attempt, end in the deck home of a single uninterrupted attempt |
| DeckTheorems.OriginalsSurvive | deck/scripts/migrate-omp-deck.ts:310-372 | After any number of such attempts every file present at the start has its original content, and every new one is a staged copy |
| DeckTheorems.AttemptKeepsSafe | deck/scripts/migrate-omp-deck.ts:339-366 | One attempt of any kind keeps content findable at its path or in an archive |
| DeckTheorems.NothingIsLost | deck/scripts/migrate-omp-deck.ts:318-366 | Across any forced and unforced attempts, crashed anywhere, all content is still at its original path or under that path in some archive |
| DeckTheorems.CompletedRun | deck/scripts/migrate-omp-deck.ts:318-371 | A completed forced run: every transfer path holds its staged copy, exactly the displaced files are gone to one new archive, all else is unchanged |
| DeckTheorems.CompletesIff | deck/scripts/migrate-omp-deck.ts:318-366 | An uninterrupted attempt completes if and only if it may start (forced, or unmarked and nothing differs) and nothing left in place blocks a transfer path |
| DeckTheorems.OthersStay | deck/scripts/migrate-omp-deck.ts:324-333 | Across any attempts, crashed anywhere, a file that neither holds nor lies in a transfer path and is no sidecar keeps its content at its path |
| DeckTheorems.OwnFilesGo | deck/scripts/migrate-omp-deck.ts:324-348 | After a completed forced run, whatever went before, a state file that holds or lies in a transfer path is gone from its path unless it was the staged copy |
| DeckTheorems.ForcedRunsSettle | deck/scripts/migrate-omp-deck.ts:318-371 | However many attempts were cut off before, a completed forced run leaves every path that is not a sidecar as a single run would |
| DeckTheorems.FamilyMovesTogether | deck/scripts/migrate-omp-deck.ts:326-331 | A member of a database family moves aside exactly when some member holds data that differs |
| DeckTheorems.FamilyStaysTogether | deck/scripts/migrate-omp-deck.ts:326-348 | In a completed run a database and its journals are archived together, or none of them moves |
| DeckTheorems.LeftoversMoveIff | deck/scripts/migrate-omp-deck.ts:315-331 | After a crash took the database alone, its remaining journals move on the rerun if and only if one of them still holds data of its own |
| DeckTheorems.WholeRunMovesFamily | deck/scripts/migrate-omp-deck.ts:326-348 | Concrete run: an uninterrupted forced run archives a database with its old shared-memory index |
| DeckTheorems.CrashSplitsFamily | deck/scripts/migrate-omp-deck.ts:315-348 | The same run cut off between the two leaves the old index beside the new database for good: the together property fails across crashes |
| DeckTheorems.ForcedRerunIsNoOp | deck/scripts/migrate-omp-deck.ts:367-375 | A second forced run right after a completed one changes nothing |
| DeckTheorems.AttemptKeepsTree | deck/scripts/migrate-omp-deck.ts:335-366 | No attempt leaves an entry below a file |
| DeckCuts.CutAfter | deck/scripts/migrate-omp-deck.ts:350-366 | With `k` moves left the install loop links the first `k` missing files and is cut off before the next; with fewer missing it ends and has the others to spare |
| DeckCuts.CutAttempt | deck/scripts/migrate-omp-deck.ts:336-372 | A forced run that would complete, cut off after any number of moves: it has archived the first of the displaced files, or all of them and linked the first missing ones, and the marker is unwritten until nothing is left to do |
| DeckRefusal.RefusesIff | deck/scripts/migrate-omp-deck.ts:267-323 | Without `--force` and without the marker a run refuses if and only if some file at or below the paths the deck keeps its state in, a transfer path or a journal of a migrated database is neither its staged copy nor a leftover index or empty journal; it then names exactly those files and changes nothing |
| DeckFamilies.FamilyAcrossCrash | deck/scripts/migrate-omp-deck.ts:315-372 | After a forced run cut off anywhere and a completed forced rerun, a database and the journals it had are together, in one archive or all in place, if and only if the cut did not fall between two of them; if it did, those left behind stay beside the new database if and only if none of them holds data that differs |
| ChangelogText.SplitRendered | scripts/fix-changelogs.ts:132-138 | Text written as terminated lines splits back into those lines |
| ChangelogText.SplitUnterminated | scripts/fix-changelogs.ts:132-138 | Text whose last line is not terminated splits into all its lines |
| ChangelogText.TitleRoundTrip | scripts/fix-changelogs.ts:111-122 | A printed subsection title is read back unchanged |
| ChangelogText.SubsectionTitleIsGood | scripts/fix-changelogs.ts:120-122 | Every title the parser reads can be printed and read again |
| ChangelogText.HeadingsDiffer | scripts/fix-changelogs.ts:107-126 | No line is both kinds of heading; headings and list lines are never blank |
| ChangelogText.UnixBreaks | scripts/fix-changelogs.ts:132 | A line break is one, whether written `\n`, `\r` or `\r\n`; all other text stays |
| ChangelogPatterns.ListItemIff | scripts/fix-changelogs.ts:124-126 | A list item is white space followed by a dash and a blank |
| ChangelogPatterns.ReleaseHeadingIff | scripts/fix-changelogs.ts:107-118 | A release heading is `## [`, a name without a closing bracket, and that bracket; the name is what is read |
| ChangelogPatterns.SubsectionHeadingIff | scripts/fix-changelogs.ts:111-122 | A subsection heading is `###`, white space and a title, read without the white space around it |
| ChangelogPatterns.BlankIff | scripts/fix-changelogs.ts:209-214 | A line is blank if and only if it holds white space only |
| ChangelogPatterns.NotesHeadingIff | scripts/ci-release-notes.ts:63 | For the release notes every line that starts with `## [` is a heading |
| ChangelogPatterns.CategoryHeadingIff | scripts/ci-release-notes.ts:120 | A category heading is `### ` and a category on one line, read without the white space behind it |
| ChangelogPatterns.ArchiveLinkIff | scripts/fix-changelogs.ts:13 | The archive link is recognized in exactly the wording of the pattern |
| ChangelogPatterns.ReferenceIff | scripts/fix-changelogs.ts:13 | with a path and seven to forty hexadecimal digits between its brackets |
| ChangelogPatterns.WrittenLink | scripts/fix-changelogs.ts:538-540 | The link that is written abbreviates the commit in its text and spells it out in its URL |
| NumberPatterns.HunkHeaderIff | scripts/fix-changelogs.ts:698-700 | A hunk header is read in exactly the form `@@ -N[,N] +N[,N] @@`, and what is read is the number after the `+` |
| NumberPatterns.VersionHeadingIff | scripts/ci-release-notes.ts:66 | A version heading is `## [`, three dotted numbers and the closing bracket, and all three are taken |
| NumberPatterns.ParseIntIff | scripts/fix-changelogs.ts:445-447 | A title part is a number if and only if it is white space, an optional sign, digits, and anything after them; otherwise it is no number |
| NumberPatterns.DottedReads | scripts/fix-changelogs.ts:445-447 | A title of dotted numbers is read as those numbers |
| NumberPatterns.DottedOrder | scripts/fix-changelogs.ts:445-454 | and of two such titles the one with the larger number at the first difference stands first, missing numbers counting as zero |
| ChangelogDoc.CutLoop | scripts/fix-changelogs.ts:150-172 | The index-driven parser loop cuts the lines at their headings |
| ChangelogDoc.GlueCut | scripts/fix-changelogs.ts:144-207 | Cutting loses no line and puts no heading into a body |
| ChangelogDoc.CutGlue | scripts/fix-changelogs.ts:144-207 | A text has one reading: gluing well-cut parts and cutting again returns them |
| ChangelogDoc.ParseReleaseSection | scripts/fix-changelogs.ts:175-207 | The loop reads a section as its leading lines and its titled subsections |
| ChangelogDoc.ParseChangelog | scripts/fix-changelogs.ts:144-173 | The loop reads content as preamble and sections |
| ChangelogDoc.RenderOne | scripts/fix-changelogs.ts:516-530 | The loop prints one section, skipping empty subsections |
| ChangelogDoc.RenderChangelog | scripts/fix-changelogs.ts:509-536 | The loop prints the document and drops trailing empty lines |
| ChangelogNormal.ParseRender | scripts/fix-changelogs.ts:144-207 | Parsing the printed form of a well-formed document recovers every heading, title and trimmed body; only empty subsections are gone |
| ChangelogNormal.RenderSeesNormalForm | scripts/fix-changelogs.ts:509-536 | Line numbers, blank edges and empty subsections do not show in the printed form |
| ChangelogNormal.ParsedIsGood | scripts/fix-changelogs.ts:144-207 | Whatever content is parsed, the document is well-formed |
| ChangelogNormal.RenderIsNormalForm | scripts/fix-changelogs.ts:509-536 | For all content, parsing and printing twice gives the text of doing it once |
| ChangelogNormal.NeatErased | scripts/fix-changelogs.ts:140-142 | Line numbers do not affect what a document says |
| ChangelogTail.WrittenLinkIsRecognized | scripts/fix-changelogs.ts:538-540 | The footer link this program writes is one its pattern recognizes |
| ChangelogTail.SplitFooter | scripts/fix-changelogs.ts:548-557 | The two backward loops split off a final archive link with the blank lines around it |
| ChangelogTail.SplitUndoesAppend | scripts/fix-changelogs.ts:548-561 | Splitting takes off exactly the footer appended to printed lines |
| ChangelogTail.FooterRoundTrip | scripts/fix-changelogs.ts:548-561 | A footer appended to a rendered document comes off again, leaving exactly that text and link |
| ChangelogCollapse.CollapseTail | scripts/fix-changelogs.ts:570-615 | Keeps everything when it fits or has at most two sections; otherwise cuts just before a release heading, fits the byte budget unless only two sections are left, and no longer section prefix would have fitted |
| ChangelogCollapse.LineBytesAre | scripts/fix-changelogs.ts:587-593 | The cumulative byte counts are the sizes of the texts they stand for |
| ChangelogCollapse.CollapseKeepsSections | scripts/fix-changelogs.ts:610-613 | What is kept parses to the first `k` sections, untouched |
| Utf8Text.SizeInUtf8 | scripts/fix-changelogs.ts:587-593 | The byte count of a text is the length of its UTF-8 encoding (section 3 of RFC 3629), from which the text can be told |
| ChangelogItems.ParseItems | scripts/fix-changelogs.ts:241-271 | Finds the list items with their line ranges |
| ChangelogItems.LineRangeSet | scripts/fix-changelogs.ts:273-281 | Contains exactly the numbers in one of the ranges |
| ChangelogItems.TakeOut | scripts/fix-changelogs.ts:327-332 | Filtering lines by the ranges of the chosen items takes out exactly those items and returns them |
| ChangelogItems.NumbersSelectItems | scripts/fix-changelogs.ts:327-332 | On consecutively numbered lines, removing line ranges is removing exactly the items they came from |
| ChangelogCompact.CompactAdjacentListSpacing | scripts/fix-changelogs.ts:366-384 | The method computes the compacted text |
| ChangelogCompact.CompactIs | scripts/fix-changelogs.ts:366-384 | Text that starts with an item becomes its trimmed items one below the other; any other text is only trimmed |
| ChangelogCompact.CompactIsFinal | scripts/fix-changelogs.ts:366-384 | Compacted text keeps the items and all non-blank lines in order, and compacting it again changes nothing |
| ChangelogClean.ItemsOfKept | scripts/fix-changelogs.ts:325-333 | The items left are the items whose key is not known, in order |
| ChangelogClean.CleanSeesBody | scripts/fix-changelogs.ts:366-384 | Blank edges of a body change neither its items nor its cleaned text |
| ChangelogClean.CleanIsFinal | scripts/fix-changelogs.ts:317-384 | Cleaning drops exactly the known items and no other non-blank line, and a second cleaning does nothing |
| ChangelogSections.NormalizeSection | scripts/fix-changelogs.ts:386-426 | Returns the normalized section; `removed` counts exactly the blank subsections, and every subsection is kept, merged or removed |
| ChangelogSections.MergeKeepsLines | scripts/fix-changelogs.ts:225-239 | Merging a body under its title adds its non-blank lines below those of the title and touches no other title |
| ChangelogSections.NormalizingKeepsLines | scripts/fix-changelogs.ts:386-426 | Under every title, in order, exactly the non-blank lines outside dropped items remain, and titles become distinct |
| ChangelogSections.SortSubs | scripts/fix-changelogs.ts:416-418 | The in-place sort is the stable sort by title rank |
| ChangelogSections.TitleRanks | scripts/fix-changelogs.ts:7 | Breaking changes come first, then what was added, changed, fixed and removed, then every other title |
| ChangelogAlike.KeyTellsItems | scripts/fix-changelogs.ts:283-285 | Two items have the same key if and only if they have the same lines from the first non-blank to the last |
| ChangelogAlike.CleanDropsListed | scripts/fix-changelogs.ts:317-384 | Cleaning drops exactly the items whose lines stand in the list of known items, and a second cleaning does nothing |
| ChangelogAlike.FixedUnreleasedAlike | scripts/fix-changelogs.ts:617-666 | FixedUnreleased with items compared line by line: on the parsed content, against the items of released sections and of history |
| ChangelogAlike.ArrivesOnceAlike | scripts/fix-changelogs.ts:287-294 | ArrivesOnce with items compared line by line |
| ReleaseOrder.CompareVersionTitlesDesc | scripts/fix-changelogs.ts:445-454 | The loop computes the comparison, undefined where a part is not a number |
| ReleaseOrder.CompareIsLexicographic | scripts/fix-changelogs.ts:445-454 | On numeric titles it is the descending lexicographic order with missing parts as zero |
| ReleaseOrder.NotAfterIsPreorder | scripts/fix-changelogs.ts:445-454 | On numeric titles it is total and transitive |
| ChangelogFix.CollectReleasedItemKeys | scripts/fix-changelogs.ts:296-308 | The loops collect exactly the keys of items in released sections |
| ChangelogFix.DropDuplicates | scripts/fix-changelogs.ts:317-336 | Only the first [Unreleased] section loses items, exactly the known ones, and the count is theirs |
| ChangelogFix.NormalizeSections | scripts/fix-changelogs.ts:645-651 | Every section is normalized, and the counters account for every subsection |
| ChangelogFix.DropThenNormalize | scripts/fix-changelogs.ts:617-651 | Dropping known items first and normalizing later is one pass that does both |
| ChangelogFix.ParsedInOrder | scripts/fix-changelogs.ts:146-147 | Every parsed subsection body carries consecutive line numbers, which the removal by ranges relies on |
| ChangelogFix.FixSeesNeat | scripts/fix-changelogs.ts:617-666 | Line numbers, blank edges and empty subsections of the input make no difference to the result |
| ChangelogPromote.HasItem | scripts/fix-changelogs.ts:287-294 | Finds out whether the subsection has an item with the same text |
| ChangelogPromote.AddItem | scripts/fix-changelogs.ts:352-359 | Adds an item to the last subsection of its title, created if missing, unless the item is there |
| ChangelogPromote.PromoteSection | scripts/fix-changelogs.ts:629-643 | One released section loses its promotable items, which are added to [Unreleased] in order |
| ChangelogPromote.PromoteItems | scripts/fix-changelogs.ts:626-643 | The loop over the section list computes the promotion, although creating [Unreleased] on top makes it visit the current section twice |
| ChangelogPromote.LeavesNothing | scripts/fix-changelogs.ts:629-643 | A subsection that was promoted from has nothing more to promote |
| ChangelogPromote.FixChangelogContent | scripts/fix-changelogs.ts:617-666 | The whole fixer: its text is the rendered result of dropping, promoting, normalizing and ordering, and its four counters count what was promoted, merged, removed and dropped |
| ChangelogPromoted.MovedAndLeft | scripts/fix-changelogs.ts:632-637 | A released subsection splits into the items starting at promotable lines, which move, and everything else, which stays; as multisets no item is lost or doubled |
| ChangelogPromoted.AppendAddsItem | scripts/fix-changelogs.ts:225-239 | Appending an item to any body adds exactly that item to its items |
| ChangelogPromoted.MovesArrive | scripts/fix-changelogs.ts:638-643 | Every title of [Unreleased] gains exactly its new items, in order, and keeps its items and non-blank lines |
| ChangelogPromoted.ArrivesOnce | scripts/fix-changelogs.ts:287-294 | A promoted item that was not there arrives exactly once, one that was there not at all |
| ChangelogPromoted.FixedUnreleased | scripts/fix-changelogs.ts:617-666 | End to end: under every title of the fixed [Unreleased] section stand the old lines without already released items, then the newly promoted items |
| ChangelogPromoted.FixedOthers | scripts/fix-changelogs.ts:617-666 | Every section but the first [Unreleased] one remains; under each title a released one loses the promoted items and nothing else, a further [Unreleased] one nothing |
| ChangelogPromoted.PromotesNothing | scripts/fix-changelogs.ts:629-643 | With nothing to promote the fixer drops, normalizes and orders only |
| ChangelogPromoted.PromotingNoLines | scripts/fix-changelogs.ts:617-666 | In particular when the promotable set is empty |
| ChangelogIdempotent.NormalizingIsIdempotent | scripts/fix-changelogs.ts:386-426 | Without repeated titles a second normalization of a section does nothing, and no key but the dropped ones is lost |
| ChangelogIdempotent.ReleasesAreOrdered | scripts/fix-changelogs.ts:456-462 | The release sort is a stable descending permutation |
| ChangelogIdempotent.FixDocumentTwice | scripts/fix-changelogs.ts:617-666 | For numeric titles and no title repeated inside a section, fixing a fixed document changes nothing |
| ChangelogTwice.FixedIsGood | scripts/fix-changelogs.ts:617-666 | A fixed document is one that printing and parsing preserve |
| ChangelogTwice.FixIsIdempotent | scripts/fix-changelogs.ts:617-666 | The same for text: fixing fixed content returns it unchanged, with the promotable set empty and the history fixed |
| ChangelogTwice.CompactedIff | scripts/fix-changelogs.ts:366-384 | Trimmed text is left alone if and only if it starts with other text or has no blank line above an item |
| ChangelogSettled.CleanedIff | scripts/fix-changelogs.ts:366-384 | A written body is left alone if and only if none of its items is known and it has no gap |
| ChangelogSettled.SectionIff | scripts/fix-changelogs.ts:386-426 | A written section is left alone if and only if all its bodies are |
| ChangelogSettled.SecondRunSettled | scripts/fix-changelogs.ts:617-666 | Repeated titles included: a second run changes nothing if and only if, after the first, no remaining [Unreleased] item is released or historical and no list-first subsection has a blank line above an item |
| ChangelogJoined.JoinedSettledIff | scripts/fix-changelogs.ts:235-238 | Bodies joined under one title are left alone by a second compaction if and only if the first starts with other text, or none has a blank line above an item and no join puts one there |
| ChangelogJoined.JoinedHasItems | scripts/fix-changelogs.ts:235-238 | The items of the joined text, told from the bodies: what stands above the first item of a body goes to the last item before it |
| ChangelogJoined.MergedIsJoined | scripts/fix-changelogs.ts:386-426 | What normalizing leaves under a title is the join of the cleaned bodies of that title |
| ChangelogAgain.RepeatedTitleIff | scripts/fix-changelogs.ts:386-426 | For any section and dropped keys: normalizing twice is normalizing once if and only if every title is well joined and no joined item has a dropped key |
| ChangelogAgain.SecondRunIff | scripts/fix-changelogs.ts:617-666 | Exact idempotence on the content given to the first run: a second run changes nothing if and only if every title of every parsed section is well joined and no joined item of the first [Unreleased] section is historical or ends up released |
| ChangelogAgain.TwiceFixedChangesAgain | scripts/fix-changelogs.ts:235-238 | A concrete content that the second run changes: a released section with a title repeated after a two-line item |
| DiffPairing.Pair | scripts/fix-changelogs.ts:745-763 | The pairing loop: every addition takes the first free removal of the same item |
| DiffPairing.PairedAdditions | scripts/fix-changelogs.ts:756-763 | Of each item, min(additions, removals) additions are paired, the earliest ones |
| DiffPairing.PairedRemovals | scripts/fix-changelogs.ts:756-763 | and as many removals |
| DiffPairing.Promote | scripts/fix-changelogs.ts:765-788 | The promotion loop marks additions by the remaining removals of their hunk |
| DiffPairing.PromotedPerHunk | scripts/fix-changelogs.ts:765-788 | A hunk without an added release heading promotes exactly max(0, unpaired additions - unpaired removals) items, one with such a heading none |
| DiffPairing.MarksPromote | scripts/fix-changelogs.ts:745-788 | Pairing and promoting together, in terms of the items alone: per hunk, the additions beyond their removals of the same item less the removals beyond their additions |
| DiffScan.CollectPromotable | scripts/fix-changelogs.ts:679-791 | The whole function: the reported lines are those of the promoted additions of the scan |
| DiffScan.CollectLines | scripts/fix-changelogs.ts:772-788 | A path reports exactly the line numbers of its promoted additions |
| DiffScan.HeaderReads | scripts/fix-changelogs.ts:698-703 | A printed hunk header is read back as its new-file start line |
| DiffScan.RangeReads | scripts/fix-changelogs.ts:698-700 | A range of one line is printed without its count, and read all the same |
| DiffScan.OneAddedLine | scripts/fix-changelogs.ts:698-700 | `@@ -8,0 +9 @@` is such a header |
| DiffScan.OutsideHunks | scripts/fix-changelogs.ts:705 | Text outside the hunks of a file is ignored, however it starts |
| DiffScan.AddsAreNewLines | scripts/fix-changelogs.ts:710-726 | The number recorded for an added item is the line of that very text in the new file |
| DiffScan.ScanReads | scripts/fix-changelogs.ts:686-743 | Scanning a printed diff none of whose added lines reads like a file header finds every added item of every hunk of every file, in order, with those numbers, every removed item, and the hunks that add a release heading |
| DiffScan.DiffPromotes | scripts/fix-changelogs.ts:686-788 | From diff to verdict: each hunk of the diff promotes max(0, its unmatched additions - its unmatched removals) items, or none when it adds a release heading |
| DiffExact.HunkIff | scripts/fix-changelogs.ts:686-743 | The items of one hunk are read at their lines if and only if path and line are right when the hunk is entered and no added line that reads like a file header precedes an item |
| DiffExact.ReadsExactlyIff | scripts/fix-changelogs.ts:686-743 | For every diff with named files: every reported number is the new-file line of its item if and only if no added line that reads like a file header precedes an added item in its hunk or names another file last in the hunks before it |
| DiffExact.HeaderTextMisleads | scripts/fix-changelogs.ts:687-690 | A concrete diff: the added lines `++ b/p` and `- a` in one hunk report a line one too small |
| Decimal.ValueOfDec | scripts/fix-changelogs.ts:700 | Reading a printed line number returns it |
| StableSort.SortPermutes | scripts/fix-changelogs.ts:459 | The sort keeps every element, as often as it occurs |
| StableSort.SortSorted | scripts/fix-changelogs.ts:459 | On a total preorder the result is sorted |
| StableSort.SortIsStable | scripts/fix-changelogs.ts:459 | Elements that compare equal keep their order |
| StableSort.PruneKeepsBest | scripts/session-stats/audit.ts:499-502 | Keeping only the best `k` so far does not change the best `k` at the end |
| Intervals.SizeIsCount | scripts/session-stats/analyze_selector_reads.py:219 | The lengths of separate runs add up to the number of lines they cover |
| Intervals.RunsAreMaximal | scripts/session-stats/analyze_selector_reads.py:121-133 | The lines next to a run are not covered |
| Intervals.RunsAreUnique | scripts/session-stats/analyze_selector_reads.py:121-133 | A set of lines has one decomposition into separate runs |
| Intervals.AbsorbKeepsApart | scripts/session-stats/analyze_selector_reads.py:127-132 | One merge step keeps the runs separate and adds exactly the lines of the interval |
| SelectorCoverage.MergeIntervals | scripts/session-stats/analyze_selector_reads.py:121-133 | Returns the sorted, non-touching runs that cover exactly the lines of the input |
| SelectorCoverage.PositionMeans | scripts/session-stats/analyze_selector_reads.py:136-149 | What each of the six classifications says about the two ranges, as an equivalence |
| SelectorCoverage.TwoRegionsIffGap | scripts/session-stats/analyze_selector_reads.py:121-149 | The initial range and one follow-up merge to two regions if and only if the follow-up is classified as a gap |
| SelectorCoverage.Analyze | scripts/session-stats/analyze_selector_reads.py:201-226 | Covered lines are the size of the union, gap lines exactly the uncovered lines of the bounding box, extra lines those outside the initial range |
| SelectorCoverage.CoverageCounts | scripts/session-stats/analyze_selector_reads.py:219-226 | The differences the code computes are those set sizes |
| UnionFind.Partition.Find | scripts/cleanup-scan.ts:178-185 | Terminates, returns the representative, and only writes shortcuts: the classes do not change |
| UnionFind.Partition.Union | scripts/cleanup-scan.ts:186-190 | Joins exactly the two classes and records the pair |
| UnionFind.SameRootIffConnected | scripts/cleanup-scan.ts:176-191 | Two elements have the same root if and only if the joined pairs connect them |
| UnionFind.CompressKeepsForest | scripts/cleanup-scan.ts:180-183 | Path compression keeps the parent map acyclic with the same roots |
| UnionFind.JoinKeepsForest | scripts/cleanup-scan.ts:189 | Linking two roots keeps it acyclic |
| UnionFind.JoinKeepsClasses | scripts/cleanup-scan.ts:186-190 | After a join the roots stand for the classes of the larger relation |
| CloneClusters.GroupByHash | scripts/cleanup-scan.ts:198-214 | Lists under each hash exactly the windows that have it, in order |
| CloneClusters.EdgesAreEnough | scripts/cleanup-scan.ts:215-224 | Joining each list to its first member and neighbours to each other generates the same equivalence as all same-hash and adjacent pairs |
| CloneClusters.FindClusters | scripts/cleanup-scan.ts:215-235 | Two matched windows share a root if and only if a chain of same-hash and adjacent matched windows links them |
| CloneRegions.MergeWindows | scripts/cleanup-scan.ts:253-268 | The flushed regions are the maximal runs of covered lines, and `sigLines` is the size of the union of the windows |
| CloneRegions.CoveredIff | scripts/cleanup-scan.ts:238-268 | A line is covered by a cluster if and only if it is one of the seven lines of a window of the cluster in its file |
| CloneRegions.Assemble | scripts/cleanup-scan.ts:238-269 | A cluster is described file by file by its maximal runs, and its size is the total over the files |
| CloneRegions.DetectClones | scripts/cleanup-scan.ts:194-274 | Every result is a class with at least two regions, every matched window lies in a result unless its class has one region, no two results share a window, larger results come first |
| SessionScan.PendingMeans | scripts/session-stats/audit.ts:470-472 | A pending call carries the index of the last request that issued it |
| SessionScan.OpenIsPending | scripts/session-stats/audit.ts:470-472 | and a call that no result has answered since is pending |
| SessionScan.BookedForItsCall | scripts/session-stats/audit.ts:484-496 | A result is booked under the name and the request of the last call with its id, and under its own tool and the current request if there is none |
| SessionScan.ResidencyIsPaid | scripts/session-stats/audit.ts:508-513 | Residency is the sum, over requests, of the tokens of results whose call was issued by an earlier request |
| SessionScan.PruneKeeps | scripts/session-stats/audit.ts:497-503 | Pruning the buffer preserves the twelve best of everything pushed so far |
| SessionScan.ScanFile | scripts/session-stats/audit.ts:470-521 | The buffer ends as the first twelve of the stable descending sort of all large results; per tool the residency is as above |
| SessionTop.TopIsSorted | scripts/session-stats/audit.ts:497-503 | The results kept are entries of the session above 2000 tokens, at most twelve, none more often than it occurs, largest first |
| SessionTop.TopIsLargest | scripts/session-stats/audit.ts:497-503 | A large result that is left out is no larger than any of the twelve |
| SessionTop.TopKeepsOrder | scripts/session-stats/audit.ts:497-503 | Of results of one size the earlier ones are kept, in their order |
| NativeStamp.StampNativeBytes | scripts/stamp-native-version.ts:138-166 | Every error case, the unchanged case and the exact new bytes; on an error the buffer is untouched |
| NativeStamp.StampErrors | scripts/stamp-native-version.ts:138-161 | Which error is reported when: no version, more than 38 bytes, a NUL byte, no magic, two of them, or a slot cut short; otherwise the stamp succeeds |
| NativeStamp.StampKeepsMagicUnique | scripts/stamp-native-version.ts:147-157 | A version that does not hold the magic leaves it where it was and nowhere else |
| NativeStamp.RestampableIff | scripts/stamp-native-version.ts:138-166 | A stamped addon can be stamped again if and only if the version does not itself hold the magic |
| NativeStamp.MagicVersionSticks | scripts/stamp-native-version.ts:138-166 | A concrete file: stamped with the magic itself as its version, it accepts no further version |
| NativeStamp.StampOverwrites | scripts/stamp-native-version.ts:138-166 | Stamping v1 and then v2 gives the bytes of stamping v2 |
| NativeStamp.StampIsReadBack | packages/natives/native/version-sentinel.js:33-37 | A stamped addon is accepted for exactly the version it was stamped with, not for its prefixes or extensions |
| AdhocSignature.RefreshDirectory | scripts/stamp-native-version.ts:112-123 | The page loop writes each page digest to its slot, and reports no change only if there was none |
| AdhocSignature.RefreshAdhocSignature | scripts/stamp-native-version.ts:94-125 | Succeeds if and only if every code directory is ad-hoc, has a supported hash and lies inside the file; then every slot area is rewritten in turn |
| AdhocSignature.PageSizes | scripts/stamp-native-version.ts:112 | The page size is one at zero bits and doubles with every bit |
| AdhocSignature.PagesAreTheCode | scripts/stamp-native-version.ts:113-118 | The pages in a row are the code up to its limit, and every page below the last is a full one |
| AdhocSignature.RefreshedIsValid | scripts/stamp-native-version.ts:96-124 | Afterwards every code slot of every directory holds the leading bytes of the digest of its page, the bytes from page times page size up to the next page or the code limit, and no byte outside the slots changed |
| AdhocSignature.StampedAndRefreshed | scripts/stamp-native-version.ts:138-166 | Stamping and refreshing changes the version payload and code slots only, and leaves every slot valid |
| ReleaseNotes.EnumerateChangelogVersions | scripts/ci-release-notes.ts:56-73 | The loop returns the span of every version heading in order |
| ReleaseNotes.SpanShape | scripts/ci-release-notes.ts:66-71 | A span starts at its version heading and ends at the next heading of any kind |
| ReleaseNotes.SpansAreOrdered | scripts/ci-release-notes.ts:56-73 | Spans are disjoint and in order |
| ReleaseNotes.EveryVersionHasSpan | scripts/ci-release-notes.ts:66-71 | No version heading is missed |
| ReleaseNotes.KeptOnce | scripts/ci-release-notes.ts:110-116 | Every distinct trimmed line is kept exactly once, under the category and in the wording of its first occurrence |
| ReleaseNotes.OnlyEntriesKept | scripts/ci-release-notes.ts:110-116 | Nothing else is kept |
| ReleaseMerge.SelectedNewestFirst | scripts/ci-release-notes.ts:84-90 | Versions in range are visited newest first, equal ones in file order, so the first occurrence is the newest |
| ReleaseMerge.RangeEnds | scripts/ci-release-notes.ts:84-90 | A version equal to the floor contributes nothing, one equal to the target does, and without a floor only the target does |
| ReleaseMerge.Collector.Flush | scripts/ci-release-notes.ts:102-117 | Adds the buffered lines not seen before to the bucket of their category, keeping the buckets the deduplicated entries |
| ReleaseMerge.CollectSpan | scripts/ci-release-notes.ts:118-134 | One version contributes its lines to the categories they stand under; lines above the first category are dropped |
| ReleaseMerge.CategoryRanks | scripts/ci-release-notes.ts:137-144 | Breaking changes come first, then what was added, changed, fixed and removed, then every other category |
| ReleaseMerge.Collect | scripts/ci-release-notes.ts:98-135 | All chosen versions are collected in order |
| ReleaseMerge.PrintBody | scripts/ci-release-notes.ts:149-165 | The printing loops write the non-empty buckets in category order without trailing blank lines |
| ReleaseMerge.ReadBlocks | scripts/ci-release-notes.ts:149-166 | Reading printed blocks back gives the entries of the buckets |
| ReleaseMerge.MergePackageSection | scripts/ci-release-notes.ts:83-166 | The merged body: one block per non-empty category, known categories first in their order, holding exactly the kept lines; read back it gives them again |

## Left out

- Process spawning, git, npm, network, file and command-line handling: their outcomes are parameters.
- Publisher: the time between waking a waiter and its resumption is not modelled, a woken section counts as running; job names are distinct and the limit is at least one, which the code forces; log lines and dry runs are left out.
- Inliner, language: closures, loops, `??`, early returns inside the tail and optional chaining are not in the modelled language; operands print as one token.
- Inliner, scope: only strict mode is modelled; the default mode deliberately re-reads arguments. Candidate collection, reference search, formatting and the purity tests are given data.
- InlineTheorem.StrictInliningPreserves: assumes ordered operands where an order comparison is flipped, that no new name is one the helper takes from outside or declares in a block (for a guarded helper the tail is such a block), that no guard mentions a declaration of the tail, that outer names of the helper are not bound at the call site (the shadow check), and that the target block's names and the arguments' names are reserved.
- InlineCapture.CaptureIff: for guards that flip no order comparison and tails without a name declared twice; that no nested declaration is called like a new name stays a hypothesis, because whether such a capture shows depends on the values (InlineCaptureRuns.InnerDeclarationCaptures).
- Migration: staging is one atomic deterministic step, because a crash inside it makes the next run refuse; symlinks, directory swaps, SQLite backup and row rewriting, dry runs and the empty-legacy refusal are left out.
- Migration: directories made for a file whose link then fails are not in the model; it keeps files only.
- Migration: displaced files move in any order, the source's sorted order among them; the marker records only which archive was made.
- Migration: transfer entries are distinct, none is an ancestor of another and none is a database sidecar.
- DeckTheorems.FamilyStaysTogether: holds for a completed run only; the crash case is DeckFamilies.FamilyAcrossCrash and DeckTheorems.CrashSplitsFamily.
- DeckTheorems.LeftoversMoveIff: says what the scan of one rerun does; where the family stands afterwards is DeckFamilies.FamilyAcrossCrash.
- ChangelogSettled.SecondRunSettled: its condition is read off the first run's result; ChangelogAgain.SecondRunIff states it on the content.
- Changelog: rebuilding released sections from history, recovery tags and the command line are left out; the history keys are a parameter.
- ReleaseOrder.CompareVersionTitlesDesc: on titles with a non-numeric part the source compares NaN and the sort order depends on the engine; ordering results are stated for numeric titles.
- DiffScan: the diff arrives as its lines; files have names, so a deleted file (`+++ /dev/null`) is not printed.
- ChangelogCollapse: text is Unicode, so the byte size of a lone surrogate does not arise.
- ChangelogPromote.PromoteItems: the [Unreleased] section object that the source shares between the list and a variable is a value written back at the end.
- Clone detection: significant lines and the hash are abstract (one hash sequence per file, fewer than 2^24 windows each); the order of regions across files is not stated.
- AdhocSignature: load-command and blob-index parsing is left out, code directories arrive with their fields; the digest is an uninterpreted function.
- Release notes: version comparison and collation are parameters; ordering results assume total preorders.
- Session scan: token estimation, usage totals, turns, spawns and per-path read residency are left out; the last repeats the per-tool accounting.
- Selector reads: reads arrive as numeric intervals; selector parsing, unbounded reads and reports are left out.
- The launcher lock in `deck/scripts/npi-deck.ts`: it reads a stale holder and removes the file in separate steps, so mutual exclusion is not a theorem of the code.
- Second-tier scripts (prompt rewriting, shard selection, reservoir sampling, version bumps, target tables) would only add easy members.
