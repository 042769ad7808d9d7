# Verified models of the repository's gates

These Dafny modules model the scripts that decide what may be merged, tested and released, and prove
what those scripts are relied on for. They cover the test-isolation rules, the gates on schemas and
frozen contracts, test selection, the delegated merge, the diff readers, the evaluator wheels, CI wall
time and release versions.

Loops, worklists and objects of the scripts are methods and classes here. Each is proved against a
specification that does not mention it, and the theorems are about that specification.

Standing conventions:

- I/O, the clock, Git, GitHub and the file system are parameters: replies of the API are an arbitrary
  function of the call number, and diffs are printed by a model of `git diff -U0`.
- Python sets and dictionaries are iterated in an arbitrary order unless the script sorts them.
- Character classes, hashes, text codings and ASTs of other tools enter as functions or small datatypes.
- Integers and reals are exact. Nothing in the modelled code relies on overflow or rounding.

## What the modules say

**Timeout rule** (`PythonSyntax`, `PythonRuns`, `PythonReach`, `PythonCover`, `PythonWitness`,
`TimeoutDataflow`, `TimeoutSoundness`, `TimeoutLoads`). Function bodies are statements with nested blocks. Runs follow
arbitrary finite trees of choices, so exceptions, early exits and loops are all covered, and a run
carries the names that code created so far may rebind later. The docstring promises that no stale
origin is reported after a reassignment. `TimeoutSoundness.MayBeStale` says,
exactly and from the syntax alone, at which conditions one is. A name is in doubt there if

- the body declares it global or nonlocal;
- or some way that reaches the condition creates a generator expression that assigns the name, or a
  nested function that declares it nonlocal;
- or some such way, after the tracked assignment, captures the name in a `match` pattern, or assigns it
  by a walrus in the defaults of a lambda or in the decorators or defaults of a nested definition;
- or a later target of the tracked assignment overwrites it.

Code that creates a rebinding after the condition, or only on ways that leave the function, is
harmless. Runs are free in their branches, and code once created may run whenever a statement starts.
Of the later evaluations of a `while` test, the claim is about names the loop does not store. All this
is about the state on entering the condition. Inside it the test is evaluated from left to right, and
`TimeoutLoads` says when each load still sees the tracked value: if the name is not in doubt on entering
and nothing evaluated earlier in the test rebinds it.

**TypeScript lexer** (`LexText`, `LexOutput`, `TypeScriptLexer`, `LexStandalone`). The specification
reads a text by offsets. The `Lexer` class counts lines as it goes and lexes template expressions again
as texts of their own. Both give the same tokens, reasons and standalone lines on every text. The
standalone flag of a comment inside a template expression is judged against the innermost expression
alone, so a comment right after `${` counts as standing alone though the template precedes it.

**Task schemas** (`TaskSchema`, `SchemaHistory`). Over any accepted history the newest schema still
contains every older minor version. The assumptions about Buf are in `SchemaHistory.BufAccepts`: no
message or field goes away or changes number, name or type, and a type outside the package stays
outside. The script's docstring says a changed rule fails on a message the base has. The code also
refuses rules on a message that the base did not reach, and the model follows the code: a change that
Buf accepts, and that only adds such a message under a raised minor version, has that one fault.

**Contract gate** (`Aliases`, `Resolver`, `Occurrences`, `ContractGate`, `ContractHistory`). The alias
analysis fails closed, the resolver is exact unless it says otherwise, retired classes stay gone and
legacy use never grows. The docstring says that fields cannot grow. The code holds them to the
seed's fields only, so a field dropped in one commit may come back in a later one.

**Diff readers** (`EditScript`, `PrivateTerms`, `ChangedTests`). Edits are printed as Git prints them
and read back. Git quotes an unusual path and ends one that has a space with a tab. `added_lines` then
drops or misnames every line of that file, and `changed_lines` does not find the file, so a changed
test in it is not selected. `added_lines` splits rows at all of Python's line breaks: an inserted line
with one is misread, and a deleted line with one may be reported as an addition. Both readers are exact
where this does not happen, and the lemmas say when that is.

**Wheels** (`WheelRecord`, `WheelTags`, `Wheels`, `WheelCheck`, `WheelAgreement`). The verifier accepts
what the writer makes, under an exact condition, and refuses what was changed.

**Others**. `ImpactedTests` (reachability over imports and a budgeted choice), `DelegatedMerge` and
`DelegatedMergeRun` (a protocol against an API that may answer anything), `WallTime` (critical path and
clock skew), `ReleaseVersions` (PEP 440 against section 11 of Semantic Versioning 2.0.0).

`Text`, `Decimal`, `Sorting` and `Options` hold Python's text, number and sorting primitives.

## Model

| member | source | states |
|---|---|---|
| `TimeoutDataflow.OneHopTimeoutVerdicts` | scripts/check_test_isolation.py:1259-1303 | the reported lines are exactly those some condition, at any nesting depth, yields under the names tracked there |
| `TimeoutDataflow.NestedVerdicts` | scripts/check_test_isolation.py:1271-1280 | the same for every nested block of one statement, with the names that statement stores forgotten first |
| `TimeoutSoundness.TrackedIffLastStore` | scripts/check_test_isolation.py:1259-1303 | a name is tracked to an origin if and only if the last statement to store it is that plain timed assignment, or nothing stores it and it was inherited |
| `TimeoutSoundness.AssignmentBindsIff` | scripts/check_test_isolation.py:1289-1303 | out of reach of deferred code, an assignment always leaves a target name bound to its value if and only if no later target of the chain overwrites it |
| `TimeoutSoundness.TrackedOriginIsCurrent` | scripts/check_test_isolation.py:1259-1303 | soundness: in every run that evaluates a condition, a tracked name that no way there leaves in doubt was last bound by the very assignment tracked |
| `TimeoutSoundness.PathAchieves` | scripts/check_test_isolation.py:1259-1303 | completeness: whatever doubt the ways to a condition allow, some run takes to it |
| `TimeoutSoundness.CurrentIffUndoubted` | scripts/check_test_isolation.py:1259-1303 | the exact condition: in any body, a tracked origin is current at every evaluation of a condition, in all runs, if and only if no way there leaves the name in doubt |
| `TimeoutSoundness.ReportsAreGenuine` | scripts/check_test_isolation.py:1259-1303 | every report comes from a condition that uses a name tracked to a timed assignment, and each such name holds that assignment's value in all runs if and only if it is not in doubt |
| `TimeoutSoundness.GeneratorHidesRebinding` | scripts/check_test_isolation.py:1461-1483 | a body whose report is stale: before the condition a call consumes a generator expression that rebinds the name |
| `TimeoutSoundness.LambdaDefaultIsStale` | scripts/check_test_isolation.py:1461-1483 | a body whose report is stale: the default of a lambda rebinds the name at once |
| `TimeoutSoundness.LaterGeneratorIsHarmless` | scripts/check_test_isolation.py:1461-1483 | the same with the generator expression after the condition: the report is genuine |
| `TimeoutSoundness.LeavingBranchIsHarmless` | scripts/check_test_isolation.py:1461-1483 | the same in a branch that returns: the report is genuine |
| `TimeoutSoundness.DeclaredNameIsStale` | scripts/check_test_isolation.py:1259-1303 | a body whose report is stale: the name is declared global |
| `TimeoutSoundness.ChainedTargetIsStale` | scripts/check_test_isolation.py:1289-1303 | a body whose report is stale: a chained unpacking overwrites the name |
| `TimeoutLoads.LoadIsCurrentIff` | scripts/check_test_isolation.py:1282-1318 | at the loads of a condition: each sees the tracked value in all runs if and only if the name, where loaded, is not in doubt on entering and no load of it follows a rebinding in the test |
| `TimeoutLoads.RebindsIff` | scripts/check_test_isolation.py:1461-1483 | what the evaluation from left to right rebinds is what a statement's run says its expressions bind or defer |
| `TimeoutLoads.EarlierWalrusIsStale` | scripts/check_test_isolation.py:1282-1318 | a body whose report is stale at its load: a walrus earlier in the same condition |
| `PythonCover.CoverStmt` | scripts/check_test_isolation.py:1461-1503 | every run of a statement ends, enters blocks and evaluates conditions only as the syntax allows, and a name the collector does not list changes its binding only through code it does not look into |
| `PythonWitness.AchieveStmt` | scripts/check_test_isolation.py:1461-1503 | every ending the syntax allows, with or without such code touching a name on the way, is that of some run |
| `PythonWitness.AchieveEnter` | scripts/check_test_isolation.py:1461-1503 | the same for every entry into a nested block |
| `TypeScriptLexer.Lexer.Scan` | scripts/check_test_isolation.py:449-468 | on every text the lexer ends, and its tokens, reasons and standalone lines are those of the offset specification |
| `TypeScriptLexer.Lexer.constructor` | scripts/check_test_isolation.py:437-447 | a lexer starts at the first offset, on the given line, having emitted nothing |
| `TypeScriptLexer.Lexer.Next` | scripts/check_test_isolation.py:451-468 | one step consumes exactly what begins at the index and emits exactly its items |
| `TypeScriptLexer.Lexer.TakeLineComment` | scripts/check_test_isolation.py:494-503 | a line comment ends at the newline, and an exemption in it is noted on its line with its standalone flag |
| `TypeScriptLexer.Lexer.TakeTemplate` | scripts/check_test_isolation.py:505-514 | a template is skipped whole, and its expressions emit what they hold at their offsets in the whole text |
| `TypeScriptLexer.Lexer.LexExpression` | scripts/check_test_isolation.py:509-513 | lexing an expression as its own text, from the line it starts on, emits the lines of the original text |
| `TypeScriptLexer.Lexer.TakeIdentifier` | scripts/check_test_isolation.py:516-523 | the longest word is one token on the current line |
| `TypeScriptLexer.Lexer.TakeQuoted` | scripts/check_test_isolation.py:525-539 | a literal, closed or not, is one quoted token on the line it starts |
| `TypeScriptLexer.SkipBlockComment` | scripts/check_test_isolation.py:617-628 | the cursor after a block comment still has the line and line start of its offset |
| `TypeScriptLexer.SkipQuoted` | scripts/check_test_isolation.py:631-649 | likewise after a literal, escaped newlines included |
| `TypeScriptLexer.SkipRegex` | scripts/check_test_isolation.py:742-767 | likewise after a regular expression and its flags |
| `TypeScriptLexer.TemplateExpressions` | scripts/check_test_isolation.py:652-679 | the expressions found are the template's ranges, each with the line of its offset |
| `TypeScriptLexer.FindExpressionEnd` | scripts/check_test_isolation.py:682-717 | the cursor stops at the brace that closes the expression, past nested literals, comments and templates |
| `LexOutput.LexLiesInOrder` | scripts/check_test_isolation.py:449-539 | items lie in strictly increasing order and each spells the text at its offset, however deep in templates |
| `LexOutput.TokenLineCounts` | scripts/check_test_isolation.py:449-539 | every token carries the start line plus the newlines before the offset of its item in the original text |
| `LexOutput.ReasonLineCounts` | scripts/check_test_isolation.py:494-503 | every exemption reason is on the line, so counted, of a comment of the original text whose own text exempts for that reason |
| `LexOutput.OutputOfPart` | scripts/check_test_isolation.py:505-514 | re-lexing a substring from its own line gives the same lines as the whole text |
| `LexStandalone.FlagIsBlankInExpression` | scripts/check_test_isolation.py:501-502 | at every depth a comment is flagged if and only if on its line only blanks lie between the begin of the innermost expression around it and itself |
| `LexStandalone.EveryCommentJudged` | scripts/check_test_isolation.py:501-502 | so at every depth a comment alone on its line is flagged, and a flagged one that is not alone has only blanks between a `${` and itself |
| `LexStandalone.AloneInExpression` | scripts/check_test_isolation.py:501-513 | a comment of an expression stands alone in the text if and only if it does in the expression and a newline of the expression precedes it |
| `LexStandalone.OpeningCommentIsFlagged` | scripts/check_test_isolation.py:501-513 | a concrete template whose comment is flagged as standalone and is not |
| `TaskSchema.Closure` | scripts/check_task_schema.py:74-83 | the worklist ends, and finds exactly the package's messages the root reaches |
| `TaskSchema.Schemas` | scripts/check_task_schema.py:66-85 | one schema for each message that carries the option, with its version and closure |
| `TaskSchema.EveryFieldDeclaresItsMinor` | scripts/check_task_schema.py:97-110 | it reports exactly the fields that declare no minor version or one past the schema's |
| `TaskSchema.Changed` | scripts/check_task_schema.py:113-136 | it reports exactly the changed rules, changed or wrong minor versions, and tells whether a field was gained |
| `TaskSchema.Additive` | scripts/check_task_schema.py:139-153 | it reports exactly the faults of the head against the base, with an unraised or lowered minor version among them |
| `TaskSchema.Violations` | scripts/check_task_schema.py:156-177 | a rule is reported if and only if some schema of either package breaks it; no report means the change is accepted |
| `SchemaHistory.ChangeKeepsThePast` | scripts/check_task_schema.py:139-177 | an accepted change leaves what every minor version up to the base's shows as it was |
| `SchemaHistory.OwnMinorShowsAll` | scripts/check_task_schema.py:97-110 | a schema that declares its fields is exactly what it shows at its own minor version |
| `SchemaHistory.EveryVersionIsRecovered` | scripts/check_task_schema.py:1-20 | time travel: cutting the newest schema down to a minor version and taking reachability again gives back that version's messages, fields and rules |
| `SchemaHistory.SameMinorSameSchema` | scripts/check_task_schema.py:139-153 | two versions of an accepted history with one minor number are the same schema |
| `SchemaHistory.NewMessageIsReportedForItsRules` | scripts/check_task_schema.py:113-117 | a message the base does not reach is reported for changed rules if and only if it has rules |
| `SchemaHistory.NewMessageCarriesNoRules` | scripts/check_task_schema.py:113-117 | so an accepted change brings in messages without message rules only |
| `SchemaHistory.NewRulesAreTheOnlyFault` | scripts/check_task_schema.py:113-117 | two packages Buf accepts whose only fault is the rules of a new message |
| `Aliases.Bindings.constructor` | scripts/check_contract_sot.py:232 | the alias map starts empty |
| `Aliases.Bindings.Bind` | scripts/check_contract_sot.py:212-227 | the new map is the old one with the targets added within the caps; unless marked, the map is exactly everything ever bound |
| `Aliases.MarkerStays` | scripts/check_contract_sot.py:212-227 | no later binding removes the marker of a local |
| `Aliases.UnmarkedDropsNothing` | scripts/check_contract_sot.py:212-227 | a binding that leaves its local unmarked hit no cap and dropped nothing |
| `Aliases.Bindings.Pass` | scripts/check_contract_sot.py:267-273 | a pass applies the assignments in order, and one that changes nothing is a fixed point of each of them |
| `Aliases.Bindings.AssignmentBindings` | scripts/check_contract_sot.py:246-276 | the outcome is marked, or closed under every assignment; for monotone values it is then the least such map |
| `Aliases.BindingsOf` | scripts/check_contract_sot.py:230-243 | the same for a source's imports and assignments together |
| `Aliases.AliasErrors` | scripts/check_contract_sot.py:681-690 | one error for each marked local, so none if and only if no local is marked |
| `Aliases.ScanAliases` | scripts/check_contract_sot.py:230-276 | fails closed: without alias errors the map holds every import, is closed under every assignment, exceeds no cap, and holds nothing more than needed |
| `Resolver.Resolve` | scripts/check_contract_sot.py:315-341 | it ends on every export graph; unlimited, its result is exactly the reachable stop names and normal forms; limited, it holds the marker; and when each must happen, at exactly 256 names by a count of the arrivals met again |
| `Resolver.RewriteAll` | scripts/check_contract_sot.py:332-340 | the rewritings by the longest exported prefix, and none exactly for normal forms |
| `Occurrences.Ratchet` | scripts/check_contract_sot.py:870-876 | nothing is reported if and only if every count is at most the baseline's |
| `Occurrences.RelocatedCounts` | scripts/check_contract_sot.py:912-917 | each count is the sum of those that land on it, and the total is conserved |
| `ContractGate.ShapeErrors` | scripts/check_contract_sot.py:544-562 | it reports exactly the frozen classes that appeared, reappeared, changed bases or exceed their seed's fields |
| `ContractGate.ManifestRatchet` | scripts/check_contract_sot.py:578-602 | it reports exactly a changed seed, removed authorities, changed shapes and reversed retirements |
| `ContractGate.Run` | scripts/check_contract_sot.py:942-996 | the exit code is 0, 1 or 2 under exact conditions, and only a successful write changes the tree |
| `ContractHistory.AbsentIffRetired` | scripts/check_contract_sot.py:544-575 | in an accepted commit a seeded class is absent if and only if its entry is retired |
| `ContractHistory.ShapeIsForever` | scripts/check_contract_sot.py:578-602 | over an accepted history a seeded class keeps its entry and shape, and stays retired once it is |
| `ContractHistory.DeletedStaysDeleted` | scripts/check_contract_sot.py:957-982 | over an accepted history a class once deleted never reappears |
| `ContractHistory.NeverOutgrowsItsSeed` | scripts/check_contract_sot.py:558-561 | at every later commit the class has its seed's bases and no field its seed lacked |
| `ContractHistory.FieldsMayChangeWithinSeed` | scripts/check_contract_sot.py:558-561 | a change of a class's fields alone is accepted if and only if the new fields are all among the seed's |
| `ContractHistory.DroppedFieldComesBack` | scripts/check_contract_sot.py:558-561 | an accepted history in which a field is dropped and comes back |
| `ContractHistory.UseWithinBase` | scripts/check_contract_sot.py:951-957 | every count is at most the previous baseline's once moved along the renames |
| `ContractHistory.UseNeverGrows` | scripts/check_contract_sot.py:951-985 | the total of legacy uses never rises over an accepted history |
| `ContractHistory.WrittenPasses` | scripts/check_contract_sot.py:968-982 | what a successful write leaves passes the same check |
| `ImpactedTests.Impacted` | scripts/impacted_tests.py:163-173 | the result holds exactly the modules that reach a changed one by imports, each with the length of a shortest chain |
| `ImpactedTests.LargerChangeReachesMore` | scripts/impacted_tests.py:163-173 | a larger change reaches more modules, at no greater distances |
| `ImpactedTests.Fits` | scripts/impacted_tests.py:54-63 | a cost fits the budget if and only if it is at most the wall time times the workers |
| `ImpactedTests.Seed` | scripts/impacted_tests.py:165-166 | the search starts with exactly the changed modules, at distance zero and all queued |
| `ImpactedTests.Expand` | scripts/impacted_tests.py:168-172 | visiting a module's importers keeps every distance genuine and the queue a frontier, and leaves no importer further than one step |
| `ImpactedTests.Rank` | scripts/impacted_tests.py:193-199 | the reached tests, each once, by distance, then cost, then name |
| `ImpactedTests.Take` | scripts/impacted_tests.py:200-208 | the greedy pass splits the ranked tests, keeps the cost bound and leaves out nothing that fits or was touched |
| `ImpactedTests.Select` | scripts/impacted_tests.py:176-209 | chosen and left-out files partition the reached tests, touched tests run, the cost bound holds, nothing left out still fits, and each distance is taken cheapest first |
| `DelegatedMerge.PullRequestAccepted` | scripts/delegated_merge.py:465-486 | a reply is accepted with a head if and only if it describes the open, unmerged, non-draft request on the allowed branch |
| `DelegatedMerge.ReadQueueState` | scripts/delegated_merge.py:591-614 | a queue reply is read if and only if it is well formed, and then gives what it says |
| `DelegatedMerge.AuthorizeNames` | scripts/delegated_merge.py:516-534 | the names of one file are authorized if and only if each is covered, and then need exactly the capabilities that match |
| `DelegatedMerge.AuthorizeFiles` | scripts/delegated_merge.py:494-535 | files are authorized if and only if all were listed and every new and previous name is safe, not denied and covered; the capabilities and checks are those needed |
| `DelegatedMerge.WorkflowRunSelected` | scripts/delegated_merge.py:538-551 | the run selected is the newest one of the pull request's head |
| `DelegatedMerge.CheckJobAuthorized` | scripts/delegated_merge.py:554-571 | a job passes if and only if it is the only one of its name, completed and successful |
| `DelegatedMerge.Wire.Send` | scripts/delegated_merge.py:183-237 | a call is appended to the trace and answered by the next reply |
| `DelegatedMergeRun.ValidateActor` | scripts/delegated_merge.py:731-744 | the opening reads succeed if and only if event, scope, role and queue replies allow it, and an early success means the request was queued already |
| `DelegatedMergeRun.ValidatePull` | scripts/delegated_merge.py:745-757 | the pull and file reads succeed if and only if both replies and the actor's membership allow it, and give the head and the needed checks |
| `DelegatedMergeRun.LookUpChecks` | scripts/delegated_merge.py:758-774 | all checks pass if and only if each one's two replies say so, and the reads stop at the first that does not |
| `DelegatedMergeRun.Land` | scripts/delegated_merge.py:775-793 | one more read, and one landing write if and only if the refreshed request still has that head, a landing client exists and its stack can land |
| `DelegatedMergeRun.ReadTraceReads` | scripts/delegated_merge.py:724-776 | everything before the landing call is a read through the reading client |
| `DelegatedMergeRun.LandingOutcomeMeans` | scripts/delegated_merge.py:617-695 | for each kind of landing call: merged, queued or already queued is reported if and only if the reply says so |
| `DelegatedMergeRun.Run` | scripts/delegated_merge.py:724-793 | for every sequence of replies the run writes if and only if all conditions on the raw replies hold, and its trace is exact |
| `DelegatedMergeRun.WriteIsLast` | scripts/delegated_merge.py:724-793 | a landing call in a trace is the only write, the last call, through the landing client and on an authorized run |
| `DelegatedMergeRun.LandingIsPinned` | scripts/delegated_merge.py:617-721 | the write names the head both pull-request reads showed; a direct merge only without a queue and a stack |
| `DelegatedMergeRun.LandingCoversEveryName` | scripts/delegated_merge.py:438-451 | every new and previous file name is covered, by capabilities the actor holds or for an admin |
| `DelegatedMergeRun.LandingPassedEveryCheck` | scripts/delegated_merge.py:538-571 | every required check was looked up, before the write, by two calls of the run: the runs of its workflow for the landed head, and the jobs of the newest of them, whose job succeeded |
| `PrivateTerms.AddedLines` | scripts/check_private_terms.py:81-95 | the loop reports what the row-by-row reading of the diff's lines gives |
| `PrivateTerms.ReadingInvertsPrinting` | scripts/check_private_terms.py:81-95 | on a printed diff in which breaks outside the inserted lines do no harm in the state they are read in, exactly the inserted lines come back, with path and true line number, if and only if no inserted line holds a break and every file with insertions is named plainly |
| `PrivateTerms.TameIsHarmless` | scripts/check_private_terms.py:86-95 | breaks that split off nothing like a title, hunk or addition do no harm in any state |
| `PrivateTerms.PathlessIsHarmless` | scripts/check_private_terms.py:86-95 | nor do additions that a break splits off while there is no path |
| `PrivateTerms.BrokenLineIsMisread` | scripts/check_private_terms.py:86 | on any diff, printed plainly or not, an inserted line that holds a Python line break is never reported as it is |
| `PrivateTerms.DeletedLineIsReported` | scripts/check_private_terms.py:86 | the guard is needed: a deleted line whose form feed is followed by a plus sign is reported as an addition |
| `ChangedTests.ReadSection` | scripts/explore_changed_tests.py:98-106 | a section gives the first new file it names and the ranges of all its hunks, in order |
| `ChangedTests.ChangedLines` | scripts/explore_changed_tests.py:92-107 | the ranges of each section go to the first new file it names |
| `ChangedTests.ChangedLinesInvertsPrinting` | scripts/explore_changed_tests.py:92-107 | of any printed diff the ranges of each file's edits go to the file its new name names, or else the first its inserted lines read as naming |
| `ChangedTests.FoundIffTaken` | scripts/explore_changed_tests.py:92-107 | a path is found if and only if some section of the diff is so taken for it |
| `ChangedTests.SelectIds` | scripts/explore_changed_tests.py:130-143 | the ids are those of the tests some range meets, or the file alone when a range meets none |
| `ChangedTests.SelectedIds` | scripts/explore_changed_tests.py:146-152 | the ids are those selected for the diff's test files |
| `ChangedTests.UnmetIsUnchanged` | scripts/explore_changed_tests.py:92-143 | a block no hunk meets, pure deletions included, stands in the old file with the same adjacent lines |
| `ChangedTests.UnselectedIsUnchanged` | scripts/explore_changed_tests.py:92-152 | end to end: in a file its section is taken for, a test left out of the selection is such a block, whatever the other files of the diff |
| `ChangedTests.PlainNameIsTaken` | scripts/explore_changed_tests.py:98-101 | a plainly named file is one its section is taken for |
| `ChangedTests.FoundRanges` | scripts/explore_changed_tests.py:92-107 | the ranges found for a path are exactly those of the sections taken for it, its own file's or another's |
| `ChangedTests.CoveredIff` | scripts/explore_changed_tests.py:92-152 | in any file, however it is found, every test is selected or unchanged if and only if every block that no range found for its path meets is unchanged |
| `ChangedTests.MissedFileIsCoveredIff` | scripts/explore_changed_tests.py:92-152 | so in a file no section is taken for, if and only if the new file stands whole in the old one |
| `ChangedTests.SpacedNameIsMissed` | scripts/explore_changed_tests.py:98-101 | for every file name Git ends with a tab: a test whose line changed is neither selected nor unchanged |
| `ChangedTests.SpacedNameExample` | scripts/explore_changed_tests.py:98-101 | the same for one concrete diff |
| `WheelRecord.ReadRecord` | packaging/evaluator_wheels.py:292-297 | the loop reads what the rows claim, and nothing if a row has fewer than two commas |
| `WheelRecord.RecordReadsBack` | packaging/evaluator_wheels.py:133-136 | a written RECORD reads back as the claim of each member, commas in names included |
| `WheelRecord.RecordNamesAreBreakFree` | packaging/evaluator_wheels.py:293-297 | no RECORD can name a member whose name holds a line break |
| `WheelTags.TagsReadBack` | packaging/evaluator_wheels.py:163-172 | the tags read from a platform's WHEEL file are the platform's, whatever the pure file said |
| `WheelTags.PurityIsDenied` | packaging/evaluator_wheels.py:166-172 | the platform's WHEEL file says that the wheel is not pure |
| `Wheels.DistInfo` | packaging/evaluator_wheels.py:155-160 | the directory is found if and only if there is exactly one |
| `Wheels.Retag` | packaging/evaluator_wheels.py:113-147 | it fails exactly for bundled binaries, no single dist-info or an unreadable WHEEL file, and else gives the assembled wheel |
| `WheelCheck.CheckRecord` | packaging/evaluator_wheels.py:292-307 | it passes if and only if the claims are about the members, all of them, and true |
| `WheelCheck.CheckBinaries` | packaging/evaluator_wheels.py:310-324 | it passes if and only if exactly the three binaries are bundled, executable and right for the platform |
| `WheelCheck.VerifyWheel` | packaging/evaluator_wheels.py:327-343 | it passes if and only if name, tags, RECORD and binaries are sound |
| `WheelCheck.ChangedMemberIsRefused` | packaging/evaluator_wheels.py:302-307 | changing a member's bytes to another hash or size makes a sound wheel refused |
| `WheelCheck.FalseClaimIsRefused` | packaging/evaluator_wheels.py:302-307 | a RECORD with another hash or size for a member is refused |
| `WheelCheck.BrokenNameIsRefused` | packaging/evaluator_wheels.py:298-300 | a wheel with a line break in a member's name is refused |
| `WheelAgreement.WriterAndVerifierAgree` | packaging/evaluator_wheels.py:113-147 | the verifier accepts the written wheel if and only if the pure wheel has a WHEEL file, its file names hold no line break and the binaries run |
| `WheelAgreement.BytesArePreserved` | packaging/evaluator_wheels.py:124-131 | every file but WHEEL and RECORD keeps its bytes |
| `WheelAgreement.NothingElseIsAdded` | packaging/evaluator_wheels.py:124-137 | a member is the RECORD, a binary, or named in the pure wheel |
| `WallTime.Analyze` | scripts/ci_wall_time.py:151-174 | the walk ends and its path is critical: it ends with the job that finished last, each job released by the last one ready before it |
| `WallTime.CompletionsIncrease` | scripts/ci_wall_time.py:151-174 | completions strictly increase along the path |
| `WallTime.ExecutionIsTimeOnRunners` | scripts/ci_wall_time.py:63-71 | elapsed is queue plus execution, both non-negative, and execution is the time on runners up to epsilon times the number of steps of the path |
| `WallTime.TrustingSteps` | scripts/ci_wall_time.py:111-135 | the loop corrects the times by the first start and last finish of the steps |
| `WallTime.HoursRecognised` | scripts/ci_wall_time.py:138-144 | a whole number of hours on top of at most a minute is recognised exactly |
| `WallTime.SkewIsUndone` | scripts/ci_wall_time.py:111-144 | whole-hour errors of start and finish are undone; a creation time with the start's error is recovered if and only if there is none or the wait was shorter than it |
| `WallTime.TrustedIdempotent` | scripts/ci_wall_time.py:111-144 | correcting twice is correcting once, on all inputs |
| `WallTime.JobFromRecord` | scripts/ci_wall_time.py:90-108 | a loaded job was created before it started and finished |
| `WallTime.SkewedRunLoadsTheSame` | scripts/ci_wall_time.py:90-144 | a run reported ahead, each job by its own hours, loads as the run that happened |
| `ReleaseVersions.ReadsExactlyTheSpelling` | packaging/release_versions.py:30-35 | a string is read as a release if and only if it is that release's canonical spelling |
| `ReleaseVersions.GoVersionFields` | packaging/release_versions.py:38-45 | the printed version is valid under Semantic Versioning 2.0.0 and its fields are the release's numbers |
| `ReleaseVersions.GoSpellingPreservesOrder` | packaging/release_versions.py:38-45 | section 11 of Semantic Versioning 2.0.0 orders the printed versions exactly as PEP 440 orders the releases |
| `ReleaseVersions.GoSpellingIsInjective` | packaging/release_versions.py:30-50 | reading and then printing is injective on the strings that are read |

## Left out

- Expression parsing: Python and TypeScript sources enter as small syntax trees or as spans and bindings, since parsing is done by other tools.
- Escape cooking of TypeScript strings, the timer references and the import scan over the tokens: they work on the tokens and would only add easy members.
- The other rules of scripts/check_test_isolation.py: syntactic scans without state.
- Flattening nested messages of a Buf image, and the error texts of all gates: violations are values here.
- scripts/check_contract_sot.py beyond aliases, resolution, counting and retirement: measuring the uses in a source is an input to the gate.
- ContractGate.Run: of the ways to exit code 2 only a manifest that names an owner twice is modelled; unreadable baselines and Git failures are not.
- `importers`, `module_name`, `is_test_file` and recorded durations of scripts/impacted_tests.py: parameters of the selection.
- Policy and event parsing, comments and error messages of scripts/delegated_merge.py: they make no landing decision.
- PrivateTerms.AddedLines: hunk headers are read with ASCII digits and white space, the only ones Git prints.
- ChangedTests.SelectedIds: the test functions of a file and what counts as a test file are parameters.
- PrivateTerms.BrokenLineIsMisread: says that the reports differ from the insertions, not what they are.
- PrivateTerms.ReadingInvertsPrinting: says nothing of diffs in which a break elsewhere than in an inserted line does harm; `PrivateTerms.DeletedLineIsReported` shows what may happen there.
- TimeoutLoads.LoadIsCurrentIff: the loads in bodies of lambdas and generator expressions happen later, if at all, and are not counted; a generator expression's first iterable is counted with them.
- Annotations of assignments, which a function body does not evaluate.
- Zip encoding, time stamps and compression of wheels, and the ELF and Mach-O checks: the archive is a list of members, and the binary check a parameter.
- WheelAgreement.WriterAndVerifierAgree: the pure wheel has distinct member names; with repeated names the archive reader keeps the last one.
- Rendering, thresholds and exit codes of scripts/ci_wall_time.py: plain formatting.
- Rounding of floating-point times and costs: reals are exact here.
