# Verified models of the blueprint toolkit

This project models the parts of the repository whose behaviour is hardest to see from reading one
function, and proves what they promise. Each module follows one source file or one component of it.

**The evidence ledger.** A blueprint is a markdown document with one section per task. Verifying a
task splices its canonical evidence into that section and marks the task done.

- `Json`, `JsonRoundTrip`: a JSON printer and reader that undo each other; printed JSON is one line.
- `Canonical`, `Evidence`: key-sorted evidence is a normal form and reads back as the evidence it was
  written for.
- `Markdown`: every regex of the completion edits, as a function of the text it is tried at.
- `Splicing`, `Verification`: applyVerification and its parts, as the source composes them.
- `Documents`, `Sections`: documents as headed pieces; where the regexes find a task; both ways of
  editing a section rewrite exactly one piece.
- `SectionEdits`, `Blocks`, `Completion`: what each edit keeps; a block is read back, and removed again,
  exactly; recording a block is an edit of one piece.
- `Ledger`: runs of calls. `BlockEnds`, `ReadBack`: exactly when one call reads back. `Neighbours`:
  exactly what a call does to the other tasks.
- `Tidy`, `Markers`, `DoneLines`, `Completing`, `Remains`, `Outcomes`: exactly what completing a task leaves
  behind, a done line or none, a blocked marker or none.
- `Reinserting`, `Resting`, `Reapplying`, `Repeating`, `EndOfFile`: exactly when a further verification with
  the same evidence changes the bytes, and after how many the bytes rest.
- `Cutting`, `Growing`, `Restless`, `Lengthening`: the same for evidence whose block opens a section and so cuts
  its own short: the bytes never rest.
- `Samples`, `SmallSections`, `Inputs`, `SectionInputs`, `RestlessInputs`, `Astray`: the inputs at which promises
  fail.

**Lexers and compilers.** `PayloadScanner` finds the JSON payload in noisy output. `Glob` compiles
globs to regexes. `Jsonc` strips comments and trailing commas. `Frontmatter` reads and repairs
frontmatter; `Lines` is shared text work.

**Task graph.** `TaskGraph` and `DepCone` are the capped dependency search, `Scheduler` the next-task
query as a step relation.

**Protocols and caches.** `WriteProtocol` is the locked write as a state machine over every
interleaving. `Discovery` is the bounded scan and the first-source-wins index. `Resolver` is the
project cache with its clock.

**Audits.** `Roadmap` is the two-way link audit, `MutationScore` the mutation gate over exact
rationals.

## Findings

Some documented promises do not hold of the code. Each has a lemma that says when they do.

- Evidence is claimed to be readable from the task it was recorded for. JSON leaves U+2028 and U+2029
  as they are, and `^` matches behind them, so evidence text can end its own section:
  `ReadBack.ReadsBackExactly` gives the condition, `ReadBack.ConfusingEvidence` a family of valid
  evidence that is accepted and reads back as nothing, in every document.
- Verifying a task is claimed to leave the others alone. A heading of a later task behind such a separator
  takes that task's answer away: `Neighbours.OthersExactly` gives the condition for one call,
  `Inputs.ShadowingEvidence` a family of inputs. A later task's heading anywhere in the evidence, even in the
  middle of a line, catches the unanchored task pattern of the next completion, which then edits the verified
  block: `Neighbours.EditsGoAstray`, and `Astray.StrayVerification` for two calls on one document.
  `Neighbours.ServesExactly` says which evidence leaves every task where both searches find it; with such
  evidence the runs of `Ledger` hold.
- Completing a task is claimed to mark it done. An empty blocked reason before the status takes the status line
  with it, and a status mark without a value stays as it is: `Outcomes.CompletionExactly` gives the condition,
  `SectionInputs.StatusNotDone` both inputs.
- `src/blueprint/markdown/helpers.ts` calls its edits idempotent. Clearing the blocked reason takes out
  one marker at a time: `Markers.ClearingTwice` and `Outcomes.CompleteTaskTwice` give the conditions,
  `SectionInputs.SecondMarkerStays` an input.
- Re-applying evidence is claimed to produce the same bytes. With evidence whose block opens a section they never
  rest: the section is cut inside its own block, which the removal pattern then does not match, and every
  application adds one more block. `Restless.RestsExactlyWhen` is the exact condition for the second application, on
  every section that one completion settles; `Growing.GrowsEachTime` and `Lengthening.GrowsBehindTitle` say that the
  text grows each time after that, and `RestlessInputs.PhaseGrows` is an input.
- With all other evidence `Reapplying.ReapplyingExactly` says exactly which sections are at rest. Without a blocked
  marker the second application may still add a line feed (`SectionInputs.TightChangesOnce`) and the third changes
  nothing (`Reapplying.UnblockedSettles`). With markers each application takes out one: `Repeating.RestsAfter` counts
  how many it takes, read off the section as it is given, and `SectionInputs.ThreeMarkersChangeTwice` is an input at
  which the third one still changes the bytes. That the evidence spells a later task's heading within a line does no
  harm here: `RestlessInputs.MentionRests`.
- Replacement text is expanded by `String.prototype.replace`: `SectionEdits.LiteralIffExpandsToItself`
  says exactly which text survives, and `Inputs.DollarEvidence` that `$$` in accepted evidence reads back as `$`.
- `parseJsonc` rewrites commas inside string literals too: `Jsonc.ParseJsoncExact`, with the text
  `{"a":",]"}` in `Jsonc.CommaIsLost`.
- The project cache changes answers. An existing path is answered with itself and no id at first, but with a
  cached project afterwards: `Resolver.PathsAreNotTransparent`, `Resolver.SharedPathIsNotTransparent`. For an id
  that is no path, `Resolver.CacheIsTransparent` gives the condition.
- The change log is claimed to chain and to account for the files. A write that takes effect and then reports a
  failure is never recorded. `WriteProtocol.LogIsChained` says that without such a write the changes of a path
  chain, and `WriteProtocol.LostWriteBreaksChain` is a schedule in which one breaks the chain, but a lost write
  without a later record does not. Exact is `WriteProtocol.LogAccountsExactly`: the log accounts for a file
  throughout if and only if no such write changed it.

## The ledger's documents

The ledger theorems hold for documents (`Documents.Wellformed`) whose task headings are unique and stand at
the start of a line, in which no section opens but at these headings and those of phases, and in which no
task's pattern matches in the text before its own heading. Heading texts, up to their colon, stand on one line
and hold no hash, asterisk or dollar sign behind their own hashes, and no empty checkbox. The sections of the
tasks that are to be verified must be text the edits cannot misread once their blocks are removed
(`Blocks.Removable`): every block header starts a block that the removal pattern takes, there is no `#### Task`,
`#### [` or `### Phase`, no three hashes with nothing else on their line, no asterisk right behind hashes, and
none of the replacement patterns `$$`, `$&`, `` $` `` and `$'`, which an edit would expand.

Of the evidence the runs ask only what they cannot do without (`Ledger.Recordable`): its block holds no
replacement pattern, opens no section, and spells no later task's heading. What happens otherwise is stated call by
call: for what is read, and for the other tasks, in `ReadBack`, `Neighbours`, `Inputs` and `Astray`; for the bytes
when the same evidence is applied again in `Restless`, `Growing` and `Lengthening`.

Theorems about one task alone ask less of the document (`Sections.Served`): that its headings are in their form,
that the task's pattern matches nothing before its heading, and that no section opens in its text. Of the evidence
they ask at most that its block holds no replacement pattern and opens no section (`Ledger.Contained`).

## Model

| member | source | states |
|---|---|---|
| Ledger.RunReadsLatest | src/blueprint/verification.ts:73-120 | after any sequence of calls whose accepted evidence opens no section and spells no later task's heading, a task with an accepted call reads back exactly the evidence of its latest accepted call and passes the assertion; every other task answers what it answered before |
| Ledger.RunPassesAll | src/blueprint/verification.ts:250-257 | the assertion over a list of tasks holds after any run that verified each of them |
| Ledger.RunIs | src/blueprint/verification.ts:73-120 | any run of calls on a well-kept document yields a well-kept document with the same headings, in which untouched pieces are byte-identical and each verified task holds one block for its latest evidence |
| Ledger.ApplyIs | src/blueprint/verification.ts:73-120 | a call succeeds exactly when the evidence is acceptable and the task exists; it edits at most the piece of its own task, and a refused call edits nothing |
| Ledger.RecordIs | src/blueprint/verification.ts:73-120 | on text, remove-complete-insert over regex searches equals an edit of one piece, which then holds exactly one block; with harmless evidence the result is again a document the ledger can be kept in |
| Ledger.OthersUntouched | src/blueprint/verification.ts:314-342 | in a run whose evidence spells no later task's heading, verifying one task leaves the section of every other task byte-identical and what is read from it unchanged |
| Neighbours.OthersExactly | src/blueprint/verification.ts:314-342 | after one accepted call, another task's section is its own piece, byte-identical, and answers as before if and only if its piece stands before the verified one or the block holds no header of it behind a line terminator of its own; otherwise its section starts inside the block and reads as nothing |
| Neighbours.ServesExactly | src/blueprint/verification.ts:73-120 | after one accepted call both searches find every task at its own piece if and only if the block opens no section and the pattern of no later task matches in it |
| Neighbours.EditsGoAstray | src/blueprint/markdown/helpers.ts:19-24 | if a later task's pattern matches in the block, every edit for that task rewrites the verified piece from the match on, and its own piece stays |
| Inputs.ShadowingEvidence | src/blueprint/verification.ts:180-225 | in every document, a description with a later task's heading behind a line separator is accepted and takes that task's answer away |
| Astray.StrayVerification | src/blueprint/verification.ts:73-120 | evidence for task 1.1 that mentions task 1.2's heading reads back; then verifying task 1.2, with any accepted evidence whose block holds no replacement pattern, succeeds, leaves task 1.1 reading as nothing with a done line between its fences, and leaves task 1.2's own text as it was but for its block |
| Completion.CompleteStep | src/blueprint/markdown/helpers.ts:88-92 | completing a task through the unanchored task pattern rewrites that task's own piece only, and keeps it plain text under its heading |
| Ledger.BlueprintFile.WriteVerification | src/blueprint/verification.ts:143-161 | a refused verification touches neither file nor projection; otherwise the file holds the new text, is written only if the bytes differ, and the projection is rebuilt once |
| ReadBack.ReadsBackExactly | src/blueprint/verification.ts:180-225 | an accepted verification reads back as exactly its evidence if and only if its block opens no section behind a line terminator of its own; otherwise it reads back as nothing |
| ReadBack.ConfusingEvidence | src/blueprint/verification.ts:180-183 | in every document, for every task and every heading text, evidence with that text behind a line separator is accepted and nothing reads back |
| ReadBack.PhaseHeading | src/blueprint/markdown/task-heading.ts:21-23 | such a heading text exists |
| Restless.RestsExactlyWhen | src/blueprint/verification.ts:137-141 | on every section with at most one blocked marker and a status that settles, verifying a task a second time with the same evidence leaves every byte if and only if the block opens no section and the completed section is at rest, for all accepted evidence without a replacement pattern |
| Restless.ChangesAgain | src/blueprint/verification.ts:297-342 | on such a section the second verification with evidence whose block opens a section changes the bytes of the document |
| Restless.UnmarkedSettles | src/blueprint/markdown/helpers.ts:94-133 | a section without a blocked marker in what completion sees is such a section |
| Growing.GrowsEachTime | src/blueprint/verification.ts:275-342 | evidence whose block opens a section, in a section that keeps its done line and holds at most one blocked marker: for every n > 0, n + 1 verifications give a longer document than n |
| Lengthening.GrowsBehindTitle | src/blueprint/verification.ts:297-312 | the same where the block goes behind the title, as with carriage returns or at the end of the document, when neither the title nor the block spells a status mark |
| Cutting.VerifiedAgain | src/blueprint/verification.ts:73-120 | a verification of a task whose block cuts its section short removes nothing, completes the whole piece through the unanchored pattern, and puts the block into the front of the piece that the header search finds |
| RestlessInputs.SeparatorGrows | src/blueprint/verification.ts:180-183 | a plain task in any document, and a description with a heading's text behind a line separator: accepted, and each further application makes the document longer |
| RestlessInputs.PhaseGrows | src/blueprint/verification.ts:180-183 | one such heading in one well-formed document of two tasks |
| RestlessInputs.LastTaskGrows | src/blueprint/verification.ts:297-312 | the same for a last task that ends at its status line without a line feed, when the heading's text holds no asterisk |
| RestlessInputs.MentionRests | src/blueprint/verification.ts:137-141 | evidence that spells a later task's heading within a line rests after its first application |
| Reapplying.ReapplyingExactly | src/blueprint/verification.ts:275-312 | with accepted evidence whose block holds no replacement pattern and opens no section, verifying a task again with the same evidence leaves every byte exactly when its section, the block taken out, holds no blocked marker that completion sees, has a settled status, and an empty line, or nothing that completion sees, behind the line the block follows; markers, line ends and documents without a final line break included |
| Reapplying.UnblockedSettles | src/blueprint/verification.ts:275-312 | with such evidence and no blocked marker the bytes no longer change from the second verification on |
| Repeating.RestsAfter | src/blueprint/verification.ts:275-312 | with such evidence, for a section that keeps its done line: n + 1 verifications give the bytes of n if and only if the section as given holds at most n blocked markers, those before and behind its status counted apart, and, for n = 1, an empty line follows its status line once the first marker is out |
| EndOfFile.RestsAtEnd | src/blueprint/verification.ts:297-312 | with such evidence, a document that ends at its last task's unblocked status line: the second verification changes nothing exactly when an empty line follows the task's title, or the status stands in it |
| Outcomes.CompleteTaskTwice | src/blueprint/markdown/helpers.ts:88-92 | completing a completed task changes nothing if and only if the section as given held at most one blocked marker and its status settles: the done line is not swallowed by a marker before it, or what is left opens with a settled status of its own |
| Outcomes.CompletionExactly | src/blueprint/markdown/helpers.ts:80-133 | on every plain section: the completed text's first status mark is a done line exactly when one is written and no marker before it runs on through it, or a done line of its own follows; no blocked marker is left exactly when there was at most one; no empty checkbox, no run of three breaks, no space at the end; nothing changes from the first third-level line on |
| Markers.ClearingTwice | src/blueprint/markdown/helpers.ts:94-116 | clearing the blocked reason twice equals clearing it once if and only if the section given holds at most one match of the blocked pattern, each counted behind the one before |
| SectionInputs.SecondMarkerStays | src/blueprint/markdown/helpers.ts:99-106 | of two markers clearing takes out one and clearing again the other |
| SectionInputs.StatusNotDone | src/blueprint/markdown/helpers.ts:94-133 | in every document, a task that is not the last piece and whose text is one of two given ones, an empty blocked reason right before the status or a status mark without a value, is verified successfully and has no done line afterwards |
| SectionInputs.TightChangesOnce | src/blueprint/verification.ts:297-312 | one line feed behind the status line: the second verification changes the bytes, the third does not |
| SectionInputs.ThreeMarkersChangeTwice | src/blueprint/markdown/helpers.ts:94-106 | three blocked markers: the second and the third verification change the bytes, the fourth does not |
| SectionInputs.BlockedTaskRests | src/blueprint/verification.test.ts:86-108 | the blocked task of the tests, at the end of a document, rests after its first verification |
| Ledger.ParseSerialized | src/blueprint/verification.ts:180-213 | parsing a serialized block gives back the evidence |
| BlockEnds.BlockAnswers | src/blueprint/verification.ts:281-295 | a section with a block reads as that block's JSON, or, when the block opens a section of its own, as nothing |
| Blocks.SealedReads | src/blueprint/verification.ts:192-213 | wherever a block stands in a section of plain text, the read pattern finds that block and stops at its real closing fence |
| Blocks.SealedRemoves | src/blueprint/verification.ts:44-47 | removing the one block of a section leaves its two sides with one empty line between them |
| Blocks.InsertSeals | src/blueprint/verification.ts:297-312 | inserting puts the whole block behind a line of the section's own, or behind all of it, and changes nothing else |
| SectionEdits.LiteralIffExpandsToItself | src/blueprint/verification.ts:308-310 | a replacement template is inserted unchanged into every text if and only if it holds no replacement pattern |
| Inputs.DollarEvidence | src/blueprint/verification.ts:308-310 | in every document with a heading behind the task, evidence that describes `$$` is accepted and reads back with `$` |
| SectionEdits.SetDoneKeeps | src/blueprint/markdown/helpers.ts:118-133 | setting the status keeps the heading and leaves text the regexes cannot misread |
| SectionEdits.ClearKeeps | src/blueprint/markdown/helpers.ts:94-106 | so does clearing the blocked reason |
| Sections.Place | src/blueprint/verification.ts:281-295 | the anchored header search and the unanchored task pattern both find a task at its own piece; the section is that piece, the region its part before the first third-level line |
| Sections.MapStep | src/blueprint/verification.ts:319-342 | mapTaskSection rewrites one piece |
| Sections.RegionStep | src/blueprint/markdown/helpers.ts:19-24 | a replacement under the task pattern rewrites the front of one piece |
| Documents.HeadIds | src/blueprint/markdown/task-heading.ts:14-19 | a heading is matched for its own id and for no other, whatever follows it |
| Documents.NoHeadingInCalm | src/blueprint/markdown/task-heading.ts:21-23 | no heading and no boundary matches anywhere in calm text, not even across its end |
| Evidence.CanonicalListReads | src/blueprint/evidence.ts:151-153 | canonical evidence parses and validates back to the same evidence and occupies one line |
| Evidence.DecodeSorted | src/blueprint/evidence.ts:32-127 | every valid item of each of the four kinds satisfies its strict schema again after key sorting |
| Canonical.CanonicalDecides | src/blueprint/evidence.ts:144-170 | two values print to the same canonical text if and only if they are equal up to object key order |
| Canonical.CanonicalIsStable | src/blueprint/evidence.ts:144-170 | reading canonical text gives a value equal to the input, and canonicalizing it changes nothing |
| JsonRoundTrip.RoundTrip | src/blueprint/evidence.ts:144-149 | parsing printed JSON gives the value back (sections 2 and 7 of RFC 8259) |
| JsonRoundTrip.PrintOneLine | src/blueprint/verification.ts:180-183 | printed JSON holds no raw control character (section 7 of RFC 8259) |
| PayloadScanner.ExtractJsonPayloadAt | scripts/check-dependency-freshness.ts:58-100 | the index loop with its stack and flags computes the recursive reading of balanced groups |
| PayloadScanner.PayloadIsBalancedPrefix | scripts/check-dependency-freshness.ts:58-100 | payloads are exactly the balanced prefixes of the text from the start position on |
| PayloadScanner.PayloadContextFree | scripts/check-dependency-freshness.ts:58-100 | a balanced text is found wherever it stands, and no shorter prefix of it is balanced |
| PayloadScanner.JsonPayloadIsExact | scripts/check-dependency-freshness.ts:58-100 | every JSON object or array text is extracted exactly, for every prefix and suffix |
| PayloadScanner.ParsePnpmOutdatedOutput | scripts/check-dependency-freshness.ts:102-118 | the scan over start positions returns the first payload that parses |
| PayloadScanner.ReportBehindNoise | scripts/check-dependency-freshness.ts:102-118 | warnings before the report are skipped, whatever follows the report |
| Glob.GlobToRegExp | src/audit/architecture-drift.ts:175-200 | the emitted regex text reads back as exactly the items of the glob: its escaping is complete |
| Glob.GlobDecidesSegments | src/audit/architecture-drift.ts:175-200 | when every `**` is a whole segment, the regex accepts exactly the paths whose segments the glob matches |
| Glob.ExpandPatterns | src/audit/architecture-drift.ts:220-240 | the matched files are exactly the existing literals and the listed files that some compiled pattern accepts |
| Jsonc.ParseJsoncReads | src/audit/bucket-boundary.ts:37-46 | on every text a comment-aware reader accepts, the two rewrites and the parser answer its tree, its literals put through the comma rewrite |
| Jsonc.ParseJsoncExact | src/audit/bucket-boundary.ts:37-46 | the tree written is recovered if and only if no string literal holds a comma, optional whitespace and a closing bracket |
| Jsonc.CommaIsLost | src/audit/bucket-boundary.ts:37-46 | a text that holds the comma and bracket in a string, and is misread |
| Frontmatter.ParseFrontmatter | src/audit/repo-guardrails.ts:711-726 | the line loop computes the fields, later lines winning |
| Frontmatter.ApplyDocsFrontmatterFix | src/audit/repo-guardrails.ts:728-753 | what the fixer returns reads back with a type and a date if and only if the frontmatter was not left open, keeps every field that had a value, and keeps the body |
| Frontmatter.FixIsIdempotent | src/audit/repo-guardrails.ts:728-753 | a repaired document is not repaired again, whatever type and date the second repair would write |
| Frontmatter.FixCompletes | src/audit/repo-guardrails.ts:728-753 | the repaired document reads back with a type and a date if and only if its frontmatter is not left open |
| Frontmatter.FixKeeps | src/audit/repo-guardrails.ts:728-753 | every field that had a value keeps it, and the body stays as it was |
| DepCone.LoadDepCone | src/blueprint/context.ts:175-193 | on every graph: no duplicates, not the root, only reachable tasks, at most 32; below the cap the whole reachable set; at the cap no omitted task is strictly closer than a returned one |
| DepCone.SortKeepsCone | src/blueprint/context.ts:192 | sorting by task id changes none of that |
| DepCone.SearchIsExact | src/blueprint/context.ts:175-190 | up to its frontier the search lists exactly what lies within each distance |
| Scheduler.RunCompletes | src/blueprint/context.ts:306-340 | taking the next task over and over carries out every pending task if and only if no pending task has a hopeless dependency and pending tasks wait in no cycle |
| Scheduler.RunRespectsDependencies | src/blueprint/context.ts:306-340 | each dependency of a picked task was done at the start or picked before |
| Scheduler.RunPicksOnce | src/blueprint/context.ts:306-340 | no task is picked twice |
| Scheduler.RunCounts | src/blueprint/context.ts:306-340 | a run takes exactly as many steps as it carries out tasks |
| Scheduler.RunChangesPicks | src/blueprint/context.ts:306-340 | a run changes the rows it picks, to done, and no other |
| WriteProtocol.MutualExclusion | src/ai-tools/write-file.ts:33-53 | in every interleaving, with any storage call failing, at most one call per path is between lock and unlock |
| WriteProtocol.LogIsChained | src/ai-tools/write-file.ts:93-122 | in every interleaving the recorded changes of a path chain, each `before` the previous `after` and the first the initial content, unless a write that took effect and then failed changed that path |
| WriteProtocol.LogReplaysToStore | src/ai-tools/write-file.ts:151-167 | while no call sits between its write and its record and no such write has changed a file, replaying the log yields the store |
| WriteProtocol.LogAccountsExactly | src/ai-tools/write-file.ts:151-167 | throughout a schedule the log accounts for a file, but for a write about to be recorded, if and only if no write that took effect and then failed changed it |
| WriteProtocol.LostWriteBreaksChain | src/ai-tools/write-file.ts:203-213 | a schedule in which such a write leaves the next recorded change without a predecessor |
| WriteProtocol.ResultMatchesLog | src/ai-tools/write-file.ts:187-213 | a returned call reports success exactly when it recorded its one change, or staged it when it was to stage it; otherwise it did neither |
| WriteProtocol.NoLockLeaks | src/ai-tools/write-file.ts:206-212 | unless an answer is lost or an unlock fails, a path is locked only while a call works on it |
| Discovery.Scanner.RecursiveScan | src/blueprint/projects.ts:303-316 | the scan returns a prefix of the uncapped listing, within the cap; with no deadline hit, exactly the first projects up to the cap |
| Discovery.Scanner.Walk | src/blueprint/projects.ts:318-342 | a walk appends a prefix of its own subtree's listing, all of it unless a cap stopped the scan |
| Discovery.PreorderIsReach | src/blueprint/projects.ts:318-348 | the uncapped listing holds exactly the projects reachable through names not skipped at bounded depth |
| Discovery.ProjectIndex.Record | src/blueprint/projects.ts:155-240 | recording keeps the index equal to the first reference of each worktree in order |
| Discovery.FirstSourceWins | src/blueprint/projects.ts:155-240 | every recorded worktree is listed with the reference recorded first, and no other |
| Discovery.NothingInvented | src/blueprint/projects.ts:155-240 | nothing else is listed, and no worktree twice |
| Resolver.ProjectResolver.Warm | src/blueprint/project-resolver.ts:83-90 | warming a listing makes the index answer as a log of everything warmed |
| Resolver.ProjectResolver.ReadRecentProjectMatch | src/blueprint/project-resolver.ts:64-81 | with its evictions the cache answers exactly as one that forgets nothing and compares ages |
| Resolver.ProjectResolver.ResolveId | src/blueprint/project-resolver.ts:100-140 | a fresh cached match, else the existing path, else the first discovered project of that name, which is then warmed |
| Resolver.ProjectResolver.ResolveVisible | src/blueprint/project-resolver.ts:142-200 | without an id: the listing is warmed, and the loops over it give the current project, the only scanned one, or the only one there is, else the choices |
| Resolver.VisibleIsOnlyChoice | src/blueprint/project-resolver.ts:142-200 | without an id a project is answered only if it is current, or none is and it is the only scanned one or the only one at all; otherwise the answer lists more than one choice, none of them current, or, with no project at all, the working directory |
| Resolver.ProjectResolver.Invalidate | src/blueprint/project-resolver.ts:203-208 | after an invalidation nothing warmed before is answered |
| Resolver.RecallIsRecent | src/blueprint/project-resolver.ts:64-81 | a cached answer names a project of that key warmed since the last invalidation and at most the time to live ago |
| Resolver.CacheIsTransparent | src/blueprint/project-resolver.ts:100-140 | for an id that is no path, under an unchanged listing, the cache answers as an empty one would if and only if nothing recent is cached under it or the first and last project of that name give the same answer |
| Resolver.OwnNameIsTransparent | src/blueprint/project-resolver.ts:100-140 | in particular when such an id names one project only |
| Resolver.PathsAreNotTransparent | src/blueprint/project-resolver.ts:103-118 | an existing path is answered with itself and no id by an empty cache; a cached answer always differs, is the last project of that name, and names the same directory exactly when that project's worktree is there |
| Resolver.SharedPathIsNotTransparent | src/blueprint/project-resolver.ts:103-118 | two worktrees of one repository: its path is answered with itself and no id, and once the listing is cached with the last worktree and its id |
| Roadmap.IndexBlueprints | src/audit/roadmap-links.ts:209-224 | the map answers every key with the last record indexed under it |
| Roadmap.AuditRoadmapLinks | src/audit/roadmap-links.ts:47-156 | the loops over maps and sets report exactly the violations of the link rules |
| Roadmap.OkIffLinked | src/audit/roadmap-links.ts:47-156 | the audit passes if and only if claims are local, wave maps are local and not empty, every reference resolves to the roadmap or to a record that claims it, and every claiming child is listed |
| Roadmap.PassingAuditIsExact | src/audit/roadmap-links.ts:47-156 | after a passing audit the blueprints a wave map resolves to are exactly those whose parent roadmap resolves to it, and every reference resolves |
| Roadmap.ResolvesOwn | src/audit/roadmap-links.ts:266-272 | a blueprint's key is in normal form and resolves to that blueprint |
| MutationScore.ComputeMutationScores | src/audit/audit-mutation-score.ts:51-100 | the nested loops compute the totals and every file's score |
| MutationScore.AuditMutationScore | src/audit/audit-mutation-score.ts:102-150 | the verdict is ok exactly when only the no-coverage notice is reported |
| MutationScore.RawAtMostCovered | src/audit/audit-mutation-score.ts:92-100 | the raw score never exceeds the covered score |
| MutationScore.RawBetweenFiles | src/audit/audit-mutation-score.ts:51-100 | with at least one file, the raw score lies between any bounds on the files' scores |

## Left out

- Strings are sequences of code points, not UTF-16 units; a surrogate escape in JSON reads as U+FFFD, so lone surrogates are not modelled.
- Numbers in evidence are integers; an exit code spelled with a fraction or an exponent is rejected by the model's reader, and JSON numbers are kept as lexemes.
- `Date.parse` is a parameter that decides which timestamps are dates; the collations `localeCompare` uses are comparison parameters or left out where only the final order depends on them.
- Keys that look like array indices, which JavaScript objects move to the front, and the frontmatter key `__proto__`.
- Validation messages, tool output texts and title strings; only which rule failed is kept.
- Files, directories, git, SQLite and subprocesses: the models take the rows, trees, contents and clock readings they return.
- Repeating.RestsAfter: does not count the applications for sections whose done line does not survive or whose status line ends in something other than a line feed, nor for a last task with only markers and spaces behind its status; for those `Reapplying.ReapplyingExactly` gives the condition on the section each application finds, and `EndOfFile.RestsAtEnd` the one on the given section when there is no marker.
- Restless.RestsExactlyWhen: says nothing of sections with two blocked markers or more, or whose status one completion does not settle, when the block opens a section; for evidence whose block opens none `Reapplying.ReapplyingExactly` covers them.
- Lengthening.GrowsBehindTitle: with `Growing.GrowsEachTime` it says nothing, from the third application on, of sections that neither keep their done line nor put the block behind a title without a status mark, nor, in the latter, of a block that spells a status mark. `Restless.ChangesAgain` covers the second application.
- Blocks.Removable: asks for text without replacement patterns in the whole section, though only those in the line that the block or the done line goes behind are expanded.
- A section that opens at an ordinary line of the document's own text, such as a second heading of one task, is outside the ledger's documents.
- `clampText` in `src/blueprint/context.ts`, whose byte bound does not hold when a code point is cut.
- In the write protocol: locks that expire, and locker ids shared by several calls. The change tracker never fails.
- Discovery: how a directory is recognised as a project, symbolic links, and the four sources other than the scan, which come in as lists.
- Resolver: the awaits inside one `resolve` call are one step each for reading and for warming; the listing discovery returns is an argument.
- Roadmap: reading the records from disk and their sort order; a flat file and a folder of one name share a key, so the theorems ask for distinct keys.
- Release, launcher and CLI code, and the per-line regex audits, which would only add easy members.
