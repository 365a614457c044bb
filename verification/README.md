# A verified model of the brain server

The server keeps a *brain*: a branch of Markdown pages that people and tools write to. This
project models the parts of it where the state is hard to keep right, and proves what they
keep: over every run, every input and every interruption, not over examples.

| files | what they model |
|---|---|
| `Options`, `Paths`, `Texts` | options; paths in the order every cursor walks in; trimming and lines |
| `IndexTables`, `ContentIndex`, `IndexStore` | the content index: its tables and statements, one read and one write-through as functions, and the same requests as methods on mutable tables, batch by batch |
| `IndexRuns`, `IndexFlags`, `IndexConvergence`, `IndexLimits` | the index over whole histories of pushes, reads, failures, write-throughs and deploys; how many reads it takes to catch up; where its promises end |
| `WriteLedger`, `LedgerRuns` | the write-attempt ledger: one caller, and many callers interleaved statement by statement |
| `Frontmatter`, `FrontmatterValues`, `FrontmatterPages`, `FrontmatterReads`, `FrontmatterForms` | a page's frontmatter as text: what is written, what is read, and which fields come back from the one to the other |
| `ImportPlanner`, `ImportReads`, `ImportClaims`, `ImportRuns`, `ImportPlans`, `ImportHistory`, `ImportDecisions`, `ImportSettles`, `ImportLimits` | the importer: a sync against the texts of pages people edit, which fields and keys it finds again, decisions, whole histories, running a sync again |
| `ConsolidationPlan`, `ConsolidationPass`, `ConsolidationRuns`, `ConsolidationCounts`, `ConsolidationProgress`, `ConsolidationLimits` | the resumable consolidation pass: windows of pairs, batches, the clock, refusals, the memory of earlier passes |
| `BaselineScan`, `BaselineRuns`, `BaselineMoves` | the resumable baseline scan of every file, on one tree and over a branch that moves |
| `PageEdits`, `EditBatches`, `EditSnapshots`, `EditAnchors`, `EditCalls`, `FieldPatch` | ordered find-and-replace on a page with protected regions, append, and frontmatter patches |
| `Braces`, `TemplateLiterals`, `Jsonc` | three text transformations of the build scripts, each against the language it reads or writes |
| `Sharing`, `PageSha`, `RebuildGuard`, `SelfBoot` | the preview harness's sharing state machine and hash, the watch loop's guard, the app's timed first view |

Code that computes a value is a function; code that changes rows or variables step by step is
a class or a method with loops, proved equal to a function, and the properties are proved of
the function. A branch is a sequence of trees, a table is a map or a sequence, a transaction is
one step that happens or does not, and what a model, a detector or a clock answers is an
arbitrary function handed in.

## What turned out not to hold

Several things the code's comments or tests promise are true only under a condition. Each of
these has a lemma that states the exact condition, or a run that breaks the promise:

- A read that stops at the reindex budget still names the commit it left, over rows of two
  commits (`ContentIndex.StaleReadHonestIff`); a branch put back to that commit is then served
  wrong rows for good (`IndexLimits.RevertedBranch`).
- Pages that come back without text take up places in every slice. With six hundred of them ahead
  of another changed page the index never reaches the tip (`IndexConvergence.ConvergesIff`).
- A failed batch leaves the page it ends in torn unless the statements left to run had nothing to
  change (`IndexLimits.FailedBatchIff`, `IndexLimits.TornPage`). A torn page is never looked at
  again (`IndexLimits.TornPageStays`), and what is left of a torn deletion is never cleared
  (`IndexLimits.OrphanRowsStay`).
- The rebuild cursor does not say which version it belongs to (`IndexLimits.MidRebuildDeployIff`,
  `IndexLimits.MidRebuildRowsStay`).
- Two reads that overlap leave the index naming the tip over other rows unless the slow one says
  what the tip says (`IndexLimits.OverlappingReads`).
- A write-through that puts bytes over a page's text keeps the text (`IndexRuns.WriteThroughTruthful`), and
  counts the stored rows for the flag that a read counts on the pages of the tree (`IndexFlags.RunFlag`).
- A brain whose page count is a multiple of 300 takes one more read to rebuild than the count
  over 300 (`IndexConvergence.RebuildTakesExactly`).
- On the exact last millisecond of a window a caller performs on a row that is not its own
  (`WriteLedger.CourseByAge`), and two retries that lose to a refused call both perform
  (`LedgerRuns.RefusalRace`). A second claim does no harm exactly when the row it meets stands for nobody
  (`LedgerRuns.SecondClaimHarmlessIff`).
- "Re-running with unchanged data is a no-op" (src/tools/importer.ts:69) holds only of what reads back
  from the page it was written to (`ImportSettles.SyncSettles`). A column such as "Full Name" is written
  on every sync (`ImportSettles.UnknownNameNeverSettles`, `ImportLimits.FullNameNeverSettles`), and so is a
  text on two lines or "Apt # 4" (`ImportReads.MergeSettles`, `ImportLimits.TextsThatDoNotComeBack`).
- A record of 24 fields, or with a key of more than 256 characters, on two lines or with a blank, hash
  and blank in it, is asked about for ever (`ImportLimits.UnseenRecord`), and its page is taken for
  another record's (`ImportLimits.KeyLendsItsPage`): the keys "row # 5" and "row # 6" are one
  (`ImportLimits.KeysReadAsOthers`). So is a record with a field whose name starts with three dashes
  (`ImportLimits.FencedRecord`). A decision to alias does not end its question past the twentieth alias,
  or when the list of aliases reads as a mapping (`ImportLimits.AnswerEndsTheQuestion`).
- "Human edits are sacred" (src/lib/brain-import.ts:6-8) is true of the fields the reader finds. A sync
  that writes a page drops the lines it passes over, such as a name with a blank in it or a list that is
  not indented (`ImportRuns.RewriteLoses`), a list with an item that reads as a mapping
  (`FrontmatterReads.ReadTwice`, `ImportClaims.AliasesLost`), and, for a source's column with a colon in
  its name, the field before the colon (`FrontmatterReads.ColonName`).
- "A writer must not be able to produce files our own reader loses" (src/lib/page-patch.ts:156-157): a
  patch may set the key `---`, which ends the frontmatter (`FieldPatch.FenceKeyIsLost`), and a patched
  value is found made only if it comes back (`FieldPatch.PatchThroughTheFile`).
- Two records for one new page lose one of them, and the next sync asks about it as though a
  person had deleted it (`ImportLimits.BoundIffLast`, `ImportLimits.TwoRecordsOnePage`).
- "Every call makes progress" (ee/review/consolidation.ts:80-83) is false: a pass started fresh may
  repeat the same pairs for ever (`ConsolidationProgress.FullPassEndsIff`), and so may one that
  remembers, when the models stay unavailable for the pairs of one page
  (`ConsolidationProgress.UnansweredPassNeverEnds`).
- The pairs a done pass says it dealt with are those of the brain only when no call was cut past the first
  pair of a page; otherwise some are counted twice (`ConsolidationCounts.DoneCountsIff`).
- An edit of the brain during a pass loses a pair exactly when it gives it an owner the cursor has
  passed and it was not dealt with at its texts (`ConsolidationLimits.EditLosesIff`,
  `ConsolidationLimits.EditedPassMissesAPair`).
- Two baseline calls that race can count rows twice (`BaselineRuns.RaceHarmlessIff`), and a lost
  reply followed by a deletion leaves rows of a file that is gone
  (`BaselineRuns.DeletedFileKeepsItsRows`); over a moving branch the rows are the last tree's exactly
  under the condition of `BaselineMoves.MovedScanIff`.
- "Exactly once" holds of an anchor only when two live occurrences of it cannot overlap
  (`EditAnchors.ExactlyOnceIff`). An anchor that occurs once may also be refused, when a hit that reaches
  into a snapshot hides it (`EditAnchors.RefusedThoughUnique`).
- An edit next to a snapshot keeps it exactly when what it puts on the marker's line is blank
  (`EditSnapshots.EditKeepsSnapshots`). Finding the newline before the begin marker with the text
  above it lets the next edit rewrite generated text (`EditSnapshots.JoiningLinesUnprotects`), and
  finding the newline after the end marker can leave the snapshot open.
- Text appended below a snapshot that was never closed is generated text from then on
  (`EditCalls.AppendLandsLive`).
- Trailing commas are dropped inside strings too (`Jsonc.StringsSafeIff`), and a text with a
  carriage return does not survive its template literal (`TemplateLiterals.LiteralRoundTrip`).
- A refused share may still have set the visibility (`Sharing.RefusalChangesIff`), and a share that
  names nobody with an account, or is refused, may leave a brain in the wrong list
  (`Sharing.UnsettledIff`).
- "A page that was written reads back a different one" (dev/harness.ts:629-632) is false of two
  changed characters that cancel: for neighbours, when the later falls by 31 times what the earlier
  rises (`PageSha.TwoCharactersCancelIff`, `PageSha.NeighboursCancelIff`).
- The self-boot also replaces a load the reader or a result has begun (`SelfBoot.TickReplacesIff`).

## Model

| member | source | states |
|---|---|---|
| IndexTables.FlattenAt | src/lib/brain-index.ts:139-145 | statements grouped by page, whatever batches they run in, leave each page with what its own groups do to it |
| IndexTables.PageGroupEffect | src/lib/brain-index.ts:146-190 | a page's upsert, its clears and its inserts leave exactly that page's title, text, links and fields, whatever rows were there |
| IndexTables.DropGroupEffect | src/lib/brain-index.ts:416-458 | the deletes for a removed page leave it no row in any table |
| IndexTables.RederiveGroupEffect | src/lib/brain-index.ts:316-371 | re-deriving a stored page replaces its title, links and fields and keeps its text and blob |
| IndexTables.CutEither | src/lib/brain-index.ts:139-145 | groups cut between two pages leave each page either untouched or with all its groups done |
| ContentIndex.ReindexDrops | src/lib/brain-index.ts:416-458 | a reindex slice leaves no row of a page the tree no longer has |
| ContentIndex.ReindexWrites | src/lib/brain-index.ts:416-458 | a changed page within the budget and with text ends with exactly its own rows |
| ContentIndex.ReindexKeeps | src/lib/brain-index.ts:416-458 | every page the slice neither drops nor writes keeps its rows |
| ContentIndex.RebuildAt | src/lib/brain-index.ts:316-371 | a rebuild slice re-derives exactly the first 300 stored pages past the cursor and leaves every other page alone |
| ContentIndex.SliceSizes | src/lib/brain-index.ts:302-458 | a rebuild slice is the first three hundred stored pages past the cursor, the last one that with fewer; a reindex slice fetches the first six hundred changed pages and is complete when those are all |
| ContentIndex.FirstIsReindex | src/lib/brain-index.ts:378-406 | a full build is a reindex slice from empty tables |
| ContentIndex.CompleteReindexTruthful | src/lib/brain-index.ts:416-458 | a reindex that reached every changed page leaves a from-scratch build of the tree if and only if no stored page's text turned unreadable and unchanged pages derive as they did |
| ContentIndex.SliceLeavesPrior | src/lib/brain-index.ts:416-458 | an incomplete slice still matches the commit it started from exactly when it had nothing to write or drop |
| ContentIndex.StaleReadHonestIff | src/lib/brain-index.ts:200-295 | a read of an index behind the tip, rebuild due or not, leaves a meta row that tells the truth about the rows exactly when the slice was complete and no stored page had become unreadable, or the slice had nothing to do |
| IndexRuns.BundleAt | src/lib/brain-index.ts:488-645 | a bundle's statements leave a page it deletes no rows, a page it writes the rows of the last text written there, and every other page, and one written as bytes, alone |
| IndexRuns.WriteThroughTruthful | src/lib/brain-index.ts:488-645 | a write-through that is not refused advances the commit, and turns a from-scratch build of its base into one of the commit that landed if and only if no page ends as bytes over text |
| IndexRuns.WriteThroughIff | src/lib/brain-index.ts:488-645 | a write-through lands exactly when the meta row names its base, the rows are of the running version with no rebuild under way, and it fits in one transaction of forty; else nothing changes |
| IndexRuns.RunKeepsInv | src/lib/brain-index.ts:200-458 | over every run each page's rows are whole and those of one commit at or after the one meta names, or of an earlier text of a page that commit has as bytes; and up to the cursor they are what the running code derives under settings the branch has had since the build |
| IndexRuns.RunServesTheBranch | src/lib/brain-index.ts:200-645 | after every run of pushes, which may change text to bytes and the settings, reads, failed batches that tear no page, write-throughs, deploys and resets, an index that reports itself current for the tip holds, of each page whose derivation no settings since the build changed, exactly the tip's rows unless it still holds an earlier text of a page the tip has as bytes; and so does what the next read leaves |
| IndexRuns.ServesAll | src/lib/brain-index.ts:200-458 | with settings that never changed what the tip's pages derive, a current index is a from-scratch build of the tip if and only if it holds no page that the tip has as bytes |
| IndexFlags.ReadFlag | src/lib/brain-index.ts:200-295 | a first or stale read reports a partial index exactly when more than 5,000 distinct paths of the tree are pages under its settings, and a read at the tip what is stored |
| IndexFlags.RunFlag | src/lib/brain-index.ts:200-645 | over every run the stored flag is that of the pages of the tree last reconciled with, or of the rows the last write-through left, whichever came later |
| IndexConvergence.CurrentIsStable | src/lib/brain-index.ts:200-295 | reads of a current index change nothing |
| IndexConvergence.RebuildTakesExactly | src/lib/brain-index.ts:302-371 | with the tip recorded, the schema version moves after exactly n/300 + 1 reads over n pages, and not before |
| IndexConvergence.ReindexShrinks | src/lib/brain-index.ts:408-458 | a slice takes exactly the readable pages out of the first six hundred it has to fetch; the unreadable ones keep their places |
| IndexConvergence.ReindexTakesExactly | src/lib/brain-index.ts:408-458 | the tip is recorded after exactly as many reads as there are slices to take, and never when six hundred unreadable pages stand ahead of another |
| IndexConvergence.StaleReadsBound | src/lib/brain-index.ts:408-458 | with fewer than six hundred unreadable pages among those to fetch, each slice but the last takes at least six hundred less their number, and without any exactly six hundred |
| IndexConvergence.Converges | src/lib/brain-index.ts:200-458 | with the tip fixed and no such jam, the index is current within one read a reindex slice plus the pages over 300 reads, rounded up by one |
| IndexConvergence.ConvergesIff | src/lib/brain-index.ts:200-458 | with the tip fixed the index becomes current if and only if its commit is recorded or no page to fetch stands behind six hundred that come back without text |
| IndexLimits.RevertedBranch | src/lib/brain-index.ts:416-458 | after an over-budget read, a branch put back where it was is served the moved rows for good, unless the slice moved none |
| IndexLimits.TornPage | src/lib/brain-index.ts:139-190 | a page replacement cut after any number of its statements leaves the page whole exactly when all ran or those left had nothing to change in the rows that were there |
| IndexLimits.FailedBatchIff | src/lib/brain-index.ts:139-145 | a reindex that fails at any batch leaves every page untouched or done if and only if the page the cut falls in, written or deleted, had nothing left to change |
| IndexLimits.TornPageStays | src/lib/brain-index.ts:416-458 | a torn page's blob matches, so the read that completes leaves it torn and reports the tip |
| IndexLimits.OrphanRowsStay | src/lib/brain-index.ts:416-458 | link and field rows left without their page row are not cleared by later reads |
| IndexLimits.MidRebuildDeployIff | src/lib/brain-index.ts:316-371 | a deploy in the middle of a rebuild keeps the invariant exactly when the new code, under some settings met since the build, derives what the pages already rebuilt hold |
| IndexLimits.MidRebuildRowsStay | src/lib/brain-index.ts:316-371 | reads that finish such a rebuild never revisit a page at or before the cursor |
| IndexLimits.OverlappingReads | src/lib/brain-index.ts:200-295 | a slow read's statements over a current index leave it naming the tip, and its rows the tip's if and only if every page written has its text at the tip and every page dropped has none there |
| IndexLimits.InvIsSane | src/lib/brain-index.ts:200-458 | every state a run reaches is one the convergence results start from |
| IndexLimits.RunConvergesIff | src/lib/brain-index.ts:200-458 | after any run, with the branch at rest, reads alone make the index current if and only if it names the tip or no page to fetch stands behind six hundred that come back without text |
| IndexStore.IndexDb.Batch | src/lib/brain-index.ts:139-145 | a transaction runs all its statements or, when one fails, none |
| IndexStore.IndexDb.RunBatched | src/lib/brain-index.ts:139-145 | statements run forty a transaction; a failing transaction leaves exactly the whole ones before it |
| IndexStore.IndexDb.EnsureFresh | src/lib/brain-index.ts:200-295 | a read run to its end does what the read function says; one cut short leaves a prefix of its batches and the old meta row |
| IndexStore.IndexDb.Reconcile | src/lib/brain-index.ts:200-295 | one reindex slice, then one rebuild slice when the version is behind, and which meta row each failure leaves |
| IndexStore.IndexDb.RefreshAtTip | src/lib/brain-index.ts:200-295 | at the tip a read does at most one rebuild slice and records its cursor |
| IndexStore.IndexDb.GuardedBatch | src/lib/brain-index.ts:488-645 | the conditional batch moves rows and meta together when its base, version and cursor still hold, and otherwise changes nothing |
| IndexStore.IndexDb.WriteThroughIndex | src/lib/brain-index.ts:488-645 | refused on a wrong base, a rebuild under way, a newer schema, an oversized bundle, a lost race or a failing statement, with nothing changed; otherwise the write-through function |
| IndexStore.IndexDb.GatherBundle | src/lib/brain-index.ts:488-645 | the statements of a bundle: each written page with text, then each deleted page |
| IndexStore.IndexDb.Reset | src/lib/brain-index.ts:651-655 | a reset leaves no rows and no meta row |
| WriteLedger.PruneIsInvisible | src/lib/write-dedupe-store.ts:32-41 | pruning by any caller's clock never changes what this or a later caller would be answered |
| WriteLedger.CourseByAge | src/lib/write-dedupe.ts:122-131 | what a call does, by the age of its row to the millisecond: own it, repeat it, wait, or trespass on the last one |
| WriteLedger.Ledger.Claim | src/lib/write-dedupe-store.ts:52-67 | a claim wins exactly on no row or a stale claim, and then is the caller's |
| WriteLedger.Ledger.DedupeWrite | src/lib/write-dedupe.ts:153-188 | the reply and the rows after an uninterrupted call, for every outcome, with failing bookkeeping never changing the reply |
| WriteLedger.AfterCallRows | src/lib/write-dedupe.ts:153-188 | a landed write is remembered with its text, a refusal or throw leaves no row, and no other live row changes |
| WriteLedger.RetryAfterLanding | src/lib/write-dedupe.ts:28-36 | an identical retry repeats the landed text for exactly the ten minutes after it |
| WriteLedger.AbandonedClaim | src/lib/write-dedupe.ts:21-26 | a call that died blocks its retries for less than the grace period, and exactly that long |
| WriteLedger.NoRowComesBack | src/lib/write-dedupe-store.ts:76-94 | a row that is gone is not brought back by the late end of its call |
| WriteLedger.CallKeepsTheRest | src/lib/write-dedupe.ts:153-188 | a call leaves every other key's row, and its own key's when it waits or repeats, so that every later call on that key goes as it would have |
| WriteLedger.CallMeansToTheNext | src/lib/write-dedupe.ts:153-188 | what a performing call leaves its next caller: the landed text to repeat, a free key, or a claim to wait for when its outcome could not be recorded |
| LedgerRuns.ReplaysAreLandings | src/lib/write-dedupe.ts:153-188 | over every interleaving, with no assumption, a replayed text is one that landed under the caller's own key |
| LedgerRuns.OtherKeysDoNotInterfere | src/lib/write-dedupe-store.ts:30-94 | a statement of one key's call never changes what another key's callers are answered |
| LedgerRuns.AtMostOnce | src/lib/write-dedupe.ts:136-188 | over every interleaving in which handlers keep within the grace period, a landing is recorded and a second claim is not lost, no two handlers on a key overlap and none starts in the window of a landed write |
| LedgerRuns.OnlyReclaimTrespasses | src/lib/write-dedupe.ts:169-176 | a handler starts without holding its row exactly when its second claim lost to someone |
| LedgerRuns.SecondClaimHarmlessIff | src/lib/write-dedupe.ts:169-176 | the handler a second claim starts, won or lost, overlaps nobody and repeats no landing inside its window if and only if the row it meets is absent, stale, of a call that performs no more, or past its window |
| LedgerRuns.RefusalRace | src/lib/write-dedupe.ts:169-186 | a timely run in which two handlers on one key overlap all the same |
| LedgerRuns.CallIsARun | src/lib/write-dedupe.ts:153-188 | a call that nothing interrupts is a run of the ledger's statements, to the same rows, reply and landing |
| Frontmatter.ParseFrontmatter | src/lib/wiki.ts:91-140 | the line loop, which takes the indented lines under a bare key along, reads a page as the reading function does, fences and body included |
| Frontmatter.SerializeFrontmatter | src/lib/wiki.ts:159-180 | the lines written are the entries of the fields in order between two fences |
| FrontmatterValues.ScalarKept | src/lib/wiki.ts:126-155 | a scalar that is written reads back as sent, up to outer blanks, if and only if it has no line end and no blank, hash and blank in it, and then without those blanks; whatever reads back is such a text |
| FrontmatterPages.RereadIs | src/lib/wiki.ts:91-184 | a page that is written and read again has exactly the fields under names of letters, digits, underscores and dashes, each as its value reads back, in their order, and its body less leading newlines; names the reader passes over leave nothing |
| FrontmatterReads.ReadPageParsed | src/lib/wiki.ts:91-140 | whatever the text, every name read is a usable one, scalars are on one line without comments, and each block is one the reader would make again |
| FrontmatterReads.ReadTwice | src/lib/wiki.ts:91-184 | a page that is read, written and read again loses outer blanks, and a list with an item that reads as a mapping becomes a block; a second time nothing changes |
| FrontmatterReads.UnreadLines | src/lib/wiki.ts:104-106 | a page reads the same without lines that set no field, unless an indented one follows |
| FrontmatterReads.FenceName | src/lib/wiki.ts:94-101 | a field whose name starts with three dashes ends the frontmatter: neither it nor what follows is read |
| FrontmatterReads.ColonName | src/lib/wiki.ts:73-106 | a field under a name with a colon in it reads as the field before the colon |
| FrontmatterForms.ReadPageSplits | src/lib/wiki.ts:91-101 | reading a page line by line up to the first fence is reading the text the code's searches cut out, with the body they find, dashes between blanks included |
| FrontmatterForms.KeyLineIff | src/lib/wiki.ts:73-107 | a line sets a key exactly when it is a word, a colon and, after any blanks, a text on one line |
| FrontmatterForms.CommentCut | src/lib/wiki.ts:128-129 | a value is cut at its first blank, hash and blank |
| FrontmatterForms.QuotesComeOff | src/lib/wiki.ts:77-86 | quotes of either kind come off with their escapes, and a text without them is read as it is |
| FrontmatterForms.InlineList | src/lib/wiki.ts:130-133 | texts without commas, between brackets with commas, are read as the list of them without quotes and blanks |
| FrontmatterForms.SimpleItemIff | src/lib/wiki.ts:75-121 | a line is a list item exactly when it is blanks, a dash, blanks and a text that is no mapping, taken in any way |
| FrontmatterForms.ItemSeen | src/lib/wiki.ts:119-121 | the item is the text behind the dash and one blank, without its quotes |
| FrontmatterForms.WrittenPlainIff | src/lib/wiki.ts:142-157 | a scalar is written without quotes exactly when it begins with no sign, holds no colon or hash that would end it and does not end in a colon |
| FrontmatterForms.EntryForm | src/lib/wiki.ts:159-180 | how a scalar, an empty list, a list and a nested value are written under their name |
| FrontmatterForms.FileLines | src/lib/wiki.ts:159-184 | the file is a fence, the entries in order, a fence, one empty line and the body from its first line that is not empty |
| ImportPlanner.MergeFields | src/lib/brain-import.ts:205-221 | the merge moves exactly the source-owned keys the record sends whose value differs |
| ImportPlanner.IndexClaims | src/lib/brain-import.ts:234-243 | a key resolves to the last page that lists it |
| ImportPlanner.ProposeDeletions | src/lib/brain-import.ts:359-369 | the deletions proposed are the imported keys of claimed pages that the manifest lacks |
| ImportPlanner.CarryQuestions | src/lib/brain-import.ts:371-378 | a call keeps the questions it does not speak for |
| ImportPlanner.PlanRecord | src/lib/brain-import.ts:272-357 | one record's place in the plan, by every branch |
| ImportPlanner.PlanImport | src/lib/brain-import.ts:234-395 | the whole plan, record by record, then absences and questions |
| ImportReads.FieldReads | src/lib/brain-import.ts:192-203 | a field comes back as sent exactly when its name is one the reader knows and its value survives, or it is an empty list |
| ImportReads.MergeSettles | src/lib/brain-import.ts:205-221 | on a page a record was merged into, written and read again, the same record moves exactly the fields that do not come back |
| ImportRuns.EachRecordOnce | src/lib/brain-import.ts:259-357 | every record is counted in exactly one list |
| ImportRuns.WriteRespects | src/lib/brain-import.ts:207-357 | a planned write keeps the body and every field the source does not own, updates only pages that claim a key, and binds a key that was never imported and that nobody claims to a new page or one that claimed none |
| ImportRuns.WriteClaims | src/lib/brain-import.ts:277-357 | read again, an updated page claims what it claimed and a newly bound one its key as it reads back, or nothing when the caps leave no room |
| ImportRuns.SyncConserves | src/tools/importer.ts:113-297 | a sync deletes and moves no page and leaves the text of every page it writes no record to; a page it writes keeps, as read, its body, the fields the source does not own and its claims; a page is created only for a key never imported and claimed by nobody |
| ImportRuns.RewriteLoses | src/lib/brain-import.ts:277-292 | an update writes the same text with or without the lines of a page that set no field, and under usable names none of those that are not indented is in the block it writes |
| ImportPlans.OutcomeIs | src/lib/brain-import.ts:274-357 | each record comes to exactly one thing, by its key, the page that holds the key, the ledger and the page at its path |
| ImportPlans.WriteIs | src/lib/brain-import.ts:290-356 | a planned write lands on the page that holds the key, on the unclaimed page at its path, or on a path with no page, and nowhere else |
| ImportPlans.WriteSays | src/lib/brain-import.ts:207-232 | what a planned page says under every name: the day, the key, the fields that differed as sent, and for the rest and the body what it said or what was sent |
| ImportPlans.WriteOrder | src/lib/brain-import.ts:207-232 | a new page lists the sent fields in their order and then the key and the day; a page that was there keeps its fields in place |
| ImportPlans.DiffersIff | src/lib/brain-import.ts:192-221 | a source-owned field differs when the page nests it, or has another number of texts, or another text at some place, blanks aside |
| ImportPlans.ListsAre | src/lib/brain-import.ts:274-357 | every list of the plan is as long as there are records that come to it |
| ImportPlans.StandsAt | src/lib/brain-import.ts:274-357 | each record stands in its list, by its key, write or error, behind the records before it |
| ImportPlans.LedgerAfterSync | src/lib/brain-import.ts:254-357 | a key is remembered afterwards exactly when it was, or a record under it was written or found unchanged, and none twice; what was suppressed stays |
| ImportPlans.QuestionsAfter | src/lib/brain-import.ts:371-395 | a question about a key that was sent is open exactly when asked anew, and once; about any other as before; proposed deletions as before without a manifest and with one exactly those of the call |
| ImportPlans.DeletionsProposed | src/lib/brain-import.ts:359-369 | with a manifest, exactly the keys pages claim that the source imported and no longer lists are proposed |
| ImportClaims.Caps | src/lib/brain-index.ts:93-137 | rows are made for the first twenty-four keys that count, the first twenty items of a list and the first 256 characters of a value |
| ImportClaims.ReadKeysIs | src/lib/brain-index.ts:124-133 | a key is read back as itself exactly when it has no line end, no blank, hash and blank, and at most 256 characters; and only such keys are read back |
| ImportClaims.CreatedKeys | src/lib/brain-index.ts:112-137 | a new page is seen to claim what its key reads back as, exactly when fewer than 24 of the fields that come back count |
| ImportClaims.AdoptedKeys | src/lib/brain-index.ts:112-137 | an adopted page is seen to claim what its key reads back as, exactly when its binding field is among the first 24 that count or there is room to add it |
| ImportClaims.UpdatedKeys | src/lib/brain-index.ts:112-137 | an update leaves what the index sees of a page's claims as it was |
| ImportClaims.AliasesLost | src/lib/wiki.ts:120-127 | an update of a page whose alias list has an item that reads as a mapping leaves it claiming none of them |
| ImportHistory.PlanDecisions | src/lib/brain-import.ts:433-525 | the decisions applied one after another, and the questions they leave |
| ImportHistory.HistoryKeepsImported | src/lib/brain-import.ts:433-525 | only a recreate decision makes the ledger forget a key |
| ImportHistory.NoResurrection | src/lib/brain-import.ts:297-306 | over every history, an imported key whose page is gone gets no page from any sync until a recreate decision, and no page comes to claim it but by a new key that reads back as this one |
| ImportDecisions.PagesAfter | src/lib/brain-import.ts:433-517 | after a resolve call a page is gone exactly when a decision deletes a key that it claims and no later page does; alias targets are rewritten with the accepted keys and every other text stays |
| ImportDecisions.LedgerAfter | src/lib/brain-import.ts:433-524 | of the accepted decisions on a key the last that speaks of it stands; a question is answered exactly when a decision on its key is accepted; the refused ones are listed in order |
| ImportDecisions.RefusedChangesNothing | src/lib/brain-import.ts:456-509 | decisions that are all refused, such as a delete of a key no page claims or an alias of one that another page holds, leave everything as it was |
| ImportDecisions.AliasRewrite | src/lib/brain-import.ts:507-517 | an alias target lists the keys it listed and behind them the new ones, each once and in order, is dated, and keeps every other field and its body |
| ImportDecisions.RowsAreListed | src/lib/brain-import.ts:512-514 | no alias the index shows is lost in the rewrite |
| ImportSettles.ClaimsAfter | src/lib/brain-import.ts:277-357 | after a sync the pages that claim a key are those that did and those bound to a key that reads back as it |
| ImportSettles.SyncSettles | src/tools/importer.ts:113-297 | when no two records land on one page, a manifest covers the batch and each write touches no binding but its own, the same sync run again plans no write and leaves the ledger as it is if and only if each key it bound reads back as itself on a page with room for it, and each field it left on a page it wrote comes back as sent |
| ImportSettles.UnknownNameNeverSettles | src/lib/wiki.ts:73 | for any batch and any pages, a record that is written and sends a value that is not empty under an owned name the reader does not know is written again or asked about by the identical next sync |
| ImportLimits.BoundIffLast | src/lib/brain-import.ts:307-357 | a newly bound key is claimed after the sync if and only if some record whose key reads back as this one is the last to write its page and had room for the binding; a key that does not read back as itself is claimed by nobody |
| ImportLimits.TwoRecordsOnePage | src/lib/brain-import.ts:307-357 | two records for one new page: the next sync asks about the first |
| ImportLimits.UnseenRecord | src/tools/importer.ts:113-297 | a first record of 24 fields that come back, or with a key that does not read back as itself, gets its page and is asked about by the identical next sync |
| ImportLimits.KeyLendsItsPage | src/tools/importer.ts:144-158 | a record whose key is what another's reads back as is resolved to that one's page |
| ImportLimits.KeysReadAsOthers | src/lib/wiki.ts:126-155 | a word, " # " and more is read back as a quote and the word, and two words on two lines as on one |
| ImportLimits.FullNameNeverSettles | src/lib/wiki.ts:73 | a source-owned column "Full Name" with a value is written by every sync |
| ImportLimits.TextsThatDoNotComeBack | src/lib/wiki.ts:126-155 | a text on two lines and "Apt # 4" do not come back |
| ImportLimits.FencedRecord | src/lib/wiki.ts:94-101 | a first record with a field whose name starts with three dashes is asked about by the identical next sync |
| ImportLimits.AliasBindsIff | src/lib/brain-import.ts:478-525 | a page aliased to a key is seen to claim it exactly when the key is on one line and at most 256 characters, the list of aliases has room under the caps and reads as a list, and the key is among its first twenty |
| ImportLimits.AnswerEndsTheQuestion | src/lib/brain-import.ts:433-525 | a decision on a key that is asked about either is applied, and it is never asked about again unless it is an alias the index does not see, or is refused, and it is; which of the two, for every decision |
| ConsolidationPlan.PlanStep | ee/review/consolidation.ts:162-204 | the window is the longest run of sources whose pairs to pay for fit the budget, never less than what the first paying source needs |
| ConsolidationPlan.OneOwner | ee/review/consolidation.ts:159-197 | a pair is owned by the earlier page when it names the later, otherwise by the later, and by nobody else |
| ConsolidationPlan.NoPairTwice | ee/review/consolidation.ts:159-197 | no pair has two sources |
| ConsolidationPlan.WindowsCover | ee/review/consolidation.ts:159-204 | from any cursor, whatever the budget and the costs, the windows end to end are every remaining source's pairs, each once and in order |
| ConsolidationPlan.StepWithinBudget | ee/review/consolidation.ts:162-204 | a step pays for no more than the budget unless one source is over it alone |
| ConsolidationPlan.StepIsLongest | ee/review/consolidation.ts:162-204 | a step that leaves sources has something to pay for and with the next source would go over the budget |
| ConsolidationPass.RunBatches | ee/review/consolidation.ts:744-755 | which pairs a step starts, counts and remembers, by batch, clock and refusal |
| ConsolidationPass.CursorOf | ee/review/consolidation.ts:761-768 | the cursor of a cut step: the last source that ended before the first pair left open |
| ConsolidationPass.PassRows.SavePassItems | src/lib/brain-pass.ts:160-181 | forty rows a transaction; a failure leaves the whole transactions before it |
| ConsolidationPass.PassRows.Advance | ee/review/consolidation.ts:573-775 | one call's row and memory, and that a failed memory write leaves the row alone |
| ConsolidationRuns.ItemInjective | ee/review/consolidation.ts:628-636 | a pair of paths without a bar shares its memory item with no other pair |
| ConsolidationRuns.ItemsCollide | ee/review/consolidation.ts:628-636 | with a bar in a path two pairs can |
| ConsolidationRuns.PassedSources | ee/review/consolidation.ts:744-774 | a source the new cursor passes had every pair started and none refused |
| ConsolidationRuns.RunKeepsInv | ee/review/consolidation.ts:573-775 | over every run the memory says under each item exactly what the last check recorded there saw, and what the pass says it did with a pair, it did, at the print the pair then had |
| ConsolidationRuns.DonePassCovers | ee/review/consolidation.ts:573-775 | through budget cuts, time cuts, refusals, lost writes and edits, a done pass has checked at its current texts, found remembered at them, or skipped with them a pair of which one page names the other, whenever each edit since it began left the pair's texts and naming alone or did not lose it |
| ConsolidationRuns.CallLosesNone | ee/review/consolidation.ts:744-774 | no call, however it is cut, loses a pair, and a call that begins a pass has lost none |
| ConsolidationRuns.AskedExactlyWhenChanged | ee/review/consolidation.ts:621-640 | a pass that is not fresh asks the models about exactly the pairs that may be sent and whose pages, or whose check, differ from what the last check recorded under their item saw; for a path without a bar that is their own last check |
| ConsolidationRuns.FailedCallIsLost | src/lib/brain-pass.ts:162-181 | a call whose memory write fails is a lost call that saved its first transactions of forty |
| ConsolidationCounts.StartedIs | ee/review/consolidation.ts:737-756 | a call starts whole batches of six: all, those before the batch the clock forbids, or those up to the end of the batch a model refused in |
| ConsolidationCounts.RememberedIff | ee/review/consolidation.ts:632-735 | a call remembers exactly the pairs it started, had to ask about and got cleared or studied, at the texts they have |
| ConsolidationCounts.CallStatus | ee/review/consolidation.ts:573-775 | whether a call begins a pass, and when it leaves it stopped, done or running |
| ConsolidationCounts.CallPays | ee/review/consolidation.ts:78-81 | a call plans for at most forty-eight pairs to be paid for, or for one page that has more |
| ConsolidationCounts.CountsNumberStarts | ee/review/consolidation.ts:637-759 | at every point of every pass the row's counts are the numbers, by outcome, of the pairs started since it began |
| ConsolidationCounts.DoneCountsIff | ee/review/consolidation.ts:761-775 | over pages that name the same pages, a done pass counts no fewer pairs than there are, and exactly as many if and only if no call dealt with a pair of a page it left to the next |
| ConsolidationCounts.PairsApart | ee/review/consolidation.ts:186-204 | no pair is twice among those of a brain |
| ConsolidationProgress.LongSourceStays | ee/review/consolidation.ts:744-774 | a fresh pass never passes a page that owns more pairs than a call has time for |
| ConsolidationProgress.FullPassEndsIff | ee/review/consolidation.ts:744-774 | a fresh pass whose calls each have time for m batches ends if and only if no page owns more pairs than m batches hold, and then within a call a page |
| ConsolidationProgress.CallShrinks | ee/review/consolidation.ts:744-774 | each call of a remembering pass whose pairs are all answered leaves fewer pairs to pay for, or is the last |
| ConsolidationProgress.RememberingPassEnds | ee/review/consolidation.ts:573-775 | such a pass is done within one call more than it has pairs to pay for, however the clock cuts it |
| ConsolidationProgress.UnansweredPassNeverEnds | ee/review/consolidation.ts:621-775 | a remembering pass whose calls each have time to ask about t pairs never passes a page that owns t + 6 for which the models stay unavailable |
| ConsolidationLimits.BehindTheCursor | ee/review/consolidation.ts:186-204 | a pair whose owner the cursor has passed is not planned again |
| ConsolidationLimits.EditLosesIff | ee/review/consolidation.ts:573-775 | a pass that goes on from an edit is done without having dealt with a named pair at its texts if and only if the edit left the pair an owner at or behind the cursor and not dealt with at these texts |
| ConsolidationLimits.EditedPassMissesAPair | ee/review/consolidation.ts:159-204 | for any three pages in a row, a run in which an edit makes a done pass miss a pair that was named all along |
| BaselineScan.BaselineTable.DeleteRange | src/lib/policy-store.ts:226-232 | the range delete clears the rows past one path up to another |
| BaselineScan.BaselineTable.Advance | src/lib/policy-baseline.ts:73-103 | one call's rows and totals, and what a failed insert or a lost last write leaves |
| BaselineScan.Detect | src/lib/policy-baseline.ts:80-95 | reading the files not named binary finds every text's detections and counts the texts |
| BaselineRuns.ScanReadsEachOnce | src/lib/policy-baseline.ts:45-62 | the windows read every file not named binary once, pass over the rest, and number the files over the budget rounded up, one for an empty tree |
| BaselineRuns.FinishedScanIsExact | src/lib/policy-store.ts:210-260 | through lost replies and failed writes on one tree, a done scan holds each file's detections once, in order, and its totals are right |
| BaselineRuns.RaceHarmlessIff | src/lib/policy-store.ts:210-260 | two racing calls leave one call's rows if and only if the second deletes after the first's last insert |
| BaselineRuns.GoneFileRow | src/lib/policy-store.ts:226-232 | a row of a file that is gone outlives a call exactly when its path is outside the cleared range |
| BaselineRuns.DeletedFileKeepsItsRows | src/lib/policy-store.ts:210-260 | after a lost reply and the deletion of the last file, a done scan keeps that file's rows |
| BaselineMoves.MovesExplained | src/lib/policy-store.ts:210-260 | through any calls, each on the branch as it then is, and whatever was lost, the rows of a path are those of the tree of the call that last cleared it |
| BaselineMoves.MovedScanIff | src/lib/policy-baseline.ts:73-103 | after a call that lands the rows are its tree's if and only if of each path it did not clear the calls before left what its tree says |
| BaselineMoves.CallProgress | src/lib/policy-baseline.ts:73-103 | a call that lands deals with the next files within the budget and is done exactly when that was the rest; one that does not leaves the scan where it was; a finished scan is begun anew |
| BaselineMoves.CallCovers | src/lib/policy-baseline.ts:45-62 | a call deals with three hundred files, or with those that are left |
| BaselineMoves.FinishedScanHolds | src/lib/policy-baseline.ts:80-95 | a done scan on one tree holds of each text its detections, each once and in order, nothing of other paths, and counts the texts |
| PageEdits.AllIndexesOf | src/lib/page-patch.ts:54-64 | the hits of an anchor, left to right, none starting inside another |
| PageEdits.SnapshotRanges | src/lib/page-patch.ts:34-52 | the ranges cover exactly the characters of generated lines, an unclosed snapshot reaching to the end |
| PageEdits.EditPage | src/lib/page-patch.ts:91-121 | one edit, by every refusal |
| PageEdits.ApplyPageEdits | src/lib/page-patch.ts:81-144 | the edits in order, then the append; a failing edit ends the batch with no body |
| EditBatches.EditKeepsTheRest | src/lib/page-patch.ts:96-121 | an edit replaces one live occurrence and keeps all other text |
| EditBatches.BorderFreeEdit | src/lib/page-patch.ts:12-19 | with an anchor that cannot overlap itself, an edit is made if and only if the anchor occurs exactly once outside the snapshots |
| EditAnchors.ExactlyOnceIff | src/lib/page-patch.ts:12-19 | for every anchor, over any number of lines: edits with it are made exactly when it occurs once outside the snapshots, on every page, if and only if no two occurrences of it can overlap without a begin marker inside them |
| EditAnchors.ExactlyOnceOnALine | src/lib/page-patch.ts:12-19 | for an anchor on one line that is: no proper end of it is its beginning |
| EditAnchors.RefusedThoughUnique | src/lib/page-patch.ts:12-19 | an anchor that occurs once outside the snapshots is refused when a hit at the end of a marker hides it |
| EditSnapshots.MarkOfLine | src/lib/page-patch.ts:34-52 | a character is generated exactly when its line belongs to a snapshot |
| EditSnapshots.EditKeepsSnapshots | src/lib/page-patch.ts:96-121 | an edit over any number of lines leaves every line of every snapshot as it was, and protected, if and only if what it puts on the line of an end marker it starts after, or of a begin marker it ends before, is blank |
| EditSnapshots.BatchKeepsSnapshots | src/lib/page-patch.ts:81-144 | each edit of a batch keeps the snapshots it finds if and only if each is so guarded, and then every snapshot line of the first page is in the last, as it was and protected |
| EditSnapshots.JoiningLinesUnprotects | src/lib/page-patch.ts:81-144 | an edit that takes the newline before a snapshot lets the next edit rewrite generated text |
| EditSnapshots.AppendTwice | src/lib/page-patch.ts:124-135 | appends keep the old text and never stack blank lines |
| EditCalls.CallInTwo | src/lib/page-patch.ts:81-144 | a call with some edits, then others or an append, comes to what two calls come to, refusals included |
| EditCalls.EditRefusals | src/lib/page-patch.ts:91-119 | an edit is refused for an empty anchor, one that occurs nowhere, only inside snapshots, or several times outside them, and says which |
| EditCalls.CallMadeIff | src/lib/page-patch.ts:81-144 | a call is made exactly when each edit has one live hit in its turn and there is text to append, or none is asked for and there is an edit |
| EditCalls.AppendKeepsLines | src/lib/page-patch.ts:124-135 | an append keeps every line in place but for blanks at the end, and generated exactly when it was |
| EditCalls.AppendLandsLive | src/lib/page-patch.ts:124-135 | the appended lines are outside every snapshot if and only if none is left open above and none of them opens one |
| EditCalls.CallKeepsSnapshots | src/lib/page-patch.ts:81-144 | a call with guarded edits and an append keeps every snapshot line, protected, and its text begins with the edited text less trailing blanks |
| FieldPatch.Validate | src/lib/page-patch.ts:220-238 | a patch is refused exactly when it is empty or has an unusable key, a managed key or a nested value, and the refusal names the first member at fault |
| FieldPatch.ApplyFieldPatch | src/lib/page-patch.ts:245-282 | a patch is made exactly when it is well formed and names no nested block, and then is the merge, with the number of keys it moved; otherwise the refusal names the first fault, or the first key that holds a nested block |
| FieldPatch.MergeAt | src/lib/page-patch.ts:146-150 | every named key ends as asked and every other as it was, in any order of the patch |
| FieldPatch.ChangedIffMoved | src/lib/page-patch.ts:240-244 | a patch reports no change exactly when it makes none |
| FieldPatch.ChangedCounts | src/lib/page-patch.ts:240-282 | the number of changes is the number of keys whose value is not what it was |
| FieldPatch.PatchTwice | src/lib/page-patch.ts:204-206 | of one parsed page, a patch made again changes nothing and says so |
| FieldPatch.PatchThroughTheFile | src/lib/page-patch.ts:204-206 | a patch whose page was written and read again is found made exactly when each value it sets comes back: no outer blanks, no line end, no comment, list items on one line each that are no mappings |
| FieldPatch.FenceKeyIsLost | src/lib/page-patch.ts:152-157 | the key --- is accepted, and ends the frontmatter of the page it is set on |
| Braces.WithHasFewer | scripts/doc-refs.ts:206-214 | replacing a group by an alternative leaves fewer opening braces, so expansion ends |
| Braces.StepsPrint | scripts/doc-refs.ts:206-214 | rewriting the first innermost group of the text is rewriting it in the glob it prints |
| Braces.ExpandIsLang | scripts/doc-refs.ts:202-214 | on every well-formed glob, nested to any depth, the expansion yields exactly the strings the glob stands for |
| Braces.ExpandIsList | scripts/doc-refs.ts:202-214 | and yields them in the order, and as often, as choosing in the groups of the tree from the inside out |
| Braces.ExpandBalanced | scripts/doc-refs.ts:202-214 | every text with balanced braces is the print of a well-formed glob, so this is what its expansion is |
| TemplateLiterals.EscapedIsOnePass | scripts/gen-app.ts:44-47 | the three replacements are one left-to-right escape |
| TemplateLiterals.ReadsBack | scripts/gen-brain-template.ts:31-36 | reading the escape ends at no backtick and starts no substitution, and gives the text with its line ends normalized |
| TemplateLiterals.LiteralRoundTrip | scripts/gen-app.ts:44-47 | a text reads back as itself if and only if it has no carriage return |
| Jsonc.Strip | scripts/preview.ts:69-88 | the scan leaves the tokens of the text without its comments |
| Jsonc.StringEnd | scripts/preview.ts:75-78 | the inner loop finds the end of a string, escapes included |
| Jsonc.OnlyCommentsGo | scripts/preview.ts:68-88 | the scan drops exactly the comments outside strings, keeps strings word for word, and changes nothing the second time |
| Jsonc.StringsSafeIff | scripts/preview.ts:68-90 | the strings handed on are the text's if and only if none holds a comma, blanks and a closing bracket |
| Sharing.Harness.SettleStewarded | dev/harness.ts:574-579 | the lists become the brains I can open or do not steward, and the rest |
| Sharing.Harness.ShareBrain | dev/harness.ts:1191-1262 | one call, by every branch and refusal, and the state it leaves |
| Sharing.SharerHoldsGrant | src/lib/orgs.ts:126-162 | who may share a brain without stewarding it holds an admin's grant on it |
| Sharing.RoleHeldIff | src/lib/orgs.ts:126-145 | a role is held exactly when the grant or, on a brain that is not private, the organization gives as much, within the caps for guests and read-only brains |
| Sharing.MayShareIff | src/lib/orgs.ts:151-162 | sharing is for stewards and for members with an admin's grant |
| Sharing.MadeCallMeans | dev/harness.ts:1191-1262 | after a call that is made the named person holds exactly the role asked or none, an address has one invitation more or less, the brain has the visibility asked, and every other grant, invitation and brain is as before |
| Sharing.RefusedIff | dev/harness.ts:1191-1262 | exactly when a call is refused; and no refusal changes a grant or an invitation |
| Sharing.FilterKeepsOrder | dev/harness.ts:574-579 | settling keeps the brains of a list in their order |
| Sharing.CallKeepsNoLockout | dev/harness.ts:1191-1262 | after any call every brain is still one I hold a role on or steward, and none is lost |
| Sharing.RunsNeverLockOut | dev/harness.ts:571-579 | so over every run; and after a call that settles, the lists are exactly the brains I have a role on and the rest |
| Sharing.VisibilityAloneIff | dev/harness.ts:1203-1211 | a call that only sets the visibility is made, and leaves right lists if and only if my having a role did not change |
| Sharing.UnsettledIff | dev/harness.ts:1191-1262 | any call on a brain I may share that does not settle, made or refused, leaves right lists if and only if it asked for no visibility, I hold a grant on the brain, or the old and the new visibility are both private or both not |
| Sharing.RefusalChangesIff | dev/harness.ts:1191-1262 | a refused call changes nothing if and only if it asked for no other visibility or was not let share |
| PageSha.Sha | dev/harness.ts:629-638 | the signed 32-bit loop computes the base-31 polynomial of the characters mod 2^32 |
| PageSha.StepKeepsApart | dev/harness.ts:633-638 | a step keeps two states apart |
| PageSha.StepReaches | dev/harness.ts:633-638 | and reaches every state |
| PageSha.OneCharacterShows | dev/harness.ts:629-638 | changing one character of a page of any length changes the sha |
| PageSha.TwoCharactersMayNot | dev/harness.ts:629-638 | changing two may not: a pair that cancels at the end of any page |
| PageSha.TwoCharactersCancelIff | dev/harness.ts:629-638 | two changed characters of a page of any length keep the sha if and only if the earlier change, times 31 for each character up to the later, and the later add to nothing mod 2^32 |
| PageSha.NeighboursCancelIff | dev/harness.ts:629-638 | for two neighbours: the later falls by exactly 31 times what the earlier rises |
| RebuildGuard.WatchLoop.TimerFires | scripts/app-dev.ts:116-132 | a firing starts a build, or queues one follow-up while one runs |
| RebuildGuard.WatchLoop.BuildEnds | scripts/app-dev.ts:116-132 | a build's end starts the queued follow-up |
| RebuildGuard.QuietMeansBuilt | scripts/app-dev.ts:116-142 | in every order of events at most one build runs, and when no timer is set and nothing runs the last build started after the last accepted edit |
| RebuildGuard.QuietComes | scripts/app-dev.ts:116-142 | without another edit all is quiet after at most four events |
| SelfBoot.App.Boot | app/main.tsx:570-581 | one tick of the timer: stop, wait on, or take over, with the tree at once when a file list is at hand |
| SelfBoot.App.OnTree | app/core/actions.ts:669-690 | the tree, or the error when its load fails, is shown only over its own loading view |
| SelfBoot.App.OnRefreshed | app/core/actions.ts:693-704 | a tree drawn from the list at hand is redrawn only while it is on screen |
| SelfBoot.WaitIsBounded | app/main.tsx:502-503 | the connecting view is gone by the 25th tick, and by the next when no call is pending |
| SelfBoot.LandedStays | app/main.tsx:64-75 | a view that landed is replaced by neither the timer nor the boot's tree, and a tree only by its own refresh |
| SelfBoot.TickReplacesIff | app/main.tsx:570-581 | a tick replaces exactly a loading view with no call pending or the wait used up, whoever started the load, by the tree when a file list is at hand and otherwise by a load of it |

## Left out

- IndexRuns.RunServesTheBranch: a write-through is indexed under settings no older than those of the first build; reads do not overlap, no failed batch tears a page, a write-through's commit does not move pages in or out of the index, and a deploy keeps what a rebuild under way has done; IndexLimits.OverlappingReads, IndexLimits.FailedBatchIff and IndexLimits.MidRebuildDeployIff say when each does no harm.
- IndexConvergence.Converges: speaks of a branch that stays where it is.
- LedgerRuns.AtMostOnce: handlers that outlive the grace period, a landing that is not recorded and a second claim that loses are assumed away; LedgerRuns.RefusalRace is a run without the last assumption, LedgerRuns.SecondClaimHarmlessIff says when one such claim does no harm.
- ImportSettles.SyncSettles: assumes that no two records land on one page, that a manifest covers the batch, and that each write touches no binding but its own: the names it sets are ones the reader knows or passes over, and the bindings a page has are no lists that read as mappings, and within the caps or on a page all of whose fields still come back; ImportLimits.BoundIffLast says what happens without the first, FrontmatterReads.FenceName, FrontmatterReads.ColonName and ImportClaims.AliasesLost what without the last.
- ConsolidationRuns.DonePassCovers: a pair skipped with its current texts counts as dealt with, as it does in the code.
- ConsolidationProgress.FullPassEndsIff: every call has time for the same number of batches; ConsolidationProgress.LongSourceStays is the same for one call.
- ConsolidationProgress.RememberingPassEnds: every pair may be sent and is answered; between that and ConsolidationProgress.UnansweredPassNeverEnds it depends on how the unanswered pairs fall into batches.
- BaselineRuns.FinishedScanIsExact: one tree throughout and calls one after another; BaselineMoves.MovesExplained covers a branch that moves, BaselineRuns.RaceHarmlessIff two calls at once.
- EditSnapshots.BatchKeepsSnapshots: speaks of each edit's own snapshots; an edit that breaks one and a later edit that mends it are not told from a batch that breaks it.
- SelfBoot.WaitIsBounded: starts after the handshake; the five-second connection error and the web build are not modelled.
- The importer's claims are read from an index that has caught up with the branch; one over its budget, which the importer does not check for, is not modelled, nor frontmatter keys that are whole numbers, which JavaScript lists before all others.
- What is derived from a page's text (title, links, fields, numeric field values, caps on them) is one arbitrary function of path and text; the order in which rows of one page are read back is not modelled.
- SQLite compares paths as UTF-8 and the code as UTF-16; the two orders differ only on surrogate pairs, which are not modelled.
- Pull requests instead of commits, view snapshots and the activity log regenerated on a sync, the check that a record's path is editable content, and the wording of messages and summaries.
- Of a resolve call that both aliases a key onto a page and deletes that page, the deletion is taken to win.
- What the models, the detectors and the search ranking answer, what they cost, and which findings are queued, reopened or dismissed.
- When two pairs of one batch are checked at once, the order in which their answers arrive; the memory is written in the pairs' order.
- Why a pass stopped, who started it and when.
- JavaScript's inherited property names (`constructor`, `__proto__`) as frontmatter keys.
- Finding a brain, an organization or a person by part of a name in the harness, and switching the active brain.
- The fingerprint of a write's arguments, which is taken as the arguments themselves; git blob ids and page hashes other than the harness's, which are taken as injective.
- The property table of who may do what, and the gateway's spend cap.
- Numbers of milliseconds other than those the ledger and the boot compare.
