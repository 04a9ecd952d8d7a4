# CRED: a verified model

CRED stores claims about a project, each resting on evidence in a source file, and recalls them for agents. Its
deciding code is kept in pure packages, and its store only inserts rows and closes them. This project models that
deciding code in Dafny and proves what its documentation promises of it. Where the code does not keep a promise,
the code is modelled as it is, a lemma gives an input that shows it, and another says exactly when it is kept.

`dafny verify dfyconfig.toml` checks everything.

## Modules

- `Strings`: the standard-library string operations the packages use.
- `Outline`: one fence-aware scan with an ancestor stack, shared by Markdown and code through a `Dialect`; the
  declarative outline it computes; the insertion theorem. `Ladder`: anchors and the verdict law. `TextAnchor`,
  `CodeAnchor`: the two anchorers. `Documents`: the round trip, and what edits expire.
- `Chunker`: cutting a file into seed chunks. `Seeding`: a seeding run against what is already live.
- `AddedTokens`, `Normalizer`, `WordPiece`: the tokenizer.
- `Temporal`, `ClaimTable`, `Lifecycle`: the bi-temporal algebra, the claims table as atomic steps, every interleaving
  of them. `Statements`: when a statement keeps a live claim. `Snapshots`, `Clocks`: when the past changes, by passes
  and by every writer. `ClaimStore`, `Dedup`, `Pruning`: the store object, the dedup pass, the prune pass.
- `Rrf`, `Acl`, `Limit`, `RateWindow`, `Recall`: the recall pipeline. `HiddenRows`: what rows that may not be read change
  of an answer. `Fence`: the fence around the output.

Code that loops and updates is a method proved equal to a function of its inputs; the properties are lemmas about
that function. Hashes are free constructors of what is hashed, so they are injective. Time is a natural number whose
zero is Go's zero time. Scores, confidences and the pruning aggressiveness are exact reals.

## What the code does differently from what is said of it

- **Past snapshots can change.** Every writer reads its clock first and commits with it later: a dedup pass, a
  re-anchoring pass and a seeding batch in many statements, a prune and a write in one. A close or an insertion at a
  clock that others have passed changes the snapshots between, although no clock goes back
  (`Snapshots.LatePassChangesThePast`, `Clocks.LateExpiryChangesThePast`). A snapshot can still change exactly when some
  clock in flight is not later than its two instants and its holder is to insert a row at that clock, or may close a
  live row that the snapshot shows (`Clocks.PastCanChangeIff`, `Clocks.PastIsStable`).
- **A statement can lose its last live claim.** A survivor forgotten between the scan and the apply still swallows its
  duplicate (`Statements.InterferenceLosesTheStatement`). An apply loses a statement exactly when the duplicate has no
  other live twin (`Statements.ApplyKeepsStatementIff`). Writes, seeding, any number of concurrent passes and whatever
  closes claims of other statements never bring that about (`Statements.StatementsStaySaid`); only somebody else closing
  a row of that statement that a pass in flight counts on does (`Statements.PassesKeepStatements`).
- **Rows that a principal may not read can change its answer.** The searches rank before access is decided, so a hidden
  row pushes readable ones down: it can decide which claim is returned (`HiddenRows.HiddenRowDecides`). Hidden rows
  leave no trace exactly when, in both searches, they rank below the readable rows that would be returned without them
  (`HiddenRows.HiddenRowsLeaveNoTraceIff`). After the searches, nothing unreadable leaves a trace in the package
  (`Recall.UnreadableLeavesNoTrace`).
- **Agreement between the arms wins only up to depth 61** (`Rrf.AgreementWinsIff`); the default depth is 50, but a
  request may ask for more.
- **Pruning reaches the ceiling, and harder the fuller a scope is, only for an aggressiveness that is not negative**
  (`Limit.PruneReachesCeilingIff`, `Limit.FullerKeepsLessIff`); the configuration's type allows a negative one.
- **The recall rate is counted first and recorded last**, so with `width` recalls of a principal in flight a window may
  hold `width - 1` more than the rate (`RateWindow.WindowsStayBounded`), and the bound is reached
  (`RateWindow.BoundIsReached`).
- **Identifiers, kinds, paths and the as-of time are written into the fence as they come**; each copy of a marker in
  them is a copy in the output, and nothing else is (`Fence.MarkersInFence`).
- **Chunks that disappear from a file stay live** (`Seeding.GoneChunksStayLive`), and **closing a seeded claim in any
  way but replacing it leaves its evidence open** (`Seeding.ClosingOrphansIff`; forgetting, re-anchoring, pruning do).
  The next run that meets the position fails (`Seeding.Seeder.Run`), and so do all after it: neither that run, nor runs
  over other chunks, nor anything that happens to the claims clears the position (`Seeding.FailedRunFailsAgain`,
  `Seeding.OrphansOutlastOtherRuns`, `Seeding.OrphansOutlastClaims`).

## Model

| member | source | states |
|---|---|---|
| TextAnchor.ParseHeadings | internal/anchor/text.go:50-89 | the stack loop returns the one Markdown outline of the lines: a heading for every line outside fenced blocks that is so many "#" and a title, its level their number, its path its title below the path of the nearest earlier heading with fewer, its section ending before the next heading |
| TextAnchor.HeadingMarkIs | internal/anchor/text.go:62-69 | a line of k times "#" and then text other than white space opens a heading of level k titled by that text, trimmed; no other line does |
| TextAnchor.FenceIffBackticks | internal/anchor/text.go:58-61 | a line toggles a fenced block iff three backticks come first after its leading white space |
| TextAnchor.MarkdownOutlineIsUnique | internal/anchor/text.go:50-89 | the lines determine the outline |
| TextAnchor.Enclosing | internal/anchor/text.go:94-106 | the loop finds the deepest heading whose section covers the line, the first on a tie |
| TextAnchor.Compute | internal/anchor/text.go:126-137 | all four tiers, said of the lines and the outline: path and fields of the section that holds the first line, or empty outside every section; the fields of the lines from three before the span to three after it; the span's own hash |
| TextAnchor.Resolve | internal/anchor/text.go:143-167 | resolving computes exactly the verdict that the ladder's law is about |
| TextAnchor.MarkdownNamesDefinitions | internal/anchor/text.go:62-69 | a Markdown heading always has a title and stands on a line with text |
| TextAnchor.ComputedStaysValid | internal/anchor/text.go:126-167 | what is computed from a file is never resolved as changed in that file |
| CodeAnchor.IndentCols | internal/anchor/code.go:138-151 | columns of leading whitespace, a tab counting four, with other characters ending the count |
| CodeAnchor.IndentIs | internal/anchor/code.go:138-151 | the level of a definition is its number of leading spaces and four for each leading tab |
| CodeAnchor.ParseDefs | internal/anchor/code.go:101-132 | the one outline of the lines that the matcher names, nested by columns of indentation |
| CodeAnchor.CodeOutlineIsUnique | internal/anchor/code.go:101-132 | the lines determine it |
| CodeAnchor.Compute | internal/anchor/code.go:39-50 | as for text; in an unrecognised language the first two tiers stay empty |
| CodeAnchor.Resolve | internal/anchor/code.go:56-80 | as for text; against an unrecognised language an anchored row is a change, an unanchored one is left alone |
| CodeAnchor.ReindentingKeepsPaths | internal/anchor/code.go:92-132 | two versions with the same names, indented so that any two definitions compare alike, have the same paths |
| CodeAnchor.ComputedStaysValid | internal/anchor/code.go:39-80 | what is computed from a code file is never resolved as changed in that file |
| Outline.NearestSkips | internal/anchor/text.go:76-83 | popping every entry at least as deep, as the stack does, leaves the nearest shallower entry as parent |
| Outline.PopToParent | internal/anchor/text.go:76-79 | the popping loop turns the stack of the last heading into the ancestors of the new one |
| Outline.PathsDependOnRelativeLevels | internal/anchor/code.go:101-132 | paths depend on names and on how levels compare, not on the levels |
| Outline.OutlineIsUnique | internal/anchor/text.go:50-89 | whatever opens definitions, a file has at most one outline |
| Outline.EntriesSound | internal/anchor/text.go:50-89 | every heading stands on a line that opens one outside a fence, in line order |
| Outline.EntriesComplete | internal/anchor/text.go:50-89 | every line that opens a heading outside a fence has one |
| Outline.SectionsTile | internal/anchor/text.go:50-89 | sections tile the lines from the first heading to the end |
| Outline.EnclosingIsUnique | internal/anchor/text.go:94-106 | the enclosing heading is the only one whose section covers the line, and there is none exactly before the first heading |
| Outline.InsertedEntriesKeepPaths | internal/anchor/text.go:50-89 | entries inserted before one of level L, all at least as deep as L, change no other entry's path |
| Outline.ParentsKeptIff | internal/anchor/text.go:76-86 | the level bound is exactly what keeps every parent: a shallower insertion takes over the heading it is put before |
| Outline.Insertion | internal/anchor/text.go:50-89 | inserting fence-balanced sections of level at least L before a heading of level L, or any sections at the end, keeps every existing heading's path and section text |
| Ladder.HashSeesFields | internal/anchor/anchor.go:208-215 | two texts hash alike exactly when their whitespace-separated fields are the same |
| Ladder.AnchorTiers | internal/anchor/text.go:126-137 | the tiers of an anchor, for every dialect |
| Ladder.SectionTextFields | internal/anchor/text.go:108-121 | the text between two line numbers has the fields of the lines between them that exist |
| Ladder.VerdictLaw | internal/anchor/anchor.go:113-168 | valid iff the path names one place and that place has the stored hash; ambiguous iff it names two; unanchored iff a tier is missing; whatever is anchored and not valid expires |
| Ladder.HeadingsCanAnchor | internal/anchor/text.go:126-137 | every section has a path and a hash, so whatever is computed inside one is anchored |
| Ladder.SameSourceVerdict | internal/anchor/text.go:126-167 | resolving against the same source is never a change: unanchored outside sections, ambiguous when the path repeats, valid otherwise |
| Ladder.OtherSourceVerdict | internal/anchor/text.go:143-167 | against another source with a unique path: valid iff the two sections have the same fields |
| Ladder.InsertionKeepsAnchors | internal/anchor/text.go:143-167 | a valid anchor survives insertions, and becomes ambiguous exactly when an inserted section takes its path |
| Documents.ScanOfAssembled | internal/anchor/text.go:50-106 | scanning a document assembled from a preamble and blocks gives back one heading per block with its level, start, end and lines |
| Documents.EveryFileIsADocument | internal/anchor/text.go:50-106 | every file is such a document |
| Documents.EditsExpireExactlyWhatChanged | internal/anchor/anchor.go:10-18 | between two versions with the same names and nesting, a valid anchor survives iff its own block keeps its fields |
| Documents.ReformattingExpiresNothing | internal/anchor/anchor.go:10-18 | so where names, nesting and fields stay, every valid anchor stays valid |
| Chunker.ChunkFile | internal/seed/chunk.go:145-245 | the line loop with its flushing closure yields the chunks of the file's one division into segments, each anchored at its first line |
| Chunker.CutsAreUnique | internal/seed/chunk.go:176-229 | a file has exactly one division: at "#" lines outside fences, and at the first line from the fortieth on outside a fence |
| Chunker.SegmentIs | internal/seed/chunk.go:176-229 | a segment ends before the next "#" line outside fenced blocks; from its fortieth line on, at the first line that is not inside one; or with the file |
| Chunker.ChunksAreUnique | internal/seed/chunk.go:145-245 | and so exactly one list of chunks |
| Chunker.CutsAreOutsideFences | internal/seed/chunk.go:201-229 | no segment starts inside a fence |
| Chunker.ChunksTileTheFile | internal/seed/chunk.go:176-229 | chunks are in order, disjoint, numbered without gaps, hold their own trimmed lines, and every non-blank line is in exactly one |
| Chunker.HeadingIsEnclosing | internal/seed/chunk.go:201-243 | a chunk's heading is the title of the heading enclosing its first line, and empty exactly when there is none |
| Chunker.ChunksAreAnchored | internal/seed/chunk.go:231-243 | a chunk's anchor is that of its own lines and hash, and its path leads to the heading that titles the chunk |
| Seeding.LiveChunks | internal/store/pg/queries.go:33-63 | the index holds exactly the positions whose evidence and claim are both live |
| Seeding.Seeder.Run | internal/seed/seed.go:63-210 | a run succeeds iff no chunk is blocked at the clock of its batch, by open evidence with a closed claim or by starts no earlier than the clock; a run that fails has done exactly the chunks before the one that blocked it; either way the whole new state is said, row by row: every chunk done that was not held has evidence with its hash and a claim with its content, both of its batch's clock, in place of what was live at its position, which is closed then in favour of that claim; all other rows are as they were; and the four counts are determined, with how far the scan was when the batch failed |
| Seeding.Seeder.Flush | internal/seed/seed.go:111-183 | a batch writes the collected chunks in order at one clock, with the same account of every row, and stops exactly at the first that is blocked |
| Seeding.StepProgress | internal/seed/seed.go:106-180 | one chunk succeeds iff it is not blocked, and keeps the run's invariant |
| Seeding.ReplaceAdds | internal/store/pg/queries.go:114-145 | replacing a live chunk never collides, whatever else is open, and adds one live row at its position |
| Seeding.ReplacedClaims | internal/store/pg/queries.go:114-145 | the prior claim is closed in favour of the new one and no other claim changes |
| Seeding.NextRunIsIdle | internal/seed/seed.go:56-62 | after a successful run all chunks are held and no position is orphaned |
| Seeding.GoneChunksStayLive | internal/seed/seed.go:60-62 | a chunk that is gone from its file is not superseded: its rows stay live |
| Seeding.FailedRunFailsAgain | internal/seed/seed.go:106-180 | a failed run leaves what blocked it: the next one over the same chunks fails too |
| Seeding.OrphansOutlastOtherRuns | internal/seed/seed.go:106-180 | a run over chunks at other positions leaves a position orphaned iff it was |
| Seeding.OrphansOutlastClaims | internal/store/pg/queries.go:33-63 | whatever happens to the claims table, an orphaned position stays orphaned |
| Seeding.ClosingOrphansIff | internal/store/pg/queries.go:33-63 | whatever happens to the claims table, a live chunk's position is orphaned iff its claim gets closed |
| Seeding.ExpiryOrphans | internal/store/pg/write.go:242-261 | expiry for any reason leaves the evidence open |
| Seeding.PruningOrphans | internal/store/pg/usage.go:145-162 | so does pruning |
| Seeding.FlatKeysAreDistinct | internal/seed/seed.go:185-202 | the chunks of distinct files have distinct positions, because a file's chunks are numbered |
| Seeding.ChunkFiles | internal/seed/seed.go:185-202 | the chunks of the discovered files, file by file |
| AddedTokens.SplitPlain | internal/embed/wordpiece/wordpiece.go:173-201 | the inner loop cuts one plain segment at every occurrence of a token |
| AddedTokens.SplitOnAddedTokens | internal/embed/wordpiece/wordpiece.go:173-201 | the passes equal one left-to-right scan for any of the tokens; segments are not empty, concatenate to the text, and plain ones hold no token |
| AddedTokens.SegmentationIsUnique | internal/embed/wordpiece/wordpiece.go:159-201 | a text has only one such segmentation |
| AddedTokens.OrderDoesNotMatter | internal/embed/wordpiece/wordpiece.go:173-201 | the order of the tokens makes no difference |
| AddedTokens.SpecialsAreTheOccurrences | internal/embed/wordpiece/wordpiece.go:173-201 | special segments are exactly the occurrences of the tokens in the text |
| Normalizer.InRanges | internal/embed/wordpiece/normalize.go:13-16 | binary search over a sorted table decides membership in one of its ranges |
| Normalizer.ControlsVanish | internal/embed/wordpiece/normalize.go:35-51 | a control character leaves no trace |
| Normalizer.WhitespaceSeparates | internal/embed/wordpiece/normalize.go:35-51 | any other white space separates: the two sides are tokenised on their own |
| Normalizer.CJKStandsAlone | internal/embed/wordpiece/normalize.go:53-73 | a CJK character is tokenised on its own, decomposed and lower-cased, and so are its two sides |
| Normalizer.CJKIsAWord | internal/embed/wordpiece/normalize.go:53-73 | where decomposition and lower-casing leave it alone, it is a word |
| Normalizer.OrdinaryTextIsLowered | internal/embed/wordpiece/normalize.go:75-107 | text without any of those is decomposed, loses the marks that appear, and is lower-cased after that |
| Normalizer.PreTokenize | internal/embed/wordpiece/normalize.go:109-131 | the buffer loop computes the words that the next three rows describe |
| Normalizer.WordsCoverText | internal/embed/wordpiece/normalize.go:109-131 | only whitespace is lost, and a word is one punctuation character or a run of other characters |
| Normalizer.WordsBreak | internal/embed/wordpiece/normalize.go:109-131 | words break at whitespace and around punctuation, the two sides being independent |
| Normalizer.RunIsOneWord | internal/embed/wordpiece/normalize.go:109-131 | and nowhere else |
| WordPiece.New | internal/embed/wordpiece/wordpiece.go:67-91 | loading succeeds iff the three control tokens are listed; every token is numbered by its last line |
| WordPiece.VocabularyIsInjective | internal/embed/wordpiece/wordpiece.go:67-91 | two tokens never share a number |
| WordPiece.LongestEnd | internal/embed/wordpiece/wordpiece.go:135-147 | the match taken is in the vocabulary and no longer one is |
| WordPiece.AppendWordPieces | internal/embed/wordpiece/wordpiece.go:125-157 | the loop appends the greedy pieces, or one unknown for the whole word when a position matches nothing or the word is too long |
| WordPiece.WordIdsAreTokens | internal/embed/wordpiece/wordpiece.go:125-157 | a word of at most a hundred characters that longest vocabulary pieces make up, one after the other, has those; any other is one unknown |
| WordPiece.TextTokensAre | internal/embed/wordpiece/wordpiece.go:96-121 | a text has one tokenisation: its special tokens, numbered or zero, and the tokens of the words of the normal forms between them |
| WordPiece.Encode | internal/embed/wordpiece/wordpiece.go:96-121 | with its early exits, encoding is [CLS], the first 510 ids of the text's one tokenisation, [SEP]; never longer than 512 |
| WordPiece.PiecesSpellWord | internal/embed/wordpiece/wordpiece.go:125-157 | greedy pieces without "##" spell the word |
| WordPiece.DecodeEncoded | internal/embed/wordpiece/wordpiece.go:96-157 | without unknowns, within budget and with those added tokens known that occur, decoding gives back the added tokens and the normalised, whitespace-free text between them |
| Temporal.OverlapsIffCommonInstant | internal/temporal/temporal.go:51-59 | well-formed intervals overlap iff some instant lies in both |
| Temporal.MeetsLeavesNoGap | internal/temporal/temporal.go:62-64 | meeting intervals share no instant and leave none out |
| Temporal.Close | internal/temporal/temporal.go:69-77 | closing succeeds iff the interval is open and the instant later than its start, and keeps exactly the earlier instants |
| Temporal.Supersede | internal/temporal/temporal.go:116-134 | when it succeeds, and which instants both intervals keep |
| Temporal.CurrentAt | internal/temporal/temporal.go:85-93 | the claims current in both dimensions, in order |
| Temporal.CurrentIff | internal/temporal/temporal.go:85-93 | current means begun, and open or ending later, in both dimensions |
| Temporal.CurrentOfMembers | internal/temporal/temporal.go:85-93 | a claim is among them iff it is one of the claims and current |
| Temporal.CurrentOfConcat | internal/temporal/temporal.go:85-93 | in their order and number |
| Temporal.NoValidTimeOverlap | internal/temporal/temporal.go:98-107 | the nested loops decide that no two intervals overlap |
| Temporal.ApartIffNoSharedInstant | internal/temporal/temporal.go:98-107 | which means that no instant lies in two of them |
| ClaimTable.InsertKeepsTable | internal/store/pg/write.go:47-149 | an insertion keeps the constraints; no row is deleted or changed |
| ClaimTable.UpdateKeepsTable | internal/store/pg/write.go:213-254 | closing a live row keeps the constraints; nothing else changes |
| ClaimTable.ReplaceKeepsTable | internal/store/pg/queries.go:114-145 | so does seed replacement |
| ClaimTable.CloseAllKeepsTable | internal/store/pg/usage.go:145-162 | so does pruning |
| ClaimTable.SnapshotIsCurrent | internal/temporal/temporal.go:85-93 | a row is in a snapshot iff the claim loaded from it is current |
| ClaimTable.SnapshotIsCurrentOf | internal/temporal/temporal.go:85-93 | a snapshot shows what is found current among the claims loaded from the table |
| ClaimTable.CloseShowsIff | internal/temporal/temporal.go:85-93 | a close shows in a snapshot iff the row was in it and the close is not later than both instants |
| ClaimTable.InsertShowsIff | internal/store/pg/write.go:47-149 | an insertion shows in exactly the snapshots not before it |
| Lifecycle.StepKeepsGood | internal/store/pg/write.go:164-254 | every event, in every interleaving with passes in flight, keeps the invariant; no row is deleted and no closed row changes |
| Lifecycle.RunsKeepGood | internal/curate/dedup.go:79-120 | and so does every run |
| Lifecycle.SupersessionIsAcyclic | internal/store/pg/write.go:213-231 | in every reachable state no row reaches itself along superseded_by |
| Lifecycle.EdgesOfReachableStates | internal/curate/dedup.go:37-60 | only closed rows carry an edge; dedup edges go to an earlier (recorded_at, id), seed edges to an unhashed row inserted later |
| Clocks.PastIsStable | internal/temporal/temporal.go:85-93 | while no clock in flight, of a pass or of any other writer, threatens a snapshot, nothing that reads its clock later changes it |
| Clocks.PastCanChangeIff | internal/seed/seed.go:111-166 | some continuation in which clocks are read later than the snapshot, and in rising order, changes it iff some clock in flight is not later than it and its holder is to insert with it, or may close with it a live row that the snapshot shows |
| Clocks.LateExpiryChangesThePast | internal/curate/reanchor.go:84-150 | with no dedup pass anywhere and no clock going back, an expiry at a clock read before another write changes a snapshot between the two |
| Clocks.CommitIsEvent | internal/curate/limit.go:188-213 | a statement committed at a held clock is an enabled event of the lifecycle at that clock |
| Clocks.WorldIsARun | internal/curate/dedup.go:79-120 | every run of writers and passes is a run of the lifecycle, so what holds of every interleaving holds of it |
| Snapshots.ApplyShowsIff | internal/curate/dedup.go:79-120 | an apply changes a snapshot iff the duplicate was in it and the pass's clock is not later than both instants |
| Snapshots.LatePassChangesThePast | internal/curate/dedup.go:84-91 | a run with rising clocks, one of them past the instant, in which the snapshot of the instant then changes |
| Statements.ApplyKeepsStatementIff | internal/curate/dedup.go:104-120 | an apply that closes a duplicate leaves its statement live iff the duplicate had another live twin |
| Statements.StepKeepsPending | internal/curate/dedup.go:79-120 | every row of a statement that waits to be folded keeps an earlier live twin, in every interleaving in which only passes close rows of it that passes count on |
| Statements.PassesKeepStatements | internal/curate/dedup.go:79-120 | so, in every such run, no apply takes the last live claim of the statement |
| Statements.StatementsStaySaid | internal/curate/dedup.go:28-36 | after every such run, a statement with a live claim keeps one for as long as only passes close claims of it, whatever happens to other statements |
| Statements.InterferenceLosesTheStatement | internal/curate/dedup.go:104-120 | a run in which forgetting the survivor mid-pass leaves no live claim of the statement |
| ClaimStore.GroupRows | internal/store/pg/write.go:180-202 | the map and order list group the rows by hash, in order of first appearance, members in row order |
| ClaimStore.HashOrderOnce | internal/store/pg/write.go:180-202 | the order list names every hash once |
| ClaimStore.HashesInOrder | internal/store/pg/write.go:180-202 | in order of first appearance |
| ClaimStore.MembersInOrder | internal/store/pg/write.go:180-202 | a group's members are those of the rows with its hash, in row order |
| ClaimStore.Store.LiveDuplicateGroups | internal/store/pg/write.go:164-203 | the groups divide exactly the live rows that share a hash with another |
| ClaimStore.Store.Load | internal/store/pg/write.go:373-389 | a live row loads as its claim with its start times, any other as not found |
| ClaimStore.Store.Apply | internal/store/pg/write.go:213-231 | not found iff the row is not live; done iff the close is later than both starts and the successor is another existing row; then that row is closed as asked and only that one, and otherwise nothing changes |
| ClaimStore.Store.Expire | internal/store/pg/write.go:242-254 | not found iff the row is not live; done iff it started before the clock; then that row is closed at the clock, with the reason and without a successor, and otherwise nothing changes |
| ClaimStore.Store.WriteClaim | internal/store/pg/write.go:47-149 | one more row, with the content and open from the clock on, in exactly the snapshots not before it, and nothing else changed |
| Dedup.Canonical | internal/curate/dedup.go:37-53 | the survivor, recorded first and of those the one with the least identifier; and the other members' identifiers, in order |
| Dedup.BestIsEarliest | internal/curate/dedup.go:37-60 | every member was recorded after the survivor, or at the same instant and has no lesser identifier |
| Dedup.OthersAreMembers | internal/curate/dedup.go:37-53 | the duplicates are exactly the members with another identifier |
| Dedup.JobsArePlan | internal/curate/dedup.go:79-99 | scanning and choosing gives one job per duplicate, naming the earliest live twin: the plan the interleaving model starts from |
| Dedup.SupersedeDuplicate | internal/curate/dedup.go:104-120 | load, compute, persist is one job step; a vanished claim is skipped |
| Dedup.Run | internal/curate/dedup.go:79-99 | the nested loops run the plan's jobs in order and stop at the first failure with the count so far |
| Dedup.PassSucceedsIff | internal/curate/dedup.go:79-120 | an undisturbed pass succeeds iff its clock is after the start of every duplicate it found |
| Dedup.JobsFold | internal/curate/dedup.go:79-120 | a pass, failing or not, closes exactly the duplicates before the first that starts no earlier than its clock |
| Dedup.PassFoldsDuplicates | internal/curate/dedup.go:79-120 | it then closes every duplicate in favour of its survivor and changes nothing else |
| Dedup.PassCountsLiveDrop | internal/curate/dedup.go:76-99 | whether or not it fails, it returns the drop in the number of live claims |
| Dedup.OneLiveClaimPerStatement | internal/curate/dedup.go:28-53 | after it each live statement has exactly one live claim, the earliest |
| Dedup.SecondPassIsIdle | internal/curate/dedup.go:79-99 | a second pass finds nothing and returns 0 |
| Dedup.PassIsARun | internal/curate/dedup.go:79-120 | whatever a pass does to the table, a run of scan, load and apply events does too: the facts about every interleaving hold of it |
| Pruning.PruneScope | internal/store/pg/usage.go:145-162 | exactly the n lowest live rows of the scope are closed at the clock, as pruned and without a successor, in one statement, or none |
| Pruning.PickedIsUnique | internal/store/pg/usage.go:133-162 | the tie-break leaves only one set of rows to prune |
| Pruning.PickedAreLowest | internal/store/pg/usage.go:133-162 | the rows picked have less confidence than every other live row of the scope, or the same and were recorded earlier, or at the same instant and have lesser identifiers |
| Pruning.Prune | internal/curate/limit.go:188-213 | count, decide, close |
| Pruning.PruneMeetsCeiling | internal/curate/limit.go:173-213 | a pass leaves exactly the target fewer, keeps the more valuable claims and touches nothing else; exactly when the ceiling is met, and then the next has nothing to do |
| Pruning.RefusedIffNotLater | internal/store/migrations/00001_initial_schema.sql:107-110 | the statement is refused iff a picked row starts no earlier than the clock |
| Rrf.FuseRRF | internal/recall/rrf.go:68-107 | every identifier with a valid rank once, with one contribution of 1/(60+rank) for each place it was found at, arm by arm in order, scored by their sum, higher scores first and then lesser identifiers |
| Rrf.FusionIsUnique | internal/recall/rrf.go:63-107 | the arms determine the fused list, whatever the order maps are walked in |
| Rrf.FusedOnce | internal/recall/rrf.go:68-107 | no identifier appears twice |
| Strings.LessIff | internal/recall/rrf.go:101-106 | identifiers compare by the first character in which they differ, a prefix being the lesser |
| Rrf.AgreementWinsIff | internal/recall/rrf.go:51-107 | for arms as searches return them, ranked by position, results of both always precede results of one iff the depth is at most 61 |
| Rrf.FusionExists | internal/recall/rrf.go:68-107 | every two arms have a fused list |
| Rrf.TieAtSixtyTwo | internal/recall/rrf.go:68-107 | two full arms of 62 results in which the last of both only ties with the first of one, and the identifier decides |
| Rrf.CollectHits | internal/store/pg/queries.go:269-282 | rows are ranked from 1 in the order they came |
| Rrf.EqualDepth | internal/recall/rrf.go:115-122 | true iff no arm is longer than the depth |
| Rrf.SingleArmShare | internal/recall/rrf.go:129-152 | the arm that alone found most of the top results, the least name on a tie, and its share |
| Rrf.AloneCounts | internal/recall/rrf.go:129-152 | an arm's count is the number of results with one contribution, from it |
| Rrf.DominantIsUnique | internal/recall/rrf.go:129-152 | whatever the order the counts are walked in |
| Acl.Active | internal/acl/acl.go:25-34 | the principals with an unexpired grant |
| Acl.Intersect | internal/acl/acl.go:45-59 | those admitted by every set, and nobody for no sets |
| Acl.Permitted | internal/acl/acl.go:68-78 | those admitted by the claim and by all of its evidence, and nobody without evidence |
| Acl.CanRead | internal/acl/acl.go:81-84 | the same, for one principal |
| Acl.ReadersAreReadable | internal/acl/acl.go:90-98 | filtering keeps exactly the readable claims |
| Acl.ReadersOfConcat | internal/acl/acl.go:90-98 | in order |
| Acl.GatheringIntersects | internal/acl/acl.go:36-59 | merging the evidence of two claims admits exactly the readers of both |
| Acl.AccessOnlyExpires | internal/acl/acl.go:21-34 | time only takes access away |
| Acl.UngrantedIsUnreadable | internal/acl/acl.go:61-78 | no evidence, no grants, or one ungranted piece of evidence: nobody reads it |
| Limit.RemainingIsExact | internal/limit/limit.go:109-117 | the reported remainder is exactly how many more operations are allowed |
| Limit.CeilingIsExact | internal/limit/limit.go:199-208 | a limit of zero or less is none; any other allows so many and then no more |
| Limit.PruneIsBounded | internal/limit/limit.go:171-194 | never more is pruned than there is, and nothing at or under the ceiling |
| Limit.PruneTargetIs | internal/limit/limit.go:171-194 | the target is the overage and the least whole headroom not less than the aggressiveness times it, and no more than there is |
| Limit.PruneReachesCeilingIff | internal/limit/limit.go:171-194 | for every aggressiveness, exactly when pruning to the target reaches the ceiling |
| Limit.FullerKeepsLessIff | internal/limit/limit.go:171-194 | the fuller the scope, the less is left, iff the aggressiveness is not negative |
| Limit.HeadroomIsLeft | internal/limit/limit.go:171-194 | with any aggressiveness strictly less than the ceiling is left |
| RateWindow.WindowsStayBounded | internal/recall/recall.go:190-201 | over every run with at most `width` recalls of anyone in flight, no half-open window holds more than the rate plus width minus one; exactly the rate for sequential runs |
| RateWindow.BoundIsReached | internal/recall/recall.go:190-307 | for every rate and width a run that reaches it |
| Recall.RecallKeepsRate | internal/store/pg/usage.go:89-107 | recording an allowed recall keeps every window within the rate, whatever the clocks |
| Recall.WithinRateIff | internal/recall/recall.go:190-197 | a recall is refused iff a rate is set and that many recalls of the principal are recorded after the start of the window |
| Recall.MayReadIsEntitled | internal/acl/acl.go:61-78 | a principal may read a claim iff it rests on evidence and it and every piece of that have an unexpired grant for the principal |
| Recall.Hydrate | internal/recall/recall.go:325-367 | one claim per fused identifier that has a row, joined with its evidence and both sets of grants |
| Recall.Assemble | internal/recall/recall.go:257-295 | the loop packs exactly the candidates the principal may read |
| Recall.CountIsTokens | internal/recall/recall.go:311-320 | a claim's tokens are the counts of its statement and of all its evidence texts, added up |
| Recall.PackSelects | internal/recall/recall.go:271-295 | the results are gone through in order, and each that the principal may read is returned iff there are fewer claims than the limit and the texts of those already taken and of this one fit the budget |
| Recall.NothingOmittedFits | internal/recall/recall.go:277-287 | while there are fewer claims than the limit, whatever readable is omitted would exceed the budget with its texts |
| Recall.PackageIsMaximal | internal/recall/recall.go:271-295 | an order-preserving selection within limit and budget; all others are counted as omitted, and none would still fit |
| Recall.AuthorizedAreVisible | internal/recall/recall.go:257-269 | the authorized count is the number of candidates the principal sees |
| Recall.ClampedIsWithinCap | internal/recall/recall.go:171-201 | whatever is asked for, limits are positive and within the server's cap; what is not asked for is ten claims, 4000 tokens, depth fifty and the present |
| Recall.Service.Recall | internal/recall/recall.go:171-309 | denied iff the rate is reached, the model differs or an arm exceeds the depth; otherwise an answer over the fused list of the two arms: which results are returned with which texts, tokens and scores, how many are authorized and omitted, the age of the oldest claim, the dominant arm; what it records; and that served one at a time no window ever exceeds the rate |
| Recall.AnswerIsUnique | internal/recall/recall.go:244-309 | one answer, whatever the order of maps and rows |
| Recall.AnswersAreSound | internal/recall/recall.go:257-295 | everything returned is readable, within limits, in fused order, and authorized is returned plus omitted |
| Recall.UnreadableIsInvisible | internal/recall/recall.go:165-170 | deleting an unreadable candidate leaves what the principal sees |
| Recall.UnreadableLeavesNoTrace | internal/recall/recall.go:165-170 | so claims, tokens, omitted and authorized are the same; only the candidate count differs |
| Recall.SameHitsSameAnswer | internal/recall/recall.go:244-309 | for the same search results, databases that join the same readable claims give the same answer |
| HiddenRows.HiddenRowsLeaveNoTraceIff | internal/store/pg/queries.go:227-267 | whatever the limits, the package with and without the hidden rows is the same iff in both searches they rank below the readable rows that would be returned without them |
| HiddenRows.HiddenRowDecides | internal/recall/recall.go:225-295 | a recall limited to one claim that returns another claim when a hidden row is there |
| HiddenRows.SampleTablesExist | internal/acl/acl.go:68-78 | such tables: three claims that share evidence, one of them without grants of its own |
| Recall.StalenessIsOfTheOldest | internal/recall/recall.go:377-388 | an answer is as stale as its oldest claim |
| Fence.Neutralize | internal/mcpsrv/fence.go:78-84 | both markers are replaced in turn |
| Fence.NeutralizedHasNoMarker | internal/mcpsrv/fence.go:77-84 | the result holds neither marker, for every text |
| Fence.EraseRestores | internal/mcpsrv/fence.go:36-39 | erasing the zero-width spaces gives back the text |
| Fence.UnchangedIffNoMarker | internal/mcpsrv/fence.go:77-84 | only text with a marker is changed |
| Fence.Fence | internal/mcpsrv/fence.go:40-75 | the rendered text; where fields stay on their line it reads back line by line, zero-width spaces erased: between the markers each claim in order with its labelled identifier, kind, statement, score and confidence, each piece of evidence with its place and the lines of its text, and after them the summary |
| Fence.TextReadsBack | internal/mcpsrv/fence.go:40-75 | that, for every output |
| Fence.DecReads | internal/mcpsrv/fence.go:51-72 | a number is written in decimal with its sign |
| Fence.MarkersInFence | internal/mcpsrv/fence.go:29-75 | each marker occurs once, and once more for each copy in an identifier, kind, path or as-of time, and nowhere else |

## Left out

- SQL, PostgreSQL, transactions and generated identifiers: each statement is one atomic function of the table. Constraints and the two partial unique indexes are taken from the migrations. Identifiers are chosen outside, and unused.
- Evidence rows, links, grants and embeddings in `Lifecycle` and `ClaimStore`: those modules follow claims only. `Seeding` has the evidence rows of seeded chunks.
- Seeding.Seeder.Run: embedding, file discovery and reading, and errors other than a refused statement; a chunk's position is a pair, not a string with a separator.
- Pruning.Prune: the count and the close are two statements; what happens when other events come between them is covered only by `Lifecycle`, where a prune may close any live rows.
- Clocks.PastCanChangeIff: what a writer has yet to commit is a list fixed when it reads its clock, of which it may drop the rest. Identifiers are not empty.
- Dedup.PassCountsLiveDrop: with interference the returned count also includes jobs that found nothing to close.
- Rrf.FuseRRF: scores are exact, where the code adds 64-bit floats; near-ties that rounding would merge or swap are not modelled. Sorting is insertion sort, where the code calls the library's; both give the one strict order.
- Recall.Service.Recall: timings, and errors of the database and the embedder. The searches' rows are parameters, in any order.
- Fence.Fence: the preamble is any text without "<", numbers other than integers are rendered outside, and a rendered number holds no "<".
- Seeding.ChunkFiles: the claim that rests on a chunk is an arbitrary function of it; how its statement is composed of heading and first sentence is not modelled.
- CodeAnchor.ParseDefs: the per-language regular expressions and the table of languages are one arbitrary matcher from lines to names.
- Normalizer.PreTokenize: the Unicode tables, canonical decomposition and lower-casing are arbitrary functions; of punctuation only "#" is fixed, and only where the round trip needs it. What normalising does is said for tables in which a space is white space and nothing else, and for a decomposition that does not look past a space.
- TextAnchor.ParseHeadings: a string is a sequence of characters, so invalid UTF-8 and byte offsets are not modelled.
- Verdicts carry no reason text.
- Strings are ordered by character, where the code compares bytes; the two agree on valid UTF-8.
- Constraints on single fields (a statement is not empty, a confidence lies between 0 and 1, the reasons are from a list) are not part of the table; none of the results needs them.
- Vocabulary numbers are unbounded, where the code uses 32 bits.
- Write-path quotes and candidate anchoring, nomination, the HTTP interface, authentication, configuration and the console.
- `Contribution`, `Cost` and `LoginAttempts`: the same decision as the recall rate over other counts.
