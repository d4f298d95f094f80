# A model of token-level authorship attribution

The system follows a wiki article through its revisions and records, for every token, which
revision first wrote it, which revisions removed it and which brought it back. This project
models the parts of it that decide results, states what they promise, and proves it.

- **Attribution** (`Article`, `CascadeSpec`, `CascadeShape`, `SentenceLevel`, `WordLevel`,
  `Follows`, `Reuse`, `Growth`, `Verdicts`, `Accounting`, `History`, `Presence`, `Runs`,
  `Orphans`, `Fidelity`, `Buckets`, `Structures`, `TextOps`). The class `Article` holds the arenas and maps and changes them in place, loop by
  loop, as the original does. Each method is proved to compute a function of the state before
  (`CascadeSpec`); everything else is proved about that function and about runs of it. The
  splitters, lowercasing, trimming and the digest are given functions. The main theorems hold
  for whatever these do; only text fidelity assumes that the strings hashed do not collide.
- **Diff engines** (`Myers`, `Interning`, `Matching`, `Decomposition`, `SequenceMatcher`,
  `DifferSpec`, `DifferShape`, `Differ`, `DifferKeeps`, `TwoEngines`, `EditScript`). A greedy shortest-edit
  search with stored traces, and a Ratcliff/Obershelp matcher with caches, a work queue and a
  recursive refinement of replaced ranges.
- **Span injector** (`SpanText`, `SpanParser`, `MarkupTable`, `Roster`, `SpanInjector`). A
  recursive parser over one shared cursor that wraps the tokens of a wikitext in spans, with
  line breaks hidden behind a placeholder; the markup table's regular expressions as data; the
  roster of editors.
- **Storage** (`Stored`, `Persistence`, `Resume`, `ArticleStore`, `Codec`, `VarintForms`,
  `TokensFile`, `RevisionsFile`, `SortedIndexes`, `Layouts`). Projection to records and back, resuming a
  run from disk, and the byte formats with their indexes.
- **Sessions and their callers** (`Sessions`, `Ingest`). The main results, about every article
  that feeds and restarts lead to, and the two callers that feed one.
- **Dates and frames** (`CivilDays`, `Utf8`, `SseFrames`). Day numbers of the proleptic
  Gregorian calendar, UTF-8 with lossy decoding, and the event stream's incremental framer.

`Wrappers` and `Seqs` hold shared helpers. `dafny verify dfyconfig.toml` checks everything.

## How to read it

A *good* state is the invariant `History.GoodState`. A *reachable* one is where some session
ends that begins with a new article, given a page id or not, and then feeds revisions and
restarts, that is saves and loads, in any order (`Sessions.Reachable`). Sessions feed no id that
is already stored; flagged ids may come again. That is an assumption, and the callers do not
always meet it: `Ingest` proves exactly when an event feeds a stored id again, and what follows.
`Runs`, `Orphans` and `Fidelity` prove the same facts of one run from any good state.

The recorder passes over some tokens several times and the list of matched sentences contains
the leftovers a second time. `Accounting.CascadeTheorem` says what these lists contain, and
`History.RecorderTheorem` that the passes together touch each record exactly once, whatever
order the maps yield their values in: the methods that iterate a map pick keys in any order.

Those theorems would hold of a cascade that reuses nothing. `Reuse`, `Follows` and `Growth` prove
what it must reuse, and `Verdicts` when a revision is stored at all.

## Model

| member | source | states |
|---|---|---|
| Sessions.LifeHistory | crates/wikiwho-attribute/src/cascade.rs:720-883 | For every article that any session reaches, restarts and page id or not, every token and every stored revision: the revision is in the outbound list exactly if the token was in the revision before and is not in this one, and in the inbound list exactly if it is here, was not in the one before and did not originate here; origin, last revision and both lists are the ones its presence history determines |
| Sessions.PresentIffBalanced | crates/wikiwho-attribute/src/cascade.rs:855-883 | In every reachable article a token is in the last good revision exactly if it has as many inbound as outbound entries, and exactly if its last revision is the last good one; outbound never leads by more than one |
| Sessions.TokensUnique | crates/wikiwho-attribute/src/cascade.rs:623-706 | No token occurs twice in a stored revision of a reachable article, and every token listed exists |
| Runs.SequencesFrozen | crates/wikiwho-attribute/src/pipeline.rs:98-184 | Whatever is fed later, a stored revision stays stored and its token sequence does not change |
| Sessions.Conservation | crates/wikiwho-attribute/src/pipeline.rs:160-184 | In every reachable article the original additions of the stored revisions add up to the number of tokens and to the next token id, and each revision counts exactly the tokens it originated |
| Sessions.SequencesStay | crates/wikiwho-storage/src/reader.rs:99-215 | Whatever a session does later, restarts included, a stored revision stays stored and the token sequence read for it does not change |
| Sessions.SnapshotsAreRead | crates/wikiwho-attribute/src/structures.rs:285-342 | The histories of a reachable article are made of the token sequences the read path answers, pinned or walked |
| Sessions.VandalismRemembered | crates/wikiwho-attribute/src/pipeline.rs:106-121 | After a flagged revision, and whatever is fed, saved and loaded in between, every revision with the same hash is refused as a hash match |
| Sessions.OrphansStayUnreachable | crates/wikiwho-attribute/src/pipeline.rs:106-154 | The paragraphs and sentences a flagged revision appended are not reachable from a hash table or a stored revision in any later state of any session |
| Sessions.TextFidelity | crates/wikiwho-attribute/src/structures.rs:285-342 | After any session from a new article, the token values read for every stored revision are the flattened paragraph, sentence, token split of its lowercased text, whichever mix of reuse, diff and fallback built it; assumes only that the strings hashed do not collide and that tokens are non-empty lists free of spaces |
| Sessions.ReachableFacts | crates/wikiwho-attribute/src/pipeline.rs:98-184 | Every reachable article satisfies the invariant, keeps its pinned sequences equal to its walks, adds up, and has all that it refers to listed in a hash table |
| Sessions.SessionsGoOn | crates/wikiwho-storage/src/reader.rs:99-215 | Whatever a session does next from a reachable article leads to a reachable article |
| Sessions.ReachableSavable | crates/wikiwho-storage/src/writer.rs:54-280 | Every reachable article that has a page id can be saved |
| Sessions.SavedIsReachable | crates/wikiwho-storage/src/reader.rs:65-215 | Of a reachable article with a page id, loading what was saved cannot fail, gives it back with its sequences pinned, reads the same everywhere, and is reachable again |
| Ingest.WindowFeedable | crates/wikiwho-ingest/src/apply.rs:88-116 | An event feeds only revisions that are not stored yet exactly if no stored revision that is delivered again has an id above the last good one, for any stored article and any deliveries with distinct ids |
| Ingest.RefetchedFeedable | crates/wikiwho-ingest/src/apply.rs:132-156 | When the whole history is delivered again, that is the case exactly if the last good revision has the largest id of all stored ones |
| Ingest.OutOfOrderFedAgain | crates/wikiwho-ingest/src/apply.rs:88-116 | Of a page whose history has revision 1000 before revision 500, an event for revision 1001 feeds 1000 again, and the article then lists it twice |
| Ingest.AppliedIsReachable | crates/wikiwho-ingest/src/apply.rs:72-123 | Where the last good revision has the largest id, what an event leaves behind is again a reachable article |
| Ingest.BuiltIsReachable | crates/wikiwho-server/src/cache_miss.rs:46-66 | What is built from a page's whole history is reachable |
| Ingest.FedExactly | crates/wikiwho-ingest/src/apply.rs:88-156 | An event feeds exactly the revisions that are delivered with their text and are newer than the last good one, by id |
| Ingest.ApplyEvent | crates/wikiwho-ingest/src/apply.rs:72-123 | Without a saved article, or with an event that is not ahead of it, nothing is written; a file with a token whose string is missing gives that error; otherwise what is written is the loaded article after all revisions of the window, which are those of FetchWindow whose text is shown, and the count is theirs |
| Ingest.SavedLoads | crates/wikiwho-storage/src/reader.rs:65-215 | The file of a savable article loads as that article with its sequences pinned, in the shape an event needs |
| Ingest.FetchWindow | crates/wikiwho-ingest/src/apply.rs:132-156 | The revisions of the first so many batches, in order, without those not above the start; none of these batches but the last saw the end, and the last did unless there are no more |
| Ingest.DeliveredIsWindow | crates/wikiwho-ingest/src/apply.rs:132-156 | That is what the specification of an event calls delivered and newer: row for row the places of those batches, lexicographically ascending, and all whose id is above the start |
| Ingest.ShownRows | crates/wikiwho-ingest/src/apply.rs:98-116 | What is fed of them is all whose text is not hidden, in order |
| Ingest.FedByBatch | crates/wikiwho-ingest/src/apply.rs:88-156 | A revision is fed exactly if its id is above the last good one and some batch, with none before it at the end, delivers it with its text |
| Ingest.FeedAll | crates/wikiwho-ingest/src/apply.rs:98-116 | Feeding the object one by one, hidden texts skipped, is the run over the shown ones |
| Ingest.BuildArticle | crates/wikiwho-server/src/cache_miss.rs:46-66 | A new object that is given its page id and fed the history is in the state of that run |
| Runs.VandalismStep | crates/wikiwho-attribute/src/pipeline.rs:106-154 | A flagged revision leaves tokens, next id, both hash tables, stored revisions and last good revision as they were; it only appends arena entries and spam bookkeeping, and records its hash |
| Runs.RepeatedVandalism | crates/wikiwho-attribute/src/pipeline.rs:106-121 | After a flagged revision, and whatever is fed in between, every revision with the same hash is refused as a hash match |
| Runs.RunKeepsGood | crates/wikiwho-attribute/src/pipeline.rs:98-184 | Every run from a good article ends in a good one, keeps every word and every hash in place, and only appends to the list of stored token sequences |
| Runs.StepKeepsGood | crates/wikiwho-attribute/src/pipeline.rs:98-184 | One revision, stored or flagged, keeps the article good |
| History.StepShaped | crates/wikiwho-attribute/src/pipeline.rs:98-184 | Every revision, whatever its id, 0 and stored ids included, keeps the shape that the methods need |
| Runs.RecordIsHistory | crates/wikiwho-attribute/src/cascade.rs:720-883 | In every good article, however it came to be, a token's record is its presence history |
| Runs.RecordIsBalanced | crates/wikiwho-attribute/src/cascade.rs:855-883 | In every good article returns and deletions of a token balance exactly while it is present |
| Runs.WalkUnique | crates/wikiwho-attribute/src/cascade.rs:623-706 | In every good article the walk of a stored revision repeats no token |
| Runs.AddsRun | crates/wikiwho-attribute/src/pipeline.rs:160-184 | Any run keeps the sum of original additions equal to the number of tokens, and each revision's equal to what it originated |
| Runs.DistinctIdsFeedable | crates/wikiwho-attribute/src/pipeline.rs:98-104 | Revisions with distinct ids can be fed exactly if none of them is stored yet |
| Orphans.FlaggedStayUnreachable | crates/wikiwho-attribute/src/pipeline.rs:106-154 | From any good article with all it refers to in its tables, what a flagged revision appended is reachable in no later state of any run |
| Orphans.RunTabled | crates/wikiwho-attribute/src/cascade.rs:170-241 | Runs keep whatever a stored revision or a tabled paragraph refers to listed in a hash table |
| Fidelity.RunFaithful | crates/wikiwho-attribute/src/cascade.rs:90-158 | Along any run all tabled nodes keep reading as the texts their hashes stand for, and every stored revision keeps the digests of its own text |
| Fidelity.RevisionText | crates/wikiwho-attribute/src/structures.rs:285-342 | A stored revision with the digests of given paragraphs reads as those paragraphs, split into sentences and tokens |
| Fidelity.StoredFaithful | crates/wikiwho-attribute/src/cascade.rs:170-241 | A stored revision lists the digests of its trimmed paragraphs in order, and everything a hash table holds reads as the text its hash stands for |
| Fidelity.CascadeTexts | crates/wikiwho-attribute/src/cascade.rs:90-158 | Every paragraph and sentence that the cascade newly allocates carries the digest of its own text and, for sentences, words that spell it |
| Accounting.CascadeTheorem | crates/wikiwho-attribute/src/cascade.rs:90-158 | From any good article the cascade either gives up having only appended nodes, or accounts for every token: each old token of the new revision is matched and walked, each matched token that is not in it is in the previous one, each previous token that is not matched is walked for deletion, each new token is in the revision, and nothing is walked twice for deletion |
| History.RecorderTheorem | crates/wikiwho-attribute/src/cascade.rs:745-883 | From the cascade's bookkeeping the recorder gives every old token exactly the change that presence in the previous and in the new revision calls for, and leaves new tokens with empty lists |
| History.HistoryStep | crates/wikiwho-attribute/src/cascade.rs:720-883 | If all records equal the histories so far, then after such a step they equal the histories extended by the new revision |
| History.StoredStep | crates/wikiwho-attribute/src/pipeline.rs:156-183 | Storing a revision keeps the article good, appends one token sequence, extends both tables and changes every record by the step |
| History.CommitGood | crates/wikiwho-attribute/src/pipeline.rs:160-178 | Recording and committing keep arenas and tables live and every hash under its own key |
| Presence.OutIff | crates/wikiwho-attribute/src/cascade.rs:755-790 | Over any history with distinct revisions, the expected outbound list holds a revision exactly if the token was present just before it and is absent in it |
| Presence.InIff | crates/wikiwho-attribute/src/cascade.rs:855-883 | The same for the inbound list, without the first appearance |
| Presence.Alternates | crates/wikiwho-attribute/src/cascade.rs:855-883 | Along any history, returns and deletions alternate: equally many while the token is present, one deletion more while it is absent |
| CascadeShape.ParaLoopKeeps | crates/wikiwho-attribute/src/cascade.rs:170-262 | The paragraph level keeps its invariant: each paragraph is placed once, the matched words are exactly those placed, and all that is matched was live before |
| SentenceLevel.SentLoopsKeep | crates/wikiwho-attribute/src/cascade.rs:287-362 | The sentence level keeps its invariant through every sentence of every unmatched paragraph |
| WordLevel.WordLoopsKeep | crates/wikiwho-attribute/src/cascade.rs:508-581 | Through every word the token level only claims unclaimed previous tokens, marks only such tokens deleted, and allocates every other token it places; which tokens it keeps is TokensFollow |
| WordLevel.WordLoopsFill | crates/wikiwho-attribute/src/cascade.rs:508-581 | Afterwards every unmatched sentence holds exactly the tokens of its own text |
| Follows.TokensFollow | crates/wikiwho-attribute/src/cascade.rs:409-584 | Unless the level gives up, and however often values repeat: the new sentences hold, in order, exactly the sequence their transcript against the unmatched previous tokens stands for, which is the previous token for each kept entry and the next new token for each inserted one; and the additions plus the kept entries are the words of the new text |
| Follows.ScanFollows | crates/wikiwho-attribute/src/cascade.rs:510-579 | One word: the scan settles on the entry that the transcript has for it, although it claims entries and tokens by value and not by position |
| Follows.FollowedAt | crates/wikiwho-attribute/src/cascade.rs:510-579 | In that sequence a kept entry is given its own previous token, an inserted entry a new one, at the place of its word |
| Reuse.TakesFirstFree | crates/wikiwho-attribute/src/cascade.rs:185-209 | Of a list of candidates the scan takes the first that is free, which is one not claimed none of whose words are matched, and takes none only if none is free |
| Reuse.TakesFirstFreeSentence | crates/wikiwho-attribute/src/cascade.rs:299-344 | The same for sentences |
| Reuse.ParaStepTakes | crates/wikiwho-attribute/src/cascade.rs:185-241 | Each paragraph takes the first free one with its hash, the previous revision's before the table's, and is made anew only if none is free |
| Reuse.SentStepTakes | crates/wikiwho-attribute/src/cascade.rs:287-362 | Each sentence takes the first free one with its hash, those of the unmatched previous paragraphs in order before the table's, and is made anew only if none is free |
| Reuse.CascadeReuse | crates/wikiwho-attribute/src/cascade.rs:90-158 | A paragraph or sentence is made anew only where each known one with its hash has a word that the new revision reuses elsewhere, or is accounted for as matched; and unless the cascade gives up, the words of the new sentences follow their transcript, so that new tokens plus kept entries are exactly those words |
| Growth.StoredAdds | crates/wikiwho-attribute/src/pipeline.rs:156-183 | A stored revision adds exactly the words of its new sentences less those its transcript keeps, and the token arena grows by just that |
| Growth.KnownParagraphs | crates/wikiwho-attribute/src/cascade.rs:161-262 | Where no paragraph occurs more often than in the previous revision, in whatever order, the cascade changes no arena, adds nothing, and lists under each hash the previous paragraphs from the first on |
| Growth.NoNewParagraphs | crates/wikiwho-attribute/src/pipeline.rs:98-184 | Such a revision is refused only for its hash or its length; stored, it adds no token and has only tokens of the previous one: all of them if no paragraph is gone, and the very same sequence if none moved |
| CascadeSpec.FindUnmatchedPrev | crates/wikiwho-attribute/src/cascade.rs:605-621 | Finds the first previous word with this value that is not matched, and nothing only if there is none |
| Buckets.ChainBuckets | crates/wikiwho-attribute/src/cascade.rs:771-819 | Chaining the buckets of a map in whatever order the map yields them lists the ids of the ordered walk, as a multiset; nothing else of the order is used |
| Buckets.ClampedIsWalk | crates/wikiwho-attribute/src/structures.rs:294-342 | Where every hash of the order is covered by its bucket, the read path's walk that clamps at a bucket's end is the plain walk |
| ArticleClass.Article.constructor | crates/wikiwho-attribute/src/structures.rs:217-225 | A new article is empty and valid |
| ArticleClass.Article.AnalyseRevision | crates/wikiwho-attribute/src/pipeline.rs:98-184 | Whatever the revision's id, the method on the object ends in the state and with the outcome of the step that all theorems are about, VerdictExactly and SessionRecords included, and keeps the object valid; a good article stays good if the id is not stored |
| Verdicts.VerdictExactly | crates/wikiwho-attribute/src/pipeline.rs:98-184 | In integers, for every state and revision: a hash match exactly if the hash is recorded as spam; a length shrink exactly if it is not, the last good text had more than 1000 characters and the new one has fewer than 1000 and at most three fifths of it, and it is not both minor and commented; too dense exactly if neither and the sentences made anew are; and stored exactly if none of the three |
| Verdicts.CascadeGivesUp | crates/wikiwho-attribute/src/cascade.rs:90-158 | The cascade gives up exactly if, structural tokens left out, the words of the sentences made anew number more than twenty times the distinct ones |
| Verdicts.DensityIs | crates/wikiwho-attribute/src/tokenize.rs:214-235 | The average frequency exceeds the limit exactly if so, the thirteen structural tokens spelled out |
| Verdicts.ShrinksExactly | crates/wikiwho-attribute/src/spam.rs:94-115 | The test over quotients is that test over integers |
| Verdicts.SessionRecords | crates/wikiwho-attribute/src/pipeline.rs:98-184 | After any session each stored revision has the id, editor, time and length of what was delivered for it, so the length that the next verdict compares with is that of the last stored text |
| ArticleClass.Article.StoreRevision | crates/wikiwho-attribute/src/pipeline.rs:156-183 | Records, commits new paragraphs and sentences to the tables, and stores the revision: the whole new state |
| ArticleClass.Article.DetermineAuthorship | crates/wikiwho-attribute/src/cascade.rs:90-158 | The three levels with their early exits compute the cascade of the state before |
| ArticleClass.Article.AnalyseParagraphsInRevision | crates/wikiwho-attribute/src/cascade.rs:161-262 | Matches trimmed non-blank paragraphs against the previous revision and then the table, in order, and lists what stays unmatched on both sides |
| ArticleClass.Article.ScanParagraphBucket | crates/wikiwho-attribute/src/cascade.rs:185-209 | The first candidate none of whose words is matched is taken; one all of whose words are matched is consumed; partly matched and already matched ones are skipped |
| ArticleClass.Article.CheckParagraphWordsStatus | crates/wikiwho-attribute/src/cascade.rs:623-646 | Reports whether some word of the paragraph is matched and whether all are |
| ArticleClass.Article.CheckSentenceWordsStatus | crates/wikiwho-attribute/src/cascade.rs:648-671 | The same for a sentence |
| ArticleClass.Article.RecordFullParagraphMatch | crates/wikiwho-attribute/src/cascade.rs:673-692 | Claims the paragraph, its sentences and all their words |
| ArticleClass.Article.AnalyseSentencesInParagraphs | crates/wikiwho-attribute/src/cascade.rs:273-392 | Fills every unmatched paragraph and collects the previous sentences left over, listing those as matched as well |
| ArticleClass.Article.FindSentence | crates/wikiwho-attribute/src/cascade.rs:299-344 | Searches the unmatched previous paragraphs in order, then the sentence table |
| ArticleClass.Article.PlaceSentence | crates/wikiwho-attribute/src/cascade.rs:287-362 | One sentence: reuse the found one or allocate it, and list it in its paragraph |
| ArticleClass.Article.CollectLeftovers | crates/wikiwho-attribute/src/cascade.rs:365-389 | The leftover sentences, as a walk in document order would list them |
| ArticleClass.Article.AnalyseWordsInSentences | crates/wikiwho-attribute/src/cascade.rs:409-584 | Collects both sides, applies the density gate, diffs and places every word; all new state and results, including the two early exits |
| ArticleClass.Article.PlaceWord | crates/wikiwho-attribute/src/cascade.rs:510-579 | Scans the diff for one word: Delete of an unmatched token marks it deleted in passing, Keep reuses, Insert allocates, a word the diff does not offer is allocated; which tokens that gives is ScanFollows and TokensFollow |
| ArticleClass.Article.CollectPrevWords | crates/wikiwho-attribute/src/cascade.rs:425-435 | The unmatched previous tokens in order with their values |
| ArticleClass.Article.CollectCurrText | crates/wikiwho-attribute/src/cascade.rs:437-449 | The words of the unmatched sentences in order |
| ArticleClass.Article.RecordInboundOutbound | crates/wikiwho-attribute/src/cascade.rs:745-847 | The passes over leftovers, over matched nodes of both revisions and the conditional second pass leave the state the specification gives |
| ArticleClass.Article.UpdateInboundAndLastRevId | crates/wikiwho-attribute/src/cascade.rs:855-883 | A matched token is touched once: inbound grows if its last revision is not the previous one, and its last revision is now this one; all else is unchanged |
| ArticleClass.Article.CommitParagraphs | crates/wikiwho-attribute/src/pipeline.rs:168-172 | Appends each new paragraph to the bucket of its hash |
| ArticleClass.Article.IterRevTokens | crates/wikiwho-attribute/src/structures.rs:285-342 | The token sequence of a revision: its override if it has one, else the words of the ordered walk |
| Myers.MyersDiff | crates/wikiwho-attribute/src/diff.rs:36-98 | For all inputs the search ends within the sum of both lengths without running off its arrays, and the transcript spells both inputs with no more edits than any other that does |
| Myers.SearchLevel | crates/wikiwho-attribute/src/diff.rs:60-93 | One level of the search in place: either the corner is reached or the row holds every furthest point of the level and no level so far has covered both inputs |
| Myers.Backtrack | crates/wikiwho-attribute/src/diff.rs:100-149 | Walking the traces back gives a transcript of both inputs with exactly as many edits as levels |
| Myers.NoneReachesFurther | crates/wikiwho-attribute/src/diff.rs:36-98 | No transcript of prefixes with d edits ends further along its diagonal than the search after d levels, points beyond the grid included |
| Myers.FarIsReached | crates/wikiwho-attribute/src/diff.rs:36-98 | Every furthest point, pulled back onto the grid if it lies beyond it, is reached by a transcript with correspondingly fewer edits |
| Myers.FirstDoneIsCorner | crates/wikiwho-attribute/src/diff.rs:87-89 | The first point found to cover both inputs is the corner itself, never one beyond it |
| Myers.Converges | crates/wikiwho-attribute/src/diff.rs:95-97 | The search is done at the latest after as many levels as both lengths together, so falling out of the loop is impossible |
| Interning.InternBoth | crates/wikiwho-attribute/src/diff.rs:157-173 | Equal strings of both sequences get one id, in order of first appearance |
| Matching.LongestIsOptimal | crates/wikiwho-attribute/src/differ.rs:193-264 | With no popular element, no common block of the window is longer than the one found, and of the longest ones it starts first in a, then first in b |
| Matching.LongestIsMaximal | crates/wikiwho-attribute/src/differ.rs:193-264 | Popular elements or not, the match found is genuine and cannot be extended inside its window on either side |
| SequenceMatcherClass.SequenceMatcher.FindLongestMatch | crates/wikiwho-attribute/src/differ.rs:193-264 | Row maps over the index, then extension on both sides, compute that match and leave the caches coherent |
| SequenceMatcherClass.ScanRow | crates/wikiwho-attribute/src/differ.rs:210-236 | One row: the new map holds every run that ends in the row, and the best match is the first longest so far |
| Decomposition.BlocksDecompose | crates/wikiwho-attribute/src/differ.rs:274-290 | The recursive decomposition lists genuine blocks in order without overlap, and without popular elements the two sides of every gap share no element |
| Decomposition.CollapsedBlocks | crates/wikiwho-attribute/src/differ.rs:292-331 | Joining adjacent blocks keeps this and leaves no two blocks adjacent |
| Decomposition.OpcodesTile | crates/wikiwho-attribute/src/differ.rs:339-381 | Opcodes tile both sequences end to end, do what their tags say and alternate with Equal; without popular elements the sides of a Replace share no element |
| Decomposition.RatioBounds | crates/wikiwho-attribute/src/differ.rs:384-433 | ratio <= quick ratio <= real quick ratio <= 1 for all inputs, the quick ratio counting the multiset intersection |
| Decomposition.TotalWithinIntersection | crates/wikiwho-attribute/src/differ.rs:384-414 | The matched elements of the blocks are at most those of the multiset intersection |
| SequenceMatcherClass.SortedIsBlocks | crates/wikiwho-attribute/src/differ.rs:274-293 | Whatever order a queue finds the blocks in, sorting them gives the recursive decomposition |
| SequenceMatcherClass.SequenceMatcher.Decompose | crates/wikiwho-attribute/src/differ.rs:274-290 | The work queue ends and finds exactly the blocks of the recursive decomposition |
| SequenceMatcherClass.SequenceMatcher.GetMatchingBlocks | crates/wikiwho-attribute/src/differ.rs:269-335 | Cached or not, the blocks of the current pair with the sentinel last |
| SequenceMatcherClass.SequenceMatcher.GetOpcodes | crates/wikiwho-attribute/src/differ.rs:339-381 | Cached or not, the opcodes of the current pair |
| SequenceMatcherClass.SequenceMatcher.GetRatio | crates/wikiwho-attribute/src/differ.rs:384-387 | The ratio of the current pair |
| SequenceMatcherClass.SequenceMatcher.GetQuickRatio | crates/wikiwho-attribute/src/differ.rs:391-414 | Counting down available elements, with the counts of b cached, gives the multiset intersection over both lengths |
| SequenceMatcherClass.SequenceMatcher.SetSeq1 | crates/wikiwho-attribute/src/differ.rs:138-145 | Replaces a; every cache that stays filled is what the new pair determines |
| SequenceMatcherClass.SequenceMatcher.SetSeq2 | crates/wikiwho-attribute/src/differ.rs:148-157 | Replaces b; every cache that stays filled is what the new pair determines |
| SequenceMatcherClass.SequenceMatcher.ChainB | crates/wikiwho-attribute/src/differ.rs:161-184 | The index lists, for each element that is not popular, its positions in b in order |
| SequenceMatcherClass.PopularExactly | crates/wikiwho-attribute/src/differ.rs:161-184 | An element is popular exactly if junk is looked for, b has 200 elements or more, and the places of the element, less one, are more than a hundredth of them |
| DifferSpec.ThreeStages | crates/wikiwho-attribute/src/differ.rs:488-516 | Testing the two upper bounds before the ratio decides as testing the ratio alone does |
| DifferSpec.ColumnsBest | crates/wikiwho-attribute/src/differ.rs:478-516 | The scan in column order finds the first pair above the cutoff with the highest similarity, and the first identical pair |
| DifferSpec.FancySpells | crates/wikiwho-attribute/src/differ.rs:466-563 | The recursive replacement of any two ranges spells both of them |
| DifferSpec.HelperSpells | crates/wikiwho-attribute/src/differ.rs:565-588 | So does its helper, empty sides included; the two terminate on the remaining lengths |
| DifferSpec.CompareSpells | crates/wikiwho-attribute/src/differ.rs:630-677 | For all token lists the whole transcript spells both |
| DifferShape.FancyShape | crates/wikiwho-attribute/src/differ.rs:466-563 | Of any two non-empty ranges, in integers: if some pair of different tokens has three quarters of its characters or more in matching blocks, the transcript deletes and inserts the pair with the highest share, the first of these in column order, with the parts before it and after it spelled around it; else, if some pair is identical, it keeps the first such pair, again with the parts around it; else the shorter side comes first, deletes first on a tie |
| DifferShape.CompareShape | crates/wikiwho-attribute/src/differ.rs:630-677 | Every replaced stretch of the two lists is spelled in that shape where it stands in the whole transcript, and every other opcode as its tag says |
| DifferShape.Respelled | crates/wikiwho-attribute/src/differ.rs:466-563 | The lists color, x and y, colour: y is inserted, color becomes colour, x is deleted |
| DifferShape.PlainSides | crates/wikiwho-attribute/src/differ.rs:591-620 | Without a pair to synchronise on, the shorter side comes first, deletes first on a tie |
| Differ.Differ.FindBest | crates/wikiwho-attribute/src/differ.rs:478-516 | The three-stage scan over one shared matcher finds that pair |
| Differ.Differ.FancyReplace | crates/wikiwho-attribute/src/differ.rs:466-563 | Appends exactly the recursive replacement, which has the shape of FancyShape, the shared matcher kept coherent |
| Differ.Differ.FancyHelper | crates/wikiwho-attribute/src/differ.rs:565-588 | Appends exactly what the helper adds |
| Differ.DifferCompare | crates/wikiwho-attribute/src/differ.rs:630-677 | The differ returns the transcript of CompareShape, which spells both lists |
| TwoEngines.NeverMoreKeeps | crates/wikiwho-attribute/src/differ.rs:630-677 | On the same token lists the differ never keeps more tokens than a shortest transcript |
| DifferKeeps.FancyKeepsNone | crates/wikiwho-attribute/src/differ.rs:466-563 | Where two ranges share no token, the identical-pair branch is not taken at any depth of the recursion, and the replacement keeps nothing |
| DifferKeeps.KeepsAreMatches | crates/wikiwho-attribute/src/differ.rs:630-677 | With no popular token the differ keeps exactly as many tokens as its matching blocks hold |
| Persistence.SaveThenLoad | crates/wikiwho-storage/src/reader.rs:65-215 | Loading what was saved of a savable article, as every reachable one with a page id is, gives back the article itself with every revision's token sequence pinned to its paragraph walk; loading cannot fail |
| Persistence.SavingIsDeterministic | crates/wikiwho-storage/src/writer.rs:95-280 | What is saved is determined by the article, map and set iteration notwithstanding |
| Persistence.SaveAgain | crates/wikiwho-storage/src/writer.rs:95-280 | Saving what was loaded writes the same records |
| Persistence.HeaderCounts | crates/wikiwho-storage/src/writer.rs:256-280 | The counters in a saved header count the revision, token and spam records saved beside it, the next token id is the number of token records, and what it calls processed last is the last revision saved, with its time |
| Resume.ResumeSimulates | crates/wikiwho-storage/src/reader.rs:99-215 | A session that saves and reloads at any points ends where the uninterrupted run over the same revisions ends, up to the pinned sequences |
| Resume.ResumeVisible | crates/wikiwho-storage/src/reader.rs:99-215 | Tokens, hash tables, spam state, revision lists, every token sequence read and the verdict on any next revision are equal to the uninterrupted run's |
| Resume.StepUnsealed | crates/wikiwho-attribute/src/pipeline.rs:98-184 | A step never looks at a pinned sequence: it commutes with dropping them |
| Resume.RestartSeals | crates/wikiwho-storage/src/reader.rs:99-215 | One save and load changes nothing but to pin, and keeps the article savable |
| Resume.StepKept | crates/wikiwho-attribute/src/pipeline.rs:98-184 | Feeding a revision that is not stored keeps what sessions need and the page id, the arena entries of flagged revisions included |
| Resume.BeginKept | crates/wikiwho-server/src/cache_miss.rs:46-66 | A new article, given a page id or not, has what sessions need |
| ArticleStore.WriteArticle | crates/wikiwho-storage/src/writer.rs:54-280 | Writing fails exactly for an article without a page id and otherwise gives the records of its state |
| ArticleStore.OpenArticle | crates/wikiwho-storage/src/reader.rs:65-215 | Opening fails exactly on the first token that refers to a missing string and otherwise gives an object in the state the records describe |
| ArticleStore.Reopen | crates/wikiwho-storage/src/reader.rs:65-215 | Writing a valid article and opening it gives a valid object in the sealed state |
| ArticleStore.ProjectRevisionsOf | crates/wikiwho-storage/src/writer.rs:128-148 | The stored revisions in processing order, each with the token sequence the read path answers |
| ArticleStore.SavedTokensFit | crates/wikiwho-storage/src/writer.rs:95-117 | When the stored revision ids fit a signed word, so does every token record of the article |
| ArticleStore.SavedIdsDistinct | crates/wikiwho-storage/src/writer.rs:128-148 | No two revisions of a saved article share an id |
| Stored.OrderedRoundTrip | crates/wikiwho-storage/src/writer.rs:155-207 | Grouping the stored pairs of an aligned index gives back the bucket map and the order |
| Stored.PairsOfGroup | crates/wikiwho-storage/src/reader.rs:146-163 | Projecting what was grouped gives back the stored pairs, for any pairs at all |
| Stored.ProjectOrdered | crates/wikiwho-storage/src/writer.rs:155-207 | The counter loop yields those pairs |
| Stored.GroupEntries | crates/wikiwho-storage/src/reader.rs:146-163 | The grouping loop yields that map and order |
| Stored.ProjectTokens | crates/wikiwho-storage/src/writer.rs:95-117 | Equal values share a string id, ids follow first appearance, and every field is carried over |
| Stored.InternsUnique | crates/wikiwho-storage/src/writer.rs:95-117 | That description determines the string table and the records |
| Stored.TableRoundTrip | crates/wikiwho-storage/src/writer.rs:229-254 | Loading the sorted buckets of a hash table gives back the table |
| Stored.SortHashes | crates/wikiwho-storage/src/writer.rs:256-280 | A set of hashes is listed in ascending order, each once |
| Codec.VarintRoundTrip | crates/wikiwho-storage/src/codec.rs:17-55 | A varint of a 64-bit word reads back wherever it stands, and reading stops exactly after it |
| Codec.VarintPrefixFree | crates/wikiwho-storage/src/codec.rs:17-55 | No varint is a proper prefix of another |
| Codec.ReadIsWord | crates/wikiwho-storage/src/codec.rs:32-55 | Whatever the bytes, a varint that is accepted is a 64-bit word: bits shifted out of the word are lost |
| VarintForms.OtherFormsExactly | crates/wikiwho-storage/src/codec.rs:32-55 | Of the strings the reader accepts, exactly these are not the ones the writer writes for the value read: several bytes that end in 0, and ten bytes that end in more than 1 |
| VarintForms.ReadShape | crates/wikiwho-storage/src/codec.rs:32-55 | An accepted string is a frame of at most ten bytes whose groups of seven bits make up the value, unless the tenth byte loses bits |
| VarintForms.VarintOfGroups | crates/wikiwho-storage/src/codec.rs:17-55 | A frame that does not end in an empty group is the varint of its groups |
| VarintForms.PaddedZero | crates/wikiwho-storage/src/codec.rs:32-55 | Two bytes that read as 0, which the writer writes as one |
| Codec.WriteVarintU64 | crates/wikiwho-storage/src/codec.rs:17-30 | The loop writes that varint |
| Codec.ReadVarintU64 | crates/wikiwho-storage/src/codec.rs:32-55 | The loop reads as specified, with its two errors |
| Codec.ZigzagBijection | crates/wikiwho-storage/src/codec.rs:57-66 | Zigzag is a bijection between signed and unsigned 64-bit words, both ways round |
| Codec.SignedRoundTrip | crates/wikiwho-storage/src/codec.rs:68-75 | Signed varints read back |
| Codec.BigEndianRoundTrip | crates/wikiwho-storage/src/codec.rs:77-119 | Fixed-width fields read back |
| Layouts.BigEndianDigits | crates/wikiwho-storage/src/codec.rs:77-119 | The most significant byte comes first |
| Layouts.ZigzagValues | crates/wikiwho-storage/src/codec.rs:57-66 | Zigzag numbers the integers 0, -1, 1, -2, 2 and so on |
| Layouts.TokensFileBytes | crates/wikiwho-storage/src/tokens.rs:102-154 | A file of two tokens, byte by byte, with ids that go back and forth |
| Layouts.RevisionsFileBytes | crates/wikiwho-storage/src/revisions.rs:131-211 | A file of two revisions out of order, byte by byte: bodies as processed, rows by id, whatever sort made the table |
| TokensFile.TokensRoundTrip | crates/wikiwho-storage/src/tokens.rs:102-270 | Parsing a written token file gives back every record, chains that go back and forth included |
| TokensFile.WriteTokens | crates/wikiwho-storage/src/tokens.rs:102-154 | Writing fails exactly when there are too many tokens or a revision id does not fit a signed word; otherwise parsing the bytes gives the tokens |
| TokensFile.ParseTokens | crates/wikiwho-storage/src/tokens.rs:157-270 | Trailer, checksum, header, version and records are checked in the original order with the original errors, and a list whose capacity in bytes exceeds the signed word, on which the original stops, is told apart |
| TokensFile.ParseList | crates/wikiwho-storage/src/tokens.rs:234-258 | The loop over one signed delta chain, the capacity of the list checked first |
| RevisionsFile.RevisionsRoundTrip | crates/wikiwho-storage/src/revisions.rs:131-227 | The sequential read of a written revisions file gives back every revision in processing order |
| RevisionsFile.WriteRevisions | crates/wikiwho-storage/src/revisions.rs:131-211 | Writing fails exactly when the count or the data section outgrows 32 bits, or when the build checks for overflow and the start of the table does, which is when the data section exceeds the largest word less 24; otherwise it writes the bodies and a table with one entry for each, sorted by id |
| RevisionsFile.ParseRevisions | crates/wikiwho-storage/src/revisions.rs:216-354 | Header checks and all bodies, in the original order; ranges outside the file and capacities beyond the signed word, on which the original stops, are told apart |
| RevisionsFile.Get | crates/wikiwho-storage/src/revisions.rs:406-426 | On any opened file, sorted or not, binary search answers what its probes determine, and stops exactly if it probes a row outside the file or its row points outside; where rows are in range and sorted it answers nothing exactly if no row has the id, and else what some row with the id points to |
| RevisionsFile.ProbeSound | crates/wikiwho-storage/src/revisions.rs:406-426 | On any file, a row the search finds has the id and lies in the file, and a row it stops at does not |
| RevisionsFile.ProbeComplete | crates/wikiwho-storage/src/revisions.rs:406-426 | Where rows are in range and sorted, the search never stops and misses no row |
| RevisionsFile.Utf8IsCoding | crates/wikiwho-storage/src/revisions.rs:131-354 | UTF-8, decoded strictly, is such a coding of strings as the round trips assume |
| RevisionsFile.GetIsLinearSearch | crates/wikiwho-storage/src/revisions.rs:406-426 | On a written file the lookup never fails, answers nothing exactly if no revision has the id, and with distinct ids agrees with searching the sequential read |
| RevisionsFile.WrittenSorted | crates/wikiwho-storage/src/revisions.rs:180-199 | The rows of a written file are in range and sorted, so lookups apply |
| RevisionsFile.OpenWritten | crates/wikiwho-storage/src/revisions.rs:382-395 | Opening a written file gives an index over its rows |
| RevisionsFile.IterationSorts | crates/wikiwho-storage/src/revisions.rs:448-467 | Reading the rows in turn lists every revision once, in ascending order of id |
| RevisionsFile.RevisionsIndexIter.Next | crates/wikiwho-storage/src/revisions.rs:453-467 | On any opened file each call reads the next row's record, or stops at a row outside the file, until the rows are used up |
| SortedIndexes.RevIdIndex.ReplaceArticle | crates/wikiwho-storage/src/rev_id_index.rs:112-141 | Fails exactly if a revision belongs to another page; otherwise the index is strictly sorted again and stands for the map without the page's old revisions and with its new ones |
| SortedIndexes.RevIdIndex.Lookup | crates/wikiwho-storage/src/rev_id_index.rs:87-92 | Binary search answers as the map |
| SortedIndexes.CollisionShows | crates/wikiwho-storage/src/rev_id_index.rs:117-136 | After sorting, all neighbours with the same revision have the same page exactly if no revision belongs to another page |
| SortedIndexes.GatheredMap | crates/wikiwho-storage/src/rev_id_index.rs:112-141 | Without a clash the gathered entries stand for the updated map |
| SpanInjector.InjectSpansIntoWikitext | crates/wikiwho-server/src/whocolor_wikitext.rs:246-343 | The text returned is that of a tagged text whose tags, erased, leave the restored text, which is the input with line breaks normalised exactly if the input does not contain the placeholder; spans do not nest, all are closed, ids never decrease, each class is its token's, and only tokens that are found have spans. Where no row of the markup table finds anything, each token found has exactly one span, in order. Which are found does not depend on the markup: each is sought from the end of the one found before. The roster lists exactly the editors of the tokens found, each once with its count and the class of its first token, by count and then by first appearance |
| SpanInjector.RestoreRendered | crates/wikiwho-server/src/whocolor_wikitext.rs:317-318 | Restoring placeholders in the whole string is restoring them in the text and, separately, inside each class name: no placeholder ever straddles a tag |
| SpanInjector.OpenTag | crates/wikiwho-server/src/whocolor_wikitext.rs:450-463 | The tag that opens a token's span, character by character around its class and its id |
| SpanInjector.EscapeReads | crates/wikiwho-server/src/whocolor_wikitext.rs:641-651 | An escaped class name ends no attribute and no tag, and reads as the class name |
| SpanInjector.DecimalReads | crates/wikiwho-server/src/whocolor_wikitext.rs:459-459 | An id is written in decimal without leading zeros |
| Roster.TallyCounts | crates/wikiwho-server/src/whocolor_wikitext.rs:345-370 | An editor's entry holds the class of its first found token and how many of the found tokens are its |
| Roster.TallyOrders | crates/wikiwho-server/src/whocolor_wikitext.rs:345-370 | Insertion orders are distinct and follow first appearance among the found tokens |
| Roster.SortRoster | crates/wikiwho-server/src/whocolor_wikitext.rs:319-336 | Whatever order the map yields its editors in, sorting lists each once, by count and then insertion order |
| Roster.RosterIs | crates/wikiwho-server/src/whocolor_wikitext.rs:319-336 | The sorted entries are the roster of the found tokens |
| SpanParser.Parser.ParseWikiText | crates/wikiwho-server/src/whocolor_wikitext.rs:470-562 | Every frame terminates, writes exactly the text it passes, ends outside placeholders despite stale look-ahead, and opens no span unless it is the outermost; the outermost ends at the end of the text with no open span, and without markup has given each found token its span; tokens are consumed with spans, and jumps made with them, exactly in the outermost frame |
| SpanParser.Parser.Descend | crates/wikiwho-server/src/whocolor_wikitext.rs:508-526 | Jumping into a markup uses up one start position and returns outside placeholders; it opens exactly one span, that of the current token, if the outermost frame jumps and the row allows spans, and none otherwise |
| SpanParser.Parser.FindNextSpecialMarkup | crates/wikiwho-server/src/whocolor_wikitext.rs:375-395 | The earliest start not jumped into yet; of equal starts the first row wins |
| SpanParser.Parser.SpecialElemEnd | crates/wikiwho-server/src/whocolor_wikitext.rs:410-448 | Where the element ends: never before the cursor, never inside a placeholder |
| SpanParser.Parser.SetToken | crates/wikiwho-server/src/whocolor_wikitext.rs:345-370 | Moves on to the first token that can be found; the skipped ones cannot |
| SpanParser.Parser.AddSpans | crates/wikiwho-server/src/whocolor_wikitext.rs:450-463 | Closes the open span, opens the current token's span exactly if asked, never inside a placeholder: the whole new output |
| SpanParser.Parser.ConsumeToken | crates/wikiwho-server/src/whocolor_wikitext.rs:544-554 | The outermost frame closes the open span, opens one for the token and writes the text from the cursor to the token's end into it; any other frame writes the text alone. Then it moves on to the next token that can be found |
| SpanParser.BreakRowOk | crates/wikiwho-server/src/whocolor_wikitext.rs:174-181 | The row for line breaks meets what is assumed of the markup table |
| SpanParser.PlainRowOk | crates/wikiwho-server/src/whocolor_wikitext.rs:76-213 | So does every row whose matches do not start with the placeholder's first letter and, where the parser stops at them, end in a character that is in no placeholder |
| MarkupTable.RowsOk | crates/wikiwho-server/src/whocolor_wikitext.rs:76-213 | Every other row of the table is such a row: its regular expressions, as data, match no empty string, and their matches start and end that way |
| MarkupTable.StartsSound | crates/wikiwho-server/src/whocolor_wikitext.rs:76-213 | What an expression says of first characters holds of all that it matches |
| MarkupTable.EndsSound | crates/wikiwho-server/src/whocolor_wikitext.rs:76-213 | The same for last characters |
| MarkupTable.RowIsPlain | crates/wikiwho-server/src/whocolor_wikitext.rs:76-213 | Any search that finds only matches of such a row's expressions makes a plain row |
| MarkupTable.SourceTableOk | crates/wikiwho-server/src/whocolor_wikitext.rs:76-213 | The source's table, searched in any such way, with the row for line breaks meets everything the parser's theorems assume |
| MarkupTable.LiteralRows | crates/wikiwho-server/src/whocolor_wikitext.rs:76-213 | The rows for links, external links, templates and tables start and end with these brackets and nothing else, and the first two alone allow a span in front of them |
| MarkupTable.RunRows | crates/wikiwho-server/src/whocolor_wikitext.rs:76-213 | Bold and italics are two or more apostrophes, a rule four or more dashes |
| MarkupTable.WordsExactly | crates/wikiwho-server/src/whocolor_wikitext.rs:76-213 | A list of alternatives matches just these |
| SpanParser.PlainTableOk | crates/wikiwho-server/src/whocolor_wikitext.rs:76-213 | A table of such rows with the row for line breaks meets everything the parser's theorems assume of it |
| SpanText.RestoreSubstitute | crates/wikiwho-server/src/whocolor_wikitext.rs:295-298 | Restoring what was substituted is line-break normalisation if the text has no placeholder, and otherwise gives a shorter text |
| SpanText.BreaksAreOne | crates/wikiwho-server/src/whocolor_wikitext.rs:295-298 | Whichever of CRLF, LF and CR each line ends with, it becomes one placeholder, and one line feed when normalised |
| SpanText.EraseRestore | crates/wikiwho-server/src/whocolor_wikitext.rs:317-318 | Where no tag stands inside a placeholder, restoring the tagged text and then erasing the tags is erasing first and restoring the text |
| SpanText.RunEndClear | crates/wikiwho-server/src/whocolor_wikitext.rs:174-181 | A run of placeholders ends outside every placeholder |
| CivilDays.FormulaIsNaiveCount | crates/wikiwho-attribute/src/whocolor.rs:267-274 | The formula is the naive count of days since 1 January 1970, for every valid date of every year from 0 on |
| CivilDays.ConsecutiveDays | crates/wikiwho-attribute/src/whocolor.rs:267-274 | Consecutive valid dates are one day apart, in any year |
| CivilDays.DaysMonotone | crates/wikiwho-attribute/src/whocolor.rs:267-274 | Later dates have larger day numbers |
| CivilDays.TimestampOrder | crates/wikiwho-attribute/src/whocolor.rs:232-261 | Among valid timestamps, seconds compare as the timestamps do, and are equal only for equal ones |
| CivilDays.CountsSeconds | crates/wikiwho-attribute/src/whocolor.rs:232-274 | Over valid timestamps the number grows by one from each second to the next, midnight, month ends and leap days included, and is 0 where 1970 starts |
| CivilDays.FieldsRoundTrip | crates/wikiwho-attribute/src/whocolor.rs:232-261 | A timestamp written in the fixed form has the fields it was written from |
| CivilDays.ParseMwTimestamp | crates/wikiwho-attribute/src/whocolor.rs:232-274 | Refuses exactly the texts whose UTF-8 bytes have the wrong shape or a field that is no number; a build with overflow checks stops exactly on day 00 of month 03; otherwise the wrapping arithmetic gives the seconds of the fields |
| CivilDays.UnderflowExactly | crates/wikiwho-attribute/src/whocolor.rs:267-274 | Of all months and days, the unsigned subtraction goes below zero exactly for day 0 of month 3 |
| CivilDays.WrappedIsDays | crates/wikiwho-attribute/src/whocolor.rs:267-274 | Where the unsigned words wrap, they come out as the formula over the integers, for all fields of the digits read |
| CivilDays.MarchZeroStops | crates/wikiwho-attribute/src/whocolor.rs:232-274 | The text 2024-03-00T00:00:00Z passes all checks and stops such a build |
| SseFrames.ChunksDoNotMatter | crates/wikiwho-ingest/src/events.rs:161-187 | Any cutting of decoded text completes the same frames, and leaves the same state, as the whole text at once |
| SseFrames.FramesAreBlocks | crates/wikiwho-ingest/src/events.rs:161-187 | The frames are those of the blocks between blank lines that carry data: their data lines joined, with the block's own last id |
| SseFrames.SseFrameBuffer.FeedChunk | crates/wikiwho-ingest/src/events.rs:161-187 | One chunk: the frames it completes and the state it leaves, with no complete line unread |
| SseFrames.FrameStream | crates/wikiwho-ingest/src/events.rs:209-231 | Over chunks of bytes, each decoded lossily and fed to one buffer, the frames are those of the chunks' decodings joined; of a valid stream whose cuts are all between characters, they are those of the decoded stream |
| SseFrames.SentIsRead | crates/wikiwho-ingest/src/events.rs:161-187 | A stream that a sender writes, an id line if there is one, a line for each piece of data, and a blank line, is read as just those messages |
| SseFrames.SplitJoined | crates/wikiwho-ingest/src/events.rs:169-172 | The data lines of a frame can be told apart again at its newlines |
| Utf8.DecodedByChunks | crates/wikiwho-ingest/src/events.rs:227-230 | Of a valid stream, decoding chunk by chunk is decoding the stream exactly if every cut is between two characters |
| Utf8.ChunksLossy | crates/wikiwho-ingest/src/events.rs:227-230 | Of any bytes, valid or not, it is so exactly if no cut is inside a unit of decoding, and never gives fewer characters |
| Utf8.SpoiledCharacter | crates/wikiwho-ingest/src/events.rs:227-230 | The bytes C3 and A9 as two chunks decode to two replacement characters, as one stream to one letter |
| Utf8.LossySplit | crates/wikiwho-ingest/src/events.rs:227-230 | One cut at the start of a unit changes nothing; one inside a unit gives more characters |
| Utf8.DecodeLossy | crates/wikiwho-ingest/src/events.rs:230-230 | The loop over units of one to four bytes gives the lossy decoding |
| Utf8.EncodeRoundTrip | crates/wikiwho-ingest/src/events.rs:230-230 | Every string is the lossy decoding of its encoding, which is valid |
| Utf8.ValidIsEncoding | crates/wikiwho-ingest/src/events.rs:230-230 | Valid bytes are exactly the encoding of what they decode to |
| Utf8.StrictRoundTrip | crates/wikiwho-storage/src/revisions.rs:356-366 | Strict decoding undoes encoding |

## Left out

- Integer widths in memory: token, sentence and paragraph ids and counters are unbounded here,
  32 bits in the original. The file formats model their widths, and assume a 64-bit word size.
- The editor field is an input; deriving it from a user id and name
  (`crates/wikiwho-attribute/src/pipeline.rs:79-85`) is not modelled, and the counter of all
  sentences and `matched_words_prev`, which no result depends on, are not kept.
- Floating point: ratios, the similarity cutoff, the average word frequency and the length
  change are exact rationals; rounding near a threshold is not modelled.
- The specification functions are total: where an arena index would be out of range they give an
  empty value. The methods are proved for states in which that does not happen, which are all
  that any feed leads to (`StepShaped`).
- Lowercasing, trimming, the splitters and MD5 are given functions. Text fidelity is about the
  split of trimmed paragraphs, as the cascade splits them, not about splitting a whole revision
  at once.
- Ingest.ApplyEvent: the saved article is given, and the batches are what fetching delivered.
  Requests, their paging and errors, and errors of the disk are left out, as are the callers'
  checkpoints. A file that loads with indexes out of range, which no saved article has and on
  which the original panics as soon as it meets one, is excluded.
- Ingest.AppliedIsReachable: deliveries with distinct ids are assumed; a service that delivers a
  revision twice in one window is not covered.
- Persistence.SaveThenLoad: is about the stored records; files, zstd, JSON, the language and
  schema fields, `rvcontinue` and the per-article directory are left out.
- The comment on the row for horizontal rules (`crates/wikiwho-server/src/whocolor_wikitext.rs:156-158`)
  speaks of five literal dashes; its expression, and the model, take four or more.
- The byte formats of `strings.bin`, `paragraphs.bin`, `sentences.bin`, `hashtables.bin` and of
  the revision index file follow the same two patterns as the two formats modelled.
- RevisionsFile.Get: where the original panics, on a row or body outside the file, the model
  answers `OutOfRange`.
- RevisionsFile.WriteRevisions: a build with overflow checks is `checked`, and `Overflow` stands
  for its panic, which `Stops` gives exactly; any other build wraps the sum.
- TokensFile.ParseTokens: `OutOfRange` stands for the panic on a list of more than 2^63 - 1 bytes
  of capacity. When the memory for a smaller list runs out, the original aborts as it reserves
  room for the declared count (`crates/wikiwho-storage/src/tokens.rs:199`), whereas the model goes
  on reading and answers `UnexpectedEof` at the latest at the end of the file; how much memory
  there is is not modelled. A previous id plus a delta is unbounded before the range check: where
  the original's signed 64-bit sum would overflow, which is exactly when the delta exceeds
  2^63 - 1 less the previous id, a build with overflow checks panics on string ids, and otherwise
  original and model both report a malformed file. The comment on the layout in
  `crates/wikiwho-storage/src/tokens.rs` says version 1; the code writes version 2, and so does
  the model. The same holds for the revisions file.
- TokensFile.ParseList: the same of running out of memory for the declared count of one list
  (`crates/wikiwho-storage/src/tokens.rs:235` and `:248`).
- RevisionsFile.ParseRevisions: the same of running out of memory for the counts of revisions,
  tokens and paragraphs (`crates/wikiwho-storage/src/revisions.rs:222`, `:309`, `:325`), and of
  sums of token or paragraph ids that overflow a signed word.
- SortedIndexes.RevIdIndex.ReplaceArticle: after a refusal nothing is said of the entries; the
  callers discard them. Loading, saving and concurrent writers of the index file are left out.
- SpanInjector.InjectSpansIntoWikitext: positions are characters, not bytes. Each search for
  markup is a given function; `MarkupTable` needs of it only that what it finds matches the
  row's expression, not that it finds the leftmost or longest match. The row for line breaks is
  given directly. The case-insensitive search for tokens is a given function that finds an end
  after the cursor or nothing. With markup, which tokens have spans is stated of each step of
  the parser and not of the whole text, since the parser is documented to bleed at templates.
- CivilDays.ParseMwTimestamp: fields are not range-checked, as in the original. The order of
  timestamps is stated for valid ones. `Stopped` stands for the panic of a build with overflow
  checks.
- SseFrames.FrameStream: the comment in `crates/wikiwho-ingest/src/events.rs:227-229` says that
  a cut inside a character is decoded cleanly; the code spoils that character, and the frames
  are those of the spoiled text. Reconnecting, event parsing and filtering are left out, and no
  conformance to the HTML standard is claimed.
- Equality of the list of spam ids when the same spam revision is fetched twice, conflict scores
  and the colouring data, the HTML injector, HTTP handlers, checkpoints and tools.
