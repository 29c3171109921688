# Literature-review pipeline core, modelled in Dafny

This project models, in Dafny, the core of a literature-review back end (a Python service with an older `app/` copy of several modules). A job moves through a pipeline of stages, each of which reads the job's status, does its work and writes the next status:

- **Input**: user text is classified (research seed, evidence input, conversation; or content, intent, greeting, mixed) and handed to the handler registered for its label; a research seed becomes a first search query.
- **Fetching**: hypotheses are turned into search queries with a life cycle (new, then done), the best leads are selected, papers are fetched through the domain's provider, deduplicated (DOI, external ids, content fingerprint) and persisted, and every run is recorded.
- **Ingestion**: each unprocessed source is routed to an adapter (layout-aware PDF or plain text), normalized, segmented into numbered text blocks, refined and sliced.
- **Graphs**: triples extracted from the blocks are projected into a structural graph, sanitized of noise nodes, merged semantically (fully or incrementally), aggregated into an evidence graph weighted by support, and stored with versions.
- **Reasoning and decisions**: path reasoning turns A -> B -> C chains into hypotheses, five rules filter them, measurements and indirect-path metrics summarise each cycle, a rule-based or model-backed provider picks one of eight decisions, its handler updates the job, and signals score each search-query run.
- **Orchestration and presentation**: chained stage tasks and the app's worker loop drive the job's status machine, and the presentation worker narrates pipeline events.

Pure logic is modelled as datatypes, functions and lemmas; objects and tables the source updates in place are classes whose methods are proved against specification functions. Language models, embeddings, regular-expression libraries, the network, the clock and the database engine are parameters of the model or left out, as listed below. Where the code and its documentation disagree, the model follows the code: backend/app/decision/handlers/strategic_download.py and fetch_more_literature.py promise a NO_HYPOTHESIS status at the paper limit, and fetch_more_literature.py an enqueued background task, but both set COMPLETED and enqueue nothing (`StrategicDownload.NextStatusSpec`, `FetchMoreLiterature.NextStatus`). Thirteen places where the code evidently does not do what its authors intended are listed under "## Findings"; the rest of the model uses the corrected behaviour, and each as-written behaviour has its own member.

## Model

| member | source | states |
|---|---|---|
| Slicing.SliceText | backend/app/ingestion/slicing/service.py:21-65 | blank text gives no block; otherwise the blocks are the greedy sentence groups of the stripped text, each joined with single spaces (the unreachable no-sentence branch gives the stripped text) |
| Slicing.SliceSpec | backend/app/ingestion/slicing/service.py:30-62 | every block is non-empty and trimmed, holds at most max(1, sentences_per_block) sentences, each sentence joined a block only when the count and token estimate allowed it, each block was closed only because the next sentence could not join it, and the blocks joined with spaces are the sentences joined with spaces |
| Slicing.GroupsFromFlatten | backend/app/ingestion/slicing/service.py:44-62 | the groups, flattened, are exactly the sentences in order: none split, dropped or reordered |
| Slicing.GroupsFromPacked | backend/app/ingestion/slicing/service.py:49-58 | every group is one the count/token rule allowed to grow, and every group but the last was closed by that rule |
| Slicing.PackedSize | backend/app/ingestion/slicing/service.py:49-51 | a block holds at most max(1, sentences_per_block) sentences |
| Refinery.RFind | backend/app/ingestion/refinery/service.py:65-71 | `rfind(sub, 0, end)`: the last occurrence ending by `end`, or -1 exactly when there is none |
| Refinery.SplitIndex | backend/app/ingestion/refinery/service.py:64-75 | the cut is the last "\n\n" that fits, else the last "\n", else the last " ", else max_chars; it is never past max_chars |
| Refinery.SplitIntoSpans | backend/app/ingestion/refinery/service.py:56-83 | the loop computes the recursive span definition |
| Refinery.SpansSpec | backend/app/ingestion/refinery/service.py:56-83 | a text of at most max_chars is the single span; every span is at most max_chars long; the spans hold the text's non-whitespace characters in order |
| Refinery.SpansFromSpec | backend/app/ingestion/refinery/service.py:63-81 | each cut keeps span length within max_chars and loses only whitespace |
| Refinery.SplitShrinks | backend/app/ingestion/refinery/service.py:63-78 | with max_chars >= 1 every turn of the loop shortens what remains (termination) |
| Refinery.ZeroWidthStalls | backend/app/ingestion/refinery/service.py:63-78 | as written, with max_chars = 0 every turn on a stripped non-empty remainder cuts at 0, appends an empty span and leaves the remainder unchanged, so the loop never ends |
| Refinery.RefineText | backend/app/ingestion/refinery/service.py:26-54 | blank input gives ""; otherwise the non-empty refined spans joined with "\n", or the first span refinement's exception |
| Refinery.RefineAllSpec | backend/app/ingestion/refinery/service.py:48-54 | the join succeeds iff every span refinement does, and then keeps exactly the non-empty refinements |
| Lexical.Tokens | backend/app/ingestion/lexical.py:54 | `findall(\S+)`: non-empty tokens without whitespace |
| Lexical.TokensConcat | backend/app/ingestion/lexical.py:54 | the tokens together are the text's non-whitespace characters |
| Lexical.LexicalRepair | backend/app/ingestion/lexical.py:36-86 | empty input, no wordfreq or no token gives the input back; otherwise the left-to-right greedy merge joined with single spaces |
| Lexical.RepairFromSpec | backend/app/ingestion/lexical.py:62-82 | the output tokens concatenate to the input tokens, and #out <= #in <= 2 #out |
| Lexical.RepairSpec | backend/app/ingestion/lexical.py:56-86 | the repaired words together are the input's non-whitespace characters |
| IngestNormalizer.ReplaceCharGone | backend/app/ingestion/normalizer.py:34-38 | replacing a character by a string without it leaves none of it |
| IngestNormalizer.SplitOn | backend/app/ingestion/normalizer.py:51 | `split('\n')` gives at least one piece and no piece holds the separator |
| IngestNormalizer.SplitOnJoin | backend/app/ingestion/normalizer.py:51 | joining the pieces with the separator gives the text back |
| IngestNormalizer.FixEncoding | backend/app/ingestion/normalizer.py:24-40 | after the replacements as written, no em dash or en dash is left |
| IngestNormalizer.PiecesSpec | backend/app/ingestion/normalizer.py:90-94 | the URL scan gives the text back piece by piece, and every reported URL is a pattern match without whitespace |
| IngestNormalizer.CollapseNoDouble | backend/app/ingestion/normalizer.py:58 | `re.sub(' +', ' ')` leaves no two adjacent spaces |
| IngestNormalizer.CollapseNoNewline | backend/app/ingestion/normalizer.py:58 | collapsing spaces adds no line break |
| IngestNormalizer.CollapseNonSpace | backend/app/ingestion/normalizer.py:58 | collapsing spaces keeps every non-whitespace character in order |
| IngestNormalizer.NormalizeWhitespaceShape | backend/app/ingestion/normalizer.py:43-60 | the result has no line break and no double space |
| IngestNormalizer.NormalizeWhitespaceKeeps | backend/app/ingestion/normalizer.py:43-60 | the result keeps every non-whitespace character of the text, in order |
| IngestNormalizer.StrippedLinesNoNewline | backend/app/ingestion/normalizer.py:51-54 | the stripped non-empty lines hold no line break |
| IngestNormalizer.StrippedLinesNonSpace | backend/app/ingestion/normalizer.py:51-54 | stripping and dropping empty lines loses only whitespace |
| IngestNormalizer.SpaceAfterStopsKeeps | backend/app/ingestion/normalizer.py:76-78 | the fallback `([.!?])\s+ -> \1 ` changes whitespace only |
| IngestNormalizer.LongSentences | backend/app/ingestion/normalizer.py:73 | every kept sentence is stripped and longer than 5 characters, and none is added |
| IngestNormalizer.LexicalOnlyWhenRequested | backend/app/ingestion/normalizer.py:131-151 | unless `apply_lexical_repair` is explicitly true, the lexical repair has no effect on the result |
| IngestNormalizer.NormalizeUrls | backend/app/ingestion/normalizer.py:136-142 | no URL is returned when extraction is off, and every returned URL is a pattern match without whitespace |
| IngestNormalizer.NormalizeOneLine | backend/app/ingestion/normalizer.py:153-159 | with whitespace fixing and no sentence fixing the result is one stripped line without double spaces |
| IngestNormalizer.StripShape | backend/app/ingestion/normalizer.py:159 | stripping a text without line breaks or double spaces gives one stripped line without double spaces |
| IngestNormalizer.GetNormalizationConfig | backend/app/ingestion/normalizer.py:161-180 | the flags are echoed and the tokenizer and Unicode form are fixed to "punkt" and "NFC" |
| TextAggregation.Render | app/ingestion/aggregator.py:30-35 | every part, user query or headed source text, is non-empty and starts with `[` |
| TextAggregation.Aggregate | app/ingestion/aggregator.py:11-39 | the result is the parts, user query first when present, joined by "\n\n---\n\n" |
| TextAggregation.AppendSourceParts | app/ingestion/aggregator.py:32-35 | the loop appends one headed, stripped part per non-blank extracted text, in input order |
| TextAggregation.SourcePartsAppend | app/ingestion/aggregator.py:32-35 | the parts of two runs of texts are the parts of the first followed by those of the second: input order is kept |
| TextAggregation.SourcePartsCount | app/ingestion/aggregator.py:32-35 | one part per non-blank text; every non-blank text has its part and every part comes from a non-blank text |
| TextAggregation.AggregateEmpty | app/ingestion/aggregator.py:27-37 | the result is "" exactly when the user text and all extracted texts are blank |
| TextAggregation.PartsShape | app/ingestion/aggregator.py:29-35 | the user query part, stripped under "[USER QUERY]", comes first exactly when the user text is not blank, and the source parts follow |
| TextAggregation.AggregateWithMetadata | app/ingestion/aggregator.py:41-65 | the aggregate, with has_user_text, source_count = number of tuples (blanks included), the type/ref list in order and canonical_text_length = length of the aggregate |
| IngestionService.SegmentText | backend/app/ingestion/service.py:198-240 | as corrected (the code as written is SegmentTextAsWritten): fails exactly for an unknown strategy (ValueError) or a sentences-per-block of 0; a negative one gives no block; "sections" gives one string block per section |
| IngestionService.BlocksFor | backend/app/ingestion/service.py:153-165 | one row per segment, in order, numbered from 1, typed "text_block", not yet extracted |
| IngestionService.IngestJob | backend/app/ingestion/service.py:42-196 | as corrected (the loop as written is AsWrittenStuck, the ignored job settings EffectiveAsWrittenIgnoresSettings): a missing job or a status other than READY_TO_INGEST fails before any change; otherwise the sources, blocks and counts of one pass over the pending sources |
| IngestionService.ProcessPending | backend/app/ingestion/service.py:106-184 | as corrected (as written a failing source is retried forever, see AsWrittenStuck): every pending source is attempted once, oldest first; a success adds its blocks and marks it processed, a failure changes nothing; sources_processed and blocks_created count those |
| IngestionService.LoopStep | backend/app/ingestion/service.py:153-170 | one more source adds exactly its own blocks and at most one success |
| IngestionService.AfterAllSpec | backend/app/ingestion/service.py:166-184 | a source ends processed iff it was, or was pending and succeeded; nothing else about it changes |
| IngestionService.NewBlocksSpec | backend/app/ingestion/service.py:153-164 | blocks_created is the total number of segments of the successful sources, and every new row belongs to the job and is numbered from 1 |
| IngestionService.RetryAddsNothing | backend/app/ingestion/service.py:106-184 | a second pass right after a first changes nothing and adds nothing: the pass is idempotent |
| IngestionService.FirstPending | backend/app/ingestion/service.py:109-117 | the query returns the first unprocessed source of the job in creation order, or nothing exactly when there is none |
| IngestionService.AsWrittenStuck | backend/app/ingestion/service.py:107-184 | as written, a failing first pending source is rolled back and re-selected: every number of turns leaves the sources unchanged and the loop never breaks |
| IngestionService.UnknownStrategyNeverEnds | backend/app/ingestion/service.py:177-240 | as written, an unknown strategy with any pending source keeps the loop turning forever |
| IngestionService.AsWrittenAgreesOnSuccess | backend/app/ingestion/service.py:109-170 | on a succeeding source a turn as written marks it exactly as the modelled pass does |
| IngestionService.EffectiveAsWrittenIgnoresSettings | backend/app/ingestion/service.py:71-101 | as written, configured sentences_per_block and enable_lexical_repair are never used; the intended arguments use them |
| IngestionService.EffectiveAgrees | backend/app/ingestion/service.py:71-101 | passed arguments always win, and without configured settings the intended arguments behave exactly as those written |
| QueryOrchestrator.Signature | backend/app/fetching/query_orchestrator.py:51-73 | the signature is a prefix of the digest of the lowercased "source→target" text, at most signature_length characters long |
| QueryOrchestrator.SignatureIgnoresCase | backend/app/fetching/query_orchestrator.py:63-64 | hypotheses whose end points differ only in letter case get the same signature |
| QueryOrchestrator.QueryTextSpec | backend/app/fetching/query_orchestrator.py:115-125 | without focus areas the text is the caller's or "relationship between S and T"; with them it is parenthesised and contains the base text and every focus area |
| QueryOrchestrator.Find | backend/app/fetching/query_orchestrator.py:106-109 | the first row with the job and signature, or none exactly when no row has them |
| QueryOrchestrator.FindAppended | backend/app/fetching/query_orchestrator.py:106-147 | once a query has been created, a later lookup with the same job and signature returns it |
| QueryOrchestrator.ShouldRun | backend/app/fetching/query_orchestrator.py:164-186 | a query runs if and only if its status is "new"; otherwise the reason says it was already executed |
| QueryOrchestrator.QueryStore.GetOrCreate | backend/app/fetching/query_orchestrator.py:76-147 | an existing query of the job with the same signature is returned and the table is unchanged; otherwise one new row with status "new", the initial reputation and the hypothesis's domain is appended and returned |
| QueryOrchestrator.QueryStore.MarkDone | backend/app/fetching/query_orchestrator.py:257-275 | only the status of that row changes, to "done", after which it no longer runs; marking a done query again changes nothing |
| QueryOrchestrator.QueryStore.CreateVerification | backend/app/fetching/query_orchestrator.py:331-427 | the rows appended are exactly the planned verification queries, each strategy seeing the rows added before it |
| QueryOrchestrator.StepFor | backend/app/fetching/query_orchestrator.py:363-427 | a strategy adds nothing if and only if its entity-list hash is already used by the job, and otherwise exactly its "new" row |
| QueryOrchestrator.VerificationInOrder | backend/app/fetching/query_orchestrator.py:358-427 | the created queries follow the order [source, target], [source], [target], with some skipped |
| QueryOrchestrator.VerificationIdempotent | backend/app/fetching/query_orchestrator.py:304-427 | creating the verification queries again right after creates none |
| QueryOrchestrator.VerificationFresh | backend/app/fetching/query_orchestrator.py:358-427 | a job that has searched none of the three entity lists gets all three queries |
| BackendFetching.FetchService.constructor | backend/app/fetching/service.py:44-73 | the providers are exactly the active policy entries whose class is registered and whose construction does not raise |
| BackendFetching.DomainOf | backend/app/fetching/service.py:155 | a query without a resolved domain (None or empty) is routed by "default", otherwise by its own domain |
| BackendFetching.ProviderOrder | backend/app/fetching/service.py:157-160 | the domain's provider order when it has a non-empty one, otherwise the default order, otherwise none |
| BackendFetching.Scan | backend/app/fetching/service.py:162-188 | the first available provider in order that returns papers wins, with its name, and one always wins when any would; otherwise the errors met are raised, and with no errors the result is empty with provider "none" |
| BackendFetching.ErrorHasProvider | backend/app/fetching/service.py:177-186 | an error is raised only after some available provider was tried, so the "no active providers" error cannot be reached |
| BackendFetching.FetchService.FetchForHypothesis | backend/app/fetching/service.py:153-188 | the provider loop with its error list computes exactly the routing above |
| BackendFetching.DedupAccounting | backend/app/fetching/service.py:190-211 | every candidate is accepted, rejected or dropped exactly once (dropped: failed persist, or duplicate without a matched id), and the accepted ids are the persisted papers' ids |
| BackendFetching.DeduplicateAndPersist | backend/app/fetching/service.py:190-211 | the persisted papers, accepted ids and rejected matched ids, in candidate order |
| BackendFetching.FreshSpec | backend/app/fetching/service.py:127-132 | a run's fetched ids are distinct, none was seen by the job before, and all come from the accepted and rejected ids |
| BackendFetching.FreshCovers | backend/app/fetching/service.py:127-132 | every accepted or rejected id was either seen before or is fetched by this run |
| BackendFetching.MarkSeen | backend/app/fetching/service.py:127-132 | the run's fetched ids are the fresh ones, and the seen set grows by exactly the ids of the run |
| BackendFetching.PaperRefInjective | backend/app/fetching/service.py:220 | different papers get different source references "paper:{id}" |
| BackendFetching.SourceFor | backend/app/fetching/service.py:215-234 | a paper adds no source exactly when it has no abstract or the job already has its source |
| BackendFetching.NewSourcesSpec | backend/app/fetching/service.py:213-235 | afterwards every paper with an abstract has a source for the job, and no job ever holds two sources with one reference |
| BackendFetching.Ledger.CreateSources | backend/app/fetching/service.py:213-235 | appends exactly the sources the papers add, each seeing the ones added before it |
| BackendFetching.Ledger.RecordRun | backend/app/fetching/service.py:134-145 | appends the run and changes nothing else |
| BackendFetching.RecordRunCallRejected | backend/app/fetching/service.py:135-145 | the call passes fetched_paper_ids, accepted_paper_ids and rejected_paper_ids, which record_search_run does not accept |
| BackendFetching.FetchService.ProcessHypothesisAsWritten | backend/app/fetching/service.py:107-151 | as written, a hypothesis never leads to a recorded run or an ingestion source, though its ids are marked seen |
| BackendFetching.FetchService.ProcessHypothesis | backend/app/fetching/service.py:107-151 | as corrected (as written the run call raises, see ProcessHypothesisAsWritten and RecordRunCallRejected): the query rows, runs, sources and seen set are exactly those of HypothesisStep; a skipped query or a failed or empty fetch writes no run; a recorded run's fetched ids are the fresh ones and seen grows by the run's ids |
| BackendFetching.FetchService.StepFor | backend/app/fetching/service.py:110-131 | the step of one hypothesis equals HypothesisStep: a query that is not due, a failed fetch or an empty fetch gives no run and leaves seen unchanged; otherwise one run with the provider, the reason and the deduplicated ids, the persisted papers, and seen grown by the marked ids |
| BackendFetching.AddRun | backend/app/fetching/service.py:127-132 | a run fetched against everything seen so far keeps all runs' fetched ids pairwise disjoint and unseen before the stage |
| BackendFetching.FetchService.ExecuteFetchStage | backend/app/fetching/service.py:85-151 | as corrected: the query rows, sources and runs are exactly StageFold's over the targets in order; runs and sources are only appended, and the runs of one stage fetched pairwise disjoint id sets, none fetched by the job before |
| FetchProviders.GetProvider | app/fetching/providers/__init__.py:18-45 | a provider is found exactly when the lowercased name is registered, and it is the provider of that name |
| FetchProviders.GetProviderByName | app/fetching/providers/__init__.py:32-42 | every provider is found under its own name in any letter case |
| FetchProviders.GetProviderIgnoresCase | app/fetching/providers/__init__.py:39-42 | lookup gives the same answer for a name and its lowercase form |
| FetchProviders.Preferred | app/fetching/providers/__init__.py:66-78 | a domain has a preferred provider exactly when it is present, non-empty and mapped, and that provider is registered |
| FetchProviders.PreferredIsLower | app/fetching/providers/__init__.py:66-78 | the preferred names are lowercase registry keys as they stand |
| FetchProviders.SelectProviderSpec | app/fetching/providers/__init__.py:48-92 | the preferred provider is chosen when enabled; otherwise the first enabled name, also with no domain; nothing enabled gives none; a chosen provider was enabled under its name |
| AppFetching.PassedPicks | app/fetching/service.py:89-100 | the candidates are passed hypotheses of the input, each paired with its own query, no more than the input |
| AppFetching.RankKeyOrder | app/fetching/service.py:102-108 | the numeric key orders by reputation descending and puts new queries first among equals, as the tuple key does |
| AppFetching.CollectPicks | app/fetching/service.py:89-100 | the loop builds exactly the passed candidates in input order |
| AppFetching.SelectTop | app/fetching/service.py:71-114 | the selection is the first top-K of the candidates sorted best first |
| AppFetching.PyPrefixWithin | app/fetching/service.py:111 | a slice keeps only elements of the list, no more often than they occur |
| AppFetching.InPassedPicks | app/fetching/service.py:89-100 | every candidate is a passed hypothesis with its own query |
| AppFetching.SelectTopSpec | app/fetching/service.py:71-114 | only passed hypotheses are selected, best first, at most top-K and exactly that many when enough passed |
| AppFetching.FetchPapers | app/fetching/service.py:116-168 | a query not due or a domain with no provider gives no candidates and provider "none"; candidates come only from the selected provider's successful fetch of the query text |
| AppFetching.DeduplicateAndPersist | app/fetching/service.py:170-215 | the persisted papers are those the judgement persists, and accepted plus rejected equals the number of candidates, failures counting as rejected |
| AppFetching.AbstractSourcesSpec | app/fetching/service.py:217-256 | exactly one unprocessed source per paper with an abstract, with reference "paper:{id}" and the abstract as text |
| AppFetching.IngestAbstracts | app/fetching/service.py:217-256 | the loop creates exactly the abstract sources, in paper order |
| AppFetching.OrchestratorFirstAttemptsOnly | backend/app/fetching/query_orchestrator.py:182-186 | the query orchestrator lets only new queries run |
| AppFetching.ProcessPick | app/fetching/service.py:324-356 | one pick adds exactly its contribution: the fetched, accepted and rejected counts, the run and the abstract sources that the pick's query, provider, fetch and dedup judgement determine |
| AppFetching.ExecuteFetchMore | app/fetching/service.py:260-373 | the summary is that of the top-K passed picks, best first: the all-zero summary when none is selected, otherwise one executed query per pick and the sum of every pick's contribution, in pick order |
| DomainResolver.GetHypothesisKeywords | app/domains/resolver.py:54-74 | the keywords built by appends are exactly source, target, path nodes and the first 20 explanation words, lowercased, in that order |
| DomainResolver.AppendLowered | app/domains/resolver.py:65-67 | the path loop appends every node lowercased, in order |
| DomainResolver.KeywordsCount | app/domains/resolver.py:54-74 | one keyword per present source, target and path node plus at most 20 explanation words; none exactly when nothing is present |
| DomainResolver.KeywordsLower | app/domains/resolver.py:54-74 | every keyword is in lower case |
| DomainResolver.ExplanationWordLower | app/domains/resolver.py:71-72 | the words split from a lowercased explanation are lowercase |
| DomainResolver.ScoreSpec | app/domains/resolver.py:93-117 | a score lies in [0, 1], is 0 with no keywords on either side, is otherwise the fraction of matching pairs (the 1.0 cap never binds), and is 1.0 exactly when every pair matches |
| DomainResolver.ScoreDomainMatch | app/domains/resolver.py:77-117 | the scores dict has exactly the labels as keys, each with its domain's score |
| DomainResolver.Best | app/domains/resolver.py:149-150 | the best label has the highest score and is the first label with it |
| DomainResolver.DeterministicDomainResolution | app/domains/resolver.py:120-159 | the step-by-step resolution equals the specification `Deterministic` |
| DomainResolver.DeterministicSpec | app/domains/resolver.py:137-159 | no keywords or labels gives (None, 0.0); otherwise the confidence is the highest score, and a domain, the first label with it, is named exactly when it reaches the threshold |
| DomainResolver.NoKeywordListsNeverDeterministic | app/domains/resolver.py:40-46 | with no domain keyword lists, as by default, deterministic resolution never names a domain |
| DomainResolver.FirstContained | app/domains/resolver.py:224-227 | the first label whose lowercase form occurs in the reply, none before it occurring |
| DomainResolver.LlmResolutionSpec | app/domains/resolver.py:181-234 | no client or a failure gives (None, 0.0); a domain is named exactly when some label occurs in the reply, the first such, with the LLM confidence |
| DomainResolver.ResolveSpec | app/domains/resolver.py:262-271 | a truthy deterministic domain is returned whatever the model would reply; otherwise the model's answer is returned; any named domain is a configured label |
| BackendClassifier.ParseLabel | backend/app/input/classifier.py:203-207 | a label is found exactly when the name is one of the three label values |
| BackendClassifier.Last100 | backend/app/input/classifier.py:91 | `text[-100:]` is the last min(100, length) characters |
| BackendClassifier.WrapLargeTextSpec | backend/app/input/classifier.py:77-101 | a text within the threshold is sent as it is; a longer one becomes the wrapper around its snippet prefix and, only when more than 100 characters longer than the snippet, its last 100; the wrapper's size is bounded by the snippet length plus 185 and the digits of the length |
| BackendClassifier.ExtractJsonSpec | backend/app/input/classifier.py:103-129 | the extracted JSON is a contiguous piece of the stripped reply: fenced content when non-empty, else the span from the first "{" to the last "}", else the whole stripped reply |
| BackendClassifier.KeyStep | backend/app/input/classifier.py:144 | one step of the key-quoting scan consumes at least one character |
| BackendClassifier.QuotedKeyUnquoted | backend/app/input/classifier.py:144 | the replacement differs from the matched text only by the two double quotes |
| BackendClassifier.KeyStepUnquoted | backend/app/input/classifier.py:144 | each scan step writes what it consumed, up to double quotes |
| BackendClassifier.QuoteKeysOnlyQuotes | backend/app/input/classifier.py:144 | quoting keys only inserts double quotes |
| BackendClassifier.QuoteKeysNoColon | backend/app/input/classifier.py:144 | a text without a colon is left unchanged |
| BackendClassifier.CommaStep | backend/app/input/classifier.py:147 | one step of the comma scan consumes at least one character and writes no more than it consumes |
| BackendClassifier.CommaStepSkeleton | backend/app/input/classifier.py:147 | each scan step writes what it consumed, up to commas and whitespace |
| BackendClassifier.DropTrailingCommasSkeleton | backend/app/input/classifier.py:147 | dropping trailing commas only removes commas and whitespace and never lengthens the text |
| BackendClassifier.DropTrailingCommasNoComma | backend/app/input/classifier.py:147 | a text without commas is left unchanged |
| BackendClassifier.RepairJsonSpec | backend/app/input/classifier.py:131-149 | an empty text is returned as it is; otherwise the repaired text equals the possibly braced input apart from double quotes, commas and whitespace |
| BackendClassifier.RestoreRawText | backend/app/input/classifier.py:197-200 | the payload's raw_text is kept only when present, not null and at least as long as the message, else replaced by the message; other keys are untouched |
| BackendClassifier.Interpret | backend/app/input/classifier.py:194-207 | a successful reading carries a non-null raw_text at least as long as the message |
| BackendClassifier.InterpretSpec | backend/app/input/classifier.py:194-207 | a missing label means CONVERSATIONAL; a string label is upper-cased and must name a label exactly; non-string labels, non-object payloads and non-object replies fail |
| BackendClassifier.LlmStage | backend/app/input/classifier.py:163-212 | a successful model stage carries a non-null raw_text at least as long as the message |
| BackendClassifier.ClassifySpec | backend/app/input/classifier.py:151-226 | blank input gets the fallback; every result keeps a raw_text at least as long as the message; the handler runs exactly when a job id and session are given and the model answered; a non-CONVERSATIONAL label comes from the model |
| AppInputClassifier.GetContentText | app/input/classifier.py:62-75 | text is handed out only for MIXED, as its content portion or ""; CONTENT and the other labels give "" |
| AppInputClassifier.ContentAccessorsSpec | app/input/classifier.py:58-75 | content is available iff the label is CONTENT or MIXED; pure content hands out no text; the handed-out text is non-empty iff the input is MIXED with a non-empty content portion |
| AppInputClassifier.ExtractIntent | app/input/classifier.py:198-224 | the label is always INTENT; an intent text exists iff a pattern matched the lowercased text, with confidence 0.85, else 0.0 |
| AppInputClassifier.SentenceCountSpec | app/input/classifier.py:244-246 | splitting on runs of `.`, `!`, `?` gives at least two pieces iff the text holds one of them |
| AppInputClassifier.AcademicScore | app/input/classifier.py:248-259 | the academic score counts the three patterns and is at most 3 |
| AppInputClassifier.ExtractContentSpec | app/input/classifier.py:240-273 | under 50 stripped characters gives (None, 0.0); no terminator gives (None, 0.3); otherwise the whole text with confidence in [0.5, 1], at least 0.6 above 200 characters; every confidence is in [0, 1] |
| AppInputClassifier.ClassifyDeterministicSpec | app/input/classifier.py:139-183 | GREETING iff the greeting check holds, checked first, at 0.95; intent and content give MIXED at the smaller confidence with both portions; intent alone gives INTENT at 0.85; content alone gives CONTENT at its confidence; neither gives CONTENT at 0.5; confidence always in [0, 1] |
| AppInputClassifier.PyInt | app/input/classifier.py:321-323 | a string of digits parses to its decimal value; signs and single underscores between digits are accepted, anything else is not an integer |
| AppInputClassifier.PyIntOfString | app/input/classifier.py:321 | a rendered natural number, with or without a minus sign, parses back to itself |
| AppInputClassifier.KindOfSpec | app/input/classifier.py:316-327 | a line takes the branch of key k iff it starts with k: no line starts with two keys |
| AppInputClassifier.NonEmpty | app/input/classifier.py:325-327 | an empty portion becomes None and a kept portion is never empty |
| AppInputClassifier.LastOf | app/input/classifier.py:316-327 | the surviving line of a kind is a line of the reply of that kind, and there is none iff no line has that kind |
| AppInputClassifier.LabelOf | app/input/classifier.py:329-339 | INTENT, GREETING and MIXED map to their labels and every other text, CONTENT included, to CONTENT |
| AppInputClassifier.ParseLlmResponse | app/input/classifier.py:306-347 | the line loop yields exactly the reply read by "the last line of each kind wins" |
| AppInputClassifier.ParsedReplySpec | app/input/classifier.py:316-347 | an unknown or missing label gives CONTENT; a missing or non-integer confidence gives 0.5; otherwise the parsed integer over 100; portions are never empty strings |
| AppInputClassifier.ConfidenceLineRead | app/input/classifier.py:319-323 | the line `CONFIDENCE: n` reads as the integer n |
| AppInputClassifier.ModeOf | app/input/classifier.py:97-100 | an explicit mode is kept as given; with neither argument nor environment setting the mode is "deterministic" |
| AppInputClassifier.ClassifySpec | app/input/classifier.py:279-297 | outside model mode, or when the model call fails, the result is the deterministic classification; otherwise it is the parsed reply; deterministic results have confidence in [0, 1] |
| ResearchSeed.TopicOf | backend/app/input/handlers/research_seed.py:22 | the topic defaults to "General Research" only when the member is missing; a null topic stays None |
| ResearchSeed.RejectedSpec | backend/app/input/handlers/research_seed.py:24-31 | a seed is rejected iff it has no entities and its topic is null or empty; a seed without a topic member is never rejected |
| ResearchSeed.EndpointsSpec | backend/app/input/handlers/research_seed.py:35-37 | source is the first entity (else the topic), target the last of two or more (else the topic), focus areas the entities strictly between; with two or more entities, source, focus areas and target are the entities in order |
| ResearchSeed.SeedCallRejected | backend/app/input/handlers/research_seed.py:51-57 | the `entities` keyword passed to `get_or_create_search_query` is not among its parameters |
| ResearchSeed.HandleAsWritten | backend/app/input/handlers/research_seed.py:20-57 | as written, a rejected seed gets the rejection result and every other seed ends in the TypeError of the query call |
| ResearchSeed.Handle | backend/app/input/handlers/research_seed.py:20-72 | as corrected (as written every accepted seed raises, see HandleAsWritten and SeedCallRejected): a rejected seed changes nothing and gets the rejection; otherwise the query for the seed's end points exists afterwards: an existing one is kept and no row is added, and a new one is the query built with the seed's focus areas (the entities strictly between the end points), an existing job becomes FETCH_QUEUED and the result is "ok" / "vanguard_ignited" / "wait_for_fetch" |
| Jobs.Job.SetStatus | backend/app/input/handlers/research_seed.py:62 | writing the job's status leaves exactly that status |
| DecisionHandlerBase.CountsSpec | backend/app/decision/handlers/strategic_download.py:55-63 | the job's unevaluated ledger rows number at most its rows, and there are none iff every row of the job was evaluated |
| StrategicDownload.NextStatusSpec | backend/app/decision/handlers/strategic_download.py:69-113 | DOWNLOAD_QUEUED iff papers await download, whatever the limit; COMPLETED iff none await and the total reached the limit; FETCH_QUEUED iff none await and the total is below it |
| StrategicDownload.GateResultSpec | backend/app/decision/handlers/strategic_download.py:78-133 | the result is "deferred" iff the job was queued, carrying the status set as its final status, and "ok" with the max-papers outcome iff the job completed |
| StrategicDownload.Handle | backend/app/decision/handlers/strategic_download.py:48-141 | a database failure gives the "error"/"notify_user" result and changes nothing; a missing job gives the not-found error; otherwise the job gets the gate's status and the matching result |
| FetchMoreLiterature.Reason | backend/app/decision/handlers/fetch_more_literature.py:89-90 | the reason is `reason_for_fetch` when present, else "Insufficient evidence; need more data"; null measurements give no reason (reading them raises) |
| FetchMoreLiterature.NextStatus | backend/app/decision/handlers/fetch_more_literature.py:60-81 | COMPLETED iff the paper count reached the maximum, FETCH_QUEUED iff it is below |
| FetchMoreLiterature.Handle | backend/app/decision/handlers/fetch_more_literature.py:44-118 | a database failure changes nothing and gives the error result; a missing job gives the not-found error; at the limit the job completes with the max-papers result; below it the job is queued and the result is "deferred" with the fetch intent carrying the paper count, maximum and reason, or an error when the measurements are null |
| FetchMoreLiterature.AgreesWithDownloadGate | backend/app/decision/handlers/fetch_more_literature.py:60-81 | for a job with no paper awaiting download this handler and the strategic download gate choose the same status |
| DecisionHandlerRegistry.Lookup | backend/app/decision/handlers/registry.py:43 | a label finds a class iff it is registered, and then its registered class |
| DecisionHandlerRegistry.LookupAfterRegister | backend/app/decision/handlers/registry.py:32-43 | after registering c under a label, the label finds c (re-registering overwrites) and every other label finds what it found before |
| DecisionHandlerRegistry.HandlerRegistry.Register | backend/app/decision/handlers/registry.py:19-32 | a class that is not a Handler is refused with the ValueError message and nothing changes; otherwise the label maps to the class; every registered class stays a Handler |
| DecisionHandlerRegistry.HandlerRegistry.Get | backend/app/decision/handlers/registry.py:34-43 | a class is returned iff the label is registered, and it is a Handler |
| DecisionHandlerRegistry.HandlerRegistry.AllLabels | backend/app/decision/handlers/registry.py:45-47 | the labels are exactly those for which `get` finds a class |
| DecisionHandlerRegistry.RegisterHandler | backend/app/decision/handlers/registry.py:58-63 | registering a Handler subclass maps the label to it and leaves every other label's class as it was; any other class gets the "must subclass Handler" error and leaves the registry unchanged; validity is preserved |
| DecisionHandlerRegistry.GetHandlerForDecision | backend/app/decision/handlers/registry.py:66-68 | lookup gives None exactly for labels that are not registered |
| InputHandlerRegistry.HandlerRegistry.Register | app/input/handlers/registry.py:13-17 | the handler is stored under the uppercased label, keys stay uppercase, and every case variant of the label then finds it |
| InputHandlerRegistry.HandlerRegistry.GetHandler | app/input/handlers/registry.py:19-22 | a handler is found iff the uppercased label is registered |
| InputHandlerRegistry.HandlerRegistry.AllLabels | app/input/handlers/registry.py:24-27 | the labels are the uppercase labels that find a handler |
| InputHandlerRegistry.GetHandlerIgnoresCase | app/input/handlers/registry.py:16-22 | a label and its uppercase find the same handler |
| InputHandlerRegistry.RegisterClassifierHandler | app/input/handlers/registry.py:30-35 | the decorator registers the class under the uppercased label and returns it unchanged |
| InputHandlerRegistry.GetHandlerForLabel | app/input/handlers/registry.py:38-40 | lookup gives None exactly when the uppercased label is not registered |
| LlmProviderRegistry.ProviderRegistry.Register | backend/app/llm/providers/registry.py:9-15 | the class is stored under the lowercased id and returned unchanged; a new id is appended to the order, a known one keeps its place; ids stay distinct and lowercase |
| LlmProviderRegistry.ProviderRegistry.GetProviderClass | backend/app/llm/providers/registry.py:17-20 | a class is found iff the lowercased id is registered |
| LlmProviderRegistry.ProviderRegistry.ListProviders | backend/app/llm/providers/registry.py:22-25 | every registered id once, in registration order, and nothing else |
| LlmProviderRegistry.GetProviderClassIgnoresCase | backend/app/llm/providers/registry.py:13-20 | an id and its lowercase find the same class |
| PresentationWorker.GetOrElse | backend/presentation/worker.py:80-82 | `d.get(k) or default` yields either a truthy member or the default |
| PresentationWorker.PromptFilenameSpec | backend/presentation/worker.py:57-64 | the exact (phase, status) entry wins; a non-None status falls back to the phase's own entry; no fallback without a status; any result is an entry for that phase |
| PresentationWorker.UnknownDecisionStatusFallsBack | backend/presentation/worker.py:36-64 | a decision sub-status outside the five known ones is narrated with the generic decision prompt |
| PresentationWorker.Lookups | backend/presentation/worker.py:77-139 | the context holds exactly the listed keys, each read with its own default |
| PresentationWorker.ContextDefaults | backend/presentation/worker.py:78-82 | a missing or falsy status, next action or error reason reads "", "pending" or "none"; a truthy status is rendered as given; a missing job id reads "" |
| PresentationWorker.FormatMap | backend/presentation/worker.py:140-142 | the plain fill fails (KeyError) exactly when some field of the template is not in the context |
| PresentationWorker.FillMissing | backend/presentation/worker.py:143-151 | the partial fill keeps the template's length and leaves only fields the context knows |
| PresentationWorker.FormatMapPlaceholders | backend/presentation/worker.py:140-142 | a successful plain fill replaces each field by its context value |
| PresentationWorker.FillMissingPlaceholders | backend/presentation/worker.py:143-152 | the second fill after the partial fill cannot fail and renders unknown fields as `[name]` |
| PresentationWorker.BuildPromptSpec | backend/presentation/worker.py:67-152 | the prompt is the template with known fields filled and unknown ones shown as `[name]`, on both paths |
| PresentationWorker.CallLlm | backend/presentation/worker.py:155-183 | a failed call gives ""; a non-empty result is the stripped reply |
| PresentationWorker.StatusOf | backend/presentation/worker.py:216-218 | a present status is lowercase |
| PresentationWorker.Channel | backend/presentation/worker.py:193-194 | an event without a user id goes to `user:1` |
| PresentationWorker.NarrateSpec | backend/presentation/worker.py:221-233 | no prompt file or an empty template gives ""; a non-empty explanation is the stripped reply to the built prompt |
| PresentationWorker.UnknownPhaseIsSilent | backend/presentation/worker.py:215-233 | a phase with no prompt entry gets an empty explanation |
| PresentationWorker.EventTask.Process | backend/presentation/worker.py:211-239 | the event gains `explanation` and nothing else changes; it is published as updated on its user's channel |
| StageTasks.MainLineChains | backend/worker/stage_tasks.py:230-588 | each main-line task, on success, writes exactly the status the next task's guard demands and delays that task, so successful stages carry a job from INGESTED to RUNNING_HANDLERS one status at a time; the download task leads back to ingestion through READY_TO_INGEST |
| StageTasks.GuardsDistinct | backend/worker/stage_tasks.py:230-770 | no two guarded tasks demand the same status, so a job is ready for at most one of them |
| StageTasks.LinearEffectSpec | backend/worker/stage_tasks.py:259-300 | a guarded main-line task changes the status only when it finds its own input status: a missing job or another status leaves everything untouched; it writes (always its own output status) and chains its successor exactly when the guard held, the graph it needs was found and nothing raised; a raise writes nothing and chains nothing |
| StageTasks.IngestFailsOnlyWhenExhausted | backend/worker/stage_tasks.py:172-217 | ingestion has no guard; it writes INGESTED exactly when it succeeded and FAILED exactly when it raised with its retries used up |
| StageTasks.IngestEffect | backend/worker/stage_tasks.py:190-208 | the only statuses ingestion writes are INGESTED and FAILED |
| StageTasks.SourcesReadySpec | backend/worker/stage_tasks.py:21-34 | the fetched sources are ready exactly when the job has an unprocessed source of type paper_abstract or api_text |
| StageTasks.CountFetchedPending | backend/worker/stage_tasks.py:27-33 | the count of ready sources is at most the number of sources |
| StageTasks.FetchEffectSpec | backend/worker/stage_tasks.py:698-749 | the fetch task acts only on FETCH_QUEUED; with the graph and no raise it writes READY_TO_INGEST and chains ingestion exactly when a fetched source is ready, and otherwise writes PATH_REASONING_DONE and chains the decision task; a failure writes and chains nothing |
| StageTasks.RouteSpec | backend/worker/stage_tasks.py:650-681 | after the handlers the stage chains fetching exactly on FETCH_QUEUED and downloading exactly on DOWNLOAD_QUEUED, chains nothing on the five waiting statuses, and treats every other status as unhandled |
| StageTasks.MarkReadyEffect | backend/worker/stage_tasks.py:144-160 | marking ready always chains ingestion and writes READY_TO_INGEST exactly when the job exists |
| StageTasks.Broker.Delay | backend/worker/stage_tasks.py:158 | delaying a task appends it to the scheduled tasks |
| StageTasks.Apply | backend/worker/stage_tasks.py:236-242 | applying an effect writes its status (if any) to the job and appends its chained task (if any) to the scheduled tasks |
| StageTasks.RunLinear | backend/worker/stage_tasks.py:222-300 | a main-line task leaves the job and the schedule as its effect says, computed from the status before the call |
| StageTasks.RunIngest | backend/worker/stage_tasks.py:172-217 | the ingestion task leaves the job and the schedule as its effect says |
| StageTasks.RunFetch | backend/worker/stage_tasks.py:698-759 | the fetch task leaves the job and the schedule as its effect says |
| StageTasks.RunHandlers | backend/worker/stage_tasks.py:605-695 | the handler task leaves the job and the schedule as its effect says: guarded on RUNNING_HANDLERS, nothing without a decision row, and the route of the handler's new status |
| StageTasks.MarkReady | backend/worker/stage_tasks.py:144-160 | an existing job becomes READY_TO_INGEST, and ingestion is delayed whether or not the job exists |
| StageTasks.Store.constructor | backend/worker/stage_tasks.py:53-141 | the store starts with no sources and no messages |
| StageTasks.Store.Extract | backend/worker/stage_tasks.py:100-141 | PDF extraction completes exactly when the file exists and the extracted text is non-blank, adding one unprocessed pdf_text source with reference file:<id>; it raises exactly when the file exists and extraction raised; messages never change |
| StageTasks.Store.Classify | backend/worker/stage_tasks.py:53-97 | classifying stores one text message with the stripped text and returns its id and label when the classifier succeeds, and stores nothing and reports the error when it raises; sources never change |
| StageTasks.Latest | backend/worker/stage_tasks.py:559-575 | the latest decision of the job before the bound: None exactly when there is none, otherwise one of them with no later one |
| StageTasks.IndexOf | backend/worker/stage_tasks.py:570-578 | a found position holds the id looked for |
| StageTasks.QueryIndexByIds | backend/worker/stage_tasks.py:570-578 | a query found by id in the queries is found at the same place in a snapshot of their ids |
| StageTasks.ApplyOne | backend/worker/stage_tasks.py:576-578 | applying the signal to one run records the delta and the new status on its query when the query exists, changes no query's id and sets no status other than the new one |
| StageTasks.ApplyToAll | backend/worker/stage_tasks.py:566-580 | every pending run gets the signal delta and its query the new status when the query exists; runs without a query keep their delta |
| StageTasks.RunSignalEvaluation | backend/worker/stage_tasks.py:543-597 | as corrected (as written the applier's writes are discarded, see RunSignalEvaluationAsWritten and SignalLostExample): the signal task is guarded on DECISION_MADE, moves the job to RUNNING_HANDLERS and chains the handlers; when it ran and there is a signal every pending run and its query carry the signal, and otherwise no run and no query changes |
| StageTasks.RunSignalEvaluationAsWritten | backend/worker/stage_tasks.py:543-597 | as written: the same guard, move to RUNNING_HANDLERS and handler chaining, but the signal is applied in a session closed without a commit, so every pending run and every query is left as it was |
| StageTasks.ExampleSignal | backend/worker/stage_tasks.py:568-574 | a run created between a decision with 0 passed hypotheses and one with 200 gets the delta 2.0 and the signal (1, "reusable") |
| StageTasks.SignalLostExample | backend/worker/stage_tasks.py:556-578 | on one DECISION_MADE job with one pending run and a delta above the positive threshold, the run keeps no signal as written and records 1, its query "reusable", as corrected |
| StageTasks.NoPendingNoSignal | backend/worker/stage_tasks.py:564-566 | with no pending run there is no signal, whatever the decisions |
| StageTasks.SignalForSpec | backend/worker/stage_tasks.py:566-578 | a signal exists exactly when the job has a decision before the pending run; it is the classification of the change from the latest such decision to the job's latest decision |
| WorkerRunner.BranchOfStatus | app/worker/runner.py:99-666 | a status reaching a named branch is that branch's status, and a status reaching none is no branch's status |
| WorkerRunner.BranchOfNamed | app/worker/runner.py:99-661 | every branch is reached from its own status: no earlier test shadows a later one |
| WorkerRunner.LeftAlone | app/worker/runner.py:90-93 | a missing job, NEED_MORE_INPUT, DONE and an unknown status leave the status alone and queue nothing |
| WorkerRunner.IngestionOutcome | app/worker/runner.py:99-134 | ingestion writes INGESTED and queues the job again when it succeeds, and writes FAILED and queues nothing when it raises |
| WorkerRunner.RaisingKeepsStatus | app/worker/runner.py:154-156 | after the graph was found, a raising stage from extraction to decision leaves the status as it was and queues nothing, while a raising fetch marks the job FAILED |
| WorkerRunner.MissingGraphFails | app/worker/runner.py:197-206 | a graph missing from the cache or the database marks the job FAILED and queues nothing, in sanitizing, merging, reasoning, deciding and fetching |
| WorkerRunner.FetchRouting | app/worker/runner.py:513-576 | with the graph found: no passed hypothesis writes GRAPH_SEMANTIC_MERGED; no source created writes DECISION_MADE; ready sources write READY_TO_INGEST and queue the job; unready sources leave FETCH_QUEUED |
| WorkerRunner.HandlingOutcome | app/worker/runner.py:578-654 | without a decision row or when the handler raises the job is left alone; otherwise the status the handler wrote stands and the job is queued again |
| WorkerRunner.ReasoningQueuesSix | app/worker/runner.py:304-368 | successful path reasoning writes PATH_REASONING_DONE and queues job 6, whichever job it ran for |
| WorkerRunner.AgreesWithStageTasks | app/worker/runner.py:136-506 | on success the worker writes, from each input status of the chained tasks from INGESTED to DECISION_MADE, the status the matching chained task writes |
| WorkerRunner.QueuedIds | app/worker/runner.py:120 | every id a stage queues is the job's own or 6 |
| WorkerRunner.Turns | app/worker/runner.py:669-683 | a job that does not exist stays missing through every turn |
| WorkerRunner.Worker.constructor | app/worker/runner.py:669-674 | the worker starts with an empty queue |
| WorkerRunner.Worker.ProcessJobStage | app/worker/runner.py:74-666 | the job's status after one stage is the one its branch writes (unchanged when it writes none) and the queue gains the id the branch queues |
| WorkerRunner.Worker.StartWorker | app/worker/runner.py:669-683 | job 1 is queued, then each turn takes an id off the queue and runs a stage of job 1 whatever the id; job 1's final status and the queue are those of the turn-by-turn reference |
| AdapterFactory.GetAdapter | backend/app/ingestion/adapters/factory.py:7-30 | "pdf_text" in any letter case gives the PDF adapter and the three text types the plain-text adapter; a reference without "file:" otherwise gives the plain-text adapter; the PDF adapter is chosen exactly for "pdf_text" or an other-typed "file:" reference whose extension, lowercased and without dots, is "pdf" |
| AdapterFactory.Extension | backend/app/ingestion/adapters/factory.py:23 | `os.path.splitext(p)[1]`: empty, or a single dot followed by no dot and no path separator |
| AdapterFactory.TypeIgnoresCase | backend/app/ingestion/adapters/factory.py:11 | the routing does not depend on the letter case of the source type |
| AdapterFactory.FileRefByExtension | backend/app/ingestion/adapters/factory.py:21-30 | for a type outside the explicit ones, `file:<name>.<ext>` routes to the PDF adapter exactly when the extension is "pdf" in any letter case, and to the plain-text adapter otherwise |
| AppFetching.AbstractSources | app/fetching/service.py:217-256 | at most one ingestion source per persisted paper |
| AppFetching.Contribute | app/fetching/service.py:328-356 | one pick's contribution counts every fetched paper as accepted or rejected and records at most one run |
| AppFetching.ContributeSpec | app/fetching/service.py:328-356 | a pick records a run exactly when its query is due, its domain has an enabled provider and that provider returns papers; the run names the provider, counts the fetched papers and the persisted ones as accepted, the rest rejected, and the sources are the persisted papers with an abstract; otherwise the pick adds nothing |
| AppFetching.Gathered | app/fetching/service.py:318-356 | the contributions of the picks added up in order keep accepted plus rejected equal to fetched, with at most one run per pick |
| AppFetching.GatheredRuns | app/fetching/service.py:324-356 | every recorded run is the run of one selected pick |
| AppFetching.GatheredWellFormed | app/fetching/service.py:351-356 | every recorded run counts each fetched paper as accepted or rejected, and is an initial attempt when only new queries are due |
| AppFetching.SummarizeSpec | app/fetching/service.py:307-373 | no pick gives the all-zero summary; otherwise one executed query per pick, at most one run per pick, balanced totals, and only initial attempts when only new queries are due |
| AppFetching.ProcessPicks | app/fetching/service.py:318-373 | the loop over the selected picks returns the sum of their contributions with one executed query per pick |
| HypothesisFiltering.Merge | backend/app/path_reasoning/filtering/logic.py:175-182 | each configuration key in force is the caller's value when given and the default otherwise; the context's own fallbacks are never reached |
| HypothesisFiltering.FilterGraphOf | backend/app/path_reasoning/filtering/logic.py:48-70 | the filtering graph is a well-formed directed graph |
| HypothesisFiltering.PlainEdgesGraphEdges | backend/app/path_reasoning/filtering/logic.py:63-68 | the edge loop adds an edge (u, v) exactly when some edge dict with truthy endpoints joins u to v |
| HypothesisFiltering.PlainEdgesGraphNodes | backend/app/path_reasoning/filtering/logic.py:63-68 | a node is in the graph after the edge loop exactly when it was before or is an endpoint of a contributing edge dict |
| HypothesisFiltering.FilterGraphEdges | backend/app/path_reasoning/filtering/logic.py:48-70 | an edge of the filtering graph is exactly a pair that some edge dict joins |
| HypothesisFiltering.BuildFilterGraph | backend/app/path_reasoning/filtering/logic.py:48-70 | the node loop then the edge loop build exactly the filtering graph |
| HypothesisFiltering.FirstHub | backend/app/path_reasoning/filtering/logic.py:79-83 | the first intermediate node whose degree exceeds the threshold, or none exactly when no node does |
| HypothesisFiltering.HubRule | backend/app/path_reasoning/filtering/logic.py:75-84 | a path of at most two nodes passes; otherwise it fails exactly when an intermediate node's degree exceeds the hub threshold |
| HypothesisFiltering.FirstForbidden | backend/app/path_reasoning/filtering/logic.py:90-95 | the first path node present in the graph whose lowercased type is forbidden, or none exactly when no node is |
| HypothesisFiltering.RoleRule | backend/app/path_reasoning/filtering/logic.py:87-96 | fails exactly when some path node present in the graph has a forbidden lowercased type (default "concept") |
| HypothesisFiltering.PredicateRule | backend/app/path_reasoning/filtering/logic.py:99-108 | an empty predicate list passes; otherwise fails exactly when every predicate, lowercased, is generic |
| HypothesisFiltering.EvidenceRule | backend/app/path_reasoning/filtering/logic.py:111-116 | fails exactly when the integer confidence is below the minimum |
| HypothesisFiltering.NoveltyRule | backend/app/path_reasoning/filtering/logic.py:119-125 | fails exactly when both endpoints are truthy and a direct edge joins them |
| HypothesisFiltering.ChainFrom | backend/app/path_reasoning/filtering/logic.py:192-198 | the first failing rule from the given one on, with its message, or none exactly when all the remaining rules pass |
| HypothesisFiltering.AnnotatedSpec | backend/app/path_reasoning/filtering/logic.py:186-203 | a hypothesis passes iff every rule passes; the reason is None iff it passed; a failed one carries one reason keyed by the first failing rule, all earlier rules having passed; nothing else changes |
| HypothesisFiltering.AnnotatedOneReason | backend/app/path_reasoning/filtering/logic.py:192-201 | a failed hypothesis has exactly one filter_reason key |
| HypothesisFiltering.FilterWith | backend/app/path_reasoning/filtering/logic.py:161-205 | every hypothesis is returned, in order, annotated by the rule chain over the filtering graph and the merged configuration |
| HypothesisFiltering.AnnotateOne | backend/app/path_reasoning/filtering/logic.py:189-203 | the inner loop, stopping at the first failing rule, writes exactly the annotation of the rule chain |
| HypothesisFiltering.FilterHypotheses | backend/app/path_reasoning/filtering/logic.py:161-205 | with the back end's defaults (minimum confidence 2) every hypothesis is returned in order with its annotation |
| HypothesisFiltering.IsLowConfidenceRejection | backend/app/path_reasoning/filtering/logic.py:138-158 | true exactly for a hypothesis that did not pass and whose non-empty reason dict holds "evidence_threshold" and nothing else |
| HypothesisFiltering.LowConfidenceIffEvidenceFirst | backend/app/path_reasoning/filtering/logic.py:138-158 | after filtering, a hypothesis is a low-confidence rejection iff the hub, role and predicate rules passed and the evidence rule failed |
| AppHypothesisFiltering.AppMinConfidence | app/path_reasoning/filtering/logic.py:17-39 | the minimum confidence in force is the caller's, or 10; the context's fallback of 2 is never reached |
| AppHypothesisFiltering.FilterHypotheses | app/path_reasoning/filtering/logic.py:134-178 | every hypothesis is returned, in order, annotated by the same rule chain under the older defaults |
| Measurements.PassedOf | backend/app/decision/measurements.py:75 | exactly the hypotheses marked passed, never more than all of them |
| Measurements.RejectedOf | backend/app/decision/measurements.py:76 | exactly the hypotheses not marked passed |
| Measurements.PromisingOf | backend/app/decision/measurements.py:77 | exactly the low-confidence rejections |
| Measurements.PopulationCounts | backend/app/decision/measurements.py:74-83 | passed plus rejected is the total, and every promising hypothesis is a rejected one, so there are no more promising than rejected |
| Measurements.Normalized | backend/app/decision/measurements.py:100-102 | a normalized confidence is at most 1, and at least 0 for a non-negative confidence and a positive factor |
| Measurements.NormalizedAll | backend/app/decision/measurements.py:100-102 | one normalized confidence per passed hypothesis, in order |
| Measurements.MaxReals | backend/app/decision/measurements.py:103 | the maximum is one of the values and bounds all of them |
| Measurements.PairsOf | backend/app/decision/measurements.py:109-112 | exactly the (source, target) pairs of the hypotheses |
| Measurements.PairsBound | backend/app/decision/measurements.py:109-112 | there are never more distinct pairs than hypotheses |
| Measurements.PathNodesBound | backend/app/decision/measurements.py:115-120 | there are never more distinct path nodes than path entries |
| Measurements.Diversity | backend/app/decision/measurements.py:115-124 | the diversity score lies in [0, 1] and is 0 without any path entry |
| Measurements.DominantMeansAhead | backend/app/decision/measurements.py:128-135 | with a non-negative gap ratio, a clearly dominant first hypothesis is strictly more confident than the second |
| Measurements.Density | backend/app/decision/measurements.py:150-157 | 0 for at most one node; otherwise density times n(n-1) is the edge count; never negative |
| Measurements.NoGrowthAgainstSelf | backend/app/decision/measurements.py:179-194 | measuring the same state against its own snapshot gives growth 0 |
| Measurements.ComputeCounts | backend/app/decision/measurements.py:61-91 | outside verification mode: passed plus rejected is the total, promising at most rejected, the pass ratio in [0, 1] and 0 when empty, and growth 0 without a snapshot |
| Measurements.ComputeStatistics | backend/app/decision/measurements.py:94-145 | outside verification mode: the maximum normalized confidence is at most 1, diversity lies in [0, 1], pairs are at most the passed count, one passed hypothesis is clearly dominant, and with none passed every passed-statistic is 0 and nothing is dominant |
| AppMeasurements.Confidences | app/decision/measurements.py:83 | one raw confidence per passed hypothesis, in order |
| AppMeasurements.SumAtMostMax | app/decision/measurements.py:84-85 | the sum of values bounded by m is at most their count times m, so the mean never exceeds the maximum |
| AppMeasurements.AppComputeCounts | app/decision/measurements.py:60-76 | passed plus rejected is the total; viability iff some hypothesis exists; the pass ratio lies in [0, 1] and is 0 when empty; the dominant index is 0 iff something passed and -1 iff nothing did |
| AppMeasurements.AppComputeConfidence | app/decision/measurements.py:81-146 | statistics over passed hypotheses only: the maximum bounds every passed confidence and is attained by one, the mean is at most the maximum, the normalized maximum is at most 1, and both raw statistics are 0 when nothing passed |
| AppNodeRules.Classify | app/graphs/rules/node_types.py:113-123 | a node that is not a string is noise (the later stages are stated by the lemmas below) |
| AppNodeRules.StopWordsAreNoise | app/graphs/rules/node_types.py:122-131 | a blank node or one whose stripped lowercase text is a stop word is noise |
| AppNodeRules.MetadataStage | app/graphs/rules/node_types.py:129-156 | a text no noise rule claims is metadata when a metadata pattern matches |
| AppNodeRules.EntityStage | app/graphs/rules/node_types.py:129-164 | a text no noise or metadata rule claims is an entity when an entity rule holds |
| AppNodeRules.ConceptStage | app/graphs/rules/node_types.py:129-175 | a text no noise, metadata, entity or citation rule claims is a concept |
| AppNodeRules.ShortNumbers | app/graphs/rules/node_types.py:73-78 | noise patterns precede metadata: a number of at most three digits is noise, one of four or five digits is metadata, and a year has four digits |
| AppNodeRules.LongNumbersAreConcepts | app/graphs/rules/node_types.py:153-175 | a number of six to nineteen digits without an entity label matches no rule and is a concept |
| AppNodeRules.LongDigitsNotMetadata | app/graphs/rules/node_types.py:139-156 | a number of six to nineteen digits matches no metadata pattern |
| AppNodeRules.WordNotMetadata | app/graphs/rules/node_types.py:139-156 | a word matches no metadata pattern unless it is a run of twenty or more of the letters a to f |
| AppNodeRules.CapitalizedWordIsEntity | app/graphs/rules/node_types.py:159-164 | entity rules precede the allow-list: a capitalized word of two or more letters that is not a stop word is an entity |
| AppNodeRules.CapitalizedModel | app/graphs/rules/node_types.py:163-171 | "Model" is an entity although "model" is on the concept allow-list |
| AppNodeRules.LowercaseWordIsConcept | app/graphs/rules/node_types.py:158-175 | a lowercase word of two to nineteen letters that is not a stop word, holds no citation keyword and has no entity label is a concept |
| DecisionProviders.Decide | backend/app/decision/providers.py:47-195 | the rule-based provider returns one of insufficient signal, halt without hypothesis, targeted download, confident halt or fetch more |
| DecisionProviders.InsufficientFirst | backend/app/decision/providers.py:72-81 | having neither a passed nor a promising hypothesis decides insufficient signal before any other rule |
| DecisionProviders.GrowthBeforeHalts | backend/app/decision/providers.py:108-129 | once there is some signal, growth above the threshold always gives a targeted download, whatever the halting conditions |
| DecisionProviders.DecideSpec | backend/app/decision/providers.py:72-195 | each decision exactly under the conditions that produce it, in rule order: insufficient, stagnant window, growth, confident halt, stable halt, more data, default insufficient |
| DecisionProviders.HaltRulesExclusive | backend/app/decision/providers.py:139-176 | the confident halt needs strong path support and the stable halt weak support, so they never both apply |
| DecisionProviders.GrowthHistory | backend/app/decision/providers.py:95-106 | the history holds the growth score of each recent decision, newest first, at most the window size of them, with a missing snapshot read as 0 |
| DecisionProviders.FirstContained | backend/app/decision/providers.py:266-270 | the first label of the iteration order that occurs in the text, or none exactly when no label occurs |
| DecisionProviders.LabelLookup | backend/app/decision/providers.py:266-270 | looking up a decision's own label finds that decision |
| DecisionProviders.ParseReply | backend/app/decision/providers.py:227-277 | an exception, an empty reply or a reply naming no label gives the fallback; any other decision is a label contained in the stripped lowercase reply |
| DecisionProviders.FirstContainedUnique | backend/app/decision/providers.py:266-270 | a text that contains exactly one label yields that label, whatever the iteration order |
| DecisionProviders.ParseReplyUnique | backend/app/decision/providers.py:227-277 | a reply naming exactly one label decides that label |
| DecisionProviders.LlmDecide | backend/app/decision/providers.py:227-277 | the back end's LLM provider falls back to insufficient signal; any other decision is named in the reply |
| AppDecisionProviders.AppDecide | app/decision/providers.py:56-119 | the app's rule-based provider returns one of insufficient signal, confident halt, ask a domain expert, fetch more or ask the user |
| AppDecisionProviders.AppDecideSpec | app/decision/providers.py:72-119 | each decision exactly under its conditions in rule order: too few or none passed, dominant and high, low diversity, sparse, otherwise ask the user |
| AppDecisionProviders.DiversityBeforeDensity | app/decision/providers.py:101-115 | low diversity is sent to a domain expert even when the graph is also sparse |
| AppDecisionProviders.AppLlmDecide | app/decision/providers.py:150-198 | an exception gives ask-user-input; any other decision is named in the stripped lowercase reply |
| TripleExtraction.FallbackPromptIsBlock | backend/app/triples/extractor.py:24-48 | with the fallback template the prompt is the block text itself |
| TripleExtraction.FirstTriple | backend/app/triples/extractor.py:66 | the index of the first triple-like line |
| TripleExtraction.LastTriple | backend/app/triples/extractor.py:67 | the index of the last triple-like line |
| TripleExtraction.TrimCommentNoise | backend/app/triples/extractor.py:58-68 | no line exactly when none is triple-like; otherwise a run that starts and ends with a triple-like line, with only non-triple-like lines cut off around it |
| TripleExtraction.NoiseIgnored | backend/app/triples/extractor.py:58-68 | commentary lines before and after a block that starts and ends with triple lines are cut off exactly |
| TripleExtraction.Field | backend/app/triples/extractor.py:75-81 | an accepted field is stripped, non-empty, without newline and at most 300 characters |
| TripleExtraction.ParseLine | backend/app/triples/extractor.py:70-82 | an accepted line yields a valid triple and has exactly two pipes |
| TripleExtraction.SplitOnCount | backend/app/triples/extractor.py:72-73 | splitting on a character gives one more piece than it occurs, so three parts means exactly two pipes |
| TripleExtraction.ParseRender | backend/app/triples/extractor.py:70-82 | writing a valid triple as `s \| p \| o` and parsing the line gives it back |
| TripleExtraction.KeptOne | backend/app/triples/extractor.py:97-103 | a line contributes at most one triple, the valid parse of that line |
| TripleExtraction.Kept | backend/app/triples/extractor.py:97-103 | no more triples than lines |
| TripleExtraction.KeptSpec | backend/app/triples/extractor.py:84-109 | partial recovery: every kept triple is valid and parsed from a line, and every line that parses contributes its triple |
| TripleExtraction.KeptPrefix | backend/app/triples/extractor.py:97-103 | one more line adds exactly what that line contributes |
| TripleExtraction.ParseStep | backend/app/triples/extractor.py:98-103 | one turn keeps the line's triple or counts it as dropped, never both |
| TripleExtraction.ParseResponse | backend/app/triples/extractor.py:84-109 | the triples parsed from the trimmed non-blank lines, in order, with kept plus dropped equal to the candidate lines |
| TripleExtraction.ParseLines | backend/app/triples/extractor.py:94-103 | the loop keeps exactly the parsing lines' triples, in order, and counts the rest as dropped |
| TripleExtraction.ExtractSpec | backend/app/triples/extractor.py:115-139 | a result is a non-empty list of valid triples parsed from the model's reply; blank input, a failed call or no recovered triple gives None |
| TripleExtraction.Extract | backend/app/triples/extractor.py:115-139 | the method returns exactly the specified result |
| AppTripleExtraction.ValidateItem | app/triples/extractor.py:49-58 | an entry is accepted exactly when it is an object with exactly the three keys, each a non-blank string |
| AppTripleExtraction.Validate | app/triples/extractor.py:41-59 | accepted exactly when the answer is an object whose "triples" member is a list of accepted entries |
| AppTripleExtraction.EmptyListValid | app/triples/extractor.py:41-59 | an empty list of triples is a valid answer |
| AppTripleExtraction.FromItem | app/triples/extractor.py:49-58 | an accepted entry stands for a triple with no blank field, which writes back as the entry |
| AppTripleExtraction.ItemRoundTrip | app/triples/extractor.py:49-58 | a triple is accepted exactly when no field is blank, and an accepted entry reads back as the triple it was written from |
| AppTripleExtraction.ParsedTripleAccepted | app/triples/extractor.py:49-58 | every triple the back end's line parser accepts passes this schema too |
| AppTripleExtraction.ExtractSpec | app/triples/extractor.py:61-90 | a result is the decoded document itself, which passes validation, from a non-empty reply |
| AppTripleExtraction.Extract | app/triples/extractor.py:61-90 | the method returns exactly the specified result |
| AppTripleExtraction.Triples | app/triples/extractor.py:41-59 | an accepted answer holds one triple per entry, each writing back as its entry |
| DecisionControl.Wiring | backend/app/decision/controller.py:46-56 | a wiring exists exactly for "rule_based", "hybrid" and "llm" (any other name raises), and a fallback always differs from its primary |
| DecisionControl.ResolveSpec | backend/app/decision/controller.py:107-133 | measurements pass through; the fallback is used exactly when the primary is undecided, a fallback exists and it answers, giving its label, provider "fallback" and the reason "Primary returned UNDECIDED"; a raising fallback keeps "undecided" with the exception text as reason; otherwise the primary's label with no reason |
| DecisionControl.DecisionController.constructor | backend/app/decision/controller.py:32-58 | a known name gets its primary and fallback providers |
| DecisionControl.DecisionController.Decide | backend/app/decision/controller.py:60-139 | a raising primary propagates and persists nothing; otherwise the result is the resolved fallback protocol and exactly one record for the job is appended; the wiring is unchanged |
| DecisionControl.NewController | backend/app/decision/controller.py:32-58 | an unknown provider name raises; a known one gives a fresh controller with that name's wiring |
| DiGraphs.AddNodeEntry | backend/app/path_reasoning/reasoning.py:104-112 | one entry of the node loop adds at most a node and leaves the edges alone |
| DiGraphs.NodesGraph | backend/app/path_reasoning/reasoning.py:104-112 | after the node loop the graph is well formed and has no edge |
| DiGraphs.NodesGraphNodes | backend/app/path_reasoning/reasoning.py:104-112 | the node loop adds exactly the truthy texts of the dict entries |
| DiGraphs.AddNodeEntries | backend/app/path_reasoning/reasoning.py:104-112 | the loop, adding to one graph in place, builds exactly the node graph |
| PathReasoning.GraphOf | backend/app/path_reasoning/reasoning.py:93-141 | the graph `_graph_to_nx` builds is well formed |
| PathReasoning.AddEdgeEntryPair | backend/app/path_reasoning/reasoning.py:115-139 | one edge entry adds the pair it names, or extends that pair's predicate, support and id lists, and leaves every other pair alone |
| PathReasoning.EdgesGraphPairs | backend/app/path_reasoning/reasoning.py:115-139 | one edge per (subject, object) pair, present iff some edge dict with subject, object and predicate names it; its predicate and support lists are those dicts' values in input order |
| PathReasoning.GraphOfPairs | backend/app/path_reasoning/reasoning.py:93-141 | an edge of the built graph exists exactly for a pair some usable edge dict names, with that pair's predicates and supports in input order |
| PathReasoning.GraphToNx | backend/app/path_reasoning/reasoning.py:93-141 | the node loop then the edge loop, updating one graph, build exactly that graph |
| PathReasoning.AddAliases | backend/app/path_reasoning/reasoning.py:154-157 | a node's text and each alias map to the text; other keys keep their value |
| PathReasoning.AliasMapSpec | backend/app/path_reasoning/reasoning.py:144-158 | the keys are exactly the texts and aliases of dict nodes with a truthy text, each mapped to the text of a node that names it |
| PathReasoning.LastNodeWins | backend/app/path_reasoning/reasoning.py:148-157 | the last node naming a key decides its canonical text |
| PathReasoning.StoplistedInnerSpec | backend/app/path_reasoning/reasoning.py:171-174 | the intermediate scan finds a stoplisted node iff some intermediate, lowercased, is in the stoplist |
| PathReasoning.BadNodeIff | backend/app/path_reasoning/reasoning.py:161-176 | a path is discarded iff it repeats a node or an intermediate node is stoplisted; endpoints are never checked |
| PathReasoning.ValidDiscoveryIsInducedChain | backend/app/path_reasoning/reasoning.py:184-229 | a three-node path is valid iff its nodes are distinct and the only edges among them are A -> B and B -> C |
| PathReasoning.ChainsABSpec | backend/app/path_reasoning/reasoning.py:248-251 | the innermost loop yields exactly the valid [A, B, C] with C among the given successors |
| PathReasoning.ChainsBSpec | backend/app/path_reasoning/reasoning.py:246-251 | the predecessor loop yields exactly the valid [A, B, C] with A among the given predecessors and C a successor of B |
| PathReasoning.ChainsOverSpec | backend/app/path_reasoning/reasoning.py:244-251 | the node loop yields exactly the valid chains through the given middle nodes |
| PathReasoning.DiscoveryPathsSpec | backend/app/path_reasoning/reasoning.py:232-251 | discovery mode yields exactly the valid three-node chains of the graph |
| PathReasoning.FirstMatch | backend/app/path_reasoning/reasoning.py:278-297 | the first element satisfying the test, or none exactly when none does |
| PathReasoning.TwoHopViaSpec | backend/app/path_reasoning/reasoning.py:278-285 | the successor scan finds an intermediate iff a two-hop path exists, and what it finds is one |
| PathReasoning.CommonCauseViaSpec | backend/app/path_reasoning/reasoning.py:288-291 | the node scan finds a common cause iff one exists |
| PathReasoning.ColliderViaSpec | backend/app/path_reasoning/reasoning.py:294-297 | the node scan finds a collider iff one exists |
| PathReasoning.VerificationConnectionSpec | backend/app/path_reasoning/reasoning.py:254-299 | a missing endpoint gives not connected; otherwise the kind is the first existing pattern in the order direct forward, direct reverse, two-hop forward, two-hop reverse, common cause, collider, and the path returned witnesses it |
| PathReasoning.ConnectionWitnessHolds | backend/app/path_reasoning/reasoning.py:254-299 | every reported connection's path is a witness of its kind |
| PathReasoning.EdgeStrength | backend/app/path_reasoning/reasoning.py:302-314 | 0 without an edge or supports; otherwise the largest support recorded on the hop |
| PathReasoning.HopStrengths | backend/app/path_reasoning/reasoning.py:341-343 | one strength per hop of the path, in order |
| PathReasoning.WeakestLink | backend/app/path_reasoning/reasoning.py:341-344 | a path's confidence is the strength of one of its hops and no hop is weaker; a path without hops has confidence 0 |
| PathReasoning.HopTexts | backend/app/path_reasoning/reasoning.py:351-358 | one explanation part per hop |
| PathReasoning.BuildHypothesis | backend/app/path_reasoning/reasoning.py:328-387 | the hypothesis runs from the path's first to last node along the path, its id lists are sorted without duplicates and hold exactly the ids of its hops, and it is not yet filtered |
| PathReasoning.ClampFactor | backend/app/path_reasoning/reasoning.py:416 | the boost factor is clamped to [1, 2] and kept when already inside |
| PathReasoning.LowerSet | backend/app/path_reasoning/reasoning.py:414-415 | exactly the lowercased strings of the list |
| PathReasoning.Boost | backend/app/path_reasoning/reasoning.py:464-473 | only the confidence changes; a hypothesis without a preferred predicate is unchanged, and a boosted confidence is at most 100 |
| PathReasoning.BoostNeverLowers | backend/app/path_reasoning/reasoning.py:469 | a confidence in [0, 100] never goes down when boosted |
| PathReasoning.Built | backend/app/path_reasoning/reasoning.py:447-455 | every built hypothesis comes from an admissible candidate path |
| PathReasoning.BuiltSnoc | backend/app/path_reasoning/reasoning.py:447-455 | one more candidate adds its hypothesis exactly when it is admissible |
| PathReasoning.DedupByKey | backend/app/path_reasoning/reasoning.py:457-461 | the dedup keeps only hypotheses it was given |
| PathReasoning.DedupByKeySnoc | backend/app/path_reasoning/reasoning.py:457-461 | a hypothesis is kept exactly when its key has not been kept yet |
| PathReasoning.DedupByKeyUnique | backend/app/path_reasoning/reasoning.py:457-461 | no two kept hypotheses share (source, target, path) |
| PathReasoning.DedupByKeyComplete | backend/app/path_reasoning/reasoning.py:457-461 | every key of the input is kept once |
| PathReasoning.SeedFilter | backend/app/path_reasoning/reasoning.py:439-440 | exactly the paths that start or end at a seed |
| PathReasoning.CandidatesAreChains | backend/app/path_reasoning/reasoning.py:430-440 | every candidate of either mode is a valid three-node chain |
| PathReasoning.BoostAll | backend/app/path_reasoning/reasoning.py:464-473 | every hypothesis, in order, with the preferred-predicate boost applied |
| PathReasoning.EmitHypotheses | backend/app/path_reasoning/reasoning.py:444-461 | the candidate loop with its seen-set emits the admissible candidates built into hypotheses, first of each key only |
| PathReasoning.ApplyBoost | backend/app/path_reasoning/reasoning.py:464-473 | the boost loop rewrites each confidence in place exactly as the boost does |
| PathReasoning.RunPathReasoning | backend/app/path_reasoning/reasoning.py:390-473 | a mode other than "explore" or "query" fails; query mode without seeds gives no hypothesis; otherwise the mode's candidates are built on the graph without hub suppression, deduplicated and boosted with the lowercased stoplist and preferred predicates and the clamped factor |
| DuplicateDetection.FirstDoiHit | backend/app/deduplication/detector.py:55-60 | the first stored paper whose DOI matches, or none exactly when no paper's does |
| DuplicateDetection.CheckDoi | backend/app/deduplication/detector.py:37-70 | a hit needs a DOI and some stored paper with that DOI, and reports a DOI match of confidence 1.0 with that paper's id; no hit exactly when there is no DOI or no paper has it |
| DuplicateDetection.AsWrittenBlankIdMatches | backend/app/deduplication/detector.py:92-113 | as written, a whitespace-only identifier value "matches" a paper that lacks that identifier, while the corrected check does not match it |
| DuplicateDetection.ExtHitRefines | backend/app/deduplication/detector.py:92-113 | the corrected identifier hit is the written one restricted to non-blank values |
| DuplicateDetection.CheckExternalId | backend/app/deduplication/detector.py:73-121 | as corrected (as written see AsWrittenBlankIdMatches): no hit exactly when no (non-blank) identifier of the candidate matches any stored paper; otherwise the first hit in identifier-then-paper order is reported |
| DuplicateDetection.ScanPapers | backend/app/deduplication/detector.py:101-120 | the first stored paper one identifier hits, or none exactly when it hits none |
| DuplicateDetection.CheckFingerprint | backend/app/deduplication/detector.py:124-166 | no hit exactly when the fingerprint is empty or matches no stored paper; otherwise the first matching paper, with confidence 0.90 |
| DuplicateDetection.CheckDuplicate | backend/app/deduplication/detector.py:169-211 | as corrected (as written see AsWrittenBlankIdMatches): a DOI hit wins; an identifier hit is reported only when there is no DOI hit, a fingerprint hit only when neither of the others exists; the candidate is a duplicate exactly when some level hits, and otherwise the result is "no duplicate" |
| DuplicateDetection.IdMap | backend/app/deduplication/detector.py:214-256 | every identifier type of the candidate is a key of the stored dictionary |
| DuplicateDetection.PersistedRow | backend/app/deduplication/detector.py:214-256 | the stored row keeps the title (default ""), the source (default "unknown"), the DOI and the fingerprint |
| DuplicateDetection.PersistedIsDuplicate | backend/app/deduplication/detector.py:169-256 | once persisted, a candidate with a trimmed DOI is caught by the DOI check, and one with a fingerprint by the fingerprint check, when submitted again |
| Fingerprinting.KeepAlnumSpace | backend/app/deduplication/fingerprinting.py:50 | only alphanumeric and whitespace characters of the text remain |
| Fingerprinting.NormalizeText | backend/app/deduplication/fingerprinting.py:40-54 | the result is lowercase words of letters and digits joined by single spaces |
| Fingerprinting.NormalFixed | backend/app/deduplication/fingerprinting.py:40-54 | a text already in normalized shape is unchanged |
| Fingerprinting.NormalTokensJoin | backend/app/deduplication/fingerprinting.py:52 | the words of a normalized text, joined with spaces, give it back |
| Fingerprinting.NormalizeIdempotent | backend/app/deduplication/fingerprinting.py:40-54 | normalizing twice is normalizing once |
| Fingerprinting.Mismatches | backend/app/deduplication/fingerprinting.py:115-118 | at most one mismatch per position |
| Fingerprinting.Hamming | backend/app/deduplication/fingerprinting.py:107-120 | the distance never exceeds the longer length |
| Fingerprinting.HammingDistance | backend/app/deduplication/fingerprinting.py:107-120 | the loop computes the distance |
| Fingerprinting.MismatchesZero | backend/app/deduplication/fingerprinting.py:115-118 | no mismatch exactly for equal strings |
| Fingerprinting.HammingSpec | backend/app/deduplication/fingerprinting.py:107-120 | the distance is symmetric; for equal lengths it is 0 exactly for equal strings; otherwise it is the longer length |
| Fingerprinting.Similarity | backend/app/deduplication/fingerprinting.py:123-138 | the similarity lies in [0, 1] and is 0 when either fingerprint is empty |
| Fingerprinting.SimilaritySpec | backend/app/deduplication/fingerprinting.py:123-138 | symmetric; 1 exactly for identical fingerprints; since characters are scaled as if they were bits, never below 0.75, and exactly 0.75 for different lengths |
| Fingerprinting.MatchSpec | backend/app/deduplication/fingerprinting.py:141-156 | an empty fingerprint matches nothing under a positive threshold; equal non-empty ones match under any threshold up to 1; under a threshold of at most 0.75 any two non-empty ones match |
| EdgeTable.Find | backend/app/graphs/incremental.py:136-141 | the edge dictionary lookup by (subject, predicate, object): absent exactly when no entry has the key, otherwise the index of an entry with that key |
| EdgeTable.FindKeyed | backend/app/graphs/incremental.py:136-141 | in a table whose keys are distinct, looking up an entry's key finds that very entry |
| EdgeTable.Add | backend/app/graphs/incremental.py:136-152 | `_add_edge_to_dict` keeps the keys of the edge dictionary distinct |
| EdgeTable.AddSpec | backend/app/graphs/incremental.py:136-152 | after adding one edge a key is present iff it was or is the edge's key; its support grows by the edge's support and its triple, source and block ids gain the edge's ids, only for that key |
| EdgeTable.AddAllKeys | backend/app/graphs/incremental.py:154-175 | after adding the existing and the rewritten edges, a key is present iff it was or one of the added edges has it |
| EdgeTable.AddAllSupport | backend/app/graphs/incremental.py:154-175 | the merged support of a key is the sum of the supports of all added edges with that key |
| EdgeTable.AddAllIds | backend/app/graphs/incremental.py:154-175 | the merged id sets of a key are the union of the id lists of all added edges with that key |
| EdgeTable.AddAllKeyed | backend/app/graphs/incremental.py:154-189 | the rebuilt edge list has one entry per (subject, predicate, object) |
| EdgeTable.AddAllTotal | backend/app/graphs/incremental.py:154-175 | merging never loses or invents support: the total support of the table grows by exactly the added edges' support |
| EvidenceGraph.SortedIds | backend/app/graphs/graph.py:38-39 | `sorted(list(...))` of an id set: strictly increasing and holding exactly the set's members |
| EvidenceGraph.SortedNames | backend/app/graphs/graph.py:84 | `sorted(list(self.nodes))`: sorted, as long as the set and holding exactly its members |
| EvidenceGraph.EvidenceGroup.constructor | backend/app/graphs/graph.py:16-22 | a new group has its triple, no evidence and empty id sets |
| EvidenceGraph.EvidenceGroup.AddEvidence | backend/app/graphs/graph.py:24-29 | the count grows by one, the block id is recorded, and the source id only when there is one |
| EvidenceGraph.EvidenceGroup.ToDict | backend/app/graphs/graph.py:31-40 | the rendered group carries its triple, its count as support and its id sets as sorted lists |
| EvidenceGraph.TotalEdgesAppend | backend/app/graphs/graph.py:67-70 | appending one edge to a listed subject adds one to the total number of adjacency entries |
| EvidenceGraph.AppendKnown | backend/app/graphs/graph.py:67-70 | appending to a known subject keeps `edges_count` equal to the number of adjacency entries and every endpoint in `nodes` |
| EvidenceGraph.AppendNew | backend/app/graphs/graph.py:67-70 | starting a new subject's list keeps the same invariant |
| EvidenceGraph.ConfidenceWeightedGraph.constructor | backend/app/graphs/graph.py:46-56 | a new graph has its threshold and no nodes, adjacency or edges |
| EvidenceGraph.ConfidenceWeightedGraph.Neighbors | backend/app/graphs/graph.py:76-78 | the outgoing edges of a node, none for an unknown node |
| EvidenceGraph.ConfidenceWeightedGraph.AddEdgeFromGroup | backend/app/graphs/graph.py:58-74 | below the threshold nothing changes; otherwise the edge is appended to its subject's list, both endpoints become nodes and the edge count grows by one, keeping the count equal to the number of adjacency entries |
| EvidenceGraph.ConfidenceWeightedGraph.ToDict | backend/app/graphs/graph.py:80-98 | the dictionary has the threshold, the sorted nodes, the edge count and one entry list per subject, each edge with its group's rendering |
| EvidenceGraph.EntriesOf | backend/app/graphs/graph.py:87-95 | one rendered entry per edge, in order, each with its group's `to_dict()` |
| EvidenceAggregation.NormalizeRow | app/graphs/aggregator.py:51-69 | a normalized row keeps the row's block and source ids; its key is the normalized triple, or none when a component normalized to empty |
| EvidenceAggregation.NormalizeRows | app/graphs/aggregator.py:51-69 | one normalized row per stored triple |
| EvidenceAggregation.Errors | app/graphs/aggregator.py:60-66 | the malformed rows are among the rows read |
| EvidenceAggregation.Qualifying | app/graphs/aggregator.py:87-90 | exactly the group keys whose support reaches the threshold, in group order |
| EvidenceAggregation.GroupKeysSpec | app/graphs/aggregator.py:68-73 | the group keys are distinct and a key is one iff some row normalizes to it |
| EvidenceAggregation.SupportPositive | app/graphs/aggregator.py:71-76 | a key has positive support iff it has a group |
| EvidenceAggregation.SumSupportStep | app/graphs/aggregator.py:71-76 | one more row adds one to the summed support of the groups holding its key and nothing otherwise |
| EvidenceAggregation.RowsAccounted | app/graphs/aggregator.py:51-81 | every row read is counted in exactly one group's support or as an error |
| EvidenceAggregation.QualifyingDistinct | app/graphs/aggregator.py:87-90 | no key qualifies twice |
| EvidenceAggregation.ExpectedStep | app/graphs/aggregator.py:71-76 | one more row changes only the state of its own key's group, by recording its evidence |
| EvidenceAggregation.KeysStep | app/graphs/aggregator.py:60-76 | one more row: an unusable one adds an error, a new key joins the groups, a known key changes neither |
| EvidenceAggregation.GroupRows | app/graphs/aggregator.py:51-81 | the grouping loop yields exactly the group keys, one fresh group per key describing that key's rows, and the error count |
| EvidenceAggregation.AddRow | app/graphs/aggregator.py:52-81 | one pass of the grouping loop keeps the groups describing the rows seen so far |
| EvidenceAggregation.NewGroup | app/graphs/aggregator.py:72-73 | a key without a group gets a fresh empty group, and the groups still describe the rows seen |
| EvidenceAggregation.RecordIn | app/graphs/aggregator.py:75-76 | the row's group records its evidence and the other groups are unchanged |
| EvidenceAggregation.NoSupportNoIds | app/graphs/aggregator.py:71-76 | a key with no support has no block ids and no source ids |
| EvidenceAggregation.KeysWithSubject | app/graphs/aggregator.py:87-90 | the qualifying keys with a given subject, and only those |
| EvidenceAggregation.EdgesFor | app/graphs/aggregator.py:87-90 | one edge per key, in order |
| EvidenceAggregation.GraphStep | app/graphs/aggregator.py:87-90 | adding one qualifying group: its subject is listed once, both endpoints become nodes and its edge ends its subject's list |
| EvidenceAggregation.SubjectsSpec | app/graphs/aggregator.py:87-90 | the graph's subjects are distinct and are exactly the subjects of qualifying keys |
| EvidenceAggregation.EndpointsSpec | app/graphs/aggregator.py:87-90 | a string is a node iff it is the subject or object of a qualifying key |
| EvidenceAggregation.AdjacencySpec | app/graphs/aggregator.py:87-90 | the adjacency has one list per subject, listing the edges of that subject's qualifying keys in group order |
| EvidenceAggregation.NoSubjectNoKeys | app/graphs/aggregator.py:87-90 | a string that is no subject has no qualifying keys |
| EvidenceAggregation.QualifyingStep | app/graphs/aggregator.py:87-90 | the qualifying keys of one more group gain that group iff its support reaches the threshold |
| EvidenceAggregation.BuildGraph | app/graphs/aggregator.py:84-90 | the graph holds exactly the qualifying groups: its edge count and `filtered_groups` are their number, its subjects, nodes and adjacency those of the qualifying keys |
| EvidenceAggregation.AddIfQualifying | app/graphs/aggregator.py:87-90 | one pass of the graph loop adds the group's edge iff its count reaches the threshold |
| EvidenceAggregation.MeetsThreshold | app/graphs/aggregator.py:88 | `group.count >= threshold` compares for an int threshold and raises for a string or `None` |
| EvidenceAggregation.DefaultThresholdAsWritten | app/graphs/aggregator.py:21 | the default threshold is the environment's raw value or `None`, never an int |
| EvidenceAggregation.IntendedDefaultThreshold | app/graphs/aggregator.py:27 | the documented default of 2 applies when the variable is unset |
| EvidenceAggregation.DefaultThresholdRaises | app/graphs/aggregator.py:21 | as written, the default threshold makes every comparison raise |
| EvidenceAggregation.IntendedDefaultCompares | app/graphs/aggregator.py:21-27 | the intended default compares, reading back the number the variable spells |
| EvidenceAggregation.AggregateEvidenceForJob | app/graphs/aggregator.py:19-110 | the result reports the job, the threshold, every triple read, one group per normalized key, the qualifying groups, the errors and the graph of exactly the qualifying groups; a non-int threshold raises once there is a group to compare |
| EvidenceAggregation.GroupsAndErrorsBound | app/graphs/aggregator.py:98-104 | `evidence_groups + errors <= total_triples` |
| EvidenceAggregation.SupportAtLeastOne | app/graphs/aggregator.py:71-76 | every group has at least one piece of evidence |
| EvidenceAggregation.AggregateGroups | app/graphs/aggregator.py:83-106 | after grouping, thresholding and rendering give the result described for the job, or the TypeError |
| EvidenceAggregation.RenderGraph | app/graphs/aggregator.py:105 | the rendered graph has one entry list per subject of a qualifying key, each listing that subject's qualifying keys with their support and ids |
| EvidenceAggregation.EntriesRendered | app/graphs/aggregator.py:105 | each rendered entry lists its subject's qualifying keys |
| GraphCache.Lookup | backend/app/graphs/cache.py:22-24 | `dict.get`: the cached value exactly when the job is cached, `None` otherwise |
| GraphCache.SetThenGet | backend/app/graphs/cache.py:17-24 | a read after a write of the same job gives back the value written |
| GraphCache.SetOtherUnaffected | backend/app/graphs/cache.py:17-24 | a write for one job leaves every other job's entry as it was |
| GraphCache.DeleteThenGet | backend/app/graphs/cache.py:22-29 | after a delete the job reads as absent |
| GraphCache.DeleteAbsent | backend/app/graphs/cache.py:27-29 | deleting a job that is not cached changes nothing |
| GraphCache.StructuralCache.constructor | backend/app/graphs/cache.py:14 | the cache starts empty |
| GraphCache.StructuralCache.Set | backend/app/graphs/cache.py:17-19 | the job's entry becomes the value, every other entry unchanged |
| GraphCache.StructuralCache.Get | backend/app/graphs/cache.py:22-24 | the job's entry, `None` when the job is not cached |
| GraphCache.StructuralCache.Delete | backend/app/graphs/cache.py:27-29 | the job's entry is removed without error when absent, every other entry unchanged |
| GraphPersistence.ValidateGraph | backend/app/graphs/persistence.py:35-39 | a `ValueError` exactly when the argument is not a dict or lacks `nodes` or `edges`; otherwise the two lists |
| GraphPersistence.FirstActive | backend/app/graphs/persistence.py:46-49 | `first()` of the job's active records: the earliest active one, none when there is none |
| GraphPersistence.DeactivatedAll | backend/app/graphs/persistence.py:146-155 | every record of the job becomes inactive and every other record is unchanged |
| GraphPersistence.PersistedSpec | backend/app/graphs/persistence.py:44-74 | after a persist exactly one record of the job is active, the new last one, with its list counts and the next version; earlier records are kept and only the previously active one is deactivated |
| GraphPersistence.NextVersionSpec | backend/app/graphs/persistence.py:51-55 | the new version is 1 with no active record, otherwise one past the active record's |
| GraphPersistence.FirstMatch | backend/app/graphs/persistence.py:95-103 | `query.first()` over the job's active records or the records of the given version: the earliest match, none when there is none |
| GraphPersistence.SemanticGraphStore.constructor | backend/app/graphs/persistence.py:13 | the table starts empty |
| GraphPersistence.SemanticGraphStore.Persist | backend/app/graphs/persistence.py:19-79 | a rejected argument raises and leaves the table as it was; otherwise the active record is deactivated and the new one appended and returned |
| GraphPersistence.SemanticGraphStore.Get | backend/app/graphs/persistence.py:82-110 | the nodes and edges of a matching record, `None` exactly when no record matches |
| GraphPersistence.SemanticGraphStore.ActiveVersion | backend/app/graphs/persistence.py:113-122 | the version of an active record of the job, `None` exactly when there is none |
| GraphPersistence.SemanticGraphStore.Delete | backend/app/graphs/persistence.py:136-160 | every record of the job is deactivated, and the result says whether any was active |
| GraphPersistence.DeleteLeavesNoActive | backend/app/graphs/persistence.py:136-160 | after a delete the job has no active record, a default read finds nothing, and at most one record per job stays active |
| GraphPersistence.VersionRestartsAfterDelete | backend/app/graphs/persistence.py:51-55 | as written, a persist after a delete starts again at version 1, so two records of the job carry version 1 and reading version 1 gives the deleted graph |
| GraphPersistence.MaxVersion | backend/app/graphs/persistence.py:51-55 | an upper bound of every version the job has had |
| GraphPersistence.IntendedVersionsDistinct | backend/app/graphs/persistence.py:1-8 | the intended persist, numbering past every earlier version, keeps versions unique per job whatever deletes came before |
| Hypotheses.SingleKey | backend/app/path_reasoning/filtering/logic.py:150-158 | a reason dict of length 1 holding "evidence_threshold" is exactly one whose only key is "evidence_threshold" |
| HypothesisPersistence.Hits | backend/app/path_reasoning/persistence.py:46-47 | `set(path) & affected_nodes`: exactly the path nodes that are affected |
| HypothesisPersistence.Deactivated | backend/app/path_reasoning/persistence.py:36-54 | the deactivation maps each row on its own, keeping the row count |
| HypothesisPersistence.HitCount | backend/app/path_reasoning/persistence.py:42-59 | the count returned never exceeds the rows of the table |
| HypothesisPersistence.DeactivatedSpec | backend/app/path_reasoning/persistence.py:22-59 | with affected nodes only the job's active rows whose path meets them are switched off, each recording exactly the nodes it meets; without them every active row of the job is switched off; versions, jobs and all other rows are unchanged |
| HypothesisPersistence.MaxVersion | backend/app/path_reasoning/persistence.py:107-109 | the largest version of any row of the job, active or not, and none exactly when the job has no rows |
| HypothesisPersistence.NewRowsSpec | backend/app/path_reasoning/persistence.py:107-143 | every inserted row is active and carries one version, past every version the job had; a hypothesis with its own domain keeps it |
| HypothesisPersistence.InsertRow | backend/app/path_reasoning/persistence.py:170 | inserting into rows ordered by confidence then creation time, both descending, keeps them ordered and adds exactly that row |
| HypothesisPersistence.SortRows | backend/app/path_reasoning/persistence.py:170 | `order_by(confidence desc, created_at desc)`: ordered and a permutation of its input |
| HypothesisPersistence.ListedRows | backend/app/path_reasoning/persistence.py:161-167 | exactly the job's active rows, and only those that passed the filter unless rejected ones are included |
| HypothesisPersistence.Page | backend/app/path_reasoning/persistence.py:171-172 | `.limit(limit).offset(offset)`: at most `limit` rows, none past the end, otherwise the slice starting at `offset` |
| HypothesisPersistence.HypothesisStore.constructor | backend/app/path_reasoning/persistence.py:1-20 | the table starts empty |
| HypothesisPersistence.HypothesisStore.Deactivate | backend/app/path_reasoning/persistence.py:22-59 | the rows are switched off as the deactivation says, and the count is the number switched off |
| HypothesisPersistence.HypothesisStore.Persist | backend/app/path_reasoning/persistence.py:75-152 | after the deactivation one new row per hypothesis is appended, in order, with the next version, and the number inserted is returned |
| HypothesisPersistence.HypothesisStore.Get | backend/app/path_reasoning/persistence.py:155-197 | an ordered page of listed rows, no longer than the limit; the first page long enough holds every listed row |
| HypothesisPersistence.SortedPage | backend/app/path_reasoning/persistence.py:169-174 | a page of the sorted rows is ordered, drawn from the listed rows, and all of them when it starts at 0 and is long enough |
| HypothesisPersistence.SameVersions | backend/app/path_reasoning/persistence.py:107-110 | the next version depends only on the job and version columns, so the deactivation does not change it |
| IncrementalMerge.CanonMap.Put | backend/app/graphs/incremental.py:61 | `canonical_map[t] = node`: the key's entry becomes the node, a new key goes last in insertion order and an old key keeps its place |
| IncrementalMerge.CanonMap.Nodes | backend/app/graphs/incremental.py:130-131 | `list(canonical_map.values())`: one concept node per key, in insertion order, with that key's aliases |
| IncrementalMerge.ExistingMap | backend/app/graphs/incremental.py:52-61 | the canonical map built from the existing nodes is well formed |
| IncrementalMerge.ExistingMapSpec | backend/app/graphs/incremental.py:52-61 | the canonical map holds exactly the existing concept texts, each with the aliases of a concept node of that text |
| IncrementalMerge.NewNodes | backend/app/graphs/incremental.py:64-65 | exactly the sanitized concept nodes whose text is not canonical yet |
| IncrementalMerge.NewTextsFresh | backend/app/graphs/incremental.py:64-65 | no new text is already canonical |
| IncrementalMerge.Target | backend/app/graphs/incremental.py:99-113 | a new text joins only a non-empty existing canonical text, never a node created during the loop |
| IncrementalMerge.MapText | backend/app/graphs/incremental.py:101-128 | one turn of the mapping loop keeps the canonical map well formed, never removes a key and keeps the insertion order of the old keys |
| IncrementalMerge.MapAll | backend/app/graphs/incremental.py:101-128 | the mapping loop keeps the canonical map well formed and never removes a key |
| IncrementalMerge.AliasesAfterSpec | backend/app/graphs/incremental.py:114-118 | aliases only grow: the old ones stay in front, every text matched to the node ends up among them, nothing else is added, and each is added at most once |
| IncrementalMerge.MapTextStep | backend/app/graphs/incremental.py:112-128 | a matched text maps to its target and is appended to the target's aliases unless already there; any other text maps to itself with a fresh node that has no aliases |
| IncrementalMerge.MapAllMapping | backend/app/graphs/incremental.py:101-128 | after the loop each new text maps to its target, or to itself when it has none |
| IncrementalMerge.MapAllKeys | backend/app/graphs/incremental.py:101-128 | after the loop the canonical texts are the old ones and the unmatched new texts |
| IncrementalMerge.MapAllAliases | backend/app/graphs/incremental.py:101-118 | an existing canonical text's aliases after the loop are its old ones plus the texts matched to it |
| IncrementalMerge.MapAllFresh | backend/app/graphs/incremental.py:119-128 | an unmatched new text ends with a node of its own that has no aliases |
| IncrementalMerge.ExistingEntries | backend/app/graphs/incremental.py:158-159 | each existing edge is passed to the edge dictionary as it is |
| IncrementalMerge.MappedEntries | backend/app/graphs/incremental.py:162-179 | the sanitized edges rewritten through the mapping, with self-loops dropped |
| IncrementalMerge.MappedEntriesKeys | backend/app/graphs/incremental.py:162-179 | a sanitized edge contributes its key iff its mapped endpoints differ |
| IncrementalMerge.OutEdges | backend/app/graphs/incremental.py:182-193 | one output edge per dictionary entry, in order |
| IncrementalMerge.EdgeDictSpec | backend/app/graphs/incremental.py:134-179 | edges merge by key: a key's support is the sum over the existing and surviving rewritten edges, and its ids of each kind are the union of theirs |
| IncrementalMerge.OutEdgesSorted | backend/app/graphs/incremental.py:182-193 | every output edge's id lists are sorted, duplicate-free and hold exactly the ids its key collected |
| IncrementalMerge.CollectCanonical | backend/app/graphs/incremental.py:52-61 | the collecting loop builds exactly the canonical map of the existing nodes |
| IncrementalMerge.MapNewTexts | backend/app/graphs/incremental.py:99-128 | the mapping loop computes the mapping and canonical map that the specification describes |
| IncrementalMerge.AddExistingEdges | backend/app/graphs/incremental.py:158-159 | the loop over the existing edges builds the dictionary of those edges |
| IncrementalMerge.AddMappedEdges | backend/app/graphs/incremental.py:162-179 | the loop over the sanitized edges adds exactly their rewritten, non-self-loop forms |
| IncrementalMerge.IncrementalMergeSemantically | backend/app/graphs/incremental.py:30-201 | the method computes the merge that the specification function describes, whose paths and results the lemmas below state |
| IncrementalMerge.MergePaths | backend/app/graphs/incremental.py:46-97 | no existing graph gives the full merge; no new concept text gives the existing graph unchanged; otherwise, once the new texts are embedded, the result counts its new nodes and its edges |
| IncrementalMerge.CanonNodes | backend/app/graphs/incremental.py:130-131 | the rebuilt nodes are concept nodes with pairwise different texts |
| IncrementalMerge.UpdatedNodes | backend/app/graphs/incremental.py:52-131 | every node of an incremental result is a concept node and no two share a text, so non-concept nodes are not carried over; existing canonical texts keep their places at the front |
| IncrementalMerge.UpdatedMapping | backend/app/graphs/incremental.py:99-128 | each new text maps to its matched canonical text, where it is now an alias, or else to itself, where a fresh node without aliases stands |
| IncrementalMerge.UpdatedKeys | backend/app/graphs/incremental.py:52-128 | a text is canonical after the merge iff it was before or is an unmatched new text |
| IncrementalMerge.UpdatedAliases | backend/app/graphs/incremental.py:114-118 | an existing canonical node keeps its aliases in front and gains only new texts matched to it, each at most once |
| IncrementalMerge.UpdatedEdges | backend/app/graphs/incremental.py:134-193 | the merged edges have one entry per key, with supports summed over the existing edges and the rewritten sanitized edges, and no rewritten edge is a self-loop |
| IndirectGroups.KeyOf | app/decision/indirect_path_measurements/indirect_paths.py:208-209 | a hypothesis has a grouping key exactly when both endpoints are truthy, and the key is the (source, target) pair |
| IndirectGroups.WithPair | app/decision/indirect_path_measurements/indirect_paths.py:207-210 | the hypotheses with a given pair, drawn from the input, empty exactly when none has that pair |
| IndirectGroups.IndexOfPair | app/decision/indirect_path_measurements/indirect_paths.py:210 | the dictionary lookup: the position of the pair's group, or -1 exactly when there is none |
| IndirectGroups.AddToGroup | app/decision/indirect_path_measurements/indirect_paths.py:210 | `groups[key].append(h)` on a defaultdict keeps every existing group's pair in place and adds at most a group for the key |
| IndirectGroups.AddToGroupLookup | app/decision/indirect_path_measurements/indirect_paths.py:210 | appending extends the members of that pair by the hypothesis and of no other pair |
| IndirectGroups.GroupsLookup | app/decision/indirect_path_measurements/indirect_paths.py:202-211 | the groups have distinct pairs and non-empty members, and each pair's members are the hypotheses with that pair |
| IndirectGroups.GroupsSpec | app/decision/indirect_path_measurements/indirect_paths.py:202-211 | the groups are exactly the keyed pairs, once each, and each holds every hypothesis with that pair in input order; a hypothesis with a falsy endpoint is in no group |
| IndirectGroups.GroupOfPair | app/decision/indirect_path_measurements/indirect_paths.py:202-211 | a pair has a group exactly when some hypothesis has that pair |
| IndirectGroups.GroupsEmpty | app/decision/indirect_path_measurements/indirect_paths.py:202-211 | there are no groups exactly when no hypothesis has two truthy endpoints |
| IndirectGroups.GroupBySourceTarget | app/decision/indirect_path_measurements/indirect_paths.py:202-211 | the grouping loop builds exactly the specified groups |
| IndirectGroups.DistinctPaths | app/decision/indirect_path_measurements/indirect_paths.py:222 | exactly the paths of hypotheses that have a `path` key |
| IndirectGroups.DistinctPathsBound | app/decision/indirect_path_measurements/indirect_paths.py:116-118 | there are no more distinct paths than hypotheses, so the dominant path ratio is at most 1 |
| IndirectGroups.PathCount | app/decision/indirect_path_measurements/indirect_paths.py:221-224 | a pair's path count is its number of distinct paths with a floor of 1, and at most its number of hypotheses |
| IndirectGroups.PathsPerPair | app/decision/indirect_path_measurements/indirect_paths.py:214-225 | one count per group, in group order |
| IndirectGroups.Confidences | app/decision/indirect_path_measurements/indirect_paths.py:133 | one confidence per hypothesis, in order |
| IndirectGroups.GroupMeans | app/decision/indirect_path_measurements/indirect_paths.py:236-238 | the mean confidence of each group, none for a group without hypotheses |
| IndirectGroups.FirstMax | app/decision/indirect_path_measurements/indirect_paths.py:233-242 | the scan's choice is a group that has a mean |
| IndirectGroups.FirstMaxSpec | app/decision/indirect_path_measurements/indirect_paths.py:233-242 | the chosen mean is above -1.0, no mean exceeds it and every earlier mean falls short of it; nothing is chosen exactly when every mean is at most -1.0 |
| IndirectGroups.DominantIndex | app/decision/indirect_path_measurements/indirect_paths.py:228-242 | the dominant group has hypotheses |
| IndirectGroups.DominantSpec | app/decision/indirect_path_measurements/indirect_paths.py:228-242 | the dominant pair has a mean above -1.0 that no group exceeds and every earlier group falls short of, so the first pair wins ties; there is none only when every mean is at most -1.0 |
| IndirectGroups.FindDominantPair | app/decision/indirect_path_measurements/indirect_paths.py:228-242 | the loop returns the pair of the dominant group, `None` when there is none |
| IndirectPaths.Intermediates | app/decision/indirect_path_measurements/indirect_paths.py:249-252 | `path[1:-1]` for a path of more than two nodes, otherwise nothing; every intermediate lies on the path |
| IndirectPaths.AllIntermediates | app/decision/indirect_path_measurements/indirect_paths.py:264-268 | exactly the intermediates of some hypothesis |
| IndirectPaths.CollectIntermediates | app/decision/indirect_path_measurements/indirect_paths.py:264-268 | the `extend` loop collects exactly the intermediates, in order |
| IndirectPaths.UniqueIntermediates | app/decision/indirect_path_measurements/indirect_paths.py:245-253 | the unique intermediates number at most the occurrences, and 0 exactly when there are none |
| IndirectPaths.Redundancy | app/decision/indirect_path_measurements/indirect_paths.py:256-278 | the redundancy score lies in [0, 1) and is 0 exactly when no intermediate repeats |
| IndirectPaths.Variance | app/decision/indirect_path_measurements/indirect_paths.py:281-287 | the variance is non-negative and 0 for fewer than two values |
| IndirectPaths.VarianceConstant | app/decision/indirect_path_measurements/indirect_paths.py:281-287 | equal values have variance 0 |
| IndirectPaths.PairMaxima | app/decision/indirect_path_measurements/indirect_paths.py:298-302 | at most one maximum per pair |
| IndirectPaths.SortedHead | app/decision/indirect_path_measurements/indirect_paths.py:307-308 | after the descending sort the first value is the largest maximum and the second one is a maximum no larger |
| IndirectPaths.ConfidenceGapFailure | app/decision/indirect_path_measurements/indirect_paths.py:290-309 | the gap is 0 with fewer than two pairs, and divides by zero exactly when there are two and the top maximum is 0 |
| IndirectPaths.GapRatio | app/decision/indirect_path_measurements/indirect_paths.py:308 | with a positive top value not below the second the gap is non-negative, at most 1 when the second is non-negative, and 0 exactly when the two are equal |
| IndirectPaths.ConfidenceGapRange | app/decision/indirect_path_measurements/indirect_paths.py:290-309 | with a positive top maximum the gap is defined and non-negative |
| IndirectPaths.GapOfRange | app/decision/indirect_path_measurements/indirect_paths.py:304-309 | the gap of positive maxima is defined and non-negative, and at most 1 when none is negative |
| IndirectPaths.ConfidenceGapUnit | app/decision/indirect_path_measurements/indirect_paths.py:290-309 | when no confidence is negative the gap is at most 1 |
| IndirectPaths.PairMaximaNonNeg | app/decision/indirect_path_measurements/indirect_paths.py:298-302 | non-negative confidences give non-negative pair maxima |
| IndirectPaths.AllNodes | app/decision/indirect_path_measurements/indirect_paths.py:320-323 | exactly the nodes of some hypothesis's path, with repeats |
| IndirectPaths.PathDiversity | app/decision/indirect_path_measurements/indirect_paths.py:312-329 | the diversity score lies in [0, 1], is 0 without path nodes and is 1 exactly when no node occurs twice |
| IndirectPaths.KeyedPairs | app/decision/indirect_path_measurements/indirect_paths.py:357-360 | exactly the (source, target) pairs whose endpoints are both truthy |
| IndirectPaths.PathDensity | app/decision/indirect_path_measurements/indirect_paths.py:346-369 | the density lies in [0, 1] and is 0 with fewer than two path nodes |
| IndirectPaths.HalfPairs | app/decision/indirect_path_measurements/indirect_paths.py:365 | the number of undirected pairs of at least two nodes is positive |
| IndirectPaths.ReasonKeyOrderFree | app/decision/indirect_path_measurements/indirect_paths.py:379-384 | reason keys and items are joined in sorted order, so their listing order does not matter |
| IndirectPaths.ReasonCountsSpec | app/decision/indirect_path_measurements/indirect_paths.py:372-390 | each summary key counts exactly the rejected hypotheses with that reason, and only keys of some rejected hypothesis appear |
| IndirectPaths.AggregateRejectionReasons | app/decision/indirect_path_measurements/indirect_paths.py:372-390 | the counting loop builds exactly the specified counts |
| IndirectPaths.GrowthRate | app/decision/indirect_path_measurements/indirect_paths.py:394-410 | 0 without a snapshot, the passed count when the previous count was 0, otherwise the relative change |
| IndirectPaths.Stability | app/decision/indirect_path_measurements/indirect_paths.py:413-436 | a fraction in [0, 1]; 0 without a snapshot; with a snapshot listing no pairs, 1 exactly when there are current hypotheses |
| IndirectPaths.SettingsFrom | app/decision/indirect_path_measurements/indirect_paths.py:38-58 | no dict or a dict without the keys gives the defaults: enabled, temporal, factor 5.0, gap threshold 0.2 |
| IndirectPaths.PassedOf | app/decision/indirect_path_measurements/indirect_paths.py:88 | exactly the hypotheses that passed the filter |
| IndirectPaths.PathLengths | app/decision/indirect_path_measurements/indirect_paths.py:168 | one path length per hypothesis |
| IndirectPaths.MeasureOutcome | app/decision/indirect_path_measurements/indirect_paths.py:61-199 | disabled gives `{}`; no hypotheses give the zero measurements; a division by zero raises exactly in the stated cases; temporal fields appear exactly when enabled |
| IndirectPaths.MeasureCounts | app/decision/indirect_path_measurements/indirect_paths.py:87-96 | the passed count is at most the total, which is the number of hypotheses; the pass ratio is a fraction; the pair count is the number of groups, 0 exactly when no hypothesis has two truthy endpoints |
| IndirectPaths.MeasurePaths | app/decision/indirect_path_measurements/indirect_paths.py:99-102 | with any pair the largest path count is between 1 and the number of hypotheses, otherwise 0 |
| IndirectPaths.MaxPathsBound | app/decision/indirect_path_measurements/indirect_paths.py:99-102 | the largest per-pair path count lies between 1 and the number of hypotheses |
| IndirectPaths.MeasureReasons | app/decision/indirect_path_measurements/indirect_paths.py:176-179 | the rejection summary counts rejected hypotheses by reason |
| IndirectPaths.MeasureRanges | app/decision/indirect_path_measurements/indirect_paths.py:113-165 | redundancy lies in [0, 1), diversity, density and the dominant path ratio in [0, 1], and the normalized maximum confidence is at most 1 |
| IndirectPaths.MeasureSpread | app/decision/indirect_path_measurements/indirect_paths.py:142-190 | both variances are non-negative, the dominance flag is exactly "gap above the threshold", and stability is a fraction |
| IndirectPaths.PathRatioUnit | app/decision/indirect_path_measurements/indirect_paths.py:113-119 | the dominant pair's path ratio is a fraction |
| IndirectPaths.MeasureDominant | app/decision/indirect_path_measurements/indirect_paths.py:107-111 | the reported dominant pair is the first pair of highest mean confidence, and none exactly when there is none |
| IndirectPaths.IndirectPathMeasurements.constructor | app/decision/indirect_path_measurements/indirect_paths.py:31-34 | the class starts with the default settings |
| IndirectPaths.IndirectPathMeasurements.LoadConfig | app/decision/indirect_path_measurements/indirect_paths.py:37-58 | every key not given goes back to its default |
| IndirectPaths.IndirectPathMeasurements.Compute | app/decision/indirect_path_measurements/indirect_paths.py:60-199 | `compute` runs the grouping, scanning and counting loops and gives the specified measurements under the current settings |
| MeasurementChecks.RawWithKey | backend/app/decision/indirect_path_measurements/tests.py:62-67 | a raw pair's list is empty exactly when no hypothesis has that pair |
| MeasurementChecks.RawGroupsSpec | backend/app/decision/indirect_path_measurements/tests.py:62-67 | every raw pair that occurs is a key of `pair_groups`, holding its hypotheses in input order, and no other pair is |
| MeasurementChecks.MaxPairPaths | backend/app/decision/indirect_path_measurements/tests.py:69-72 | `actual_max_paths`: no pair has more distinct paths, and it is 0 or some pair's count |
| MeasurementChecks.DistinctPathsCheck | backend/app/decision/indirect_path_measurements/tests.py:74-84 | the distinct-path check is skipped exactly when no pair has more than one distinct path, passes exactly when the reported maximum covers every pair, and never fails |
| MeasurementChecks.BuildPairGroups | backend/app/decision/indirect_path_measurements/tests.py:62-67 | the grouping loop builds exactly the raw pair groups |
| MeasurementChecks.MaxDistinctPaths | backend/app/decision/indirect_path_measurements/tests.py:69-72 | the loop over the dict's values, in any order, gives a bound on every group's distinct paths that some group reaches, or 0 |
| MeasurementChecks.ComputeActualMaxPaths | backend/app/decision/indirect_path_measurements/tests.py:62-72 | grouping then maximizing gives the specified `actual_max_paths` |
| MeasurementChecks.ValidateMeasurements | backend/app/decision/indirect_path_measurements/tests.py:12-133 | `validate_measurements` fills every check as the specification says |
| MeasurementChecks.SameMaximum | backend/app/decision/indirect_path_measurements/tests.py:69-72 | the maximum over the dict's groups equals the maximum over the hypotheses' pairs |
| MeasurementChecks.RawWithKeyMembers | backend/app/decision/indirect_path_measurements/tests.py:62-67 | a raw pair's list holds only hypotheses of the input with that pair |
| MeasurementChecks.ChecksOfRecord | backend/app/decision/indirect_path_measurements/tests.py:12-133 | a record whose fields lie in their ranges passes the count, ratio, redundancy, diversity, density and variance checks; the temporal check passes exactly when the temporal fields are present |
| MeasurementChecks.ComputedPassesChecks | backend/app/decision/indirect_path_measurements/tests.py:12-133 | measurements computed from a non-empty list pass every count and range check; the temporal check passes exactly when the placeholders are on, and the confidence check too when the factor is positive and no passed confidence is negative |
| MeasurementChecks.MaxNormalizedNonNeg | backend/app/decision/indirect_path_measurements/tests.py:94-99 | non-negative passed confidences give a non-negative normalized maximum |
| MeasurementChecks.ZeroPassesChecks | backend/app/decision/indirect_path_measurements/tests.py:12-133 | with no hypotheses the zero measurements pass every check but the skipped distinct-path one |
| Metadata.DigitRunEnd | app/graphs/rules/metadata.py:10-14 | the end of the run of digits starting at a position: everything before it is a digit and the character at it is not |
| Metadata.DigitRunEndAt | app/graphs/rules/metadata.py:10-14 | the digit run ends at a position exactly when everything before it is a digit and the character at it is not |
| Metadata.RemoveAll | app/graphs/rules/metadata.py:11 | `str.replace(p, "")` never lengthens the text |
| Metadata.FourDigits | app/graphs/rules/metadata.py:10 | a four-digit year's value is its digits read in base 10 |
| Metadata.YearAsWritten | app/graphs/rules/metadata.py:10 | as written, the year pattern matches exactly the years 1900-2099, but its lambda reads a group the pattern lacks and always raises |
| Metadata.YearExtraction | app/graphs/rules/metadata.py:10 | as intended, a year that matches is extracted as its integer, between 1900 and 2099 |
| Metadata.DoiAsWritten | app/graphs/rules/metadata.py:11 | as written, the DOI pattern matches only the bare prefix "doi:" or a numeric DOI |
| Metadata.DoiExtraction | app/graphs/rules/metadata.py:11 | as intended, a numeric DOI with or without a "doi:" prefix matches |
| Metadata.IssnGroups | app/graphs/rules/metadata.py:12 | the two groups of the ISSN pattern are four digits each |
| Metadata.IssnExtraction | app/graphs/rules/metadata.py:12 | the ISSN pattern matches exactly "issn" in any case followed by two four-digit groups |
| Metadata.AfterPrefix | app/graphs/rules/metadata.py:13-14 | the text after an optional case-insensitive prefix is no longer than the text |
| Metadata.ArxivExtraction | app/graphs/rules/metadata.py:13 | the arXiv pattern matches exactly a decimal after an optional "arxiv:" |
| Metadata.PmidExtraction | app/graphs/rules/metadata.py:14 | the PMID pattern matches exactly "pmid" in any case, an optional colon and digits, and yields an integer |
| Metadata.UrlExtraction | app/graphs/rules/metadata.py:15 | a matching URL is extracted whole |
| Metadata.FirstExtracted | app/graphs/rules/metadata.py:32-40 | the first attempt that produced a value, with its attribute name; `(None, None)` exactly when none did |
| Metadata.AttemptsOrder | app/graphs/rules/metadata.py:17-24 | the extractors are tried in list order |
| Metadata.ExtractFirstMatch | app/graphs/rules/metadata.py:27-40 | the result is the first extractor in list order that yields a value; a match whose extractor raised is passed over; `(None, None)` when none yields one |
| Metadata.EdgeTypesCover | app/graphs/rules/metadata.py:44-51 | every attribute name has an edge type, and each edge type is "has_" followed by a tag |
| Metadata.DigitFirstUnprefixed | app/graphs/rules/metadata.py:11-15 | a text that starts with a digit matches no prefixed pattern and no URL |
| Metadata.YearMatchesOnlyYear | app/graphs/rules/metadata.py:10-15 | a year matches no other extractor's pattern |
| Metadata.YearAsWrittenIsLost | app/graphs/rules/metadata.py:10 | as written, a bare year yields no metadata at all |
| Metadata.YearIsExtracted | app/graphs/rules/metadata.py:10 | as intended, a bare year yields the "year" attribute with its value |
| Metadata.Year2020 | app/graphs/rules/metadata.py:10 | "2020" yields nothing as written and ("year", 2020) as intended |
| Metadata.PrefixedDoiAsWritten | app/graphs/rules/metadata.py:11 | as written, "doi:10.1000/182" matches no pattern |
| Metadata.DoiValuePrefixed | app/graphs/rules/metadata.py:11 | removing "doi:" and "DOI:" from a prefixed DOI leaves the rest when it holds no further prefix |
| Metadata.PrefixedDoiExtracted | app/graphs/rules/metadata.py:11 | as intended, a "doi:" prefix before a numeric DOI is accepted and removed from the value |
| Metadata.PrefixedDoi | app/graphs/rules/metadata.py:11 | "doi:10.1000/182" yields ("doi", "10.1000/182") as intended |
| Metadata.DoiFirst | app/graphs/rules/metadata.py:17-24 | when the year extractor does not match, a matching DOI wins |
| Metadata.RemoveAbsent | app/graphs/rules/metadata.py:11 | removing a pattern whose first character does not occur leaves the text unchanged |
| Metadata.IssnFormat | app/graphs/rules/metadata.py:12 | an ISSN value is always eight digits with a hyphen in the middle |
| Metadata.IssnGroupsPlain | app/graphs/rules/metadata.py:12 | both groups of an ISSN without separators are read back |
| Metadata.IssnGroupsSep | app/graphs/rules/metadata.py:12 | both groups of an ISSN with one separator are read back |
| Metadata.IssnRoundTrip | app/graphs/rules/metadata.py:12 | "ISSN" in any case, two groups of four digits and an optional separator give "dddd-dddd" |
| NodeRules.LoadRules | backend/app/graphs/rules/node_types.py:21-36 | the exact words are exactly the configured words lowercased, and only patterns that compiled are kept |
| NodeRules.Compiled | backend/app/graphs/rules/node_types.py:27-32 | a pattern that fails to compile is dropped, so no more patterns are kept than configured |
| NodeRules.AnyMatchSpec | backend/app/graphs/rules/node_types.py:65-67 | some removal pattern matches exactly when one of them does |
| NodeRules.Classify | backend/app/graphs/rules/node_types.py:43-70 | the class is "noise" or "concept", and a non-string or empty node is noise |
| NodeRules.ClassifySpec | backend/app/graphs/rules/node_types.py:53-70 | a node is a concept iff it is a non-blank string whose stripped text is neither a removal word, ignoring case, nor matched by a removal pattern |
| NodeRules.StripInvariant | backend/app/graphs/rules/node_types.py:56 | surrounding whitespace never changes a node's class |
| NodeRules.NoRulesKeepsNonBlank | backend/app/graphs/rules/node_types.py:34-36 | when the configuration fails to load only blank nodes are noise |
| NodeRules.MoreRulesMoreNoise | backend/app/graphs/rules/node_types.py:60-67 | more removal words or patterns never turn noise back into a concept |
| NodeRules.IsImpactful | backend/app/graphs/rules/node_types.py:79-80 | a text shorter than two characters is never impactful |
| NodeRules.ImpactfulSpec | backend/app/graphs/rules/node_types.py:73-98 | the acronym rule adds nothing: a text of two or more characters is impactful iff it starts with a capital or contains a space, a hyphen or a digit |
| PdfAdapter.StripDots | backend/app/ingestion/adapters/pdf.py:46 | `rstrip(".")` removes exactly the trailing periods |
| PdfAdapter.DetectRegion | backend/app/ingestion/adapters/pdf.py:41-47 | a block longer than 80 characters is no heading; otherwise it names the region its lowercased, stripped, period-trimmed text maps to, if any |
| PdfAdapter.DetectIgnoresCase | backend/app/ingestion/adapters/pdf.py:46 | heading detection ignores letter case |
| PdfAdapter.DetectIgnoresPeriod | backend/app/ingestion/adapters/pdf.py:46 | a trailing period after a heading does not change what it detects |
| PdfAdapter.Emitted | backend/app/ingestion/adapters/pdf.py:121-131 | a flush emits a region exactly when the buffer is non-empty, the region is named and whitelisted and the joined text is not blank; it carries the stripped joined text, the region and the page |
| PdfAdapter.Flush | backend/app/ingestion/adapters/pdf.py:121-131 | `_flush` appends exactly the emitted region, if any, to the output |
| PdfAdapter.ClassifySpec | backend/app/ingestion/adapters/pdf.py:72-103 | a block is skipped exactly when its stripped text is empty; otherwise it prunes exactly when its first 80 lowercase characters hold an excluded marker, and otherwise it is a heading or body text as heading detection decides, with its stripped text |
| PdfAdapter.Kinds | backend/app/ingestion/adapters/pdf.py:72-103 | one kind per block of the page |
| PdfAdapter.DocKinds | backend/app/ingestion/adapters/pdf.py:63-103 | one list of kinds per page |
| PdfAdapter.EmittedGood | backend/app/ingestion/adapters/pdf.py:121-131 | every emitted region is whitelisted with stripped, non-empty text |
| PdfAdapter.StepGood | backend/app/ingestion/adapters/pdf.py:72-103 | one block keeps the scan good: text is buffered only inside a named region, and every region emitted is whitelisted with stripped, non-empty text |
| PdfAdapter.ScanBlocksGood | backend/app/ingestion/adapters/pdf.py:72-103 | the block loop keeps the scan good |
| PdfAdapter.ScanPagesGood | backend/app/ingestion/adapters/pdf.py:63-103 | the page loop keeps the scan good |
| PdfAdapter.ScannedRegionsGood | backend/app/ingestion/adapters/pdf.py:49-107 | every region the scan returns is whitelisted and has stripped, non-empty text |
| PdfAdapter.HeadingStep | backend/app/ingestion/adapters/pdf.py:89-103 | a heading of another region flushes the buffer, starts the new region and is not buffered; a heading of the current region flushes nothing and is buffered like body text |
| PdfAdapter.OutsideRegionDropped | backend/app/ingestion/adapters/pdf.py:100-103 | outside a named region, text that is not a heading is dropped |
| PdfAdapter.ExclusionPrunes | backend/app/ingestion/adapters/pdf.py:79-86 | a block whose first 80 lowercase characters hold an excluded marker flushes the buffer and prunes the scan |
| PdfAdapter.ScanPagesAppend | backend/app/ingestion/adapters/pdf.py:63-103 | scanning two runs of pages is scanning the first, then the second |
| PdfAdapter.PruneIsFinal | backend/app/ingestion/adapters/pdf.py:63-86 | once a block prunes the scan, neither the rest of its page nor any later page changes the state |
| PdfAdapter.PageTexts | backend/app/ingestion/adapters/pdf.py:145 | one stripped text per page |
| PdfAdapter.PageTextsClean | backend/app/ingestion/adapters/pdf.py:145 | every page text starts and ends without whitespace |
| PdfAdapter.TakeWithin | backend/app/ingestion/adapters/pdf.py:144-158 | no more texts are taken than there are |
| PdfAdapter.FallbackLoopTakes | backend/app/ingestion/adapters/pdf.py:144-158 | the loop takes, after what it has already taken, the non-empty texts in order for as long as they fit the budget |
| PdfAdapter.TakeWithinSpec | backend/app/ingestion/adapters/pdf.py:139-158 | the texts taken are a prefix of the candidates, fit within `max_tokens * 3.5` characters, and the first one left out would not have fit |
| PdfAdapter.FallbackTextsSpec | backend/app/ingestion/adapters/pdf.py:134-160 | the fallback takes the leading non-blank pages that fit the budget: a prefix of them, within the budget, the next one would not fit, and each is non-empty and stripped |
| PdfAdapter.FallbackBlank | backend/app/ingestion/adapters/pdf.py:112 | the fallback text is blank exactly when no page is taken |
| PdfAdapter.IsExcluded | backend/app/ingestion/adapters/pdf.py:81 | `any(exc in lower_text[:80] for exc in excluded)` |
| PdfAdapter.ClassifyBlock | backend/app/ingestion/adapters/pdf.py:73-98 | the block loop's tests, in its order, give the block's specified kind |
| PdfAdapter.ApplyBlock | backend/app/ingestion/adapters/pdf.py:79-103 | one classified block changes the loop's state as the specified step does |
| PdfAdapter.ScanPage | backend/app/ingestion/adapters/pdf.py:72-103 | the loop over one page's blocks computes the specified scan |
| PdfAdapter.ScanDocument | backend/app/ingestion/adapters/pdf.py:55-107 | the page loop and the final flush return exactly the scanned regions |
| PdfAdapter.ReadPageText | backend/app/ingestion/adapters/pdf.py:145 | the page's stripped text, which starts and ends without whitespace |
| PdfAdapter.FallbackProgressive | backend/app/ingestion/adapters/pdf.py:134-160 | `_extract_fallback_progressive` returns the specified fallback text |
| PdfAdapter.ExtractRegions | backend/app/ingestion/adapters/pdf.py:49-119 | `extract_regions` returns the specified extraction |
| PdfAdapter.ExtractionSpec | backend/app/ingestion/adapters/pdf.py:49-119 | whitelisted regions with non-empty stripped text; only when there are none and the budget is positive, a single fallback region on page 1 made of the leading pages that fit the budget, and nothing when that text is empty |
| Sanitize.NoiseNodes | backend/app/graphs/sanitize.py:38-40 | `noise_nodes` is exactly the input nodes classified as noise |
| Sanitize.CleanEdges | backend/app/graphs/sanitize.py:49-53 | no more edges survive than there were |
| Sanitize.OutputNodes | backend/app/graphs/sanitize.py:60-64 | no more output nodes than input nodes |
| Sanitize.CleanIndices | backend/app/graphs/sanitize.py:49-53 | the positions of the surviving edges lie within the edge list |
| Sanitize.OutputNodesSpec | backend/app/graphs/sanitize.py:60-64 | the output nodes are the kept texts, in input order, each typed "concept" |
| Sanitize.ConceptTextsMembers | backend/app/graphs/sanitize.py:60-64 | a text is an output node iff the input holds it and the classifier keeps it |
| Sanitize.CleanEdgesSpec | backend/app/graphs/sanitize.py:49-53 | the surviving edges are the input edges at increasing positions, unchanged, and an edge is dropped exactly when it touches a noise node |
| Sanitize.CleanEdgesMembers | backend/app/graphs/sanitize.py:49-53 | an edge survives iff it is an input edge touching no noise node |
| Sanitize.SanitizeSpec | backend/app/graphs/sanitize.py:20-77 | the nodes are the kept texts in order, the removed nodes are exactly the noise nodes, no edge touches a removed node, and the summary counts are the sizes before and after |
| Segmenter.StrippedNonBlank | backend/app/ingestion/segmenter.py:26 | `[s.strip() for s in pieces if s.strip()]`: no more pieces than given, each trimmed and non-empty |
| Segmenter.TrimSpec | backend/app/ingestion/segmenter.py:26 | what `strip()` leaves is empty or trimmed, and a trimmed string is left as it is |
| Segmenter.SentencePieces | backend/app/ingestion/segmenter.py:25 | `re.split(r'(?<=[.!?])\s+', t)`: at least one piece, and every piece but the last ends in `.`, `!` or `?` |
| Segmenter.Sentences | backend/app/ingestion/segmenter.py:25-26 | the sentences of a text are the stripped non-blank pieces, each trimmed |
| Segmenter.ChunkCount | backend/app/ingestion/segmenter.py:29-32 | one block per started group of sentences: ceil(#sentences / n) blocks |
| Segmenter.ChunksRejoin | backend/app/ingestion/segmenter.py:29-32 | joining the blocks with spaces gives back the sentences joined with spaces: nothing is split, dropped or reordered |
| Segmenter.ChunksTrimmed | backend/app/ingestion/segmenter.py:29-32 | every block is trimmed and non-empty when the sentences are |
| Segmenter.GroupBlock | backend/app/ingestion/segmenter.py:30-32 | the group at `i`, joined, is the first block of what is left, and `strip()` leaves it as it is |
| Segmenter.SentenceStep | backend/app/ingestion/segmenter.py:29-32 | the sentence loop keeps its invariant: the blocks so far, then the chunks of the rest, are all the chunks |
| Segmenter.SegmentBySentences | backend/app/ingestion/segmenter.py:13-34 | a group size of 0 raises, a negative one gives no blocks, and a positive one gives the chunks of the sentences |
| Segmenter.GroupSentences | backend/app/ingestion/segmenter.py:28-34 | the loop builds exactly the chunks of the sentences |
| Segmenter.ParagraphPieces | backend/app/ingestion/segmenter.py:49 | `re.split(r'\n{2,}', t)` gives at least one piece |
| Segmenter.Paragraphs | backend/app/ingestion/segmenter.py:49-50 | every paragraph kept is trimmed and non-empty |
| Segmenter.Merged | backend/app/ingestion/segmenter.py:53-64 | no more blocks than paragraphs, and at least one when the first paragraph is non-empty |
| Segmenter.MergedLong | backend/app/ingestion/segmenter.py:54-62 | every block after the first is longer than the minimum |
| Segmenter.MergedJoinStep | backend/app/ingestion/segmenter.py:57-60 | one more short paragraph adds `" " + p` to the joined blocks once there is a block |
| Segmenter.MergedRejoin | backend/app/ingestion/segmenter.py:53-64 | joining the blocks with spaces gives back the paragraphs joined with spaces |
| Segmenter.ParagraphStep | backend/app/ingestion/segmenter.py:54-62 | one turn of the paragraph loop: a long paragraph is a new block, a short one extends the last block in place or starts the first |
| Segmenter.SegmentByParagraphs | backend/app/ingestion/segmenter.py:37-64 | `segment_by_paragraphs` returns the merged paragraphs |
| Segmenter.MergeParagraphs | backend/app/ingestion/segmenter.py:53-64 | the loop builds exactly the merged paragraphs |
| Segmenter.BlockIsStrip | backend/app/ingestion/segmenter.py:83-84 | the window's block is `text[start:end].strip()` |
| Segmenter.BlockSpec | backend/app/ingestion/segmenter.py:83-87 | a non-empty block is a piece of the text, free of surrounding whitespace and no longer than the window |
| Segmenter.WindowsFromSpec | backend/app/ingestion/segmenter.py:82-90 | every block the window loop adds from a position on is a good block |
| Segmenter.WindowsSpec | backend/app/ingestion/segmenter.py:67-92 | every block is a piece of the text, non-empty, free of surrounding whitespace and no longer than the window |
| Segmenter.WindowStep | backend/app/ingestion/segmenter.py:82-90 | one turn of the window loop keeps a non-empty block and moves the start by the window less a positive overlap |
| Segmenter.NoStepStalls | backend/app/ingestion/segmenter.py:82-90 | as written, with a window step that is not positive every window start stays at or before 0, inside a non-empty text, so the loop never ends |
| Segmenter.SegmentByLength | backend/app/ingestion/segmenter.py:67-92 | `segment_by_length` returns the specified windows |
| Segmenter.Segment | backend/app/ingestion/segmenter.py:126-158 | an unknown strategy raises; "sentences" with a positive size, "paragraphs" and "length" give their segmentations with the documented defaults; "sections" gives each section's text, in order |
| LeadSelection.FindGroup | backend/app/fetching/selection.py:73 | the dict lookup of a pair: its position exactly when the pair has a group |
| LeadSelection.AddLeadSpec | backend/app/fetching/selection.py:53-92 | one iteration keeps pairs unique and changes only the group of the lead's own pair: a new group for a new pair, otherwise that group joined by the lead |
| LeadSelection.GroupsOfDistinct | backend/app/fetching/selection.py:51-92 | no two groups share a pair |
| LeadSelection.GroupsOfHas | backend/app/fetching/selection.py:53-80 | a pair has a group iff some passed or evidence-only-rejected hypothesis with two truthy endpoints has that pair |
| LeadSelection.GroupsOfPassed | backend/app/fetching/selection.py:84-86 | a group is passed iff one of its members passed |
| LeadSelection.GroupsOfLeader | backend/app/fetching/selection.py:88-92 | a group's leader is its first member of highest confidence, and the group's confidence is the leader's |
| LeadSelection.LeaderLast | backend/app/fetching/selection.py:90-92 | a new member that beats every earlier member becomes the leader |
| LeadSelection.LeaderKept | backend/app/fetching/selection.py:90 | an earlier leader stays when the new member does not beat it, so ties keep the first |
| LeadSelection.Tier | backend/app/fetching/selection.py:98-102 | one tier holds exactly the groups with that passed status |
| LeadSelection.Take | backend/app/fetching/selection.py:112-122 | the first `n` groups, or all of them, and none for `n <= 0` |
| LeadSelection.Leaders | backend/app/fetching/selection.py:125 | one leader per selected group, in order |
| LeadSelection.RankedTier | backend/app/fetching/selection.py:98-106 | a ranked tier holds exactly the groups of that tier, sorted by descending group confidence, with distinct pairs |
| LeadSelection.ConcatTiers | backend/app/fetching/selection.py:109-122 | a prefix of the passed tier then a prefix of the low-confidence tier puts passed groups first, keeps each tier's order and repeats no pair |
| LeadSelection.FillSpec | backend/app/fetching/selection.py:109-122 | the fill gives at most k groups, each from one tier, passed ones first, each tier in ranked order, and no pair twice |
| LeadSelection.SelectedGroupsSpec | backend/app/fetching/selection.py:50-122 | the selected groups are groups of the dict, at most k of them, passed before low-confidence, non-increasing in confidence within a tier, and no two share a pair |
| LeadSelection.GroupLeaderPair | backend/app/fetching/selection.py:73-92 | every group is led by a hypothesis of its own pair |
| LeadSelection.SelectionSpec | backend/app/fetching/selection.py:14-134 | the result is empty for an empty input, has at most k leaders and at most one per group, and no two leaders share a (source, target) pair |
| LeadSelection.GroupLeads | backend/app/fetching/selection.py:51-92 | the grouping loop builds exactly the specified groups, with distinct pairs |
| LeadSelection.SplitTiers | backend/app/fetching/selection.py:95-102 | the split gives exactly the two tiers in dict order |
| LeadSelection.FillTopK | backend/app/fetching/selection.py:109-122 | the two fill loops give exactly the specified fill |
| LeadSelection.SelectTopDiverseLeads | backend/app/fetching/selection.py:14-134 | with the hypotheses given, the method returns the specified selection |
| Sorting.InsertUnique | backend/app/path_reasoning/reasoning.py:361-373 | adding an id to an id set kept in increasing order keeps it increasing and adds exactly that id |
| Sorting.SortedSet | backend/app/path_reasoning/reasoning.py:383-385 | `sorted(list(set))` is strictly increasing and holds exactly the ids collected |
| Sorting.Flatten | backend/app/path_reasoning/reasoning.py:368-373 | the ids collected from a list of id lists are exactly those of some list |
| Sorting.InsertDesc | backend/app/fetching/selection.py:105-106 | one insertion step of the descending sort keeps the list sorted and adds exactly the new element |
| Sorting.SortDesc | backend/app/fetching/selection.py:105-106 | `sort(key=..., reverse=True)` gives a permutation of its input sorted by non-increasing key |
| Sorting.SortDescStable | backend/app/fetching/selection.py:105-106 | the descending sort is stable: elements with equal keys keep their input order |
| Sorting.InsertString | app/decision/indirect_path_measurements/indirect_paths.py:380-383 | one insertion step of the string sort keeps the list ordered and adds exactly the new string |
| Sorting.SortStrings | app/decision/indirect_path_measurements/indirect_paths.py:380-383 | `sorted` on strings gives a permutation of its input in lexicographic order |
| Sorting.LexLeTotal | app/decision/indirect_path_measurements/indirect_paths.py:380-383 | the string order `sorted` uses is total: of two strings one is at most the other |
| SemanticMerge.Texts | backend/app/graphs/semantic.py:139 | the text of each concept node, position by position |
| SemanticMerge.ConceptNodes | backend/app/graphs/semantic.py:31-51 | a node is kept iff it is a mergeable concept: a dict typed "concept" whose text is non-empty, at least two characters once stripped, not all digits and without "://" |
| SemanticMerge.ConceptIndexKeys | backend/app/graphs/semantic.py:50 | the text index knows exactly the texts of the kept nodes |
| SemanticMerge.ConceptIndexSpec | backend/app/graphs/semantic.py:50 | the index maps a kept text to the position of a kept node with that text |
| SemanticMerge.ConceptIndexLast | backend/app/graphs/semantic.py:50 | with duplicate texts the index keeps the last position: no later kept node has that text |
| SemanticMerge.FilterConceptNodes | backend/app/graphs/semantic.py:21-54 | the scan returns exactly the kept nodes and the text index |
| SemanticMerge.Degree | backend/app/graphs/semantic.py:125-131 | a node's degree counts the edges that name it as subject or object, so never more than the edges |
| SemanticMerge.RankOrder | backend/app/graphs/semantic.py:142-145 | the sort key ranks a text first only if it is no longer, and among equally long texts only if its degree is no lower |
| SemanticMerge.Without | backend/app/graphs/semantic.py:148 | the aliases are the sorted texts other than the canonical one |
| SemanticMerge.CanonicalSpec | backend/app/graphs/semantic.py:136-150 | the canonical text is a shortest text of the cluster, of highest degree among the shortest; it is not an alias, and it and its aliases are exactly the cluster's texts |
| SemanticMerge.ClusterTexts | backend/app/graphs/semantic.py:117-139 | a cluster's texts are concept texts, non-empty for every label used, and include every concept carrying that label |
| SemanticMerge.CanonicalMapSpec | backend/app/graphs/semantic.py:133-153 | a label has an entry iff it is a cluster label, and its entry is the canonical pair of its own texts |
| SemanticMerge.CanonicalMapStep | backend/app/graphs/semantic.py:134-150 | each cluster in turn adds its own entry and changes no other |
| SemanticMerge.SelectCanonicalLabels | backend/app/graphs/semantic.py:105-153 | the pass over the clusters in order of first appearance returns exactly the specified map |
| SemanticMerge.Rewritten | backend/app/graphs/semantic.py:181-201 | no rewritten edge is a self-loop |
| SemanticMerge.EdgesOut | backend/app/graphs/semantic.py:204-209 | one output edge per dict entry, with its subject, predicate, object and support |
| SemanticMerge.RewriteEdges | backend/app/graphs/semantic.py:156-211 | the loop that fills the edge dict returns exactly the specified rewritten edges |
| SemanticMerge.RewrittenTotal | backend/app/graphs/semantic.py:194-201 | the support kept plus the support of the dropped self-loops is the input's support |
| SemanticMerge.RewrittenKeys | backend/app/graphs/semantic.py:181-201 | a key is rewritten iff some input edge that does not collapse into a self-loop maps to it |
| SemanticMerge.RewriteSpec | backend/app/graphs/semantic.py:156-211 | one edge per key, never a self-loop, its support the sum over the input edges rewritten to that key; a key appears iff some non-collapsing input edge maps to it, predicates kept as they are; total support is the input's less the dropped self-loops' |
| SemanticMerge.AddAllKeysFrom | backend/app/graphs/semantic.py:200-201 | every key of the edge dict comes from an added edge |
| SemanticMerge.CanonicalNodes | backend/app/graphs/semantic.py:266-297 | one concept node per cluster, in the clusters' order, with the canonical text and its aliases |
| SemanticMerge.OtherNodes | backend/app/graphs/semantic.py:300-304 | the dict nodes not typed "concept" pass through as they are |
| SemanticMerge.MergeReady | backend/app/graphs/semantic.py:172-177 | every cluster label and every indexed text finds its entry, so the strict lookup never misses |
| SemanticMerge.MergeSemantically | backend/app/graphs/semantic.py:214-320 | the filter, label and rewrite passes and the assembly return exactly the specified merge |
| SemanticMerge.MergeShape | backend/app/graphs/semantic.py:262-311 | with concept nodes, the merged graph has one node per cluster followed by the non-concept nodes, and no edge is a self-loop |
| SemanticMerge.MergeNames | backend/app/graphs/semantic.py:136-150 | each concept's cluster is named by a shortest text of that cluster, and the concept's own text is that name or one of its aliases |
| Structural.RunEnd | app/graphs/structural.py:59 | the greedy `[A-Z0-9]` run from a position ends at the first character outside the class |
| Structural.FirstAcronym | app/graphs/structural.py:59 | `re.search` finds the leftmost position where the acronym pattern matches, or none iff it matches nowhere |
| Structural.ExtractAcronymSpec | app/graphs/structural.py:58-62 | the acronym is "" iff the pattern matches nowhere; otherwise it is the run of two or more A-Z/0-9 characters inside the leftmost match |
| Structural.AcronymRoundTrip | app/graphs/structural.py:58-62 | a parenthesised acronym, with an optional plural `s`, at the start of a text is the one extracted |
| Structural.LongestMatch | app/graphs/structural.py:114-116 | the longest-first scan stops at a key contained in the text of greatest length, the earliest of those on a tie, and at none iff no key is contained |
| Structural.LookupRelation | app/graphs/structural.py:125-126 | `PREDICATE_MAP[lemma]` gives the key's relation when the lemma is a key, and nothing otherwise |
| Structural.ProjectPredicateSpec | app/graphs/structural.py:101-129 | an empty predicate is `related_to`; a predicate containing a map key maps to the relation of a longest such key, without the language model; it fails only when the model's lemma fails |
| Structural.ProjectSubject | app/graphs/structural.py:65-98 | "" for an empty text, else the acronym when there is one, else the model's handle; it fails only when that handle fails |
| Structural.ProjectObject | app/graphs/structural.py:140-175 | "" for an empty text, else the model's handle; it fails only when that handle fails |
| Structural.ProjectRow | app/graphs/structural.py:202-206 | a triple keeps its ids; a triple with no subject, predicate or object projects to ("", "related_to", ""); a triple without a key is one whose projection raised |
| Structural.ProjectRows | app/graphs/structural.py:198-206 | one projection per triple, in order |
| Structural.SpecMembers | app/graphs/structural.py:207-225 | a key is projected iff some triple projects to it, and a triple id is under that key iff some triple with that key has it |
| Structural.SpecStep | app/graphs/structural.py:218-225 | one more triple changes only its own key's id sets, by its own ids |
| Structural.KeySetStep | app/graphs/structural.py:207-216 | one more triple adds its key, if it has one, to the keys seen |
| Structural.GroupProjections | app/graphs/structural.py:198-229 | the loop builds a dict whose keys are exactly the projected keys, each holding the expected support and id sets |
| Structural.AddProjection | app/graphs/structural.py:199-229 | one pass of the loop keeps the dict describing the triples seen so far |
| Structural.SkipPreserves | app/graphs/structural.py:227-229 | a triple whose projection raised changes nothing |
| Structural.RecordPreserves | app/graphs/structural.py:207-225 | recording a triple into its key's entry, created empty when new, keeps the dict describing the triples seen |
| Structural.ExpectedStep | app/graphs/structural.py:218-225 | one more triple records itself into its own key's metadata and leaves the others alone |
| Structural.NoKeyNoIds | app/graphs/structural.py:207-225 | a key no triple projects to carries no ids |
| Structural.KeyLeTotal | app/graphs/structural.py:234 | the tuple order on keys is total |
| Structural.InsertKey | app/graphs/structural.py:234 | one insertion step of the key sort keeps the keys ordered and adds exactly the new key |
| Structural.SortedKeysOf | app/graphs/structural.py:234 | the dict's keys in tuple order, each once |
| Structural.RenderEdge | app/graphs/structural.py:237-245 | an edge carries its key, its support and its triple, block and source ids sorted without repeats |
| Structural.RenderEdges | app/graphs/structural.py:234-245 | one edge per sorted key, each rendering its own entry; the nodes seen are exactly the keys' subjects and objects |
| Structural.EdgesCover | app/graphs/structural.py:234-245 | every key of the dict gets its edge |
| Structural.NodesCover | app/graphs/structural.py:235-236 | the nodes are exactly the subjects and objects of the dict's keys |
| Structural.RenderStructuralGraph | app/graphs/structural.py:232-247 | one edge per key in key order, each rendering its entry, and the sorted nodes are exactly the keys' endpoints |
| Structural.ProjectStructuralGraph | app/graphs/structural.py:178-254 | the result carries the job id, the number of triples and of projected groups, and a graph rendering the dict that describes the triples |
| TripleNormalizer.Collapse | app/graphs/normalizer.py:31 | collapsing whitespace never lengthens the text |
| TripleNormalizer.CollapseEnds | app/graphs/normalizer.py:31 | a collapsed text starts and ends with a space exactly when the input starts and ends with whitespace |
| TripleNormalizer.CollapseSingle | app/graphs/normalizer.py:31 | a collapsed text holds whitespace only as single spaces |
| TripleNormalizer.CollapseLower | app/graphs/normalizer.py:25-31 | collapsing keeps a lowercased text lower-case |
| TripleNormalizer.CollapseNonSpace | app/graphs/normalizer.py:31 | collapsing changes only whitespace: the non-space characters are kept in order |
| TripleNormalizer.TrimPunct | app/graphs/normalizer.py:34 | the trailing-punctuation substitution keeps a prefix that does not end in . , ; or :, and removes only those characters |
| TripleNormalizer.SliceShape | app/graphs/normalizer.py:34 | a contiguous piece of a lower-case, single-spaced text keeps both properties |
| TripleNormalizer.CollapsedShape | app/graphs/normalizer.py:25-31 | lowercasing, stripping and collapsing give a lower-case, single-spaced text that does not start with whitespace |
| TripleNormalizer.NormalizedShape | app/graphs/normalizer.py:11-36 | a non-string is ""; every normalized component is lower-case, has no surrounding whitespace and holds whitespace only as single spaces |
| TripleNormalizer.TrimmedPrefix | app/graphs/normalizer.py:34 | trimming punctuation and stripping keep a prefix of the collapsed text whose dropped tail is spaces and punctuation |
| TripleNormalizer.NormalizedPrefix | app/graphs/normalizer.py:11-36 | the component is a prefix of the lowercased, stripped, collapsed input, and only spaces and trailing punctuation are dropped after it |
| TripleNormalizer.NormalizeTripleShape | app/graphs/normalizer.py:39-48 | each component of a normalized triple has the normalized shape, and a non-string component is "" |
| IngestNormalizer.ReplaceKeepsAbsent | backend/app/ingestion/normalizer.py:34-38 | a replacement that introduces no dash does not bring back a dash already removed |
| IngestNormalizer.Run | backend/app/ingestion/normalizer.py:90 | `\S+` takes the longest run of non-whitespace characters, stopping at whitespace or the end |
| IngestNormalizer.PiecesRender | backend/app/ingestion/normalizer.py:90-94 | rendering the scanned pieces with each URL as itself gives the text back |
| IngestNormalizer.PiecesLinks | backend/app/ingestion/normalizer.py:90-91 | every URL the scan reports matches `https?://\S+\|www\.\S+` |
| IngestNormalizer.RunUrl | backend/app/ingestion/normalizer.py:90 | the run a URL match takes is itself a match |
| IngestNormalizer.StrippedLines | backend/app/ingestion/normalizer.py:51-54 | every line kept is non-empty and starts and ends with a non-whitespace character |
| IngestNormalizer.DropSpaces | backend/app/ingestion/normalizer.py:58 | dropping leading spaces removes only spaces and stops at a non-space |
| IngestNormalizer.DropSpacesNonSpace | backend/app/ingestion/normalizer.py:58 | dropping leading spaces loses no non-whitespace character |
| IngestNormalizer.StripSub | backend/app/ingestion/normalizer.py:51 | `strip()` adds no character |
| IngestNormalizer.JoinNonSpace | backend/app/ingestion/normalizer.py:51-54 | joining lines with a whitespace separator adds no non-whitespace character |
| IngestNormalizer.JoinNoChar | backend/app/ingestion/normalizer.py:51-54 | a character in no line and not in the separator is not in the join |
| IngestNormalizer.LongSentencesSpec | backend/app/ingestion/normalizer.py:73 | every sentence kept is longer than five characters and has no surrounding whitespace |
| IngestNormalizer.LexicalOffIsUnset | backend/app/ingestion/normalizer.py:131-134 | lexical repair set to false normalizes exactly like lexical repair left unset |
| IngestNormalizer.SliceOneLine | backend/app/ingestion/normalizer.py:159 | a slice of a text without line breaks or double spaces has neither |
| QueryOrchestrator.JoinContains | backend/app/fetching/query_orchestrator.py:124 | every focus area occurs in the `" OR "`-joined text |
| QueryOrchestrator.ExpandedHolds | backend/app/fetching/query_orchestrator.py:125 | the expanded text is parenthesised and holds both the base text and the joined focus areas |
| QueryOrchestrator.QueryStore.constructor | backend/app/fetching/query_orchestrator.py:106-109 | the store starts with the given query rows |
| QueryOrchestrator.Strategies | backend/app/fetching/query_orchestrator.py:359-418 | three strategies, tried in order, with the entity lists [source, target], [source] and [target] |
| QueryOrchestrator.StrategyQueries | backend/app/fetching/query_orchestrator.py:361-418 | one would-be row per strategy, in strategy order |
| QueryOrchestrator.PlannedInOrder | backend/app/fetching/query_orchestrator.py:358-427 | the planned rows are the strategies' rows in strategy order with some left out |
| QueryOrchestrator.HashUsedGrows | backend/app/fetching/query_orchestrator.py:294-316 | an entity-list hash in use stays in use once rows are added |
| QueryOrchestrator.PlannedCovers | backend/app/fetching/query_orchestrator.py:358-427 | after planning, every strategy's entity-list hash is in use by the job |
| QueryOrchestrator.PlannedNothing | backend/app/fetching/query_orchestrator.py:358-427 | planning against a job where every entity-list hash is in use adds nothing |
| QueryOrchestrator.NotUsedAfter | backend/app/fetching/query_orchestrator.py:294-316 | a hash in neither the table nor the added rows is not in use afterwards |
| DiGraphs.SuccInMember | backend/app/path_reasoning/reasoning.py:248 | `v` is listed among `u`'s successors iff the edge list holds (u, v) |
| DiGraphs.PredInMember | backend/app/path_reasoning/reasoning.py:246 | `u` is listed among `v`'s predecessors iff the edge list holds (u, v) |
| DiGraphs.SuccessorsIff | backend/app/path_reasoning/reasoning.py:248 | `G.successors(u)` lists exactly the heads of edges leaving `u` |
| DiGraphs.PredecessorsIff | backend/app/path_reasoning/reasoning.py:246 | `G.predecessors(v)` lists exactly the tails of edges entering `v` |
| DiGraphs.AddNode | backend/app/path_reasoning/reasoning.py:112 | `add_node` appends a new node and keeps an existing one in place; only that node's type changes, and only when a type is given; the edges are untouched |
| DiGraphs.AddEdge | backend/app/path_reasoning/reasoning.py:132-139 | `add_edge` adds exactly that edge, with its data when new, and adds the missing endpoints without changing any existing node's type |
| DiGraphs.AppendEdgeValid | backend/app/path_reasoning/reasoning.py:132-139 | appending a new edge between two existing nodes keeps the graph well formed |
| DiGraphs.SetEdgeData | backend/app/path_reasoning/reasoning.py:124-130 | updating an existing edge's attributes changes only that edge's data |
| AppNodeRules.BlacklistLetters | app/graphs/rules/node_types.py:81-110 | the stop words are lowercase letters only |
| AppNodeRules.KeywordsLetters | app/graphs/rules/node_types.py:70 | every citation keyword is non-empty and starts with a lowercase letter |
| AppNodeRules.DigitsNotStopWord | app/graphs/rules/node_types.py:130 | a text of digits is no stop word |
| AppNodeRules.DigitsNotPunctuation | app/graphs/rules/node_types.py:73-78 | a text of digits is not a single punctuation mark, an ellipsis or only dashes |
| AppNodeRules.DigitsNotIdentifier | app/graphs/rules/node_types.py:143-148 | a text of digits matches neither the ISBN, the ISSN nor the URL pattern |
| AppNodeRules.DigitsNotPrefixed | app/graphs/rules/node_types.py:141-152 | a text of digits matches neither the DOI, the arXiv nor the PMID pattern |
| AppNodeRules.DigitsNoEntityNoCitation | app/graphs/rules/node_types.py:158-168 | a text of digits without an entity label is neither an entity nor a citation |
| AppNodeRules.ShortDigitsNoise | app/graphs/rules/node_types.py:73-78 | a number of at most three digits is noise, whatever its entity label |
| AppNodeRules.WordNotNoisePattern | app/graphs/rules/node_types.py:73-78 | a non-empty word matches no noise pattern |
| AppNodeRules.WordNotIdentifier | app/graphs/rules/node_types.py:143-148 | a non-empty word matches no ISBN, ISSN or URL pattern |
| AppNodeRules.WordNotPrefixed | app/graphs/rules/node_types.py:141-152 | a non-empty word matches no DOI, arXiv or PMID pattern, whatever its case |
| BackendClassifier.FencedSlice | backend/app/input/classifier.py:107-120 | the content of a code fence is a contiguous piece of the text |
| BackendClassifier.WordLen | backend/app/input/classifier.py:144 | `\w+` takes the longest run of word characters, stopping at the first non-word character |
| BackendClassifier.SpaceLen | backend/app/input/classifier.py:144-147 | `\s*` takes the longest run of whitespace, stopping at the first non-whitespace character |
| BackendClassifier.Without | backend/app/input/classifier.py:144-147 | removing characters never lengthens a text |
| BackendClassifier.QuoteDropped | backend/app/input/classifier.py:144 | a double quote the key quoting wrote vanishes once double quotes are ignored |
| BackendClassifier.CommaGapVanishes | backend/app/input/classifier.py:147 | a comma and the whitespace after it, which the trailing-comma fix removes, vanish from the text's skeleton |
| BackendClassifier.Quoted | backend/app/input/classifier.py:172 | one quoted hint per allowed domain |
| DecisionSpace.MembersComplete | backend/app/decision/space.py:10-33 | the enumeration lists every member once, and no two members share a value |
| DecisionSpace.FirstWithValue | backend/app/decision/space.py:49-51 | the scan finds a member with that value, and none iff no member has it |
| DecisionSpace.FromKey | backend/app/decision/space.py:49-53 | a normalized key gives the member with that value when one exists, else the error "Unknown decision: " + key |
| DecisionSpace.FromString | backend/app/decision/space.py:35-53 | the input stripped and lowercased gives the member with that value when one exists, else "Unknown decision: " followed by the normalized input |
| DecisionSpace.ValueIsLabel | backend/app/decision/space.py:13-33 | every value is already stripped and lowercase |
| DecisionSpace.RoundTrip | backend/app/decision/space.py:35-53 | every member's value maps back to that member |
| DecisionSpace.CaseAndSpaceInsensitive | backend/app/decision/space.py:47 | surrounding whitespace and letter case do not change the lookup |
| DecisionSpace.AllDecisions | backend/app/decision/space.py:56-62 | the set holds exactly the members' values |
| SignalEvaluation.Contribution | backend/app/signals/evaluator.py:203-218 | a measurement whose maximum expected change is not positive contributes nothing |
| SignalEvaluation.ComputeMeasurementDelta | backend/app/signals/evaluator.py:178-227 | the accumulator loop returns exactly the specified weighted delta, 0.0 when a snapshot is missing or empty |
| SignalEvaluation.NoChangeNoDelta | backend/app/signals/evaluator.py:200-218 | comparing a snapshot with itself gives no signal |
| SignalEvaluation.IdenticalSnapshots | backend/app/signals/evaluator.py:178-227 | the same snapshot before and after gives a delta of 0.0 |
| SignalEvaluation.ContributionSwap | backend/app/signals/evaluator.py:203-218 | swapping the snapshots negates a measurement's contribution |
| SignalEvaluation.DeltaSwap | backend/app/signals/evaluator.py:200-218 | swapping the snapshots negates the signal |
| SignalEvaluation.ContributionNonNeg | backend/app/signals/evaluator.py:203-218 | a measurement that did not fall, with a non-negative weight, contributes nothing negative |
| SignalEvaluation.GrowthNonNegative | backend/app/signals/evaluator.py:200-218 | when no measurement fell and no weight is negative, the signal is not negative |
| SignalEvaluation.PreviousDecision | backend/app/signals/evaluator.py:151-154 | the job's latest decision strictly before the current one, and none iff the job has no earlier decision |
| SignalEvaluation.PendingIn | backend/app/signals/evaluator.py:161-166 | the runs kept are exactly the job's runs with no signal yet, strictly inside the window |
| SignalEvaluation.FindPendingRunsSpec | backend/app/signals/evaluator.py:127-175 | without a previous decision the result is empty; otherwise it holds exactly the job's unsignalled runs strictly between the two decisions, each once, newest first |
| SignalEvaluation.FindPendingRunSpec | app/signals/evaluator.py:132-185 | without a previous decision there is no run; otherwise the result is a pending run that no other pending run postdates, and none iff no run is pending |
| SignalEvaluation.NewestFirst | app/signals/evaluator.py:166-185 | the newest-first list is empty iff nothing is pending, and its head postdates no pending run |
| SignalStore.QueryIndex | backend/app/signals/applier.py:70-72 | `.filter(SearchQuery.id == id).first()` finds the first query with that id, and none iff no query has it |
| SignalApplier.ClassifySignal | backend/app/signals/applier.py:18-42 | 1 and "reusable" iff the delta reaches the positive threshold; -1 and "blocked" iff it does not but is at or below the negative threshold; 0 and "exhausted" strictly between |
| SignalApplier.ClassifyMonotone | backend/app/signals/applier.py:37-42 | a larger delta never classifies lower, whatever the thresholds |
| SignalApplier.ReputationMonotone | backend/app/signals/applier.py:102-120 | with a reward that is not negative and a penalty that is not positive, a larger delta never earns less reputation |
| SignalApplier.UpdateQuery | backend/app/signals/applier.py:85-131 | the query gets the new status and update time, and its reputation changes by the reward, the penalty or nothing according to the signal's sign |
| SignalApplier.Attribute | backend/app/signals/applier.py:101-114 | a positive signal accepts every fetched paper and rejects none; any other rejects every fetched paper and accepts none; a missing list counts as empty |
| SignalApplier.ApplySignalResult | backend/app/signals/applier.py:45-133 | without a query for the run nothing changes; otherwise the run records the signal and the attribution, the query its new status, reputation and update time, and no other query changes |
| SignalStore.SearchQuery.constructor | backend/app/storage/models.py:431-441 | a new query row has its id and status, reputation 0 |
| SignalStore.SearchQueryRun.constructor | backend/app/storage/models.py:466-474 | a new run row belongs to its query, has its creation time and no signal delta yet |
| AppSignalApplier.Selections | app/signals/applier.py:104-111 | a paper is selected iff it came from the run's provider within 60 seconds either side of the run |
| AppSignalApplier.Flags | app/signals/applier.py:113-116 | the papers' `used_for_research` flags, in order |
| AppSignalApplier.Mark | app/signals/applier.py:113-116 | after marking, a paper is flagged iff it was flagged before or is selected |
| AppSignalApplier.MarkedGrowth | app/signals/applier.py:113-116 | the number of flagged papers grows by exactly the reported count |
| AppSignalApplier.MarkIdempotent | app/signals/applier.py:113-116 | marking again changes nothing and reports nothing |
| AppSignalApplier.MarkPapersUsed | app/signals/applier.py:103-121 | the loop flags exactly the selected papers, reports how many were newly flagged, and changes no paper's source or creation time |
| AppSignalApplier.AppApplySignalResult | app/signals/applier.py:45-127 | without a query for the run nothing changes; otherwise the run records the signal, the query its new status, reputation and update time, and a positive signal flags the run's papers |
| Refinery.SpansFromFit | backend/app/ingestion/refinery/service.py:63-81 | every span the cutting loop produces fits within maxChars |
| Refinery.SpansFromKeep | backend/app/ingestion/refinery/service.py:63-81 | the spans together keep every non-whitespace character of the text, in order |
| Refinery.SpansStep | backend/app/ingestion/refinery/service.py:63-78 | one turn of the loop strictly shortens what remains and emits the stripped text before the cut |
| Refinery.FindCut | backend/app/ingestion/refinery/service.py:64-75 | the `rfind` cascade of one turn gives the specified cut index |
| Refinery.Cut | backend/app/ingestion/refinery/service.py:63-78 | one turn emits the stripped head and leaves a strictly shorter stripped rest whose spans complete the text's spans |
| Refinery.RefineStep | backend/app/ingestion/refinery/service.py:48-54 | a span's failed refinement stops the loop with its error; a successful one is kept when non-empty, in front of the rest |
| Refinery.RefineSpans | backend/app/ingestion/refinery/service.py:48-54 | the loop refines each span in order, keeps the non-empty results and stops at the first exception |
| Slicing.JoinEach | backend/app/ingestion/slicing/service.py:53-62 | each block is its group of sentences joined with single spaces |
| Slicing.PackedSnoc | backend/app/ingestion/slicing/service.py:49-58 | a sentence that does not force a close keeps the open block within the count and token limits |
| Slicing.GroupsFromFirst | backend/app/ingestion/slicing/service.py:44-62 | the first block starts with the sentence that was open |
| Slicing.JoinFlatten | backend/app/ingestion/slicing/service.py:44-62 | joining the blocks gives the sentences joined: the blocks hold exactly the sentences, in order |
| Slicing.SliceStep | backend/app/ingestion/slicing/service.py:44-58 | one turn of the loop keeps the blocks closed so far plus the blocks still to come equal to all blocks |
| Slicing.PackSentences | backend/app/ingestion/slicing/service.py:36-62 | the packing loop returns exactly the specified blocks, each joined with spaces |
| Slicing.FlattenMember | backend/app/ingestion/slicing/service.py:44-62 | every sentence of a block is one of the sentences |
| TextAggregation.RenderAll | app/ingestion/aggregator.py:30-35 | one non-empty rendered part per part |
| TextAggregation.AppendContribution | app/ingestion/aggregator.py:33-35 | one turn of the loop appends a header and the stripped text, unless the text is blank |
| TextAggregation.JoinEmpty | app/ingestion/aggregator.py:37 | joining non-empty parts gives "" iff there is no part |
| TextAggregation.MetadataOf | app/ingestion/aggregator.py:54-63 | the metadata reports whether the user text is non-blank, every source's type and reference in order, their count, the aggregate's length and the method name |
| TripleExtraction.StripOf | backend/app/triples/extractor.py:76 | `strip()` is idempotent and adds no character |
| TripleExtraction.RenderSplit | backend/app/triples/extractor.py:72 | a well-formed triple's line splits on `\|` into its three padded fields |
| TripleExtraction.FieldPadded | backend/app/triples/extractor.py:75-81 | a valid field with the padding of a rendered line reads back as itself |
| TripleExtraction.KeptValid | backend/app/triples/extractor.py:97-103 | every triple kept has three valid fields |
| TripleExtraction.KeptSound | backend/app/triples/extractor.py:97-103 | every triple kept is the parse of some response line |
| TripleExtraction.KeptComplete | backend/app/triples/extractor.py:97-103 | every line that parses contributes its triple |
| Fingerprinting.TokensFrom | backend/app/deduplication/fingerprinting.py:52 | every character of a token comes from the text |
| Fingerprinting.JoinWordsNormal | backend/app/deduplication/fingerprinting.py:52 | words joined with single spaces have the normalized shape, and are non-empty when there is a word |
| Fingerprinting.MismatchesSymmetric | backend/app/deduplication/fingerprinting.py:115-118 | the count of differing positions does not depend on the order of the two hashes |
| Fingerprinting.Ratio | backend/app/deduplication/fingerprinting.py:133-136 | a distance of at most the hash length, scaled by four times that length, is between 0 and a quarter, exactly a quarter at the maximum and positive when the distance is |
| AdapterFactory.RFindChar | backend/app/ingestion/adapters/factory.py:23 | the index of the last occurrence of the character, or -1 when there is none |
| AdapterFactory.DropDots | backend/app/ingestion/adapters/factory.py:23 | removing the dots of "." + ext, where ext has none, gives ext |
| AdapterFactory.FileRefPath | backend/app/ingestion/adapters/factory.py:21-22 | a `file:` reference contains the marker, and removing it gives the path back |
| AdapterFactory.NameExtension | backend/app/ingestion/adapters/factory.py:23 | `splitext` of a plain "name.ext" gives the extension ".ext" |
| AdapterFactory.LowerExt | backend/app/ingestion/adapters/factory.py:23 | the extension ".ext" lowercased and without its dot is ext lowercased |
| DomainResolver.ConcatLower | app/domains/resolver.py:59-72 | every keyword of a lowercased keyword text is lowercase |
| DomainResolver.HitsIn | app/domains/resolver.py:102-106 | the domain keywords found inside one hypothesis keyword are at most all of them |
| DomainResolver.Matches | app/domains/resolver.py:102-106 | the matching (keyword, domain keyword) pairs are at most all pairs |
| DomainResolver.RatioOne | app/domains/resolver.py:111 | the match ratio is exactly 1.0 iff every possible pair matches |
| AppInputClassifier.WithoutUnderscores | app/input/classifier.py:321 | removing the underscores `int()` allows between digits leaves only digits |
| AppInputClassifier.WithoutUnderscoresOfDigits | app/input/classifier.py:321 | a run of digits is read as it is |
| AppInputClassifier.KeyOf | app/input/classifier.py:317-327 | every field kind has a non-empty line key |
| AppInputClassifier.FieldsStep | app/input/classifier.py:316-329 | one more response line changes only the field its key names: the label upper-cased, the confidence read as an integer or 50, a portion or None when empty |
| AppInputClassifier.ReplaceLeadingKey | app/input/classifier.py:318-327 | removing the key from a line that starts with it, when the rest lacks the key's first character, leaves the rest |
| AppInputClassifier.StripBeforeDigits | app/input/classifier.py:321 | stripping the blank after the key leaves the digits |
| BackendFetching.AcceptedIds | backend/app/fetching/service.py:203-207 | at most one accepted id per verdict: the persisted papers' ids |
| BackendFetching.RejectedIds | backend/app/fetching/service.py:199-201 | at most one rejected id per verdict: the matched ids of duplicates that have one |
| BackendFetching.PersistedPapers | backend/app/fetching/service.py:203-206 | at most one persisted paper per verdict |
| BackendFetching.Verdicts | backend/app/fetching/service.py:196-198 | one judgement per candidate, in order |
| BackendFetching.HasSourceGrows | backend/app/fetching/service.py:219-223 | a source row of the job stays found once rows are added |
| BackendFetching.AddUnique | backend/app/fetching/service.py:213-235 | adding one paper's source row keeps each job's references unique |
| BackendFetching.Ledger.constructor | backend/app/fetching/service.py:134-145 | the ledger starts with the given source and run rows |
| BackendFetching.HypothesisStepSpec | backend/app/fetching/service.py:107-151 | a run is recorded iff the query is "new" and some provider in its domain's order returns papers; the run names the first such provider, the job, the signature and "Ready to execute", and fetched holds the accepted and rejected ids not seen before |
| BackendFetching.StageFold | backend/app/fetching/service.py:107-151 | the stage only appends source and run rows, at most one run per hypothesis |
| BackendFetching.StageFoldDisjoint | backend/app/fetching/service.py:127-132 | the runs the stage adds fetched pairwise disjoint ids, none of them seen before the stage |
| IngestionService.SegmentTextAsWritten | backend/app/ingestion/service.py:198-240 | as written, the "sections" strategy returns the segmenter's (title, text) pairs unchanged |
| IngestionService.InsertBlocks | backend/app/ingestion/service.py:153-165 | the block rows commit iff every value is a string, storing each value's text in order |
| IngestionService.SectionsAsWrittenFail | backend/app/ingestion/service.py:153-240 | as written, a source segmented by "sections" into at least one section fails at the commit; the corrected segmentation stores each section's text |
| IngestionService.OtherStrategiesAgree | backend/app/ingestion/service.py:198-240 | for every other strategy the code as written and the corrected segmentation store the same blocks |
| IngestionService.AfterAll | backend/app/ingestion/service.py:166-184 | one updated source per source, in order |
| IngestionService.AttemptSource | backend/app/ingestion/service.py:109-170 | a pending source of the job is extracted; on success its blocks are added and it is marked processed, and the success flag says which |
| IngestionService.NothingPending | backend/app/ingestion/service.py:106-184 | when every pending source fails, no block is added and nothing succeeds |
| IngestionService.StuckRun | backend/app/ingestion/service.py:107-184 | as written, once a pass leaves the sources unchanged every further pass does too |
| HypothesisFiltering.AddPlainEdge | backend/app/path_reasoning/filtering/logic.py:63-68 | adding an edge without attributes keeps the graph well formed |
| HypothesisFiltering.PlainEdgesGraph | backend/app/path_reasoning/filtering/logic.py:63-68 | the edge loop keeps the graph well formed |
| HypothesisFiltering.AddPlainEdgeStep | backend/app/path_reasoning/filtering/logic.py:63-68 | one entry adds exactly its own pair as an edge and its endpoints as nodes |
| PathReasoning.AddEdgeEntry | backend/app/path_reasoning/reasoning.py:115-139 | one entry of the edge loop keeps the graph well formed |
| PathReasoning.EdgesGraph | backend/app/path_reasoning/reasoning.py:115-139 | the edge loop keeps the graph well formed |
| PathReasoning.KeyUsedSnoc | backend/app/path_reasoning/reasoning.py:457-461 | after one more hypothesis the keys used are the earlier ones plus its own |
| Lexical.Word | backend/app/ingestion/lexical.py:54 | a word is the longest run of non-whitespace characters at the start, stopping at whitespace |
| DecisionProviders.AbsReal | backend/app/decision/providers.py:108-129 | `abs` is non-negative and is the value or its negation |
| DecisionHandlerRegistry.HandlerRegistry.constructor | backend/app/decision/handlers/registry.py:15-17 | a new registry holds no handler |
| InputHandlerRegistry.HandlerRegistry.constructor | app/input/handlers/registry.py:11 | the registry starts with no handler |
| LlmProviderRegistry.ProviderRegistry.constructor | backend/app/llm/providers/registry.py:7 | the registry starts with no provider |
| Jobs.Job.constructor | backend/app/storage/models.py:61 | a job row holds the status it is created with |
| PresentationWorker.EventTask.constructor | backend/presentation/worker.py:211 | a new event task holds the event it is given |
| StageTasks.Broker.constructor | backend/worker/stage_tasks.py:158 | the broker starts with no scheduled task |

## Left out


- Character classes: `Common.IsSpaceChar`, the lower/upper/alpha/digit helpers and every function built on them classify ASCII characters only (plus the ASCII separators \x1c–\x1f that Python counts as whitespace); Python's `str.strip`, `str.lower`, `str.split`, `\s`, `\w` and `int()` are Unicode-aware, so the model agrees with the source on ASCII text only.
- Floating point: floats are modelled as exact reals and Python's `int` as unbounded integers. `AppInputClassifier.ParsedReply` therefore has no `OverflowError` for a CONFIDENCE too large for `confidence / 100.0`, where app/input/classifier.py:348-350 falls back to the deterministic rules.
- External libraries and services are parameters, not models: the NLTK sentence tokenizer, Unicode NFC normalization, the URL and e-mail patterns, the academic-term and intent regular expressions, the wordfreq Zipf scores, sentence embeddings and clustering, spaCy analyses, SHA-256/MD5 digests, JSON parsing, and every language-model call.
- Database sessions, commits, rollbacks, flushes and the ORM: tables are sequences or objects, a commit is the new state, and a rollback or a session closed without a commit leaves the old one (StageTasks.RunSignalEvaluationAsWritten); logging is left out everywhere.
- PresentationWorker.BuildPrompt: a template is taken as the literal text and named fields that `string.Formatter.parse` yields; format specs, conversions, `{{`/`}}` escapes, positional `{}` fields and malformed braces, which raise uncaught at backend/presentation/worker.py:141-152, are not modelled.
- PresentationWorker.EventTask: phase and status are strings or absent; a truthy non-string phase or status, on which `.upper()`/`.lower()` raise at backend/presentation/worker.py:216-219, is not modelled.
- Refinery.Spans: requires `maxChars >= 1`. With `max_chars = 0` the loop at backend/app/ingestion/refinery/service.py:63-78 appends an empty span on every turn and never ends (Refinery.ZeroWidthStalls, and a Findings row); that input is excluded rather than modelled as divergence. A negative `max_chars` also never ends, and the width is a natural number here.
- Refinery.SplitIntoSpans: requires `maxChars >= 1`, for the same endless loop.
- Refinery.RefineText: requires `max_tokens_per_span >= 1`, so that `max_chars = 3 * max_tokens_per_span` is positive, for the same endless loop.
- Segmenter.Windows: requires a positive step (`block_length - overlap > 0`, or `block_length > 0` without overlap) for a non-empty text. With `overlap >= block_length` the loop at backend/app/ingestion/segmenter.py:82-90 never advances and never ends (Segmenter.NoStepStalls, and a Findings row); that input is excluded rather than modelled as divergence.
- Segmenter.SegmentByLength: requires the same positive step, for the same endless loop.
- Segmenter.Segment: requires the same positive step for the "length" strategy, with its defaults 300 and 50.
- IngestionService.SegmentText: requires the same positive step for the "length" strategy.
- IngestionService.IngestJob: requires the same positive step for the "length" strategy.
- Metadata.YearAsWritten: Python's `$` also matches before one final "\n", so "2020\n" matches in the source; the model's patterns match the whole text only, and a text ending in a line break is not modelled. The same holds for Metadata.YearExtraction, Metadata.DoiAsWritten, Metadata.DoiExtraction, Metadata.IssnExtraction, Metadata.ArxivExtraction, Metadata.PmidExtraction and Metadata.UrlExtraction.
- Metadata.DoiAsWritten: "10.1000/182\n" matches in the source through `$` before a final line break; not modelled, as above.
- Metadata.DoiExtraction: a final line break before `$` is not modelled, as above.
- Metadata.IssnExtraction: a final line break before `$` is not modelled, as above.
- Metadata.ArxivExtraction: a final line break before `$` is not modelled, as above.
- Metadata.PmidExtraction: a final line break before `$` is not modelled, as above.
- Metadata.UrlExtraction: a final line break before `$` is not modelled, as above.
- Metadata.YearExtraction: a final line break before `$` is not modelled, as above.
- `segment_by_sections` (backend/app/ingestion/segmenter.py:95-123) is not modelled: the (title, text) sections it would produce are a parameter of `IngestionService.SegmentText`.
- BackendFetching.Run: the model's run carries the fetched, accepted and rejected id lists the fetch stage passes to `record_search_run`; the `SearchQueryRun` table (backend/app/storage/models.py:443-473) has no columns for them, so `RunsDisjoint` is a property of what the corrected stage hands over, not of stored rows.
- BackendFetching.FetchService.ProcessHypothesis and AppFetching.DeduplicateAndPersist: each candidate is judged by a stateless function `judge`, so the paper table does not grow during a batch. A candidate that duplicates a paper persisted earlier in the same batch is caught only if `judge` already says so, whereas the database-backed `check_duplicate` would see that paper.
- The backend `FetchService` singleton (`__new__` and `_initialized`, backend/app/fetching/service.py:37-50) is not modelled: a service object is built once per call.
- The tail of `run_path_reasoning` (backend/app/path_reasoning/reasoning.py:475-493: filtering, batch domain resolution and the final sort by confidence, source and target) is not modelled as one composition; filtering and domain resolution are modelled on their own.
- `apply_hub_suppression_to_graph` in the filtering module is not modelled; the hub rule is modelled per hypothesis (`HypothesisFiltering.HubRule`).
- `calculate_impact_scores`, which `persist_hypotheses` calls after a persist (backend/app/path_reasoning/persistence.py:148-150), is not modelled.
- `get_semantic_graph_record` (backend/app/graphs/persistence.py:125-133) returns the ORM row of the record that `GraphPersistence.SemanticGraphStore.Get` reads; it is not modelled separately.
- `extend_measurements_with_indirect_paths` (app/decision/indirect_path_measurements/integration.py:17) is not modelled; the measurements it merges are modelled by `IndirectPaths.Measure`.
- IndirectPaths.Measure: `pair_distribution_entropy` (a Shannon entropy with `log2`, app/decision/indirect_path_measurements/indirect_paths.py:158-159, 332) is not computed, because the logarithm has no exact model.
- IndirectPaths.Measure: `time_since_last_update` reads the clock; the clock reading is the parameter `now`.
- MeasurementChecks.ComputedPassesChecks: the distinct-paths check is not covered; that the reported maximum agrees with the computed one is stated for the check alone (`MeasurementChecks.DistinctPathsCheck`).
- AppMeasurements: `confidence_std` (a square root) and the `job_*` metadata keys of app/decision/measurements.py are not computed.
- FetchMoreLiterature.Handle: the `scheduled_at` time stamp of the fetch intent reads the clock and is not part of the result.
- PdfAdapter: the sort of each page's blocks into reading order (backend/app/ingestion/adapters/pdf.py:67-70) is not modelled; the blocks are given already in reading order.
- IncrementalMerge.CanonMap.Nodes: the `attributes` and `cluster_score` of the existing canonical nodes (backend/app/graphs/incremental.py:122-128, 131) are not kept; only text, type and aliases are.
- SemanticMerge: the embedding, the clustering and the `cluster_score` of each semantic node are not modelled; the cluster labels are an input.
- Sanitize.OutputNodes: a sanitized node has no `aliases` key in the source; the model's node type always has one, and it is empty for every sanitized node.
- EvidenceAggregation.AggregateEvidenceForJob: with a non-int threshold and no group, the result's graph is built with threshold 0, where the source builds it with the string or `None` it was given; every other field agrees.
- AppSignalApplier.MarkPapersUsed: returns the count of newly marked papers, which the source only logs.
- Structural: the spaCy analyses (entities, noun chunks, verb lemmas) of each triple are inputs of `Structural.ProjectStructuralGraph`, not computed.
- Concurrency: the lock of the structural-graph cache, the broker's workers and every race between them are left out; each operation is one atomic step.

## Findings

| source | as written | input that shows it | evidently intended | confidence | as-written member | corrected member |
|---|---|---|---|---|---|---|
| backend/app/ingestion/service.py:107-184 | a source whose processing raises is rolled back and stays unprocessed, and the loop queries the first unprocessed source again | one pending source and the strategy "chapters" | each pending source is attempted once and a failing one is left unprocessed ("continue to next source") | not executed | IngestionService.AsWrittenStuck, IngestionService.UnknownStrategyNeverEnds | IngestionService.ProcessPending |
| backend/app/ingestion/service.py:71-101 | the keyword arguments are defaulted before the job configuration is read, so the configured sentences per block and lexical repair are never used | a job configured with 5 sentences per block, called with no keyword arguments | the job configuration applies when the caller passes no keyword arguments | not executed | IngestionService.EffectiveAsWrittenIgnoresSettings | IngestionService.EffectiveAgrees |
| backend/app/fetching/service.py:135-145 | `record_search_run` is called with `fetched_paper_ids`, `accepted_paper_ids` and `rejected_paper_ids`, which its signature lacks, so every run that fetched papers raises a TypeError | any hypothesis whose new query returns at least one paper | the run is recorded and the new papers' sources are created | not executed | BackendFetching.RecordRunCallRejected, BackendFetching.FetchService.ProcessHypothesisAsWritten | BackendFetching.FetchService.ProcessHypothesis |
| backend/app/input/handlers/research_seed.py:51-57 | `get_or_create_search_query` is called with an `entities` keyword it does not accept, so every accepted seed raises a TypeError | a seed with entities ["A", "B"] | the vanguard query is created and the job queued for fetching | not executed | ResearchSeed.SeedCallRejected, ResearchSeed.HandleAsWritten | ResearchSeed.Handle |
| app/graphs/aggregator.py:21 | the default threshold is the environment string or `None`, so `count >= threshold` raises a TypeError on the first group | a job with one triple and no threshold argument | the default is the variable's number, or 2 | not executed | EvidenceAggregation.DefaultThresholdRaises | EvidenceAggregation.IntendedDefaultCompares |
| backend/app/deduplication/detector.py:92-108 | a whitespace-only identifier value is not skipped; stripped to "", it equals the "" that `get` returns for a paper lacking that identifier | candidate id ("pmid", " ") against a stored paper with only an arxiv id | a blank identifier is skipped like a missing one | not executed | DuplicateDetection.AsWrittenBlankIdMatches | DuplicateDetection.ExtHitRefines |
| backend/app/ingestion/service.py:234-238 | the "sections" strategy returns the segmenter's (title, text) pairs, which are stored as block text, so the commit raises | any source ingested with the "sections" strategy | each section's text is one block | not executed | IngestionService.SectionsAsWrittenFail | IngestionService.OtherStrategiesAgree |
| app/graphs/rules/metadata.py:10 | the year pattern has one group but the extractor reads `m.group(2)`, which raises, so a year is never extracted | "2020" | ("year", 2020) | not executed | Metadata.YearAsWrittenIsLost | Metadata.YearIsExtracted |
| app/graphs/rules/metadata.py:11 | `^(?:doi:\|10\.\d+/.*)$` anchors the end right after "doi:", so a prefixed DOI matches no pattern | "doi:10.1000/182" | ("doi", "10.1000/182") | not executed | Metadata.PrefixedDoiAsWritten | Metadata.PrefixedDoiExtracted |
| backend/app/graphs/persistence.py:51-55 | the next version is one past the active record's, or 1 when none is active, so a persist after a delete reuses version 1 | persist, delete, persist for one job | versions of a job stay distinct | not executed | GraphPersistence.VersionRestartsAfterDelete | GraphPersistence.IntendedVersionsDistinct |
| backend/worker/stage_tasks.py:556-578 | `apply_signal_result` writes the runs' signal and attribution and the queries' status and reputation inside a session that is closed without `session.commit()` (the applier neither commits nor flushes), so no signal is ever persisted; only the RUNNING_HANDLERS update at 582-585 commits | a DECISION_MADE job with one pending run created between a decision with 0 passed hypotheses and one with 200, under a weight of 1.0 with maximum change 100 and positive threshold 1.0 (delta 2.0) | the signal is committed together with the pending runs and their queries | not executed | StageTasks.RunSignalEvaluationAsWritten, StageTasks.SignalLostExample | StageTasks.RunSignalEvaluation |
| backend/app/ingestion/refinery/service.py:63-78 | with `max_chars = 0` every turn cuts at index 0, appends an empty span and leaves the stripped remainder as it was, so the loop never ends | any non-blank text longer than 0 characters with `max_tokens_per_span = 0` | the span width is positive, so that every turn shortens the remainder | not executed | Refinery.ZeroWidthStalls | Refinery.SplitIntoSpans |
| backend/app/ingestion/segmenter.py:82-90 | with `overlap >= block_length` (and a positive overlap) the next start `end - overlap` is never past the current one, so the loop never ends | `segment_by_length("abc", block_length=50, overlap=50)` | the window advances by a positive step (overlap below the block length) | not executed | Segmenter.NoStepStalls | Segmenter.SegmentByLength |
