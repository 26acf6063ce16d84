# transcript-analyser, modelled in Dafny

transcript-analyser reads the transcript of an interview (Portuguese text) and runs a pipeline
of heuristic analyzers over it. The analyzers count words, cut the text into time segments and
score them, compute global metrics, count linguistic markers, build a co-occurrence network of
frequent words, detect contradictions and score keyword topics. An orchestrator runs them in
dependency order and merges their records into one result. A configuration layer supplies
defaults, text-size bands and profiles, and validates configurations. A Markdown generator turns
a result into a report. A small command-line layer validates project names and picks the
command, and a comparative step averages the metrics of several runs.

This project models that core and proves properties of it. It has one module per source file:

| module | file | form |
|---|---|---|
| Calibration | calibration.dfy | functions: three length bands |
| WordFrequency | word_frequency.dfy | functions: regex run, stop-word filter, Counter, most_common(50) |
| TemporalAnalysis | temporal_analysis.dfy | methods with the original loops (paragraphs, sentence blocks, downsampling, scoring), each proved equal to a specification function |
| GlobalMetrics | global_metrics.dfy | functions: mean, population variance, repetition coherence |
| LinguisticPatterns | linguistic_patterns.dfy | a method for the hesitation loop, functions for the rest |
| ConceptNetwork | concept_network.dfy | methods for the nested counting loops and the edge loop, proved equal to a counter function |
| ContradictionDetection | contradiction_detection.dfy | methods for the pair loops and the segment loop, then the stable sort and the cut at five |
| TopicModeling | topic_modeling.dfy | methods for the score, topic and hierarchy loops; the distribution as a function |
| AnalysisOrchestrator | analysis_orchestrator.dfy | a class holding the analyzers, dependencies and results cache; the depth-first visit and the merge loop as methods |
| BaseAnalyzer | base_analyzer.dfy | a method filling the default config; validation as a predicate |
| ConfigurationRegistry | configuration_registry.dfy | a method for the layered resolution loop, functions for validation and the size bands |
| ConfigLoader | config_loader.dfy | project-config construction, resource lines, stop words and formula weights |
| CliManager | cli_manager.dfy | functions: name check, argument check, command choice |
| ComparativeAnalyzer | comparative_analyzer.dfy | functions: averages over runs |
| MarkdownGenerator | markdown_generator.dfy | interpretation bands as functions; the section builders and the content builder as methods with their append loops |

Shared modules give Python's meanings: `Text` for `str` (whitespace as `isspace()`, `lower()`,
`\w`, `split()`, `strip()`, `re.split(r'[.!?]+')`, substring `in`, `str.count` with
non-overlapping matches, `str` ordering), `Seqs` for `sum`, clamped slices and first-occurrence
de-duplication, `Sorting` for the stable `sorted(..., reverse=True)` that also gives
`Counter.most_common`, `Dicts` for insertion-ordered dicts, `PyValues` for the values found in
configuration dicts and JSON files, and `Wrappers` for `Option` (None) and `Result` (a raised
exception).

A few behaviours of the code are modelled as written, even where a reader might expect
otherwise:
- segment sentiment is neither clamped nor jittered;
- downsampling drops the trailing paragraphs beyond segments × step;
- the negation rule compares any two sentences, with no window;
- contradiction scores are not capped;
- `min_frequency` is computed but never applied to word frequencies;
- `True` passes the registry's `int` and `float` type checks, because a Python bool is an int.

Analyzers are taken as given: the orchestrator receives the registered analyzers, their
dependency lists and each analyzer's outcome on the text, as a function from key to optional
record. Files are inputs too: a resource file is its lines or missing, and a JSON file comes with
its parsed value.

## Model

A function that models a source operation and whose properties are stated by separate lemmas has no row of its own: the rows of those lemmas describe it. For example, `ContradictionDetection.ReportFacts` and `ContradictionDetection.ReportSelection` describe `ContradictionDetection.Detect`, `GlobalMetrics.SentimentAndOpenness` and its neighbours `GlobalMetrics.Analyze`, and `CliManager.ValidProjectNameIff` describes `CliManager.IsValidProjectName`.

| member | source | states |
|---|---|---|
| Calibration.ParamsFor | engine/analyzers/__init__.py:31-38 | a text below 1000 characters gets 5 segments and one above 10000 gets 20, each exactly when; otherwise 10 |
| Calibration.ShortBand | engine/analyzers/__init__.py:33-34 | below 1000 characters: segments 5, smoothing 0.1, min_frequency 2 |
| Calibration.LongBand | engine/analyzers/__init__.py:35-36 | above 10000 characters: segments 20, smoothing 0.3, min_frequency 5 |
| Calibration.MediumBand | engine/analyzers/__init__.py:37-38 | from 1000 to 10000 characters inclusive: segments 10, smoothing 0.2, min_frequency 3 |
| Calibration.Monotone | engine/analyzers/__init__.py:31-38 | a longer text never gets fewer segments, less smoothing or a lower minimum frequency |
| WordFrequency.KeepMatched | engine/analyzers/word_frequency.py:29-30 | the kept runs are exactly the runs of three or more class letters, in order |
| WordFrequency.DropStopwords | engine/analyzers/word_frequency.py:33-34 | no stopword is left, every other word keeps its number of occurrences, and nothing else is dropped |
| WordFrequency.Counts | engine/analyzers/word_frequency.py:37 | one entry per distinct filtered word |
| WordFrequency.Keys | engine/analyzers/word_frequency.py:40 | the words of the result, entry by entry |
| WordFrequency.Analyze | engine/analyzers/word_frequency.py:19-48 | unique_words is at most total_words, and exactly min(50, unique_words) words are kept |
| WordFrequency.KeptCount | engine/analyzers/word_frequency.py:37-40 | most_common(50) keeps min(50, n) entries for the n distinct filtered words of the text |
| WordFrequency.MostCommonEntry | engine/analyzers/word_frequency.py:37-40 | every kept entry is a word of the list with its number of occurrences, at least 1 |
| WordFrequency.EntriesAreCounts | engine/analyzers/word_frequency.py:29-40 | every kept word has three or more class letters, is not a stopword, and is counted by its occurrences among the filtered words, at least once |
| WordFrequency.FrequenciesSorted | engine/analyzers/word_frequency.py:40 | the kept counts never increase along the result |
| WordFrequency.TiesInFirstOccurrenceOrder | engine/analyzers/word_frequency.py:37-40 | words of equal count keep Counter's first-occurrence order |
| WordFrequency.MostCommonOmitted | engine/analyzers/word_frequency.py:37-40 | a word left out of most_common(50) occurs no more often than any kept word |
| WordFrequency.OmittedNotMoreFrequent | engine/analyzers/word_frequency.py:29-40 | a filtered word of the text that was not kept occurs no more often than any kept word |
| WordFrequency.AllKeptWhenFew | engine/analyzers/word_frequency.py:37-40 | with at most 50 distinct words, the result holds all of Counter's entries |
| TemporalAnalysis.BlockTexts | engine/analyzers/temporal_analysis.py:82-86 | one paragraph per block, each the strip() of its accumulated text |
| TemporalAnalysis.BlocksPartitionLines | engine/analyzers/temporal_analysis.py:76-86 | the blocks, read in order, are exactly the non-blank stripped lines: each lands in one block, in order |
| TemporalAnalysis.BlocksOfStripped | engine/analyzers/temporal_analysis.py:76-86 | no block is empty and every line in a block is stripped |
| TemporalAnalysis.ParagraphsAreJoinedBlocks | engine/analyzers/temporal_analysis.py:72-86 | every blank-line paragraph is non-empty, unpadded, and the " "-join of the stripped non-blank lines of one block |
| TemporalAnalysis.SplitParagraphs | engine/analyzers/temporal_analysis.py:72-86 | the paragraphs of the line loop are those of the blank-line split |
| TemporalAnalysis.ParagraphsOfLines | engine/analyzers/temporal_analysis.py:76-86 | the loop that accumulates current_block yields strip() of each block's text, block by block |
| TemporalAnalysis.GroupsPartition | engine/analyzers/temporal_analysis.py:98-109 | every sentence lands in exactly one group, in order, and no group is empty |
| TemporalAnalysis.GroupsFirst | engine/analyzers/temporal_analysis.py:98-106 | the open group is the beginning of the first group |
| TemporalAnalysis.GroupsWithinLimit | engine/analyzers/temporal_analysis.py:99-106 | inside a group, no sentence took the text past 800 characters when it was appended |
| TemporalAnalysis.GroupsBoundary | engine/analyzers/temporal_analysis.py:99-102 | a new group starts only where appending the next sentence would pass 800 characters |
| TemporalAnalysis.SentenceParagraphText | engine/analyzers/temporal_analysis.py:91-109 | each sentence-group paragraph is its non-empty group of sentences joined by ". ", with a final full stop |
| TemporalAnalysis.GroupSentences | engine/analyzers/temporal_analysis.py:95-109 | the sentence loop yields strip() of each group's text, group by group |
| TemporalAnalysis.DownsampledSlices | engine/analyzers/temporal_analysis.py:112-117 | with more paragraphs than max_segments, exactly max_segments segments remain; segment k joins paragraphs [k*step, k*step+step), and those from max_segments*step on are dropped |
| TemporalAnalysis.Downsample | engine/analyzers/temporal_analysis.py:112-117 | the stepped range loop followed by temp[:max_segments] yields the downsampled paragraphs |
| TemporalAnalysis.DownsampledEntry | engine/analyzers/temporal_analysis.py:112-117 | every kept segment is the " "-join of a non-empty run of paragraphs |
| TemporalAnalysis.DownsampledNonEmpty | engine/analyzers/temporal_analysis.py:112-117 | downsampling non-empty paragraphs gives non-empty segments |
| TemporalAnalysis.BlankHasNoTerms | engine/analyzers/temporal_analysis.py:138-139 | a text without tokens contains no lexicon term |
| TemporalAnalysis.HitNeedsToken | engine/analyzers/temporal_analysis.py:142-144 | a lexicon hit implies at least one token, so the division by len(words) is defined |
| TemporalAnalysis.LongWords | engine/analyzers/temporal_analysis.py:153 | the kept words are longer than seven characters and no more than the words |
| TemporalAnalysis.CognitiveLoad | engine/analyzers/temporal_analysis.py:153 | the share of long tokens lies in [0, 1] |
| TemporalAnalysis.ScoreSegments | engine/analyzers/temporal_analysis.py:120-162 | the loop that skips empty paragraphs yields the segment records, segment by segment |
| TemporalAnalysis.MaxSegments | engine/analyzers/temporal_analysis.py:68-69 | the calibrated number of segments is positive |
| TemporalAnalysis.Analyze | engine/analyzers/temporal_analysis.py:63-169 | the analysis computes the temporal record of the text |
| TemporalAnalysis.LexiconCountsArePresentTerms | engine/analyzers/temporal_analysis.py:138-139 | the positive and negative counts are the numbers of distinct lexicon terms present in the lower-cased text, so each term counts at most once |
| TemporalAnalysis.HesitationsPositiveIff | engine/analyzers/temporal_analysis.py:149-150 | the hesitation count is positive exactly when a marker occurs in the lower-cased text |
| TemporalAnalysis.SentimentCases | engine/analyzers/temporal_analysis.py:138-146 | sentiment is 0 without a lexicon hit, and otherwise (positive - negative) / word count with a non-zero word count, unclamped |
| TemporalAnalysis.ScoreFromAll | engine/analyzers/temporal_analysis.py:120-162 | with non-empty paragraphs, one record per paragraph, numbered from start + 1 with no gap |
| TemporalAnalysis.ParagraphsNonEmpty | engine/analyzers/temporal_analysis.py:72-109 | no paragraph of either split is empty |
| TemporalAnalysis.TemporalSegments | engine/analyzers/temporal_analysis.py:112-166 | total_segments is the number of records, at most the calibrated count and equal to it when downsampling; record k is numbered k + 1, scored from segment k, with a timestamp below 100, the whitespace token count as word_count and cognitive load in [0, 1] |
| GlobalMetrics.SquaredDeviationsNonNegative | engine/analyzers/global_metrics.py:80 | the sum of squared deviations is never negative |
| GlobalMetrics.SquaredDeviationsOfConstant | engine/analyzers/global_metrics.py:80 | equal values have no squared deviation from themselves |
| GlobalMetrics.SumBounds | engine/analyzers/global_metrics.py:75 | values within [lo, hi] sum to between n*lo and n*hi |
| GlobalMetrics.SumOfConstant | engine/analyzers/global_metrics.py:75 | n equal values sum to n times the value |
| GlobalMetrics.MeanBounds | engine/analyzers/global_metrics.py:75 | the mean lies between any lower and upper bound of the values |
| GlobalMetrics.VarianceFacts | engine/analyzers/global_metrics.py:78-81 | the population variance is never negative, and is 0 when all values are equal |
| GlobalMetrics.Sentiments | engine/analyzers/global_metrics.py:74 | one sentiment per segment, or the single 0 when there are none |
| GlobalMetrics.CoherenceRange | engine/analyzers/global_metrics.py:90-93 | thematic coherence is 0.5 without words and otherwise lies in [0, 1) |
| GlobalMetrics.SentimentAndOpenness | engine/analyzers/global_metrics.py:66-84 | the global sentiment lies between any bounds of the segment sentiments (the bounds must include 0 only when there is no segment), and emotional openness is never negative |
| GlobalMetrics.FewSegments | engine/analyzers/global_metrics.py:74-104 | with at most one segment, openness is 0.1 and the sentiment is 0 or that segment's; segments_analyzed is the number of segments |
| GlobalMetrics.EqualSentimentsNoOpenness | engine/analyzers/global_metrics.py:78-81 | two or more equal sentiments give openness 0 |
| GlobalMetrics.SegmentsFromTemporal | engine/analyzers/global_metrics.py:67-104 | without temporal input, segments_analyzed is the temporal analysis's total_segments for the same text |
| GlobalMetrics.HesitationsIgnoreSegments | engine/analyzers/global_metrics.py:86-93 | total_hesitations and thematic_coherence depend on the text only, not on the segments given |
| LinguisticPatterns.Percentage | engine/analyzers/linguistic_patterns.py:60-79 | a percentage is never negative, and at most 100 when the count does not exceed a non-zero total |
| LinguisticPatterns.CountHesitations | engine/analyzers/linguistic_patterns.py:52-62 | the hesitation loop yields the table of markers with a positive count, in marker order, and the total of all marker counts |
| LinguisticPatterns.Analyze | engine/analyzers/linguistic_patterns.py:19-87 | the analysis computes the record of the text |
| LinguisticPatterns.MarkersFacts | engine/analyzers/linguistic_patterns.py:48-80 | a marker count is the number of distinct phrases present, at most the list's length; the examples are the present phrases in list order, min(count, 5) of them, all of them when there are at most five |
| LinguisticPatterns.MarkerCountBounds | engine/analyzers/linguistic_patterns.py:31-49 | certainty_count is the number of certainty phrases present, at most 11; uncertainty_count likewise, at most 12 |
| LinguisticPatterns.HesitationTableFacts | engine/analyzers/linguistic_patterns.py:52-62 | the table holds exactly the markers with a positive count, each with that count and its percentage of the words, and its counts add up to the summed count of all markers |
| LinguisticPatterns.HesitationTotals | engine/analyzers/linguistic_patterns.py:52-82 | total_hesitations is the sum of the table's counts, and the table's words are exactly the markers found |
| LinguisticPatterns.NonBlankHasToken | engine/analyzers/linguistic_patterns.py:66 | a fragment that is not blank has at least one token |
| LinguisticPatterns.FragmentLengthsSum | engine/analyzers/linguistic_patterns.py:66 | every listed sentence length is at least 1 |
| LinguisticPatterns.FragmentLengthsEmpty | engine/analyzers/linguistic_patterns.py:66 | there is no sentence length exactly when every fragment is blank |
| LinguisticPatterns.MeanAtLeastOne | engine/analyzers/linguistic_patterns.py:67 | a mean of values that are each at least 1 is at least 1 |
| LinguisticPatterns.AvgSentenceLengthFacts | engine/analyzers/linguistic_patterns.py:65-67 | avg_sentence_length is 0 exactly when every fragment is blank, and otherwise the mean length of the non-blank fragments, at least 1 |
| LinguisticPatterns.PercentagesUseFragments | engine/analyzers/linguistic_patterns.py:65-79 | the marker percentages divide by the raw fragment count, empty fragments included, which is always at least 1 |
| ConceptNetwork.Canonical | engine/analyzers/concept_network.py:110 | the pair is the two words in one of the two orders, the smaller first when they differ |
| ConceptNetwork.Candidates | engine/analyzers/concept_network.py:103 | every kept token is one of the top words and one of the sentence's tokens |
| ConceptNetwork.BumpCounter | engine/analyzers/concept_network.py:100-111 | one `+= 1` on the defaultdict turns the counter of a sequence into the counter of that sequence extended by the pair |
| ConceptNetwork.BumpAllCounter | engine/analyzers/concept_network.py:100-111 | bumping along a sequence extends the counted sequence by it |
| ConceptNetwork.CountFromEmpty | engine/analyzers/concept_network.py:100-111 | bumping from the empty defaultdict yields the distinct pairs in first-occurrence order, each with its number of occurrences |
| ConceptNetwork.CountRow | engine/analyzers/concept_network.py:107-111 | the inner loop bumps the canonical pair of word1 with each later, different candidate |
| ConceptNetwork.CountSentence | engine/analyzers/concept_network.py:106-111 | the two position loops bump every pair i < j of different candidates of one sentence |
| ConceptNetwork.CountCooccurrences | engine/analyzers/concept_network.py:100-111 | the loops over all sentences leave the counter of all pair occurrences |
| ConceptNetwork.Significant | engine/analyzers/concept_network.py:115-121 | the connections are at most as many as the selected items |
| ConceptNetwork.Connections | engine/analyzers/concept_network.py:114-121 | the loop appends one connection per selected item of weight at least 1, in order |
| ConceptNetwork.Analyze | engine/analyzers/concept_network.py:78-130 | the analysis builds the record from the co-occurrence counter, the 20 top items and the 30 top words, computing the frequencies when none are given |
| ConceptNetwork.RowPairsShape | engine/analyzers/concept_network.py:107-110 | every pair of a row is sorted, of two different words, one of them word1 or a later one |
| ConceptNetwork.SentencePairsShape | engine/analyzers/concept_network.py:106-110 | every pair of a sentence is sorted and joins two of its candidates |
| ConceptNetwork.OccurrencesShape | engine/analyzers/concept_network.py:102-110 | every counted pair is sorted and joins two top words |
| ConceptNetwork.CounterItems | engine/analyzers/concept_network.py:115 | each item of the counter is an occurring pair with its number of occurrences, at least 1 |
| ConceptNetwork.TopItemIsItem | engine/analyzers/concept_network.py:115 | every selected item is an item of the counter |
| ConceptNetwork.SignificantAll | engine/analyzers/concept_network.py:116-121 | when every weight is at least 1 each item becomes its connection, in order |
| ConceptNetwork.TopItemsPositive | engine/analyzers/concept_network.py:115-116 | every selected item has weight at least 1, so the `weight >= 1` filter never drops one |
| ConceptNetwork.EdgesAreTopItems | engine/analyzers/concept_network.py:115-121 | the concept_network list is exactly the selected items, one connection each, in order |
| ConceptNetwork.EdgeFacts | engine/analyzers/concept_network.py:103-121 | each connection joins two different top words in sorted order with a weight equal to its number of co-occurrences, at least 1 |
| ConceptNetwork.EdgesDistinct | engine/analyzers/concept_network.py:110-121 | no two connections join the same pair, in either orientation |
| ConceptNetwork.TopItemsSelection | engine/analyzers/concept_network.py:115 | the selected items are min(20, n) of the counter's items, and no item left out is heavier than one kept |
| ConceptNetwork.EdgesSelection | engine/analyzers/concept_network.py:115-121 | there are min(20, n) edges for n distinct pairs, all from the counter, and no pair left out outweighs an edge |
| ConceptNetwork.EdgesOrdered | engine/analyzers/concept_network.py:115 | min(20, n) connections, heaviest first, and the items of one weight keep the counter's discovery order |
| ConceptNetwork.Totals | engine/analyzers/concept_network.py:94-130 | words_analyzed is at most 30, total_pairs_analyzed is the number of distinct pairs and significant_connections the number of connections, at most that |
| ContradictionDetection.FirstMatch | engine/analyzers/contradiction_detection.py:40-67 | the index found is a matching pattern with no earlier pattern matching, and none is found exactly when no pattern from there on matches |
| ContradictionDetection.KeywordRuns | engine/analyzers/contradiction_detection.py:69-71 | every keyword has at least four word characters |
| ContradictionDetection.LongRuns | engine/analyzers/contradiction_detection.py:69-71 | every kept run has length at least four and is one of the word runs |
| ContradictionDetection.KeepIn | engine/analyzers/contradiction_detection.py:72-86 | every kept word is in the list and in the other sentence's keywords |
| ContradictionDetection.CollectPairs | engine/analyzers/contradiction_detection.py:50-89 | the nested sentence loops collect the rule's findings over every pair i < j, in visiting order |
| ContradictionDetection.ShiftRule | engine/analyzers/contradiction_detection.py:92-108 | the segment loop collects the jump findings of every adjacent segment pair, none for fewer than two segments |
| ContradictionDetection.Analyze | engine/analyzers/contradiction_detection.py:19-119 | the analysis is the sorted list of all findings cut to five, with the total and the sentence count, computing the temporal segments when none are given |
| ContradictionDetection.RowMembers | engine/analyzers/contradiction_detection.py:51 | the inner loop's findings are exactly those of the pairs (i, m) for the later m |
| ContradictionDetection.PairsMembers | engine/analyzers/contradiction_detection.py:50-51 | the nested loops' findings are exactly those of the pairs i < j, in both directions |
| ContradictionDetection.PatternFindingFacts | engine/analyzers/contradiction_detection.py:52-67 | a pair gives at most one pattern finding, exactly when it is at most three apart and some pattern matches; it names the first matching pattern, scores 0.8 + 0.01 per token and stamps index * 2.5 |
| ContradictionDetection.NegationFindingFacts | engine/analyzers/contradiction_detection.py:70-89 | a pair gives at most one negation finding, exactly when it shares at least two keywords and exactly one sentence holds a negation word; scored 0.6 + 0.1 per shared keyword, with at most five shared words as topics |
| ContradictionDetection.PatternEntriesAreClose | engine/analyzers/contradiction_detection.py:52-67 | every collected finding other than a negation finding is the pattern finding of two sentences at most three apart |
| ContradictionDetection.ShiftMembers | engine/analyzers/contradiction_detection.py:93-108 | the segment loop's findings are exactly those of the adjacent pairs it visits |
| ContradictionDetection.ShiftFindingFacts | engine/analyzers/contradiction_detection.py:97-108 | a jump finding exists exactly when the sentiment difference exceeds 0.5, scored 0.4 plus the difference, so above 0.9 |
| ContradictionDetection.ReportSelection | engine/analyzers/contradiction_detection.py:111-115 | the report holds min(5, n) of the n findings, and no finding left out scores above one reported |
| ContradictionDetection.ReportFacts | engine/analyzers/contradiction_detection.py:111-117 | the five best findings (all of them when there are fewer), highest score first, equal scores in discovery order, none left out scoring higher; the total counts every finding and sentences_analyzed the sentences |
| ContradictionDetection.SentencesStripped | engine/analyzers/contradiction_detection.py:36-37 | the sentences are stripped, and no more than the fragments |
| ContradictionDetection.FollowedByContains | engine/analyzers/contradiction_detection.py:56 | a match of the rest of a pattern contains every one of its parts |
| ContradictionDetection.ChainSearchContains | engine/analyzers/contradiction_detection.py:56 | a pattern matches only text that contains every one of its parts |
| TopicModeling.CountTopics | engine/analyzers/topic_modeling.py:109-115 | the scoring loop keeps, in table order, each topic with a positive summed keyword count |
| TopicModeling.TopicScores | engine/analyzers/topic_modeling.py:117-119 | topic_scores is never empty after the 'Geral' fallback |
| TopicModeling.Distribution | engine/analyzers/topic_modeling.py:123 | one share per score, each the score divided by the total |
| TopicModeling.RelevantWords | engine/analyzers/topic_modeling.py:129-132 | every relevant word is a frequency key containing one of the topic's keywords |
| TopicModeling.Topics | engine/analyzers/topic_modeling.py:126-143 | one topic per entry of topic_scores |
| TopicModeling.BuildTopics | engine/analyzers/topic_modeling.py:126-143 | the topics loop builds topic i from the i-th score, its words and its share |
| TopicModeling.BuildHierarchy | engine/analyzers/topic_modeling.py:146-163 | the hierarchy loop appends one level-1 node and one edge from the central node per topic |
| TopicModeling.BuildWith | engine/analyzers/topic_modeling.py:109-171 | the analysis of a text against given frequency keys and a keyword table, failing with a division by zero when the total is 0 |
| TopicModeling.AnalyzeWith | engine/analyzers/topic_modeling.py:86-171 | the analysis with a keyword table, computing the frequencies when none are given |
| TopicModeling.Analyze | engine/analyzers/topic_modeling.py:86-171 | the analysis with the analyzer's five-topic keyword table |
| TopicModeling.ScoresFromFacts | engine/analyzers/topic_modeling.py:112-115 | every entry is a table topic with its positive summed keyword count, every topic with a positive count has its entry, and there are no more entries than topics |
| TopicModeling.SumDistribution | engine/analyzers/topic_modeling.py:122-123 | the shares add up to the sum of the scores over the total |
| TopicModeling.ValuesFacts | engine/analyzers/topic_modeling.py:122-123 | topic_scores.values() lists the scores in order |
| TopicModeling.DistributionFacts | engine/analyzers/topic_modeling.py:122-123 | on success the total is positive, the distribution has one share per topic, each its score over the total, and the shares add up to 1 |
| TopicModeling.BlankCountsZero | engine/analyzers/topic_modeling.py:113 | a text without tokens holds none of a list of keywords that start with a letter |
| TopicModeling.BlankScoresEmpty | engine/analyzers/topic_modeling.py:112-115 | a text without tokens scores no topic of a table whose keywords start with a letter |
| TopicModeling.KeywordShape | engine/analyzers/topic_modeling.py:100-106 | every keyword of the analyzer's table starts with an ASCII letter |
| TopicModeling.PositiveTotal | engine/analyzers/topic_modeling.py:122 | positive scores have a positive total |
| TopicModeling.DivisionByZeroCases | engine/analyzers/topic_modeling.py:117-123 | the division by zero happens exactly when no keyword occurs and the text has no token; no keyword means the single 'Geral' topic scored by the token count; with letter keywords a text without tokens always fails |
| TopicModeling.BlankTextFails | engine/analyzers/topic_modeling.py:117-123 | empty or whitespace-only text makes the analyzer divide by zero |
| TopicModeling.TopicFacts | engine/analyzers/topic_modeling.py:126-143 | topic i is topic_i, named after the i-th score, weighted by the i-th share, with at most eight words: the first relevant words, or the i-th block of eight keys when none is relevant |
| TopicModeling.TruncToInt | engine/analyzers/topic_modeling.py:158 | int() truncates toward zero: the floor for a non-negative value, the ceiling for a negative one |
| TopicModeling.HierarchyFacts | engine/analyzers/topic_modeling.py:146-163 | central theme 'TEMAS PRINCIPAIS', the central node ('central', 'TEMAS PRINCIPAIS', level 0, size 50) first, then one level-1 node per topic with its id, label and size int(weight * 100), and one edge per topic from the central node carrying its weight |
| AnalysisOrchestrator.SplitWordsInsertsOnly | engine/analyzers/analysis_orchestrator.py:84 | the first substitution only inserts underscores: without them the output is the input without them |
| AnalysisOrchestrator.SplitCapsInsertsOnly | engine/analyzers/analysis_orchestrator.py:85 | the second substitution only inserts underscores, in the same sense |
| AnalysisOrchestrator.TwoWordKey | engine/analyzers/analysis_orchestrator.py:75-86 | the key of a class named by two capitalised words and 'Analyzer' is the two words in small letters joined by one underscore |
| AnalysisOrchestrator.WordFrequencyWords | engine/analyzers/analysis_orchestrator.py:77-86 | the two words Word and Frequency with the suffix give word_frequency |
| AnalysisOrchestrator.WordFrequencyKey | engine/analyzers/analysis_orchestrator.py:77-86 | WordFrequencyAnalyzer gives word_frequency |
| AnalysisOrchestrator.TemporalAnalysisWords | engine/analyzers/analysis_orchestrator.py:78-86 | the two words Temporal and Analysis with the suffix give temporal_analysis |
| AnalysisOrchestrator.TemporalAnalysisKey | engine/analyzers/analysis_orchestrator.py:78-86 | TemporalAnalysisAnalyzer gives temporal_analysis: the replace removes only the final suffix |
| AnalysisOrchestrator.GlobalMetricsWords | engine/analyzers/analysis_orchestrator.py:79-86 | the two words Global and Metrics with the suffix give global_metrics |
| AnalysisOrchestrator.GlobalMetricsKey | engine/analyzers/analysis_orchestrator.py:79-86 | GlobalMetricsAnalyzer gives global_metrics |
| AnalysisOrchestrator.CycleFound | engine/analyzers/analysis_orchestrator.py:183-195 | meeting an analyzer still on the visiting path means the registered dependencies contain a cycle |
| AnalysisOrchestrator.Visit | engine/analyzers/analysis_orchestrator.py:183-199 | a visit appends each analyzer at most once, only registered ones, never one on the current path, keeps the earlier order as a prefix, places the visited key, and with acyclic dependencies places every registered dependency before its dependant |
| AnalysisOrchestrator.WithEnabledFacts | engine/analyzers/analysis_orchestrator.py:255-267 | setting a flag changes only the named registered entry's 'enabled' field and keeps the keys; an unknown key changes nothing |
| AnalysisOrchestrator.RootLastWrite | engine/analyzers/analysis_orchestrator.py:148-161 | a root key holds the value of its last write |
| AnalysisOrchestrator.KeptKeys | engine/analyzers/analysis_orchestrator.py:159-161 | analysis_type and calibration_used are never copied from a result |
| AnalysisOrchestrator.SkippedNeverAtRoot | engine/analyzers/analysis_orchestrator.py:155-161 | analysis_type and calibration_used never reach the root unless an analyzer bears that key |
| AnalysisOrchestrator.CacheExact | engine/analyzers/analysis_orchestrator.py:137-157 | with each analyzer run once, the cache holds exactly the truthy results, each under its analyzer's key |
| AnalysisOrchestrator.SuccessBounds | engine/analyzers/analysis_orchestrator.py:154-169 | the success count is at most the number of truthy results, which is at most the number of analyzers run, and equals it when every truthy result is a dict |
| AnalysisOrchestrator.MergeRecord | engine/analyzers/analysis_orchestrator.py:159-161 | the copy loop writes every entry of a result but the two skipped keys to the root, in order |
| AnalysisOrchestrator.RunAll | engine/analyzers/analysis_orchestrator.py:136-169 | the run loop leaves the root record of all writes in execution order, the cache of the truthy results and the count of truthy dict results |
| AnalysisOrchestrator.StatsFacts | engine/analyzers/analysis_orchestrator.py:269-277 | analyzers_with_dependencies is at most the number of lists and at most total_dependencies, both are zero together, and it equals the number of lists exactly when every list is non-empty |
| AnalysisOrchestrator.Orchestrator.constructor | engine/analyzers/analysis_orchestrator.py:29-37 | the orchestrator starts with the discovered analyzers, their dependencies and an empty cache |
| AnalysisOrchestrator.Orchestrator.ResolveExecutionOrder | engine/analyzers/analysis_orchestrator.py:175-207 | the order lists every registered analyzer exactly once, and with acyclic dependencies every registered dependency comes before its dependant |
| AnalysisOrchestrator.Orchestrator.Analyze | engine/analyzers/analysis_orchestrator.py:127-173 | analyze clears the cache, runs every analyzer once in execution order, and leaves the root record, the cache and the success count of the run loop |
| AnalysisOrchestrator.Orchestrator.EnableAnalyzer | engine/analyzers/analysis_orchestrator.py:255-260 | true exactly for a registered key, whose flag becomes True; nothing else changes |
| AnalysisOrchestrator.Orchestrator.DisableAnalyzer | engine/analyzers/analysis_orchestrator.py:262-267 | true exactly for a registered key, whose flag becomes False; nothing else changes |
| BaseAnalyzer.GetDefaultConfig | engine/analyzers/base_analyzer.py:25-32 | the loop builds the config of every schema parameter's default, in schema order |
| BaseAnalyzer.DefaultConfigFacts | engine/analyzers/base_analyzer.py:25-32 | the default config has exactly the schema's keys in the schema's order, each mapped to its entry's 'default', None where the entry has none |
| BaseAnalyzer.ValidateConfigIff | engine/analyzers/base_analyzer.py:34-41 | a config validates exactly when every key it names is a schema parameter; the empty config validates |
| BaseAnalyzer.ValidateIgnoresValues | engine/analyzers/base_analyzer.py:37-40 | values are not looked at: configs with the same keys validate alike |
| BaseAnalyzer.DefaultConfigValidates | engine/analyzers/base_analyzer.py:25-41 | every schema parameter is in the default config, and the default config validates against its own schema |
| ConfigurationRegistry.CountTotalParameters | core/config/configuration_registry.py:115-120 | the loop adds up every analyzer's param_count |
| ConfigurationRegistry.ParamCountSumFacts | core/config/configuration_registry.py:115-120 | the total is 0 exactly when no analyzer has a parameter, and is at least any one analyzer's count |
| ConfigurationRegistry.AnalyzerNamesFacts | core/config/configuration_registry.py:122-124 | the names come back in ascending order and are exactly the registered names |
| ConfigurationRegistry.AnalyzerSchema | core/config/configuration_registry.py:126-130 | an unknown analyzer has the schema {} |
| ConfigurationRegistry.GetConfigForAnalyzer | core/config/configuration_registry.py:157-187 | the loop resolves every parameter of the analyzer's schema by the overwrite order; an unknown analyzer gives {} |
| ConfigurationRegistry.ParamPrecedence | core/config/configuration_registry.py:168-185 | the highest of the schema's entry for an active profile, the profile's adjustment, the text-size entry, the default and None decides the value |
| ConfigurationRegistry.ConfigForFacts | core/config/configuration_registry.py:157-187 | the resolved config has exactly the schema's keys in order, each with its parameter's resolved value; an unknown analyzer resolves to {} |
| ConfigurationRegistry.UnknownProfileIgnored | core/config/configuration_registry.py:177 | an empty or unregistered profile resolves like no profile |
| ConfigurationRegistry.ThenEmpty | core/config/configuration_registry.py:195-241 | appending no errors before or after changes nothing |
| ConfigurationRegistry.ThenAssoc | core/config/configuration_registry.py:195-241 | appending errors entry by entry is associative, an exception ending the sequence |
| ConfigurationRegistry.ValidateConfig | core/config/configuration_registry.py:189-241 | the loop appends each entry's errors in config order and stops at the first exception; an unknown analyzer gives (False, [not found]) |
| ConfigurationRegistry.ValidateFacts | core/config/configuration_registry.py:191-241 | the flag is true exactly when there is no error, and an unknown analyzer gives false with the single not-found error |
| ConfigurationRegistry.UnknownParameterFact | core/config/configuration_registry.py:198-200 | an unknown parameter gives exactly one error and no other check |
| ConfigurationRegistry.WrongTypeSkipsRest | core/config/configuration_registry.py:205-239 | a failed type check is that parameter's only error: range and options are skipped |
| ConfigurationRegistry.BoolIsInt | core/config/configuration_registry.py:207-217 | a bool passes the 'int' and 'float' checks and fails the 'str' check |
| ConfigurationRegistry.RangeShapeErrors | core/config/configuration_registry.py:227-229 | a range that is not a two-element list raises ValueError when a string, list or dict of another length is unpacked, and TypeError for a two-character string or two-key dict (compared with a number) or a value that is not iterable |
| ConfigurationRegistry.RangeInclusive | core/config/configuration_registry.py:226-230 | an int parameter with an int range accepts exactly the values between the bounds, both included, and otherwise reports one range error |
| ConfigurationRegistry.ItemErrorsList | core/config/configuration_registry.py:234-237 | against a list of options the item check reports each item that is not an option |
| ConfigurationRegistry.ListOptionsPerItem | core/config/configuration_registry.py:233-237 | a list parameter with list options gets one error per item that is not an option, in order |
| ConfigurationRegistry.TextSizeBands | core/config/configuration_registry.py:280-289 | up to 500 words is short_text, up to 5000 medium, more long_text, and the category never shrinks as the count grows |
| ConfigLoader.PostInitFacts | config_loader.py:36-48 | post-init fails exactly for a falsy project name; otherwise it fills a missing `advanced` with the four default flags and changes nothing else |
| ConfigLoader.FromDictFacts | config_loader.py:36-78 | from_dict fails exactly when the project name is missing or falsy; missing main sections read as {} and a missing `advanced` gets the default flags |
| ConfigLoader.FromDictIgnoresUnknown | config_loader.py:50-78 | adding a key that is not a field leaves the result unchanged |
| ConfigLoader.ResourceLinesFacts | config_loader.py:115-119 | the loaded lines are the stripped lines, in order, keeping exactly the non-blank ones |
| ConfigLoader.LoadResource | config_loader.py:107-119 | a missing resource file gives [] |
| ConfigLoader.GetStopwords | config_loader.py:213-218 | the stop words are distinct and are exactly the custom words and the extra words |
| ConfigLoader.MissingWeightsFileRaises | config_loader.py:235-248 | with the weights file missing, the loaded weights are [] and get_formula_weights raises TypeError instead of returning the defaults |
| ConfigLoader.DefaultWeightsWellFormed | config_loader.py:240-246 | the five default weights have distinct keys |
| ConfigLoader.FormulaWeightsFacts | config_loader.py:235-248 | the corrected weights always hold the five default keys, a loaded weight overrides its default, a missing file gives exactly the defaults, and wherever the original returns it agrees |
| CliManager.ValidProjectNameIff | core/managers/cli_manager.py:100-103 | a project name is valid exactly when it is non-empty letters, digits and underscores, possibly followed by one final newline |
| CliManager.ProjectNamesAccepted | core/managers/cli_manager.py:100-103 | meu_estudo is accepted, with or without a final newline |
| CliManager.ProjectNamesRefused | core/managers/cli_manager.py:100-103 | names with a space or a hyphen are refused, and so is the empty name |
| CliManager.ValidateArgsIff | core/managers/cli_manager.py:86-98 | the arguments are accepted exactly when a given create name is valid and a given comparison names at least two projects |
| CliManager.CommandPriority | core/managers/cli_manager.py:105-118 | create wins over analyze, analyze over compare, compare over list, list over test; there is no command exactly when nothing truthy is given |
| CliManager.ValidatedCommand | core/managers/cli_manager.py:86-118 | accepted arguments that create carry a valid name, and accepted arguments that compare carry at least two projects |
| ComparativeAnalyzer.CompareFacts | core/engine/comparative_analyzer.py:12-28 | the comparison fails exactly for an empty list; otherwise it counts between one and total_files distinct projects, its averages lie within any bounds of the inputs and the placeholders are empty |
| ComparativeAnalyzer.AveragesAreMeans | core/engine/comparative_analyzer.py:21-22 | each average times the number of results gives back the sum |
| ComparativeAnalyzer.SingleProject | core/engine/comparative_analyzer.py:19 | results of one project, 'unknown' for a missing one, count as one project |
| MarkdownGenerator.Band | core/generators/markdown_generator.py:299-332 | the band of a value is a number of thresholds, never more than there are |
| MarkdownGenerator.BandMonotone | core/generators/markdown_generator.py:299-332 | a larger value never falls in a lower band |
| MarkdownGenerator.BandOfThree | core/generators/markdown_generator.py:312-332 | with three thresholds the band counts the thresholds strictly below the value |
| MarkdownGenerator.BandOfFour | core/generators/markdown_generator.py:299-310 | with four thresholds the band is the first threshold's share plus the band of the other three |
| MarkdownGenerator.SentimentBands | core/generators/markdown_generator.py:299-310 | the sentiment label is the one of the band the value falls in (strict thresholds 0.3, 0.1, -0.1, -0.3), so labels never go down as the value goes up, and the five labels differ |
| MarkdownGenerator.SentimentThresholds | core/generators/markdown_generator.py:299-310 | a value equal to a threshold gets the lower label: 0.1 is neutral, 0.3 positive, -0.1 negative, -0.3 very negative |
| MarkdownGenerator.CoherenceBands | core/generators/markdown_generator.py:312-321 | the coherence label is the one of the band (strict thresholds 0.8, 0.6, 0.4), monotone, labels distinct, 0.8 good and 0.4 dispersed |
| MarkdownGenerator.OpennessBands | core/generators/markdown_generator.py:323-332 | the openness label is the one of the band (strict thresholds 2.0, 1.0, 0.5), monotone, labels distinct, 2.0 expressive and 0.5 reserved |
| MarkdownGenerator.SummaryFacts | core/generators/markdown_generator.py:105-131 | the summary opens with its title; without global metrics no sentiment line; the positive, negative and neutral lines appear exactly for a sentiment above 0.1, below -0.1 and in between; the first topic's label line appears when there are topics, and no topic line appears without them; the hesitation line appears exactly for more than five hesitations |
| MarkdownGenerator.FirstMaxIndex | core/generators/markdown_generator.py:157-158 | the index of the peak is an index of the non-empty list |
| MarkdownGenerator.FirstMinIndex | core/generators/markdown_generator.py:157-159 | the index of the valley is an index of the non-empty list |
| MarkdownGenerator.FirstMaxIndexSpec | core/generators/markdown_generator.py:157-158 | the peak index holds a largest value and every earlier value is strictly smaller, as list.index(max(...)) finds |
| MarkdownGenerator.FirstMinIndexSpec | core/generators/markdown_generator.py:157-159 | the valley index holds a smallest value and every earlier value is strictly larger, as list.index(min(...)) finds |
| MarkdownGenerator.Sentiments | core/generators/markdown_generator.py:150 | one sentiment per temporal segment |
| MarkdownGenerator.CreateTemporalSection | core/generators/markdown_generator.py:142-163 | the section built line by line is the temporal section of the segments |
| MarkdownGenerator.TemporalFacts | core/generators/markdown_generator.py:142-163 | empty exactly for no segments; otherwise three lines, five with more than two segments; the segment count line, the average between the valley and peak values, and peak and valley lines at the first largest and first smallest sentiment |
| MarkdownGenerator.TopicBlocks | core/generators/markdown_generator.py:175-185 | two lines per topic shown |
| MarkdownGenerator.CreateTopicsSection | core/generators/markdown_generator.py:165-187 | the section built by the loop over the first five topics is the topics section |
| MarkdownGenerator.TopicBlocksAt | core/generators/markdown_generator.py:175-185 | the i-th pair of lines is the block of the i-th topic, numbered i + 1, with its share when the distribution has an i-th entry |
| MarkdownGenerator.CreateNetworkSection | core/generators/markdown_generator.py:189-213 | the section built by the loop over the strongest connections is the network section, with the no-connection line when no entry carries a weight |
| MarkdownGenerator.NetworkFacts | core/generators/markdown_generator.py:199-210 | at most ten connections are shown, all of them weighted dict entries of the network, heaviest first, and no weighted entry left out is heavier than one shown |
| MarkdownGenerator.CreatePatternsSection | core/generators/markdown_generator.py:220-248 | the section built by the loop over the first five hesitation phrases is the patterns section |
| MarkdownGenerator.PatternsFacts | core/generators/markdown_generator.py:220-248 | never empty; hesitation lines exactly when hesitations were counted, at most seven, the phrases in dict order; the certainty ratio appears exactly when uncertainty plus certainty is positive and lies in [0, 100], 100 exactly without uncertainty and 0 exactly without certainty; the length line exactly for a positive average |
| MarkdownGenerator.RatioFacts | core/generators/markdown_generator.py:236-241 | the certainty ratio lies in [0, 100], is 100 exactly without uncertainty and 0 exactly without certainty |
| MarkdownGenerator.ContradictionBlocks | core/generators/markdown_generator.py:263-270 | three lines per contradiction shown |
| MarkdownGenerator.CreateContradictionsSection | core/generators/markdown_generator.py:250-274 | the section built by the enumerate loop is the contradictions section |
| MarkdownGenerator.ContradictionBlocksAt | core/generators/markdown_generator.py:263-270 | the i-th triple of lines is the block of the i-th shown contradiction, numbered i + 1 |
| MarkdownGenerator.ContradictionsFacts | core/generators/markdown_generator.py:250-274 | empty exactly for an empty list; at most five shown, each a scored dict entry of the list, best first, none left out scoring higher than one shown; with no scored entry the section is its title and the none-found line |
| MarkdownGenerator.CreateFrequencySection | core/generators/markdown_generator.py:276-289 | the section built by the loop over the top words is the frequency section |
| MarkdownGenerator.FrequencyFacts | core/generators/markdown_generator.py:276-289 | empty exactly for no words; otherwise at most fifteen words from the dict, one line each, by non-increasing count, none left out more frequent than one listed |
| MarkdownGenerator.OrderRanks | core/generators/markdown_generator.py:57-90 | the ten sections have the ranks 0 to 9 of their fixed order |
| MarkdownGenerator.Texts | core/generators/markdown_generator.py:57-90 | one text per section kind |
| MarkdownGenerator.TextsAppend | core/generators/markdown_generator.py:57-90 | the texts of two runs of sections are the texts of each, concatenated |
| MarkdownGenerator.TextsStep | core/generators/markdown_generator.py:63-87 | each further rank appends its text exactly when its key is present |
| MarkdownGenerator.FrontIsTexts | core/generators/markdown_generator.py:57-77 | the appends up to the network section collect the texts of the first six ranks present |
| MarkdownGenerator.AssembleIsTexts | core/generators/markdown_generator.py:57-90 | the appends of the content builder collect the texts of exactly the sections present, in order |
| MarkdownGenerator.CollectSections | core/generators/markdown_generator.py:53-90 | the sections list is header and summary, then each section whose key is in the results, then the footer |
| MarkdownGenerator.CreateContent | core/generators/markdown_generator.py:53-94 | the content is the non-empty sections joined by blank lines |
| MarkdownGenerator.KindsUpToFacts | core/generators/markdown_generator.py:57-90 | below a rank, a section is there exactly when its key is present, and the ranks strictly increase |
| MarkdownGenerator.SectionOrder | core/generators/markdown_generator.py:53-92 | the sections follow the fixed order, each at most once, present exactly when their key is (header, summary and footer always), header and summary first and the footer last |
| MarkdownGenerator.AppendIfExtends | core/generators/markdown_generator.py:63-87 | a conditional append only extends the list |
| MarkdownGenerator.AssembleEnds | core/generators/markdown_generator.py:57-90 | header and summary open the sections and the footer closes them |
| MarkdownGenerator.JoinedFacts | core/generators/markdown_generator.py:92-94 | the joined content starts with the first section and ends with the last; the parts joined are exactly the non-empty sections |
| MarkdownGenerator.ContentFacts | core/generators/markdown_generator.py:53-94 | the report body starts with the header and ends with the footer |

## Left out

- Reflection and discovery are not modelled: `discover_analyzers`, the orchestrator's `_discover_analyzers`, `_load_config`, `_map_dependencies` and the class loading in `_execute_analyzer`, and the registry's `_discover_analyzer_schemas`. Analyzers, schemas and dependencies are inputs, and running one analyzer is the `run` parameter.
- File and directory I/O is not modelled: the file reads and writes of `config_loader.py`, `create_default_project`, `load_project_config`, and the file writing of `generate_report`. A file is given as its lines and its parsed JSON.
- Logging, `print` and the argparse setup of the command line are not modelled. They do not affect the results.
- The `analysis_type` string of every record is not modelled. It is a constant per analyzer, and the orchestrator's merge skips it.
- `round()` is not modelled. Scores, sentiments and metrics are exact reals, so the contradiction sort compares unrounded scores.
- `sentence_length_std` (`np.std`) of the linguistic patterns is not modelled. It is a foreign floating-point routine.
- `complexity_by_topic` is not modelled. It is always the empty dict.
- Number formatting (`:.3f`, `:.1%`, `str(float)`) and `datetime.now()` in the report are not modelled. They are the `Format` parameter of the Markdown generator.
- The network section's `except` branch is not modelled. The model's connection entries cannot raise.
- Exceptions are not modelled except these: the division by zero of topic scoring and of the comparison, the ValueError of the project config, the TypeError of the formula weights, a JSON decode error, and the registry validator's ValueError and TypeError. The validator raises in three places: unpacking and comparing a `range` (`ConfigurationRegistry.UnpackRange`, `ConfigurationRegistry.RangeErrors`), and `in` on options of an unsupported kind (`ConfigurationRegistry.Member`, `ConfigurationRegistry.ItemErrors`).
- The order of a Python `set` is not modelled: the shared words of a negation finding, the stop-word list and the keyword set. The model uses first-occurrence order, and the contracts state only facts that do not depend on that order.
- Unicode is not modelled beyond Latin-1: `lower()`, `isspace()` and `\w` are exact for U+0000 to U+00FF, and characters above that are neither upper case nor word characters.
- The defaults of the sentiment-shift rule for a segment without `sentiment` or `timestamp` are not modelled. The temporal segments it reads always carry both.
- The constant `my_parameter` entry that every analyzer's `get_calibration_params` adds to its calibration is not modelled. It is a placeholder string, and the calibration record holds only the three computed values.
- The registry's error message texts are not modelled. Errors are a datatype naming the kind and the parameter.
- The plain getters are not modelled: `print_analyzer_config`, `get_consolidated_view`, `get_all_analyzer_schemas`, `get_available_analyzers`, `get_analyzer_info`, `get_dependencies_info`, `get_emotional_words` and `get_linguistic_markers`. They return stored data unchanged.
- The placeholder analyzers `sentiment_analysis.py` and `test_velocity.py` are not modelled. Their `analyze` returns empty placeholders.
- Plotting, dashboards and the development scripts are not modelled. They are presentation code and one-shot source patchers.

## Findings

| source | as written | input that shows it | evidently intended | confidence | as-written member | corrected member |
|---|---|---|---|---|---|---|
| config_loader.py:235-248 | a missing weights file makes `load_resource_file` (lines 107-113) return `[]`, and `{**defaults, **weights}` then raises TypeError, because a list is not a mapping | a project with no `pesos_formula_linguistica.json` | the five default weights | not executed | ConfigLoader.MissingWeightsFileRaises | ConfigLoader.FormulaWeightsFacts |
