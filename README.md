# Unsupervised POS tagger — a verified Dafny model

The tagger learns part-of-speech-like classes from raw text, without any annotation, in two programs:

- `unsupervised.py`, step by step:
  - Splits a corpus into tokens and builds its vocabulary.
  - Picks 100 feature words: frequency ranks 26 to 125.
  - Describes every vocabulary word by how often each feature word occurs in the four tokens after it and the four tokens before it.
  - Clusters these vectors into 26 classes with ten rounds of k-means, started from 26 seed words.
  - Writes the cluster listing.
  - Rewrites the corpus as a pseudo-tagged training corpus: one `<s> START` line, then one `word C<i>` line per word found in a cluster (the first such cluster), then one `</s> END` line.
- `helper.py`, step by step:
  - Trains a bigram hidden Markov model on that corpus, with emission and transition counts divided by tag counts.
  - Tags every line of a test file with a Viterbi search.
  - Writes `word_TAG` tokens.

The model follows the code of both programs function by function:

| file | module | models |
|---|---|---|
| `builtins.dfy` | `Builtins` | `str.strip()`, `str.split(' ')`, `' '.join`, `str(n)`/`int(s)`, `list.index` and the append-if-absent idiom |
| `vocabulary.dfy` | `Vocabulary` | `get_tokens`, `get_unique_words` and `get_frequent_words` |
| `features.dfy` | `Features` | `get_feature_vectors` |
| `kmeans.dfy` | `KMeans` | `dist`, `map_clusters_with_data`, `mean_of_data_points`, `recompute_centroids` and the ten-round loop |
| `pseudotags.dfy` | `PseudoTags` | the cluster listing and the pseudo-tagged corpus |
| `hmm.dfy` | `Hmm` | training: the first pass, the second pass and the normalisation |
| `viterbi.dfy` | `Viterbi` | `max_connect`, the fill, the choice of the last tag and the backtrack |
| `output.dfy` | `Output` | the output lines |
| `pipeline.dfy` | `Pipeline` | the two `main` functions and how they compose |

How the Python constructs are modelled:

- **Files** are sequences of lines, without their newline.
- **Lists** that the programs append to are `seq` locals that the methods reassign.
- **Fixed-size buffers** become arrays:
  - the feature matrix, the emission and transition matrices, and the two Viterbi matrices are `array2`;
  - the tag counts are an `array`.
- **Python's dictionary** keeps insertion order. It is modelled as a `map` together with the sequence of its keys.
- **`sorted(..., reverse=True)`** is stable. It is modelled as the ranking of indices by descending count, with equal counts kept in index order.
- **Python exceptions** the code can raise become `Err` values of a `Result`:
  - `IndexError` from `get_frequent_words` or a seed index;
  - `ValueError` from `tags.index`.

### Where the code departs from the textbook HMM

The model follows the code in each case.

- **Viterbi score.** The standard Viterbi recurrence is emission × max(previous × transition). In the code, `max_connect` already multiplies the emission in (helper.py:16-17), and helper.py:111 multiplies it in once more. Every position after the first therefore counts its emission twice.
  - `Viterbi.PathScore` is that score.
  - `Viterbi.TaggingIsOptimal` proves the tagging optimal for it.
- **Malformed training lines.** A tolerant trainer would skip a line whose second word is not a tag.
  - In the code, a line whose first word is not a marker and that has at least two words always goes through `tags.index(line[1])`.
  - When that second word is not a tag, this raises `ValueError` (helper.py:53-56). `Hmm.Train` returns that error.
  - Only marker lines and one-word lines reset the previous tag.
  - `Pipeline.TrainingCorpusTrains` proves that the corpus `unsupervised.py` writes never raises.
- **Tag counts.** A standard HMM divides by the number of tagged words carrying each tag. The code counts tags in the first pass, with its own rule (helper.py:36-40):
  - every word that is a tag name is counted, wherever it stands in the line;
  - the exception is a first word that is a new word type.
  - So a tag count can exceed the number of lines carrying that tag, and an emission row then sums to less than 1.
  - `Hmm.EmissionRowSum` proves "at most 1" in general, and "exactly 1" on a corpus where tag names occur only as second words (`Hmm.Clean`).

## Model

| member | source | states |
|---|---|---|
| Builtins.Strip | unsupervised.py:15 | `str.strip()`: the result is the middle of the input, with no whitespace at either end, and everything removed is whitespace |
| Builtins.SplitSpace | unsupervised.py:15 | `split(' ')` yields at least one piece, and no piece holds a space |
| Builtins.JoinSplit | unsupervised.py:15 | joining the pieces of `split(' ')` with single spaces gives the string back |
| Builtins.SplitJoin | helper.py:89 | splitting a join of space-free pieces gives the pieces back |
| Builtins.Words | helper.py:89 | `line.strip().split(' ')` has at least one word, and no word holds a space |
| Builtins.IndexOf | helper.py:54 | `list.index` returns the first position holding the item |
| Builtins.IndexOfDistinct | helper.py:54 | in a list without duplicates, `list.index` finds every item at its own position |
| Builtins.Dedup | unsupervised.py:24-29 | the append-if-absent scan yields a list without duplicates |
| Builtins.DedupMembers | unsupervised.py:27-29 | that list holds exactly the items of the input |
| Builtins.DedupFirstSeen | unsupervised.py:27-29 | the items of that list are in the order of their first appearance |
| Builtins.ParseNatToString | helper.py:6-8 | `int(str(n)) == n`: a tag's digits give back its number |
| Builtins.NatToStringInjective | helper.py:6-8 | distinct numbers have distinct decimal strings |
| Vocabulary.GetTokens | unsupervised.py:9-17 | the tokens are the non-empty words of every line, in line order, and none is empty |
| Vocabulary.FlattenMembers | unsupervised.py:14-16 | a string is a token exactly when it is non-empty and a word of some line |
| Vocabulary.GetUniqueWords | unsupervised.py:20-30 | the word types are the tokens without duplicates, in first-seen order, and hold exactly the tokens |
| Vocabulary.CountWords | unsupervised.py:38-44 | the dictionary's keys, in insertion order, are the vocabulary in first-seen order; each value is that word's frequency |
| Vocabulary.FrequencyMapCounts | unsupervised.py:38-44 | the dictionary holds exactly the words seen, each with its number of occurrences |
| Vocabulary.InsertRanked | unsupervised.py:46 | inserting a later item into a stable descending ranking keeps it ranked, and adds exactly that item |
| Vocabulary.RankByCount | unsupervised.py:46 | the stable descending sort is a permutation of the items, ranked by count, with equal counts in original order |
| Vocabulary.FrequencyRankingOrdered | unsupervised.py:46 | the sorted vocabulary is a duplicate-free permutation of the word types, in descending frequency, with ties in first-seen order |
| Vocabulary.SortedCounts | unsupervised.py:46-47 | sorting the counted dictionary and taking positions 25 to 24+n is what `get_frequent_words` returns, or `IndexError` past the end |
| Vocabulary.FrequentWordsRanks | unsupervised.py:33-48 | `IndexError` exactly when n > 0 and there are fewer than n+25 word types; otherwise n distinct tokens in non-increasing frequency |
| Vocabulary.GetFrequentWords | unsupervised.py:33-48 | the result is the ranks 26..25+n of the frequency ranking; it is an error exactly when there are fewer than n+25 word types |
| Features.CountAfter | unsupervised.py:55-58 | the forward scan of position i adds, to the row of its word only, one for each feature word among the next four tokens, in that word's forward column |
| Features.CountBefore | unsupervised.py:60-63 | the backward scan adds the feature words among the four previous tokens to the backward columns of that row only |
| Features.GetFeatureVectors | unsupervised.py:51-65 | one row per word type and 2N columns; every entry equals the windowed co-occurrence count `Entry` over the whole stream |
| Features.EntryStep | unsupervised.py:54-63 | position i changes only the row of its own word, by what its two windows hold |
| Features.ForwardColumnsTotal | unsupervised.py:55-58 | each feature word among the four tokens after position i is counted in exactly one forward column, and only when i < len(tokens) - 4 |
| Features.BackwardColumnsTotal | unsupervised.py:60-63 | likewise for the four tokens before position i, and only when i > 3 |
| Features.EntryBound | unsupervised.py:54-63 | every entry of a word's row is at most four times that word's number of occurrences |
| Features.ShortStreamEntriesZero | unsupervised.py:55-60 | a stream of at most four tokens leaves the matrix all zero |
| KMeans.SquaredDistanceSame | unsupervised.py:80-81 | a point is at distance 0 from a centroid that agrees with it on its coordinates |
| KMeans.ClosestCluster | unsupervised.py:73 | `min` by distance: the chosen centroid is at least as close as every other one, and strictly closer than every earlier one |
| KMeans.ClosestToOwnPoint | unsupervised.py:73 | a point lying on centroid j goes to a centroid at distance 0, and to none after j |
| KMeans.Labels | unsupervised.py:72-73 | each point's label is its closest centroid |
| KMeans.Assignment | unsupervised.py:69-74 | one list per centroid, holding only valid point indices |
| KMeans.MapClustersWithData | unsupervised.py:68-77 | the appending loop builds exactly `Assignment` |
| KMeans.AssignmentPartition | unsupervised.py:69-74 | index i is in list k exactly when point i exists and its closest centroid is k, so every point is in exactly one list; each list is in ascending order |
| KMeans.Mean | unsupervised.py:88-97 | the mean has the dimension of the first vector |
| KMeans.MeanOfDataPoints | unsupervised.py:88-97 | the accumulation loop computes `Mean`: the zero vector for an empty cluster, otherwise the coordinate-wise average |
| KMeans.MeanWithinBounds | unsupervised.py:93-97 | every coordinate of the mean of a non-empty cluster lies between the least and the greatest value of its points |
| KMeans.Recomputed | unsupervised.py:84-85 | one centroid per cluster, all of the data's dimension |
| KMeans.RecomputeCentroids | unsupervised.py:84-85 | the new centroids are the means of the clusters, in cluster order |
| KMeans.CentroidsAfter | unsupervised.py:121-127 | starting from the seed words' vectors, every round keeps one centroid per seed, of the data's dimension |
| KMeans.Cluster | unsupervised.py:121-127 | after ten rounds, the clusters are the assignment to the centroids of the ninth update |
| PseudoTags.WriteClusterFile | unsupervised.py:132-136 | the listing is, per cluster: `BEGIN CLUSTER`, its words one per line, `END CLUSTER` and a blank line |
| PseudoTags.ClusterFileReadsBack | unsupervised.py:132-136 | reading the listing back gives the words of every cluster, in order |
| PseudoTags.FirstClusterFrom | unsupervised.py:148-151 | the result is the first cluster holding the word, or none holds it |
| PseudoTags.TagWord | unsupervised.py:148-151 | a word gets the tag line of its first cluster, or no line at all |
| PseudoTags.TaggedWithItsCluster | unsupervised.py:148-151 | when the clusters are disjoint, a word type gets exactly the tag line of its own cluster |
| PseudoTags.TagSentence | unsupervised.py:145-152 | a corpus line becomes `<s> START`, the tag lines of its words, and `</s> END` |
| PseudoTags.WritePseudoCorpus | unsupervised.py:144-152 | the training corpus is the lines of every corpus line, in order |
| PseudoTags.TagLineReadsBack | unsupervised.py:150 | a tag line splits back into its word and `C<i>`, and the digits give back i |
| PseudoTags.TagLineIsNoMarker | unsupervised.py:150 | no tag line is a sentence marker line |
| PseudoTags.SentenceMarkers | unsupervised.py:146-152 | the lines of one corpus line hold exactly one `<s> START` and one `</s> END` |
| PseudoTags.MarkersPerLine | unsupervised.py:144-152 | the training corpus holds exactly one `<s> START` and one `</s> END` per corpus line |
| Hmm.TagNames | helper.py:6-8 | the tag list is `C` followed by each cluster number |
| Hmm.TagsSpelledOut | helper.py:6-8 | the tags are the 26 strings `C0` to `C25` |
| Hmm.TagDigits | helper.py:6-8 | each tag is `C` followed by the one or two decimal digits of its number |
| Hmm.TagsDistinct | helper.py:6-8 | there are 26 distinct tags, and none is in the exclude list |
| Hmm.TokenizeLines | helper.py:35 | every training line is split as `line.strip().split(' ')` |
| Hmm.CountLine | helper.py:35-40 | one line adds its first word as a word type when it is new and no marker, and adds its tag words to their counts |
| Hmm.CountTypesAndTags | helper.py:30-40 | the first pass leaves the word types of the whole corpus and every tag's count `TagCount` |
| Hmm.WordTypesAreFirstWords | helper.py:30-38 | the word types have no duplicates, and are exactly the non-marker first words of lines |
| Hmm.FirstBadLine | helper.py:53-56 | the first line on which `tags.index` raises, or no line raises |
| Hmm.CountLinePairs | helper.py:52-61 | one line raises exactly when it qualifies and its second word is no tag; otherwise it adds one emission at (its tag, its word) and one transition from the previous tag when there is one, and it leaves its tag as the new previous tag (-1 when it resets) |
| Hmm.CountLineAt | helper.py:51-61 | counting line l extends the counts of the lines before it to the counts of lines up to l |
| Hmm.CountPairs | helper.py:43-61 | the second pass stops with `ValueError` at the first bad line; the matrices then hold the counts of every line before it, or of the whole corpus |
| Hmm.Normalize | helper.py:64-73 | every row is divided by its tag's count, and rows of tags with count 0 are unchanged |
| Hmm.Normalized | helper.py:66-67 | a normalised count is non-negative, and at most 1 when the count does not exceed the tag's count |
| Hmm.Train | helper.py:30-73 | training gives the `ValueError` of the first bad line, or the model `Estimate` of the whole corpus |
| Hmm.EmitsMeaning | helper.py:53-57 | a line adds to emission cell (t, w) exactly when it carries a word and a tag, its tag is t and its word is word type w |
| Hmm.EmissionRowTotal | helper.py:53-57 | emission row t adds up to the number of lines with tag t |
| Hmm.LineCountsItsTag | helper.py:36-40 | the first pass counts the tag of a word-and-tag line at least once |
| Hmm.RowCountAtMostTagCount | helper.py:34-40 | a tag's count is at least the number of lines carrying that tag |
| Hmm.CleanLineCount | helper.py:36-40 | when tag names occur only as second words, a line counts once for its own tag and for no other |
| Hmm.CleanTagCount | helper.py:34-40 | on such a corpus, a tag's count is exactly the number of lines carrying it |
| Hmm.TransitionRowTotal | helper.py:50-61 | the transitions out of tag a, plus one when the last line carries a, are at most the number of lines carrying a |
| Hmm.TransitionsSplitAtReset | helper.py:58-61 | a line that resets the previous tag splits the transition counts: nothing is counted across it |
| Hmm.EmissionEntryBound | helper.py:57 | an emission count never exceeds its tag's count |
| Hmm.TransitionEntryBound | helper.py:59 | a transition count never exceeds the count of its first tag |
| Hmm.EmissionRowSum | helper.py:64-67 | an emission row whose tag was never counted is all 0; otherwise it adds up to at most 1, and to exactly 1 when tag names occur only as second words |
| Hmm.TransitionRowSum | helper.py:70-73 | a transition row whose tag was never counted is all 0; otherwise it adds up to at most 1 |
| Hmm.EstimateWellFormed | helper.py:43-73 | the trained model has 26 rows per matrix and one emission column per word type; the word types are distinct, and every entry lies in [0, 1] |
| Viterbi.EmissionOf | helper.py:101-105 | a word type's emission score for a tag is its cell in the emission matrix, and any other word gets 0.001; scores lie in [0, 1] |
| Viterbi.LookupEmission | helper.py:101-105 | the lookup finds `EmissionOf` |
| Viterbi.FirstMax | helper.py:12-19 | the strict-`>` scan returns the greatest score and the first position holding it, or the start value and -1 when no score beats it |
| Viterbi.MaxConnect | helper.py:11-19 | `max_connect` returns the first maximum of previous score × transition × emission over the tags |
| Viterbi.Connect | helper.py:11-19 | on non-negative scores, `max_connect` always returns a real tag in 0..25 and a non-negative value |
| Viterbi.ConnectDominates | helper.py:14-18 | `max_connect`'s value is at least the candidate of every tag |
| Viterbi.ConnectAchieved | helper.py:14-18 | `max_connect`'s value is the candidate of the tag it returns |
| Viterbi.FillCell | helper.py:101-111 | cell (y, x) is the emission score for x = 0, and emission × `max_connect` otherwise, with the returned tag as its backpointer; no other cell changes |
| Viterbi.FillColumn | helper.py:100-111 | column x of both matrices is `NextColumn` and `NextPointers` of the column before it; other columns are unchanged |
| Viterbi.Fill | helper.py:95-111 | after the fill, every cell equals `Column` and every backpointer equals `Pointers` |
| Viterbi.CellDominates | helper.py:107-111 | a cell is at least the score of reaching its tag from any tag of the previous word |
| Viterbi.CellAchieved | helper.py:107-111 | a cell is the score of reaching its tag from the tag its backpointer names |
| Viterbi.ColumnBoundsPaths | helper.py:99-111 | no tagging of words 0..x ending in tag y scores more than cell (y, x) |
| Viterbi.FillAchieved | helper.py:99-111 | every filled cell after column 0 is reached from its backpointer's cell |
| Viterbi.LastTag | helper.py:114-119 | the scan of the last column yields its first maximum |
| Viterbi.FinalTagIsFirstMax | helper.py:114-119 | the last word's tag has the greatest score of the last column, and no earlier tag has that score |
| Viterbi.Backtrack | helper.py:121-123 | walking the backpointers from the last tag yields `BackTrack` of the pointer table |
| Viterbi.FollowPath | helper.py:121-123 | the backward walk yields the tags whose consecutive pairs the backpointers link |
| Viterbi.BackTrackFollowsPointers | helper.py:121-123 | the backtrack follows the backpointers, and it is the only tagging ending in that tag that does |
| Viterbi.BackTrackScore | helper.py:121-123 | the backtrack from cell (s, x) scores exactly that cell |
| Viterbi.TaggingFromLastColumn | helper.py:114-123 | the tagging is the backtrack from the first maximum of the last column |
| Viterbi.ReadTagging | helper.py:114-123 | choosing the last tag and backtracking over the filled matrices gives `Tagging` |
| Viterbi.TaggingIsOptimal | helper.py:95-123 | no tagging of the sentence scores more than the one written, under the code's score (emission counted twice after the first word) |
| Viterbi.DecodeLattice | helper.py:95-123 | the fill, the last-tag scan and the backtrack give `Tagging` of the sentence's emission table |
| Viterbi.Decode | helper.py:86-123 | a test sentence is tagged with `Tagging` of its emission table, for any monotone product |
| Viterbi.TimesMonotone | helper.py:15-16 | Python's `*` on non-negative scores is non-negative and monotone in each argument |
| Viterbi.TimesProduct | helper.py:110-111 | and 1 is its unit, as the first column needs |
| Viterbi.Decoding | helper.py:86-123 | every test word gets exactly one tag, in 0..25 |
| Viterbi.TagTestSentence | helper.py:86-123 | the tags written for a sentence are `Decoding` under Python's product |
| Output.Tokens | helper.py:127-128 | one `word_TAG` token per word, in order |
| Output.WriteTagged | helper.py:126-129 | the written line is every token followed by a space, then ` ._.` and a newline |
| Output.LastUnderscore | helper.py:128 | the position of the last underscore of a token, or -1 when there is none |
| Output.TokenReadsBack | helper.py:128 | splitting a token at its last underscore gives back the word, whatever underscores it holds, and the tag; the tag's digits give back the tag number |
| Output.TaggedLineReadsBack | helper.py:127-129 | the line ends in a newline; before it, split on spaces, it gives back the tokens in order, followed by an empty piece and `._.` |
| Output.TagTestLine | helper.py:89-129 | a test line is split, tagged and written as `TaggedSentence` |
| Output.TaggedFile | helper.py:85-129 | the output has one tagged line per test line, in order |
| Output.TagTestFile | helper.py:85-129 | the loop over the test file writes `TaggedFile` |
| Pipeline.TagLineTrains | helper.py:53-56 | a tag line of a cluster below 26 never makes the second pass raise |
| Pipeline.PseudoLineTrains | helper.py:53-56 | neither does a sentence marker line |
| Pipeline.CorpusLinesArePseudo | unsupervised.py:144-152 | every line of the training corpus is a marker line or a tag line of a space-free word |
| Pipeline.TrainingCorpusTrains | unsupervised.py:144-152 | training on the corpus `unsupervised.py` writes never raises `ValueError` when there are at most 26 clusters |
| Pipeline.FeatureVectors | unsupervised.py:111 | the feature matrix as vectors of reals: one per word type, of length 2N, holding the counts |
| Pipeline.Clustering | unsupervised.py:107-127 | `IndexError` exactly when there are too few word types for 100 feature words or a seed is no word type; otherwise 26 clusters of valid word-type indices |
| Pipeline.WordTaggedWithItsCluster | unsupervised.py:123-152 | every word type lies in exactly one cluster, the one whose final centroid is closest to its feature vector, and the training corpus writes it with that cluster's tag |
| Pipeline.Unsupervised | unsupervised.py:100-152 | `main` writes the cluster listing and the training corpus of the clustering, or stops with its error |
| Pipeline.Helper | helper.py:21-131 | `main` writes `TaggedFile` under the trained model, or stops with the `ValueError` of the first bad training line |
| Pipeline.Run | unsupervised.py:155 | the whole run fails exactly when the clustering fails; otherwise it writes the listing, the corpus and the tagged test file of that corpus |

## Left out

- All file and console I/O is left out: `codecs.open`, `readlines`, the writes, the truncation of the output file and the prints. Files are sequences of lines.
- The command line, `sys.argv`, the language and path tables and the `ImportError` message are left out.
- The 26 hard-coded seed indices (unsupervised.py:119-121) are a parameter.
  - An index that is no word type is the `IndexError` the code would raise.
  - The 26 linguistic cluster names (unsupervised.py:114-115) only fix that number.
- `math.sqrt` and the summed error (unsupervised.py:70, 75, 81, 126) are left out.
  - The error value only feeds a print.
  - Centroids are compared by squared distance. This picks the same centroid, because the square root is monotone.
- IEEE floating-point rounding, underflow and the int/float distinction are left out. Scores and centroids are `real`, and counts are `nat`.
- Viterbi.Decode: the product is a parameter that only needs to be monotone on non-negative scores, with 1 as its unit. Python's `*` (`Viterbi.Times`) is the instance `helper.py` uses.
- The cost of the linear `list.index` and `in` lookups is left out; only their results are modelled.
- Features.GetFeatureVectors requires every token to be a word type. The `ValueError` that `unique_words.index` raises otherwise cannot happen from `main`, which passes the word types of the same tokens.
- KMeans.ClosestCluster requires every centroid to be at least as long as the point. `dist` raises `IndexError` otherwise, which cannot happen here: all vectors have 2N coordinates.
- KMeans.MeanOfDataPoints requires no listed vector to be longer than the first. The buffer overflow (`IndexError`) this rules out cannot happen, for the same reason.
- KMeans.RecomputeCentroids and KMeans.Cluster require all feature vectors to have one length, as `get_feature_vectors` builds them.
- Viterbi.MaxConnect requires a 26 × 26 transition matrix with non-negative entries. Every trained model has one (`Hmm.EstimateWellFormed`).
- Hmm.CountLinePairs requires the first word of a qualifying line to be a known word type. The first pass guarantees this (`Hmm.FirstWordKnown`), so `wordtypes.index` at helper.py:54 never raises.
