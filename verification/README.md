# N-gram language models: absolute discounting and add-lambda smoothing

This project is a Dafny model of the two trainers and query engines in
`code/nlp/lm` and proofs about them.

- `DiscountLMModel` is a bigram model with absolute discounting and Katz-style backoff.
  - Training rewrites the first corpus occurrence of every word to `<UNK>`.
  - It counts unigrams and bigrams, then turns the unigram counts into relative frequencies.
  - Finally, for every context, it computes an `alpha` and replaces each bigram count `c` by `(c - d) / total`.
  - `getBigramProb` returns the stored estimate, or else `alpha` of the context times the unigram probability.
- `LambdaLMModel` is a unigram/bigram/trigram model with add-lambda (Lidstone) smoothing over a fixed vocabulary.
  - Training maps every out-of-vocabulary word to `<UNK>` and counts windows of 1, 2 and 3 words.
  - It then normalises trigrams, bigrams and unigrams, in that order. So every smoothed value is computed from raw counts of the level below.
  - The three `getProb` overloads have explicit fallbacks for unseen keys.

Probabilities are `real`s, so every statement is exact. Both models are classes whose map fields are updated in place by methods with loops. This mirrors the Java `HashMap` fields and the constructor loops.

Each method is proved equal to a pure function of the corpus or of the previous state:
- `Train`, a left fold over the lines;
- `CountUnigrams`, `CountBigrams` and `CountTrigrams`, folds over the windows of one line;
- `Normalised`, `Smoothed`, `Discounted` and `Backoff`, the finishing passes and the distribution a context gives.

The laws of the models are lemmas about those functions:
- the unigram probabilities sum to 1;
- for every context, the discounted estimates plus the reserved mass sum to 1;
- `alpha` times `backSum` is the reserved mass, so the backoff distribution of every context sums to 1;
- raw counts are exactly the numbers of windows;
- every trigram prefix is a bigram whose count bounds its row, and every bigram context is a unigram whose count bounds its row.

`sums.dfy` defines `SumOver`, the sum of a map's values over a set of keys, in an unspecified key order (as a `HashMap` iterates). `ngram.dfy` holds what both models share: the reserved symbols, the count tables, the counting folds, row normalisation and sentence formatting.

Some behaviours of the code are worth knowing; the model keeps all of them:

- In `DiscountLMModel` the `<UNK>` rewrite (`DiscountLMModel.java:51-56`) replaces only the first occurrence of a word in the whole corpus. Later occurrences are kept, even within the same line.
  - Example: on the lines `a b a` and `a b c` the rewritten lines are `<s> <UNK> <UNK> a </s>` and `<s> a b <UNK> </s>`.
  - The raw unigram counts are then `<s>:2, <UNK>:3, a:2, b:1, </s>:2` over 10 words. This follows from `RewrittenWrap` and `FirstSeenAt`.
- `</s>` is a bigram context only when a literal `</s>` survives inside a training line, that is when it occurs there after its first occurrence. Otherwise `getBigramProb("</s>", w)` unboxes a missing `alpha` and throws.
  - `logProb` therefore throws exactly for sentences that contain the literal word `</s>`, when `</s>` never became a context in training (`SentenceFails`).
- `DiscountLMModel.getPerplexity` adds `|line| + 2` to its word count for a line whose `logProb` sums `|line| + 1` factors. The model states this as `wordCount == TotalLength(factors) + |lines|`.
- `LambdaLMModel.getPerplexity` adds `|line| + 3 - gram` per line, which is exactly the number of factors `logProb` sums.

## Model

| member | source | states |
|---|---|---|
| Sums.SumRemove | code/nlp/lm/DiscountLMModel.java:81-84 | a sum over a key set equals any one key's value plus the sum over the rest, so the sum does not depend on the iteration order |
| NGram.MapAll | code/nlp/lm/LambdaLMModel.java:64-67 | the mapped line has the same length and each word is kept when in the vocabulary, `<UNK>` otherwise |
| NGram.BumpCounts | code/nlp/lm/DiscountLMModel.java:61-64 | counting a word adds it to the keys and raises its count by exactly 1; every other count is unchanged |
| NGram.BumpPairCounts | code/nlp/lm/DiscountLMModel.java:202-215 | `bigramAdd` creates the context when absent and the pair at 1 or raises it by 1; every other row and pair is unchanged |
| NGram.BumpTripleCounts | code/nlp/lm/LambdaLMModel.java:400-417 | `trigramAdd` creates missing first- and second-level keys and raises exactly one triple by 1; every other triple is unchanged |
| NGram.UnigramsCount | code/nlp/lm/DiscountLMModel.java:59-64 | after counting a line, a word's count has grown by its number of occurrences, and it is a key exactly when it was or occurs |
| NGram.BigramsCount | code/nlp/lm/DiscountLMModel.java:65-67 | after counting a line, a pair's count has grown by its number of windows; the pair and the context exist exactly when they did or a window creates them |
| NGram.TrigramsCount | code/nlp/lm/LambdaLMModel.java:79-82 | after counting a line, a triple's count has grown by its number of windows; prefixes exist exactly when they did or a window creates them |
| NGram.BumpMass | code/nlp/lm/DiscountLMModel.java:61-64 | counting one word adds exactly 1 to the table's total |
| NGram.UnigramsMass | code/nlp/lm/DiscountLMModel.java:49-64 | counting a line of length n adds exactly n to the unigram total, the same n the word count grows by |
| NGram.RowSumBump | code/nlp/lm/DiscountLMModel.java:202-215 | counting a pair adds 1 to its context's row total and nothing to any other row |
| NGram.BigramsRowMass | code/nlp/lm/LambdaLMModel.java:74-77 | a context's row total grows by the context's occurrences before the last position of the line |
| NGram.RowSum2Bump | code/nlp/lm/LambdaLMModel.java:388-418 | counting a triple adds 1 to its prefix's row total and nothing to any other row |
| NGram.TrigramsRowMass | code/nlp/lm/LambdaLMModel.java:79-82 | a prefix's row total grows by the prefix's windows before the last position of the line |
| NGram.DropLastOcc | code/nlp/lm/LambdaLMModel.java:75-81 | windows opened before the last position are windows of the line, so row totals never exceed the counts of their context |
| NGram.Normalised | code/nlp/lm/LambdaLMModel.java:115-117 | same keys, every value divided by the total |
| NGram.NormalisedMass | code/nlp/lm/DiscountLMModel.java:73-75 | relative frequencies sum to 1 when the total is the sum of the counts |
| NGram.SumValues | code/nlp/lm/DiscountLMModel.java:81-84 | the accumulation loop returns the sum of the values over the keys |
| NGram.NormaliseRow | code/nlp/lm/DiscountLMModel.java:73-75 | the in-loop division of every value gives `Normalised` |
| NGram.SmoothedShare | code/nlp/lm/LambdaLMModel.java:97-99 | `(c + lambda) / (total + lambda * size)` is positive, and at most 1 when `c` is at most `total` |
| NGram.FallbackShare | code/nlp/lm/LambdaLMModel.java:214 | `lambda / (p + lambda * size)` is positive and at most the uniform share `1 / size` |
| NGram.UniformShare | code/nlp/lm/LambdaLMModel.java:198 | `lambda / (lambda * size)` equals `1 / size`, a probability |
| NGram.Smoothed | code/nlp/lm/LambdaLMModel.java:107-111 | same keys, every count replaced by its add-lambda estimate |
| NGram.SmoothRow | code/nlp/lm/LambdaLMModel.java:107-111 | the loop over a row gives `Smoothed` |
| NGram.SmoothedRows | code/nlp/lm/LambdaLMModel.java:105-112 | same contexts, every row smoothed against its context's raw count |
| NGram.SmoothRows | code/nlp/lm/LambdaLMModel.java:105-112 | the loop over all contexts gives `SmoothedRows` |
| NGram.Discounted | code/nlp/lm/DiscountLMModel.java:99-103 | same keys, every count `c` replaced by `(c - d) / total` |
| NGram.DiscountRow | code/nlp/lm/DiscountLMModel.java:99-103 | the loop over a row gives `Discounted` |
| NGram.ReservedSize | code/nlp/lm/LambdaLMModel.java:324-326 | a vocabulary holding the three reserved symbols has at least 3 words, so `lambda * size` is never 0 |
| NGram.Formatted | code/nlp/lm/DiscountLMModel.java:224-235 | `|sent| + 2` words, `<s>` first, `</s>` last, every word known when the reserved symbols are |
| NGram.FormattedWords | code/nlp/lm/LambdaLMModel.java:430-434 | every inner word is the sentence's word when known, `<UNK>` otherwise |
| NGram.FormattedEnds | code/nlp/lm/DiscountLMModel.java:227-233 | with `</s>` known, an inner `</s>` appears exactly where the sentence has one |
| NGram.FormatSentence | code/nlp/lm/LambdaLMModel.java:427-438 | the copy-overwrite-insert steps give `Formatted`; the argument is a value and is not changed |
| DiscountLM.FirstSeen | code/nlp/lm/DiscountLMModel.java:51-56 | the rewrite keeps the number of words |
| DiscountLM.FirstSeenAt | code/nlp/lm/DiscountLMModel.java:51-56 | a word becomes `<UNK>` exactly when it is neither in the vocabulary so far nor earlier in the line; later occurrences are kept |
| DiscountLM.Rewritten | code/nlp/lm/DiscountLMModel.java:51-56 | the rewrite keeps the line's length |
| DiscountLM.RewrittenWrap | code/nlp/lm/DiscountLMModel.java:47-56 | on a wrapped line `<s>` and `</s>` are kept, first occurrences of new words become `<UNK>`, and the vocabulary gains every word of the line |
| DiscountLM.RewrittenAt | code/nlp/lm/DiscountLMModel.java:51-56 | positions 0 and `length - 1` are never rewritten; an inner position becomes `<UNK>` exactly at a first occurrence |
| DiscountLM.ReplaceUnseen | code/nlp/lm/DiscountLMModel.java:51-56 | the in-place loop over the array leaves `Rewritten` of the old contents and returns the grown vocabulary |
| DiscountLM.RewriteStep | code/nlp/lm/DiscountLMModel.java:52-55 | one iteration extends the rewritten prefix by one position and the vocabulary by that word |
| DiscountLM.PrepareLine | code/nlp/lm/DiscountLMModel.java:47-56 | a fresh array holding the wrapped line after the rewrite |
| NGram.ReservedCountsMass | code/nlp/lm/DiscountLMModel.java:38-43 | the unigram table both constructors start from holds exactly `<s>`, `</s>` and `<UNK>`, and its counts add up to 0, matching the word count 0 before any line |
| DiscountLM.CountLineWellFormed | code/nlp/lm/DiscountLMModel.java:59-68 | counting a line keeps the unigram total equal to the word count and every context and successor a unigram |
| DiscountLM.TrainWellFormed | code/nlp/lm/DiscountLMModel.java:45-69 | training gives well-formed counts, with a positive word count for a non-empty corpus |
| DiscountLM.TrainStep | code/nlp/lm/DiscountLMModel.java:45-69 | training on one more line counts its rewritten form and extends the vocabulary |
| DiscountLM.CountLineCovers | code/nlp/lm/DiscountLMModel.java:59-68 | after counting a line ending in `</s>`, every unigram except `</s>` is a bigram context |
| DiscountLM.TrainCovers | code/nlp/lm/DiscountLMModel.java:45-69 | after training, every unigram except `</s>` is a bigram context |
| DiscountLM.DiscountAll | code/nlp/lm/DiscountLMModel.java:99-103 | every context row discounted against its own total |
| DiscountLM.AlphaAll | code/nlp/lm/DiscountLMModel.java:94-96 | the `alpha` of every context, keyed by the contexts |
| DiscountLM.AllFinished | code/nlp/lm/DiscountLMModel.java:78-104 | `DiscountAll` and `AlphaAll` hold what the pass computes for every context |
| DiscountLM.Scaled | code/nlp/lm/DiscountLMModel.java:166 | same keys, every value multiplied by `alpha` |
| DiscountLM.Backoff | code/nlp/lm/DiscountLMModel.java:161-167 | the distribution after a context is defined on every unigram |
| DiscountLM.SumDiscount | code/nlp/lm/DiscountLMModel.java:99-103 | subtracting `d` from every value and dividing by `t` takes `n d` off the sum and divides it by `t` |
| DiscountLM.DiscountPartition | code/nlp/lm/DiscountLMModel.java:80-103 | for a row whose counts sum to `total`, the discounted values plus `reserved_mass` sum to 1 |
| DiscountLM.Rebalance | code/nlp/lm/DiscountLMModel.java:80-85 | `(t - n d) / t + n d / t` is 1 |
| DiscountLM.AlphaBalance | code/nlp/lm/DiscountLMModel.java:88-96 | `alpha * backSum` equals `reserved_mass` |
| DiscountLM.UnseenMass | code/nlp/lm/DiscountLMModel.java:88-92 | the unigram probabilities of the words never seen after a context sum to `backSum` |
| DiscountLM.SumOverride | code/nlp/lm/DiscountLMModel.java:161-167 | overriding some values: the sum is the overriding values' sum plus the rest of the base |
| DiscountLM.BackoffParts | code/nlp/lm/DiscountLMModel.java:161-167 | the backoff distribution's mass is the discounted row's mass plus `alpha` times the unseen words' mass |
| DiscountLM.BackoffUnseen | code/nlp/lm/DiscountLMModel.java:88-96 | `alpha` times the unseen words' unigram mass is `reserved_mass` |
| DiscountLM.BackoffMass | code/nlp/lm/DiscountLMModel.java:78-104 | the backoff partition law: after any context, the distribution sums to 1 over the unigrams |
| DiscountLM.FinalTables | code/nlp/lm/DiscountLMModel.java:72-104 | finalisable counts have tables: the normalised unigrams and, per context, the pass's row and `alpha` |
| DiscountLM.TablesKeys | code/nlp/lm/DiscountLMModel.java:72-104 | the finalised tables have the keys of the counts, and the reserved unigrams exist |
| DiscountLM.TablesBackoff | code/nlp/lm/DiscountLMModel.java:161-166 | after a context, the backoff distribution is the scaled unigram table overridden by the context's row |
| DiscountLM.TablesRow | code/nlp/lm/DiscountLMModel.java:78-104 | the stored unigram table, a context's stored row and its `alpha` are the normalised, discounted and `alpha` values of the counts |
| DiscountLM.TablesLookup | code/nlp/lm/DiscountLMModel.java:161-167 | the stored estimate, else `alpha` times the unigram probability, is the backoff distribution's value |
| DiscountLM.QueryHit | code/nlp/lm/DiscountLMModel.java:152-167 | for a context seen in training, `getBigramProb` returns the backoff distribution's value of the mapped words |
| DiscountLM.QueryEstimate | code/nlp/lm/DiscountLMModel.java:152-167 | where the mapped context has a row and an `alpha`, `getBigramProb` returns the stored estimate or the backed-off value |
| DiscountLM.QueryMiss | code/nlp/lm/DiscountLMModel.java:166 | a mapped context with no row is `</s>`, and the query throws |
| DiscountLM.QueryBackoff | code/nlp/lm/DiscountLMModel.java:152-168 | `getBigramProb` throws exactly when the mapped context was never a context, only `</s>` can be one, and otherwise returns the backoff value |
| DiscountLM.QueryKnown | code/nlp/lm/DiscountLMModel.java:152-168 | the same for two words that are both unigrams, so neither is mapped |
| DiscountLM.PairFactors | code/nlp/lm/DiscountLMModel.java:113-123 | the walk over the first n pairs fails only with the unboxing exception and otherwise gives n factors |
| DiscountLM.PairFactorsWalk | code/nlp/lm/DiscountLMModel.java:116-121 | the walk succeeds exactly when every pair's query does, and then holds the queries' values in order |
| DiscountLM.PairFactorsFailure | code/nlp/lm/DiscountLMModel.java:116-121 | a failed walk has a pair whose query throws |
| DiscountLM.PairFactorsNext | code/nlp/lm/DiscountLMModel.java:116-121 | one more pair appends its value or fails with the query's exception |
| DiscountLM.PairFactorsFail | code/nlp/lm/DiscountLMModel.java:116-121 | once the walk has failed, walking further fails the same way |
| DiscountLM.WalkPairs | code/nlp/lm/DiscountLMModel.java:116-121 | the loop returns the walk over every pair of consecutive words |
| DiscountLM.DiscountModel.constructor | code/nlp/lm/DiscountLMModel.java:28-111 | the model holds the tables finalised from `Train(corpus)`, and the discount given |
| DiscountLM.DiscountModel.Learn | code/nlp/lm/DiscountLMModel.java:38-104 | counting then finishing the empty tables gives the tables finalised from `Train(corpus)` |
| DiscountLM.DiscountModel.CountCorpus | code/nlp/lm/DiscountLMModel.java:38-69 | the reserved entries, then every line rewritten and counted: exactly `Train(corpus)` |
| DiscountLM.DiscountModel.CountLineOf | code/nlp/lm/DiscountLMModel.java:47-68 | one pass of the line loop: the tables count the rewritten line, and its length and the grown vocabulary are returned |
| DiscountLM.DiscountModel.CountWindows | code/nlp/lm/DiscountLMModel.java:59-68 | the position loop counts every word and every pair of the line |
| DiscountLM.DiscountModel.CountAt | code/nlp/lm/DiscountLMModel.java:60-67 | one position counts its word, and the pair starting there unless it is the last |
| DiscountLM.DiscountModel.BigramAdd | code/nlp/lm/DiscountLMModel.java:202-215 | the bigram table becomes `BumpPair` of the old one, with no `<UNK>` mapping |
| DiscountLM.DiscountModel.Finalise | code/nlp/lm/DiscountLMModel.java:72-104 | the finishing passes leave the tables finalised from the counts |
| DiscountLM.DiscountModel.FinishPasses | code/nlp/lm/DiscountLMModel.java:72-104 | unigram division, then the pass over the contexts, give the finalised tables |
| DiscountLM.DiscountModel.DiscountContexts | code/nlp/lm/DiscountLMModel.java:78-104 | the pass over every context, in any order, leaves every row discounted and every `alpha` set |
| DiscountLM.DiscountModel.DiscountNext | code/nlp/lm/DiscountLMModel.java:78-104 | one more context done keeps the pass's progress invariant |
| DiscountLM.DiscountModel.DiscountContext | code/nlp/lm/DiscountLMModel.java:79-103 | one context: its `alpha` is `reserved_mass / backSum`, its row is discounted, nothing else changes |
| DiscountLM.DiscountModel.BigramProb | code/nlp/lm/DiscountLMModel.java:152-168 | `getBigramProb` throws exactly when the mapped context was never a context, which only `</s>` can be, and otherwise returns the backoff distribution's value |
| DiscountLM.DiscountModel.UnigramMass | code/nlp/lm/DiscountLMModel.java:73-75 | the stored unigram probabilities sum to 1 |
| DiscountLM.DiscountModel.ContextMass | code/nlp/lm/DiscountLMModel.java:78-104 | after every context, the stored estimates plus `alpha` times the other unigram probabilities sum to 1 |
| DiscountLM.DiscountModel.SentenceFactors | code/nlp/lm/DiscountLMModel.java:113-123 | `logProb` fails only with the unboxing exception and otherwise has `|sent| + 1` factors |
| DiscountLM.DiscountModel.LogProbFactors | code/nlp/lm/DiscountLMModel.java:113-123 | formatting then the pair loop give `SentenceFactors` |
| DiscountLM.DiscountModel.SentencePair | code/nlp/lm/DiscountLMModel.java:116-121 | pair i of the formatted sentence throws exactly when its first word was never a context, which only `</s>` can be, and otherwise gets the backoff value |
| DiscountLM.DiscountModel.SentenceFails | code/nlp/lm/DiscountLMModel.java:113-123 | `logProb` throws exactly when the sentence contains `</s>` and `</s>` was never a context |
| DiscountLM.DiscountModel.FailureAtEnd | code/nlp/lm/DiscountLMModel.java:113-123 | a failing sentence contains a `</s>` that was never a context |
| DiscountLM.DiscountModel.EndFails | code/nlp/lm/DiscountLMModel.java:113-123 | a sentence containing a `</s>` that was never a context fails |
| DiscountLM.DiscountModel.SentenceBackoff | code/nlp/lm/DiscountLMModel.java:113-123 | every factor of an accepted sentence is the backoff distribution's value for its pair |
| DiscountLM.DiscountModel.PerplexityTerms | code/nlp/lm/DiscountLMModel.java:125-150 | it succeeds exactly when every line does, with each line's factors, and the word count is the number of factors plus one per line |
| LambdaLM.PositionsUnigrams | code/nlp/lm/LambdaLMModel.java:62-72 | visiting the first i positions counts every word of the first i |
| LambdaLM.PositionsBigrams | code/nlp/lm/LambdaLMModel.java:74-77 | visiting the positions up to i counts every pair within the first i + 1 words |
| LambdaLM.PositionsTrigrams | code/nlp/lm/LambdaLMModel.java:79-82 | visiting the positions up to i counts every triple within the first i + 2 words |
| LambdaLM.PositionsCountLine | code/nlp/lm/LambdaLMModel.java:62-83 | the position loop counts exactly the words, pairs and triples of the line |
| LambdaLM.LineBigrams | code/nlp/lm/LambdaLMModel.java:74-77 | the position loop counts exactly the pairs of the line |
| LambdaLM.LineTrigrams | code/nlp/lm/LambdaLMModel.java:79-82 | the position loop counts exactly the triples of the line |
| LambdaLM.TrainStep | code/nlp/lm/LambdaLMModel.java:57-84 | training on one more line counts its wrapped and mapped form |
| LambdaLM.PreparedCorpus | code/nlp/lm/LambdaLMModel.java:59-67 | every line as it is counted: wrapped and mapped through the vocabulary |
| LambdaLM.TrainUnigramCounts | code/nlp/lm/LambdaLMModel.java:57-84 | a word's raw count is its number of occurrences in the mapped corpus |
| LambdaLM.TrainBigramCounts | code/nlp/lm/LambdaLMModel.java:57-84 | a pair's raw count is its number of windows in the mapped corpus |
| LambdaLM.TrainTrigramCounts | code/nlp/lm/LambdaLMModel.java:57-84 | a triple's raw count is its number of windows in the mapped corpus |
| LambdaLM.CountLineUnigrams | code/nlp/lm/LambdaLMModel.java:60-72 | counting a line keeps the reserved unigrams, non-negative counts, and the unigram total equal to the word count |
| LambdaLM.CountLineBigrams | code/nlp/lm/LambdaLMModel.java:74-77 | counting a line keeps every context a unigram whose count is at least its row's total |
| LambdaLM.CountLineTrigrams | code/nlp/lm/LambdaLMModel.java:79-82 | counting a line keeps every trigram prefix a bigram whose count is at least its row's total |
| LambdaLM.TrainWellFormed | code/nlp/lm/LambdaLMModel.java:57-84 | training gives well-formed counts, so the lookups at lines 94 and 106 are defined; a non-empty corpus gives a positive word count |
| LambdaLM.UnigramBounds | code/nlp/lm/LambdaLMModel.java:115-117 | a relative frequency of well-formed counts is between 0 and 1 |
| LambdaLM.SmoothedBigramBounds | code/nlp/lm/LambdaLMModel.java:105-111 | a smoothed bigram of well-formed counts is in (0, 1] |
| LambdaLM.SmoothedTrigramBounds | code/nlp/lm/LambdaLMModel.java:92-102 | a smoothed trigram of well-formed counts is in (0, 1] |
| LambdaLM.SmoothedTrigrams | code/nlp/lm/LambdaLMModel.java:92-102 | same prefixes, every trigram row smoothed against its raw prefix bigram count |
| LambdaLM.LambdaModel.constructor | code/nlp/lm/LambdaLMModel.java:40-118 | the vocabulary is the reserved symbols plus the vocabulary file's words, the raw counts are `Train(vocabulary, corpus)`, and the tables are their normalised forms |
| LambdaLM.LambdaModel.Normalise | code/nlp/lm/LambdaLMModel.java:91-117 | trigram, then bigram, then unigram passes leave tables smoothed or normalised from the raw counts |
| LambdaLM.LambdaModel.ReadVocab | code/nlp/lm/LambdaLMModel.java:323-346 | `<s>`, `</s>` and `<UNK>` plus every word of every line are added to the vocabulary |
| LambdaLM.LambdaModel.CountCorpus | code/nlp/lm/LambdaLMModel.java:43-84 | the reserved entries, then every line wrapped and counted: exactly `Train(vocabulary, corpus)`, well formed |
| LambdaLM.LambdaModel.CountWindows | code/nlp/lm/LambdaLMModel.java:62-83 | the position loop counts every word, pair and triple of the mapped line |
| LambdaLM.LambdaModel.CountAt | code/nlp/lm/LambdaLMModel.java:63-82 | one position counts its mapped word, and the pair and triple starting there when they fit |
| LambdaLM.LambdaModel.BigramAdd | code/nlp/lm/LambdaLMModel.java:358-378 | both words mapped through the vocabulary, then exactly that pair counted |
| LambdaLM.LambdaModel.TrigramAdd | code/nlp/lm/LambdaLMModel.java:388-418 | all three words mapped through the vocabulary, then exactly that triple counted |
| LambdaLM.LambdaModel.NormaliseTrigrams | code/nlp/lm/LambdaLMModel.java:92-102 | the trigram pass gives `SmoothedTrigrams` against the still-raw bigrams |
| LambdaLM.LambdaModel.NormaliseBigrams | code/nlp/lm/LambdaLMModel.java:105-112 | the bigram pass gives `SmoothedRows` against the still-raw unigrams |
| LambdaLM.LambdaModel.NormaliseUnigrams | code/nlp/lm/LambdaLMModel.java:115-117 | the unigram pass divides every count by the word count |
| LambdaLM.LambdaModel.UnigramMass | code/nlp/lm/LambdaLMModel.java:115-117 | the stored unigram probabilities sum to 1 |
| LambdaLM.LambdaModel.UnigramProb | code/nlp/lm/LambdaLMModel.java:193-200 | a counted word's relative frequency, otherwise `1 / |V|`; always a probability |
| LambdaLM.LambdaModel.BigramProb | code/nlp/lm/LambdaLMModel.java:209-216 | a counted pair's `(c + lambda) / (c(first) + lambda |V|)`, otherwise `lambda / (P(first) + lambda |V|)`; throws exactly when `first` is not a unigram; a value is in (0, 1] |
| LambdaLM.LambdaModel.TrigramProb | code/nlp/lm/LambdaLMModel.java:226-236 | a counted triple's smoothed value, else `lambda / (P(second given first) + lambda |V|)` for a counted pair, else `1 / |V|`; always in (0, 1] |
| LambdaLM.LambdaModel.WindowProb | code/nlp/lm/LambdaLMModel.java:133-142 | the probability of one window is between 0 and 1 |
| LambdaLM.LambdaModel.Factors | code/nlp/lm/LambdaLMModel.java:133-144 | one factor per window of `gram` words, in order |
| LambdaLM.LambdaModel.SentenceFactors | code/nlp/lm/LambdaLMModel.java:126-146 | a sentence has `|sent| + 3 - gram` factors |
| LambdaLM.LambdaModel.LogProbFactors | code/nlp/lm/LambdaLMModel.java:126-146 | an order outside 1..3 is rejected with `IllegalArgumentException` before any work, otherwise the sentence's factors |
| LambdaLM.LambdaModel.WindowFactors | code/nlp/lm/LambdaLMModel.java:132-145 | the accumulation loop collects exactly `Factors` |
| LambdaLM.LambdaModel.PerplexityTerms | code/nlp/lm/LambdaLMModel.java:155-185 | an order outside 1..3 is rejected; otherwise each line's factors, and the word count equals the number of factors |
| LambdaLM.LambdaModel.GenerateVocab | code/nlp/lm/LambdaLMModel.java:266-302 | the words occurring at least `threshold` times, each once, are returned and added to the vocabulary; the model stays valid |
| LambdaLM.LambdaModel.GenerateVocabDefault | code/nlp/lm/LambdaLMModel.java:315-317 | the same with threshold 2 |
| LambdaLM.CountWords | code/nlp/lm/LambdaLMModel.java:268-286 | every corpus word is mapped to its number of occurrences, and no other word is mapped |
| LambdaLM.AtLeast | code/nlp/lm/LambdaLMModel.java:293-299 | exactly the words whose count reaches the threshold, each once |

## Left out

- File and stream I/O are not modelled: `Scanner`, `BufferedReader`, UTF-16 decoding, `FileWriter`, and the vocabulary file's parsing. Corpora, vocabulary files and test files are sequences of lines, and each line is a sequence of words.
- The `catch` blocks that print and swallow exceptions are not modelled. They only apply to I/O.
- `String.split(" ")` quirks are not modelled: empty tokens from doubled spaces, and trailing empty strings dropped. Words are taken as already split.
- `Math.log10` in `logProb` and `Math.pow` in `getPerplexity` are transcendental. The model returns the factors whose logarithms are summed, in order, and the word count that divides the sum. It does not model the logarithm or the power.
- IEEE `double` rounding, `NaN` and infinities are not modelled: probabilities are exact `real`s.
- The Java code never guards a division by zero; the model states these as preconditions:
  - the `Finalisable` requirement of the discounting constructor: a positive word count, every context row with a non-zero total, and a non-zero `backSum`;
  - `lambda > 0` and a non-empty corpus for the add-lambda constructor.
  - With an empty `<UNK>` row, for example, the Java code stores `NaN`.
- `LambdaLM.LambdaModel.constructor`: requires a non-empty corpus, because with none the unigram pass divides 0 by 0.
- `DiscountLM.DiscountModel.constructor`: requires `Finalisable(Train(corpus).counts)`, because the Java code divides by every context's total and `backSum` unguarded.
- Java `int` overflow of the word counts and of the `generateVocab` counts is not modelled: counts are unbounded.
- `getUnigramTable`, `getBigramTable`, `getTrigramTable` and `getAlphaTable` are `HashMap.toString` dumps and are not modelled. The `LMModel` interface and `Main.java` are not part of this model.
- `getPerplexity` returning `0.0` when the file is missing is not modelled. `generateVocab` writing its list to a file is not modelled either; the list is returned.
- Java exceptions are modelled as values: `Err(NullPointer)` for the unboxing of a missing map entry, and `Err(IllegalArgument)` for a rejected n-gram order.
- Order of iteration: `HashMap` key order is unspecified. Sums are proved independent of it. The pass over contexts is proved for any order, and the model does not pick one.
- `LambdaLM.LambdaModel.GenerateVocab`: the returned list's order is not specified, as `HashMap` iteration does not fix it. The contract states which words it holds, each once, and not their order.
