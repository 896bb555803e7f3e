/**
 * The add-lambda (Lidstone) smoothed trigram model of `LambdaLMModel.java`.
 *
 * Training counts every boundary-wrapped corpus line into three tables
 * (windows of size 1, 2 and 3, every out-of-vocabulary word read as
 * `<UNK>`), then overwrites the tables in place with probabilities:
 * trigrams first (against the still-raw bigram counts), then bigrams
 * (against the still-raw unigram counts), then unigrams (against the total
 * word count).
 *
 * The pure functions `Train` and `CountLine` describe the raw counts; the
 * class `LambdaModel` does the same work step by step and is proved to end
 * in the state those functions describe.
 */
module LambdaLM {
  import opened Sums
  import opened NGram

  /** Raw counts gathered by training, before any normalisation. */
  datatype Counts = Counts(uni: Table1, bi: Table2, tri: Table3, words: nat)

  /** The tables before the first corpus line: reserved unigrams at 0, empty `<UNK>` and `<s>` contexts. */
  function InitialCounts(): Counts
  {
    Counts(ReservedCounts(), map[UNK := map[], BOS := map[]], map[], 0)
  }

  /** One wrapped and mapped line counted into `c`. */
  function CountLine(c: Counts, s: seq<Word>): Counts
  {
    Counts(CountUnigrams(c.uni, s), CountBigrams(c.bi, s), CountTrigrams(c.tri, s), c.words + |s|)
  }

  /**
   * What the training loop does at position `i` of a mapped line `s`: count
   * the word there, the pair starting there and the triple starting there,
   * each when it fits in the line.
   */
  function CountPosition(c: Counts, s: seq<Word>, i: nat): Counts
    requires i < |s|
  {
    Counts(Bump(c.uni, s[i]),
           if i + 1 < |s| then BumpPair(c.bi, s[i], s[i + 1]) else c.bi,
           if i + 2 < |s| then BumpTriple(c.tri, s[i], s[i + 1], s[i + 2]) else c.tri,
           c.words)
  }

  /** The tables after the training loop has visited the first `i` positions of `s`. */
  function CountPositions(c: Counts, s: seq<Word>, i: nat): Counts
    requires i <= |s|
    decreases i
  {
    if i == 0 then c else CountPosition(CountPositions(c, s, i - 1), s, i - 1)
  }

  /** Visiting the first `i` positions counts every word of `s[..i]`. */
  lemma {:induction false} PositionsUnigrams(c: Counts, s: seq<Word>, i: nat)
    requires i <= |s|
    ensures CountPositions(c, s, i).uni == CountUnigrams(c.uni, s[..i])
  {
    if i > 0 {
      PositionsUnigrams(c, s, i - 1);
      assert s[..i][..i - 1] == s[..i - 1];
    }
  }

  /** Visiting the positions up to `i` counts every pair of `s[..i + 1]`. */
  lemma {:induction false} PositionsBigrams(c: Counts, s: seq<Word>, i: nat)
    requires i < |s|
    ensures CountPositions(c, s, i).bi == CountBigrams(c.bi, s[..i + 1])
  {
    if i > 0 {
      PositionsBigrams(c, s, i - 1);
      BigramsSnoc(c.bi, s, i + 1);
    }
  }

  /** Visiting the positions up to `i` counts every triple of `s[..i + 2]`. */
  lemma {:induction false} PositionsTrigrams(c: Counts, s: seq<Word>, i: nat)
    requires i + 1 < |s|
    ensures CountPositions(c, s, i).tri == CountTrigrams(c.tri, s[..i + 2])
  {
    if i > 0 {
      PositionsTrigrams(c, s, i - 1);
      TrigramsSnoc(c.tri, s, i + 2);
    }
  }

  /**
   * Visiting every position of a line, in order, counts exactly its words,
   * pairs and triples: the position-by-position loop and the window folds
   * agree.
   */
  lemma {:induction false} PositionsCountLine(c: Counts, s: seq<Word>)
    ensures CountPositions(c, s, |s|).uni == CountUnigrams(c.uni, s)
    ensures CountPositions(c, s, |s|).bi == CountBigrams(c.bi, s)
    ensures CountPositions(c, s, |s|).tri == CountTrigrams(c.tri, s)
  {
    PositionsUnigrams(c, s, |s|);
    assert s[..|s|] == s;
    LineBigrams(c, s);
    LineTrigrams(c, s);
  }

  /** The pairs half of `PositionsCountLine`. */
  lemma {:induction false} LineBigrams(c: Counts, s: seq<Word>)
    ensures CountPositions(c, s, |s|).bi == CountBigrams(c.bi, s)
  {
    if |s| >= 1 {
      PositionsBigrams(c, s, |s| - 1);
      LastPosition(c, s);
      assert s[..|s|] == s;
    }
  }

  /** The triples half of `PositionsCountLine`. */
  lemma {:induction false} LineTrigrams(c: Counts, s: seq<Word>)
    ensures CountPositions(c, s, |s|).tri == CountTrigrams(c.tri, s)
  {
    if |s| == 1 {
      LastPosition(c, s);
    } else if |s| >= 2 {
      PositionsTrigrams(c, s, |s| - 2);
      LastPositions(c, s);
      assert s[..|s|] == s;
    }
  }

  /** The last position of a line starts no pair and no triple. */
  lemma {:induction false} LastPosition(c: Counts, s: seq<Word>)
    requires 1 <= |s|
    ensures CountPositions(c, s, |s|).bi == CountPositions(c, s, |s| - 1).bi
    ensures CountPositions(c, s, |s|).tri == CountPositions(c, s, |s| - 1).tri
  {
  }

  /** The last two positions of a line start no triple. */
  lemma {:induction false} LastPositions(c: Counts, s: seq<Word>)
    requires 2 <= |s|
    ensures CountPositions(c, s, |s|).tri == CountPositions(c, s, |s| - 2).tri
  {
    LastPosition(c, s);
    assert CountPositions(c, s, |s| - 1).tri == CountPositions(c, s, |s| - 2).tri;
  }

  /** A corpus line as it is counted: boundaries added, unknown words read as `<UNK>`. */
  function Prepared(vocab: set<Word>, line: seq<Word>): seq<Word>
  {
    MapAll(vocab, Wrap(line))
  }

  /** The raw counts after training on every line of `corpus`, in order. */
  function Train(vocab: set<Word>, corpus: seq<seq<Word>>): Counts
    decreases |corpus|
  {
    if corpus == [] then InitialCounts()
    else CountLine(Train(vocab, corpus[..|corpus| - 1]), Prepared(vocab, corpus[|corpus| - 1]))
  }

  /** Training on one more line counts its prepared form. */
  lemma {:induction false} TrainStep(vocab: set<Word>, corpus: seq<seq<Word>>, i: nat)
    requires i < |corpus|
    ensures Train(vocab, corpus[..i + 1]) == CountLine(Train(vocab, corpus[..i]), Prepared(vocab, corpus[i]))
  {
    assert corpus[..i + 1][..i] == corpus[..i];
  }

  /** Every line of `corpus` as it is counted. */
  function PreparedCorpus(vocab: set<Word>, corpus: seq<seq<Word>>): (r: seq<seq<Word>>)
    ensures |r| == |corpus|
    ensures forall i :: 0 <= i < |corpus| ==> r[i] == Prepared(vocab, corpus[i])
  {
    seq(|corpus|, i requires 0 <= i < |corpus| => Prepared(vocab, corpus[i]))
  }

  /** Number of windows `(a, b)` over all lines. */
  function CorpusPairOcc(lines: seq<seq<Word>>, a: Word, b: Word): nat
    decreases |lines|
  {
    if lines == [] then 0 else CorpusPairOcc(lines[..|lines| - 1], a, b) + PairOcc(lines[|lines| - 1], a, b)
  }

  /** Number of windows `(a, b, c)` over all lines. */
  function CorpusTripleOcc(lines: seq<seq<Word>>, a: Word, b: Word, c: Word): nat
    decreases |lines|
  {
    if lines == [] then 0
    else CorpusTripleOcc(lines[..|lines| - 1], a, b, c) + TripleOcc(lines[|lines| - 1], a, b, c)
  }

  /** The prepared corpus without its last line. */
  lemma {:induction false} PreparedPrefix(vocab: set<Word>, corpus: seq<seq<Word>>)
    requires corpus != []
    ensures PreparedCorpus(vocab, corpus)[..|corpus| - 1] == PreparedCorpus(vocab, corpus[..|corpus| - 1])
  {
  }

  /** The raw unigram count of a word is its number of occurrences in the prepared corpus. */
  lemma {:induction false} TrainUnigramCounts(vocab: set<Word>, corpus: seq<seq<Word>>, a: Word)
    ensures Get(Train(vocab, corpus).uni, a) == CorpusOcc(PreparedCorpus(vocab, corpus), a) as real
    decreases |corpus|
  {
    if corpus != [] {
      var rest := corpus[..|corpus| - 1];
      TrainUnigramCounts(vocab, rest, a);
      PreparedPrefix(vocab, corpus);
      UnigramsCount(Train(vocab, rest).uni, Prepared(vocab, corpus[|corpus| - 1]), a);
    }
  }

  /** The raw count of a pair is its number of windows in the prepared corpus. */
  lemma {:induction false} TrainBigramCounts(vocab: set<Word>, corpus: seq<seq<Word>>, a: Word, b: Word)
    ensures Get2(Train(vocab, corpus).bi, a, b) == CorpusPairOcc(PreparedCorpus(vocab, corpus), a, b) as real
    decreases |corpus|
  {
    if corpus != [] {
      var rest := corpus[..|corpus| - 1];
      TrainBigramCounts(vocab, rest, a, b);
      PreparedPrefix(vocab, corpus);
      BigramsCount(Train(vocab, rest).bi, Prepared(vocab, corpus[|corpus| - 1]), a, b);
    }
  }

  /** The raw count of a triple is its number of windows in the prepared corpus. */
  lemma {:induction false} TrainTrigramCounts(vocab: set<Word>, corpus: seq<seq<Word>>, a: Word, b: Word, c: Word)
    ensures Get3(Train(vocab, corpus).tri, a, b, c) == CorpusTripleOcc(PreparedCorpus(vocab, corpus), a, b, c) as real
    decreases |corpus|
  {
    if corpus != [] {
      var rest := corpus[..|corpus| - 1];
      TrainTrigramCounts(vocab, rest, a, b, c);
      PreparedPrefix(vocab, corpus);
      TrigramsCount(Train(vocab, rest).tri, Prepared(vocab, corpus[|corpus| - 1]), a, b, c);
    }
  }

  /**
   * What the raw counts promise the normalisation passes and the queries:
   * the reserved unigrams exist, counts are non-negative, the unigram counts
   * add up to the word count, every bigram context has a unigram count at
   * least its row's total, and every trigram prefix is a bigram whose count
   * is at least that prefix's row total.
   */
  ghost predicate WellFormed(c: Counts)
  {
    && Reserved <= c.uni.Keys
    && (forall w :: w in c.uni ==> c.uni[w] >= 0.0)
    && SumOver(c.uni, c.uni.Keys) == c.words as real
    && (forall a :: a in c.bi ==> a in c.uni && RowSum(c.bi, a) <= c.uni[a])
    && (forall a, b :: a in c.bi && b in c.bi[a] ==> c.bi[a][b] >= 0.0)
    && (forall a :: a in c.tri ==> a in c.bi)
    && (forall a, b :: a in c.tri && b in c.tri[a] ==> b in c.bi[a] && RowSum2(c.tri, a, b) <= c.bi[a][b])
    && (forall a, b, x :: a in c.tri && b in c.tri[a] && x in c.tri[a][b] ==> c.tri[a][b][x] >= 0.0)
  }

  /** The unigram half of `WellFormed` survives counting one line. */
  lemma {:induction false} CountLineUnigrams(c: Counts, s: seq<Word>)
    requires WellFormed(c)
    ensures Reserved <= CountLine(c, s).uni.Keys
    ensures forall w :: w in CountLine(c, s).uni ==> CountLine(c, s).uni[w] >= 0.0
    ensures SumOver(CountLine(c, s).uni, CountLine(c, s).uni.Keys) == CountLine(c, s).words as real
  {
    var c' := CountLine(c, s);
    UnigramsMass(c.uni, s);
    forall w | w in Reserved
      ensures w in c'.uni
    {
      UnigramsCount(c.uni, s, w);
    }
    forall w | w in c'.uni
      ensures c'.uni[w] >= 0.0
    {
      UnigramsCount(c.uni, s, w);
    }
  }

  /** The bigram half of `WellFormed` survives counting one line. */
  lemma {:induction false} CountLineBigrams(c: Counts, s: seq<Word>)
    requires WellFormed(c)
    ensures forall a :: a in CountLine(c, s).bi ==>
              a in CountLine(c, s).uni && RowSum(CountLine(c, s).bi, a) <= CountLine(c, s).uni[a]
    ensures forall a, b :: a in CountLine(c, s).bi && b in CountLine(c, s).bi[a] ==> CountLine(c, s).bi[a][b] >= 0.0
  {
    var c' := CountLine(c, s);
    forall a | a in c'.bi
      ensures a in c'.uni && RowSum(c'.bi, a) <= c'.uni[a]
    {
      BigramsCount(c.bi, s, a, a);
      UnigramsCount(c.uni, s, a);
      BigramsRowMass(c.bi, s, a);
      DropLastOcc(s, a, a);
      if a !in c.bi {
        assert a in s by {
          LastSplit(s, a);
        }
      }
    }
    forall a, b | a in c'.bi && b in c'.bi[a]
      ensures c'.bi[a][b] >= 0.0
    {
      BigramsCount(c.bi, s, a, b);
    }
  }

  /** The trigram half of `WellFormed` survives counting one line. */
  lemma {:induction false} CountLineTrigrams(c: Counts, s: seq<Word>)
    requires WellFormed(c)
    ensures forall a :: a in CountLine(c, s).tri ==> a in CountLine(c, s).bi
    ensures forall a, b :: a in CountLine(c, s).tri && b in CountLine(c, s).tri[a] ==>
              b in CountLine(c, s).bi[a] && RowSum2(CountLine(c, s).tri, a, b) <= CountLine(c, s).bi[a][b]
    ensures forall a, b, x :: a in CountLine(c, s).tri && b in CountLine(c, s).tri[a] && x in CountLine(c, s).tri[a][b] ==>
              CountLine(c, s).tri[a][b][x] >= 0.0
  {
    var c' := CountLine(c, s);
    forall a | a in c'.tri
      ensures a in c'.bi
    {
      TrigramsCount(c.tri, s, a, a, a);
      BigramsCount(c.bi, s, a, a);
      if a !in c.tri {
        assert a in DropLast(s) by {
          if s != [] && DropLast(s) != [] {
            LastSplit(DropLast(s), a);
          }
        }
      }
    }
    forall a, b | a in c'.tri && b in c'.tri[a]
      ensures b in c'.bi[a] && RowSum2(c'.tri, a, b) <= c'.bi[a][b]
    {
      TrigramsCount(c.tri, s, a, b, b);
      BigramsCount(c.bi, s, a, b);
      TrigramsRowMass(c.tri, s, a, b);
      DropLastOcc(s, a, b);
    }
    forall a, b, x | a in c'.tri && b in c'.tri[a] && x in c'.tri[a][b]
      ensures c'.tri[a][b][x] >= 0.0
    {
      TrigramsCount(c.tri, s, a, b, x);
    }
  }

  /** Training keeps the raw counts well formed, whatever the corpus. */
  lemma {:induction false} TrainWellFormed(vocab: set<Word>, corpus: seq<seq<Word>>)
    ensures WellFormed(Train(vocab, corpus))
    ensures corpus != [] ==> Train(vocab, corpus).words > 0
    decreases |corpus|
  {
    if corpus == [] {
      ReservedCountsMass();
    } else {
      var c := Train(vocab, corpus[..|corpus| - 1]);
      var s := Prepared(vocab, corpus[|corpus| - 1]);
      TrainWellFormed(vocab, corpus[..|corpus| - 1]);
      CountLineUnigrams(c, s);
      CountLineBigrams(c, s);
      CountLineTrigrams(c, s);
    }
  }

  /** A relative frequency computed from well-formed counts is a probability. */
  lemma {:induction false} UnigramBounds(c: Counts, w: Word)
    requires WellFormed(c) && c.words > 0 && w in c.uni
    ensures 0.0 <= c.uni[w] / c.words as real <= 1.0
  {
    SumBoundsElement(c.uni, c.uni.Keys, w);
    FractionAtMostOne(c.uni[w], c.words as real);
  }

  /** A smoothed bigram computed from well-formed counts is a positive probability. */
  lemma {:induction false} SmoothedBigramBounds(c: Counts, lambda: real, size: nat, a: Word, b: Word)
    requires WellFormed(c) && lambda > 0.0 && size >= 1 && a in c.bi && b in c.bi[a]
    ensures 0.0 < SmoothedShare(c.bi[a][b], c.uni[a], lambda, size) <= 1.0
  {
    SumBoundsElement(c.bi[a], c.bi[a].Keys, b);
  }

  /** A smoothed trigram computed from well-formed counts is a positive probability. */
  lemma {:induction false} SmoothedTrigramBounds(c: Counts, lambda: real, size: nat, a: Word, b: Word, x: Word)
    requires WellFormed(c) && lambda > 0.0 && size >= 1 && a in c.tri && b in c.tri[a] && x in c.tri[a][b]
    ensures 0.0 < SmoothedShare(c.tri[a][b][x], c.bi[a][b], lambda, size) <= 1.0
  {
    SumBoundsElement(c.tri[a][b], c.tri[a][b].Keys, x);
  }

  /** Every trigram row smoothed against its prefix's count in `bi`. */
  function SmoothedTrigrams(tri: Table3, bi: Table2, lambda: real, size: nat): (r: Table3)
    requires lambda > 0.0 && size > 0
    requires forall a :: a in tri ==> a in bi && forall b :: b in tri[a] ==> b in bi[a] && bi[a][b] >= 0.0
    ensures r.Keys == tri.Keys
    ensures forall a :: a in tri ==> r[a] == SmoothedRows(tri[a], bi[a], lambda, size)
  {
    map a | a in tri :: SmoothedRows(tri[a], bi[a], lambda, size)
  }

  /** The model of `LambdaLMModel`: its tables, vocabulary and lambda. */
  class LambdaModel {
    var unigrams: Table1
    var bigrams: Table2
    var trigrams: Table3
    var vocabulary: set<Word>
    const lambda: real

    /** The raw counts the tables were normalised from. */
    ghost var counts: Counts
    /** The vocabulary size at training time (the vocabulary may grow later). */
    ghost var trainedSize: nat

    /**
     * After training: unigrams are relative frequencies, bigrams and
     * trigrams are add-lambda smoothed against the raw counts.
     */
    ghost predicate Valid()
      reads this
    {
      && lambda > 0.0
      && Reserved <= vocabulary
      && trainedSize >= 3
      && WellFormed(counts)
      && counts.words > 0
      && unigrams == Normalised(counts.uni, counts.words as real)
      && Reserved <= unigrams.Keys
      && bigrams == SmoothedRows(counts.bi, counts.uni, lambda, trainedSize)
      && trigrams == SmoothedTrigrams(counts.tri, counts.bi, lambda, trainedSize)
    }

    /**
     * Reads the vocabulary, then trains on `corpus`, one already split line
     * per element.
     */
    constructor (corpus: seq<seq<Word>>, vocabLines: seq<seq<Word>>, lambda: real)
      requires lambda > 0.0 && corpus != []
      ensures Valid()
      ensures this.lambda == lambda
      ensures vocabulary == Reserved + Words(vocabLines)
      ensures counts == Train(vocabulary, corpus) && trainedSize == |vocabulary|
    {
      this.lambda := lambda;
      unigrams := map[];
      bigrams := map[];
      trigrams := map[];
      vocabulary := {};
      counts := InitialCounts();
      trainedSize := 3;
      new;
      ReadVocab(vocabLines);
      assert vocabulary == Reserved + Words(vocabLines);
      var wordCount := CountCorpus(corpus);
      Normalise(wordCount);
    }

    /**
     * The three normalisation passes over well-formed raw counts, in the
     * order that lets each one read the raw counts of the level below:
     * trigrams, then bigrams, then unigrams.
     */
    method Normalise(wordCount: nat)
      requires lambda > 0.0 && Reserved <= vocabulary
      requires WellFormed(Counts(unigrams, bigrams, trigrams, wordCount)) && wordCount > 0
      modifies this`unigrams, this`bigrams, this`trigrams, this`counts, this`trainedSize
      ensures Valid()
      ensures counts == Counts(old(unigrams), old(bigrams), old(trigrams), wordCount)
      ensures trainedSize == |vocabulary|
    {
      counts := Counts(unigrams, bigrams, trigrams, wordCount);
      trainedSize := |vocabulary|;
      ReservedSize(vocabulary);
      NormaliseTrigrams();
      NormaliseBigrams();
      NormaliseUnigrams(wordCount);
    }

    /** Adds the reserved symbols and every word of every line to the vocabulary. */
    method ReadVocab(lines: seq<seq<Word>>)
      modifies this`vocabulary
      ensures vocabulary == old(vocabulary) + Reserved + Words(lines)
    {
      vocabulary := vocabulary + {BOS};
      vocabulary := vocabulary + {EOS};
      vocabulary := vocabulary + {UNK};
      var i := 0;
      while i < |lines|
        invariant 0 <= i <= |lines|
        invariant vocabulary == old(vocabulary) + Reserved + Words(lines[..i])
      {
        var words := lines[i];
        var j := 0;
        while j < |words|
          invariant 0 <= j <= |words|
          invariant vocabulary == old(vocabulary) + Reserved + Words(lines[..i]) + Elements(words[..j])
        {
          assert Elements(words[..j + 1]) == Elements(words[..j]) + {words[j]};
          vocabulary := vocabulary + {words[j]};
          j := j + 1;
        }
        assert words[..j] == words;
        assert lines[..i + 1][..i] == lines[..i];
        i := i + 1;
      }
      assert lines[..i] == lines;
    }

    /**
     * Puts the reserved entries into the empty tables, then counts every line
     * of `corpus` into them, returning the total word count.
     */
    method CountCorpus(corpus: seq<seq<Word>>) returns (wordCount: nat)
      requires unigrams == map[] && bigrams == map[] && trigrams == map[]
      modifies this`unigrams, this`bigrams, this`trigrams
      ensures Counts(unigrams, bigrams, trigrams, wordCount) == Train(vocabulary, corpus)
      ensures WellFormed(Counts(unigrams, bigrams, trigrams, wordCount))
      ensures corpus != [] ==> wordCount > 0
    {
      unigrams := unigrams[UNK := 0.0][BOS := 0.0][EOS := 0.0];
      bigrams := bigrams[UNK := map[]][BOS := map[]];
      wordCount := 0;
      var i := 0;
      while i < |corpus|
        invariant 0 <= i <= |corpus|
        invariant Counts(unigrams, bigrams, trigrams, wordCount) == Train(vocabulary, corpus[..i])
      {
        var currLine := Wrap(corpus[i]);
        TrainStep(vocabulary, corpus, i);
        wordCount := wordCount + |currLine|;
        CountWindows(currLine);
        i := i + 1;
      }
      assert corpus[..i] == corpus;
      TrainWellFormed(vocabulary, corpus);
    }

    /**
     * Counts one wrapped line: at every position the word, the pair starting
     * there and the triple starting there, each mapped through the vocabulary.
     */
    method CountWindows(currLine: seq<Word>)
      modifies this`unigrams, this`bigrams, this`trigrams
      ensures unigrams == CountUnigrams(old(unigrams), MapAll(vocabulary, currLine))
      ensures bigrams == CountBigrams(old(bigrams), MapAll(vocabulary, currLine))
      ensures trigrams == CountTrigrams(old(trigrams), MapAll(vocabulary, currLine))
    {
      ghost var c0 := Counts(unigrams, bigrams, trigrams, 0);
      var i := 0;
      while i < |currLine|
        invariant 0 <= i <= |currLine|
        invariant Counts(unigrams, bigrams, trigrams, 0) == CountPositions(c0, MapAll(vocabulary, currLine), i)
      {
        CountAt(currLine, i);
        i := i + 1;
      }
      PositionsCountLine(c0, MapAll(vocabulary, currLine));
    }

    /**
     * One step of the training loop: the word at position `i` (as `<UNK>`
     * when not in the vocabulary) is counted, then the pair and the triple
     * starting there when the line is long enough.
     */
    method CountAt(currLine: seq<Word>, i: nat)
      requires i < |currLine|
      modifies this`unigrams, this`bigrams, this`trigrams
      ensures Counts(unigrams, bigrams, trigrams, 0)
           == CountPosition(Counts(old(unigrams), old(bigrams), old(trigrams), 0), MapAll(vocabulary, currLine), i)
    {
      var n := |currLine|;
      var currWord := currLine[i];
      if currWord !in vocabulary {
        currWord := UNK;
      }
      if currWord in unigrams {
        unigrams := unigrams[currWord := unigrams[currWord] + 1.0];
      } else {
        unigrams := unigrams[currWord := 1.0];
      }
      assert unigrams == Bump(old(unigrams), currWord);
      if i < n - 1 {
        BigramAdd(currLine[i], currLine[i + 1]);
      }
      if i < n - 2 {
        TrigramAdd(currLine[i], currLine[i + 1], currLine[i + 2]);
      }
    }

    /** Counts one pair, each word mapped to `<UNK>` when not in the vocabulary. */
    method BigramAdd(first: Word, last: Word)
      modifies this`bigrams
      ensures bigrams == BumpPair(old(bigrams), Known(vocabulary, first), Known(vocabulary, last))
    {
      var f, l := Known(vocabulary, first), Known(vocabulary, last);
      var table := bigrams;
      ghost var row := if f in table then table[f] else map[];
      if f !in table {
        table := table[f := map[]];
      }
      assert table == old(bigrams)[f := row];
      if l in table[f] {
        var currCount := table[f][l];
        table := table[f := table[f][l := currCount + 1.0]];
      } else {
        table := table[f := table[f][l := 1.0]];
      }
      bigrams := table;
    }

    /** Counts one triple, each word mapped to `<UNK>` when not in the vocabulary. */
    method TrigramAdd(first: Word, second: Word, third: Word)
      modifies this`trigrams
      ensures trigrams == BumpTriple(old(trigrams), Known(vocabulary, first), Known(vocabulary, second), Known(vocabulary, third))
    {
      var f, s, t := Known(vocabulary, first), Known(vocabulary, second), Known(vocabulary, third);
      var table := trigrams;
      ghost var rows := if f in table then table[f] else map[];
      ghost var row := if s in rows then rows[s] else map[];
      if f !in table {
        table := table[f := map[]];
      }
      assert table == old(trigrams)[f := rows];
      if s !in table[f] {
        table := table[f := table[f][s := map[]]];
      }
      assert table[f] == rows[s := row];
      if t in table[f][s] {
        var currCount := table[f][s][t];
        table := table[f := table[f][s := table[f][s][t := currCount + 1.0]]];
      } else {
        table := table[f := table[f][s := table[f][s][t := 1.0]]];
      }
      assert table[f][s] == Bump(row, t);
      assert table[f] == rows[s := Bump(row, t)];
      trigrams := table;
    }

    /** Smooths every trigram row against the (still raw) count of its prefix bigram. */
    method NormaliseTrigrams()
      requires lambda > 0.0 && |vocabulary| > 0
      requires forall a :: a in trigrams ==> a in bigrams && forall b :: b in trigrams[a] ==> b in bigrams[a] && bigrams[a][b] >= 0.0
      modifies this`trigrams
      ensures trigrams == SmoothedTrigrams(old(trigrams), bigrams, lambda, |vocabulary|)
    {
      ghost var raw := trigrams;
      var todo := trigrams.Keys;
      while todo != {}
        invariant todo <= raw.Keys && trigrams.Keys == raw.Keys
        invariant forall a :: a in raw ==>
                    trigrams[a] == if a in todo then raw[a] else SmoothedRows(raw[a], bigrams[a], lambda, |vocabulary|)
        decreases todo
      {
        var first :| first in todo;
        var rows := SmoothRows(trigrams[first], bigrams[first], lambda, |vocabulary|);
        trigrams := trigrams[first := rows];
        todo := todo - {first};
      }
    }

    /** Smooths every bigram row against the (still raw) count of its context. */
    method NormaliseBigrams()
      requires lambda > 0.0 && |vocabulary| > 0
      requires forall a :: a in bigrams ==> a in unigrams && unigrams[a] >= 0.0
      modifies this`bigrams
      ensures bigrams == SmoothedRows(old(bigrams), unigrams, lambda, |vocabulary|)
    {
      bigrams := SmoothRows(bigrams, unigrams, lambda, |vocabulary|);
    }

    /** Divides every unigram count by the total word count. */
    method NormaliseUnigrams(wordCount: nat)
      requires wordCount > 0
      modifies this`unigrams
      ensures unigrams == Normalised(old(unigrams), wordCount as real)
    {
      unigrams := NormaliseRow(unigrams, wordCount as real);
    }

    /**
     * `getProb(first)`: the relative frequency of a counted word, otherwise
     * the uniform share `lambda / (lambda * |V|)`.
     */
    function UnigramProb(w: Word): (p: real)
      reads this
      requires Valid()
      ensures 0.0 <= p <= 1.0
      ensures w in counts.uni ==> p == counts.uni[w] / counts.words as real
      ensures w !in counts.uni ==> p == 1.0 / |vocabulary| as real
    {
      if w in unigrams then
        UnigramBounds(counts, w);
        unigrams[w]
      else
        ReservedSize(vocabulary);
        UniformShare(lambda, |vocabulary|)
    }

    /**
     * `getProb(first, second)`: the stored smoothed value of a counted pair,
     * otherwise `lambda / (P(first) + lambda * |V|)`, which dereferences the
     * unigram entry of `first` and so fails when there is none.
     */
    function BigramProb(first: Word, second: Word): (r: Result<real>)
      reads this
      requires Valid()
      ensures r.Err? <==> first !in counts.uni
      ensures r.Err? ==> r.error == NullPointer
      ensures r.Ok? ==> 0.0 < r.value <= 1.0
      ensures first in counts.bi && second in counts.bi[first] ==>
                r == Ok(SmoothedShare(counts.bi[first][second], counts.uni[first], lambda, trainedSize))
      ensures first in counts.uni && !(first in counts.bi && second in counts.bi[first]) ==>
                r == Ok(FallbackShare(counts.uni[first] / counts.words as real, lambda, |vocabulary|))
    {
      if first in bigrams && second in bigrams[first] then
        SmoothedBigramBounds(counts, lambda, trainedSize, first, second);
        Ok(bigrams[first][second])
      else if first in unigrams then
        UnigramBounds(counts, first);
        ReservedSize(vocabulary);
        FractionAtMostOne(1.0, |vocabulary| as real);
        Ok(FallbackShare(unigrams[first], lambda, |vocabulary|))
      else
        Err(NullPointer)
    }

    /**
     * `getProb(first, second, third)`: the stored smoothed value of a counted
     * triple, otherwise `lambda / (P(second | first) + lambda * |V|)` when the
     * pair was counted, otherwise the uniform share `lambda / (lambda * |V|)`.
     */
    function TrigramProb(first: Word, second: Word, third: Word): (p: real)
      reads this
      requires Valid()
      ensures 0.0 < p <= 1.0
      ensures first in counts.tri && second in counts.tri[first] && third in counts.tri[first][second] ==>
                p == SmoothedShare(counts.tri[first][second][third], counts.bi[first][second], lambda, trainedSize)
      ensures !(first in counts.tri && second in counts.tri[first] && third in counts.tri[first][second])
              && first in counts.bi && second in counts.bi[first] ==>
                p == FallbackShare(SmoothedShare(counts.bi[first][second], counts.uni[first], lambda, trainedSize),
                                   lambda, |vocabulary|)
      ensures !(first in counts.tri && second in counts.tri[first] && third in counts.tri[first][second])
              && !(first in counts.bi && second in counts.bi[first]) ==>
                p == 1.0 / |vocabulary| as real
    {
      ReservedSize(vocabulary);
      if first in trigrams && second in trigrams[first] && third in trigrams[first][second] then
        SmoothedTrigramBounds(counts, lambda, trainedSize, first, second, third);
        trigrams[first][second][third]
      else if first in bigrams && second in bigrams[first] then
        SmoothedBigramBounds(counts, lambda, trainedSize, first, second);
        FractionAtMostOne(1.0, |vocabulary| as real);
        FallbackShare(bigrams[first][second], lambda, |vocabulary|)
      else
        UniformShare(lambda, |vocabulary|)
    }

    /** The unigram probabilities add up to 1. */
    lemma {:induction false} UnigramMass()
      requires Valid()
      ensures SumOver(unigrams, unigrams.Keys) == 1.0
    {
      NormalisedMass(counts.uni, counts.words as real);
    }

    /**
     * The probability `logProb` takes for the window of `gram` words of `ps`
     * starting at `i`: the last word's probability given the ones before it.
     */
    function WindowProb(ps: seq<Word>, i: nat, gram: nat): (p: real)
      reads this
      requires Valid() && 1 <= gram <= 3 && i + gram <= |ps| && ps[i] in unigrams
      ensures 0.0 <= p <= 1.0
    {
      if gram == 1 then UnigramProb(ps[i])
      else if gram == 2 then BigramProb(ps[i], ps[i + 1]).value
      else TrigramProb(ps[i], ps[i + 1], ps[i + 2])
    }

    /**
     * The probabilities `logProb` takes the logarithm of: one per window of
     * `gram` consecutive words of `ps`, in order.
     */
    function Factors(ps: seq<Word>, gram: nat): (f: seq<real>)
      reads this
      requires Valid() && 1 <= gram <= 3
      requires forall i :: 0 <= i < |ps| ==> ps[i] in unigrams
      ensures |f| == if |ps| < gram then 0 else |ps| - gram + 1
      ensures forall i :: 0 <= i < |f| ==> f[i] == WindowProb(ps, i, gram)
      decreases |ps|
    {
      if |ps| < gram then []
      else Factors(ps[..|ps| - 1], gram) + [WindowProb(ps, |ps| - gram, gram)]
    }

    /** The factors `logProb` multiplies for one sentence: one per window of its formatted form. */
    function SentenceFactors(sent: seq<Word>, gram: nat): (f: seq<real>)
      reads this
      requires Valid() && 1 <= gram <= 3
      ensures |f| == |sent| + 3 - gram
    {
      Factors(Formatted(sent, unigrams.Keys), gram)
    }

    /**
     * `logProb(sentWords, gram)`: rejects an order other than 1, 2 or 3,
     * otherwise the factors of the formatted sentence, `|sentWords| + 3 - gram`
     * of them.
     */
    method LogProbFactors(sentWords: seq<Word>, gram: int) returns (r: Result<seq<real>>)
      requires Valid()
      ensures r.Err? <==> gram != 1 && gram != 2 && gram != 3
      ensures r.Err? ==> r.error == IllegalArgument
      ensures r.Ok? ==> r.value == SentenceFactors(sentWords, gram)
    {
      if gram != 1 && gram != 2 && gram != 3 {
        return Err(IllegalArgument);
      }
      var processedSentence := FormatSentence(sentWords, unigrams.Keys);
      var logSum := WindowFactors(processedSentence, gram);
      r := Ok(logSum);
    }

    /** The accumulation loop of `logProb`: every window of `gram` words, in order. */
    method WindowFactors(ps: seq<Word>, gram: nat) returns (logSum: seq<real>)
      requires Valid() && 1 <= gram <= 3
      requires forall i :: 0 <= i < |ps| ==> ps[i] in unigrams
      ensures logSum == Factors(ps, gram)
    {
      var n := |ps|;
      logSum := [];
      var i := 0;
      while i < n
        invariant 0 <= i <= n
        invariant |logSum| == if i + gram <= n + 1 then i else if gram <= n then n - gram + 1 else 0
        invariant forall j :: 0 <= j < |logSum| ==> logSum[j] == WindowProb(ps, j, gram)
      {
        if gram == 1 || (gram == 2 && i < n - 1) || (gram == 3 && i < n - 2) {
          var p := WindowProb(ps, i, gram);
          logSum := logSum + [p];
        }
        i := i + 1;
      }
    }

    /**
     * `getPerplexity(file, gram)` up to the final power of ten: rejects an
     * order other than 1, 2 or 3, otherwise the factors of every line and
     * the word count, which is exactly the number of factors.
     */
    method PerplexityTerms(lines: seq<seq<Word>>, gram: int) returns (r: Result<Scored>)
      requires Valid()
      ensures r.Err? <==> gram != 1 && gram != 2 && gram != 3
      ensures r.Err? ==> r.error == IllegalArgument
      ensures r.Ok? ==> |r.value.factors| == |lines|
      ensures r.Ok? ==> forall i :: 0 <= i < |lines| ==>
                r.value.factors[i] == SentenceFactors(lines[i], gram)
      ensures r.Ok? ==> r.value.wordCount == TotalLength(r.value.factors)
    {
      if gram != 1 && gram != 2 && gram != 3 {
        return Err(IllegalArgument);
      }
      var logSum: seq<seq<real>> := [];
      var wordCount: nat := 0;
      var i := 0;
      while i < |lines|
        invariant 0 <= i <= |lines| && |logSum| == i
        invariant forall j :: 0 <= j < i ==> logSum[j] == SentenceFactors(lines[j], gram)
        invariant wordCount == TotalLength(logSum)
      {
        var currLine := lines[i];
        wordCount := wordCount + |currLine| + 3 - gram;
        var lp := LogProbFactors(currLine, gram);
        TotalLengthAppend(logSum, lp.value);
        ghost var before := logSum;
        logSum := logSum + [lp.value];
        forall j | 0 <= j < i + 1
          ensures logSum[j] == SentenceFactors(lines[j], gram)
        {
          if j < i {
            assert logSum[j] == before[j];
          }
        }
        i := i + 1;
      }
      r := Ok(Scored(logSum, wordCount));
    }

    /**
     * `generateVocab(toRead, toWrite, threshold)` without the file I/O: the
     * words occurring at least `threshold` times are returned (to be
     * written) and added to the vocabulary.
     */
    method GenerateVocab(corpus: seq<seq<Word>>, threshold: int) returns (vocabToWrite: seq<Word>)
      requires Valid()
      modifies this`vocabulary
      ensures Valid()
      ensures forall w :: w in vocabToWrite <==> CorpusOcc(corpus, w) > 0 && CorpusOcc(corpus, w) >= threshold
      ensures forall i, j :: 0 <= i < j < |vocabToWrite| ==> vocabToWrite[i] != vocabToWrite[j]
      ensures vocabulary == old(vocabulary) + Elements(vocabToWrite)
    {
      var vocab := CountWords(corpus);
      vocabToWrite := AtLeast(vocab, threshold);
      vocabulary := vocabulary + Elements(vocabToWrite);
    }

    /** `generateVocab(toRead, toWrite)`: the default threshold of 2. */
    method GenerateVocabDefault(corpus: seq<seq<Word>>) returns (vocabToWrite: seq<Word>)
      requires Valid()
      modifies this`vocabulary
      ensures Valid()
      ensures forall w :: w in vocabToWrite <==> CorpusOcc(corpus, w) >= 2
      ensures forall i, j :: 0 <= i < j < |vocabToWrite| ==> vocabToWrite[i] != vocabToWrite[j]
      ensures vocabulary == old(vocabulary) + Elements(vocabToWrite)
    {
      vocabToWrite := GenerateVocab(corpus, 2);
    }
  }

  /** The number of occurrences of every word of the corpus. */
  method CountWords(corpus: seq<seq<Word>>) returns (vocab: map<Word, nat>)
    ensures forall w :: w in vocab <==> CorpusOcc(corpus, w) > 0
    ensures forall w :: w in vocab ==> vocab[w] == CorpusOcc(corpus, w)
  {
    vocab := map[];
    var i := 0;
    while i < |corpus|
      invariant 0 <= i <= |corpus|
      invariant forall w :: w in vocab <==> CorpusOcc(corpus[..i], w) > 0
      invariant forall w :: w in vocab ==> vocab[w] == CorpusOcc(corpus[..i], w)
    {
      var words := corpus[i];
      var j := 0;
      while j < |words|
        invariant 0 <= j <= |words|
        invariant forall w :: w in vocab <==> CorpusOcc(corpus[..i], w) + Occ(words[..j], w) > 0
        invariant forall w :: w in vocab ==> vocab[w] == CorpusOcc(corpus[..i], w) + Occ(words[..j], w)
      {
        var word := words[j];
        assert words[..j + 1][..j] == words[..j];
        if word in vocab {
          vocab := vocab[word := vocab[word] + 1];
        } else {
          vocab := vocab[word := 1];
        }
        j := j + 1;
      }
      assert words[..j] == words;
      assert corpus[..i + 1][..i] == corpus[..i];
      i := i + 1;
    }
    assert corpus[..i] == corpus;
  }

  /** The words whose count reaches `threshold`, each once. */
  method AtLeast(vocab: map<Word, nat>, threshold: int) returns (kept: seq<Word>)
    ensures forall w :: w in kept <==> w in vocab && vocab[w] >= threshold
    ensures forall i, j :: 0 <= i < j < |kept| ==> kept[i] != kept[j]
  {
    kept := [];
    var todo := vocab.Keys;
    while todo != {}
      invariant todo <= vocab.Keys
      invariant forall w :: w in kept <==> w in vocab && w !in todo && vocab[w] >= threshold
      invariant forall i, j :: 0 <= i < j < |kept| ==> kept[i] != kept[j]
      decreases todo
    {
      var word :| word in todo;
      if vocab[word] >= threshold {
        kept := kept + [word];
      }
      todo := todo - {word};
    }
  }
}
