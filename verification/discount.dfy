/**
 * The bigram model of `DiscountLMModel`: absolute discounting with backoff.
 *
 * Training reads the first occurrence of every word of the corpus as
 * `<UNK>` (later occurrences keep the word), counts unigrams and bigrams,
 * turns unigram counts into relative frequencies, and then, context by
 * context, takes a fixed `discount` off every bigram count and hands the
 * mass taken off to the successors never seen after that context, in
 * proportion to their unigram probability (the factor `alpha`).
 */
module DiscountLM {
  import opened Sums
  import opened NGram

  /** The raw counts: unigram counts, bigram counts by context, and the word count. */
  datatype Counts = Counts(uni: Table1, bi: Table2, words: nat)

  /** What training carries from one line to the next: the counts and every word met so far. */
  datatype Trained = Trained(counts: Counts, seen: set<Word>)

  /** The reserved unigrams at 0 and empty rows for the contexts `<UNK>` and `<s>`. */
  function InitialCounts(): Counts
  {
    Counts(ReservedCounts(), map[UNK := map[], BOS := map[]], 0)
  }

  // ---------------------------------------------------------------------
  // The first-occurrence rewrite
  // ---------------------------------------------------------------------

  /**
   * `words` scanned left to right against the set `seen` of words met
   * before: a word already met is kept, a word met for the first time
   * becomes `<UNK>` (and counts as met from then on).
   */
  function FirstSeen(words: seq<Word>, seen: set<Word>): (r: seq<Word>)
    ensures |r| == |words|
    decreases |words|
  {
    if words == [] then []
    else
      var init := words[..|words| - 1];
      var w := words[|words| - 1];
      FirstSeen(init, seen) + [if w in seen + Elements(init) then w else UNK]
  }

  /** A word is in the set of a sequence's words exactly when it occurs in the sequence. */
  lemma {:induction false} ElementsMember(s: seq<Word>, w: Word)
    ensures w in Elements(s) <==> w in s
  {
    if w in s {
      var i :| 0 <= i < |s| && s[i] == w;
      assert s[i] in Elements(s);
    }
  }

  /**
   * Position by position: a word is replaced by `<UNK>` exactly when it is
   * neither in `seen` nor earlier in `words`; every later occurrence is kept.
   */
  lemma {:induction false} FirstSeenAt(words: seq<Word>, seen: set<Word>)
    ensures forall i :: 0 <= i < |words| ==>
              FirstSeen(words, seen)[i] == if words[i] in seen || words[i] in words[..i] then words[i] else UNK
    decreases |words|
  {
    if words != [] {
      var init := words[..|words| - 1];
      FirstSeenAt(init, seen);
      ElementsMember(init, words[|words| - 1]);
      forall i | 0 <= i < |init|
        ensures init[..i] == words[..i]
      {
      }
    }
  }

  /**
   * A line after the rewrite pass over its positions `1` to `|s| - 2`: the
   * first and last positions, which hold the boundary symbols, are never
   * looked at.
   */
  function Rewritten(s: seq<Word>, seen: set<Word>): (r: seq<Word>)
    ensures |r| == |s|
  {
    if |s| < 2 then s else [s[0]] + FirstSeen(s[1..|s| - 1], seen) + [s[|s| - 1]]
  }

  /** The words met once the rewrite pass has looked at positions `1` to `|s| - 2`. */
  function Seen(s: seq<Word>, seen: set<Word>): set<Word>
  {
    if |s| < 2 then seen else seen + Elements(s[1..|s| - 1])
  }

  /**
   * On a wrapped line the rewrite keeps `<s>` and `</s>`, replaces the first
   * occurrence of every word not met before by `<UNK>` and keeps every other
   * word; afterwards every word of the line has been met.
   */
  lemma {:induction false} RewrittenWrap(line: seq<Word>, seen: set<Word>)
    ensures Rewritten(Wrap(line), seen) == [BOS] + FirstSeen(line, seen) + [EOS]
    ensures forall i :: 0 <= i < |line| ==>
              Rewritten(Wrap(line), seen)[i + 1] == if line[i] in seen || line[i] in line[..i] then line[i] else UNK
    ensures Seen(Wrap(line), seen) == seen + Elements(line)
  {
    assert Wrap(line)[1..|Wrap(line)| - 1] == line;
    FirstSeenAt(line, seen);
  }

  /**
   * The rewrite loop of the constructor, in place on the array of one line:
   * positions `1` to `Length - 2` are visited in order, and a word not in
   * `vocab` is added to it and overwritten with `<UNK>`.
   */
  method ReplaceUnseen(currLine: array<Word>, vocab: set<Word>) returns (seen: set<Word>)
    modifies currLine
    ensures currLine[..] == Rewritten(old(currLine[..]), vocab)
    ensures seen == Seen(old(currLine[..]), vocab)
  {
    ghost var orig := currLine[..];
    var n := currLine.Length;
    seen := vocab;
    var i := 1;
    while i < n - 1
      invariant |orig| == n
      invariant 1 <= i <= (if n >= 2 then n - 1 else 1)
      invariant n < 2 ==> currLine[..] == orig && seen == vocab
      invariant n >= 2 ==> currLine[..] == [orig[0]] + FirstSeen(orig[1..i], vocab) + orig[i..]
      invariant n >= 2 ==> seen == vocab + Elements(orig[1..i])
    {
      RewriteStep(orig, vocab, i, currLine[..]);
      if currLine[i] !in seen {
        seen := seen + {currLine[i]};
        currLine[i] := UNK;
      }
      i := i + 1;
    }
    if n >= 2 {
      assert orig[n - 1..] == [orig[n - 1]];
    }
  }

  /** One step of the rewrite loop, on the value of the line before and after it. */
  lemma {:induction false} RewriteStep(orig: seq<Word>, vocab: set<Word>, i: nat, cur: seq<Word>)
    requires 1 <= i < |orig| - 1
    requires cur == [orig[0]] + FirstSeen(orig[1..i], vocab) + orig[i..]
    ensures cur[i] == orig[i]
    ensures Elements(orig[1..i + 1]) == Elements(orig[1..i]) + {orig[i]}
    ensures cur[i := if orig[i] in vocab + Elements(orig[1..i]) then orig[i] else UNK]
            == [orig[0]] + FirstSeen(orig[1..i + 1], vocab) + orig[i + 1..]
  {
    var before, after, w := orig[1..i], orig[1..i + 1], orig[i];
    assert after == before + [w];
    assert after[..|after| - 1] == before;
    ElementsSnoc(before, w);
    assert orig[i..] == [w] + orig[i + 1..];
    UpdateMiddle([orig[0]] + FirstSeen(before, vocab), w, orig[i + 1..],
                 if w in vocab + Elements(before) then w else UNK);
  }

  /** Overwriting the element that follows a prefix `p`. */
  lemma UpdateMiddle<T>(p: seq<T>, y: T, rest: seq<T>, x: T)
    ensures (p + [y] + rest)[|p| := x] == p + [x] + rest
  {
  }

  /** Appending a word adds it to the set of words. */
  lemma {:induction false} ElementsSnoc(s: seq<Word>, w: Word)
    ensures Elements(s + [w]) == Elements(s) + {w}
  {
    forall x | x in Elements(s)
      ensures x in Elements(s + [w])
    {
      var j :| 0 <= j < |s| && s[j] == x;
      assert (s + [w])[j] == x;
    }
    assert (s + [w])[|s|] == w;
  }

  /** `Rewritten` position by position, in the terms of the rewrite loop's invariant. */
  lemma {:induction false} RewrittenAt(s: seq<Word>, seen: set<Word>)
    requires |s| >= 2
    ensures Rewritten(s, seen)[0] == s[0] && Rewritten(s, seen)[|s| - 1] == s[|s| - 1]
    ensures forall j :: 1 <= j < |s| - 1 ==>
              Rewritten(s, seen)[j] == if s[j] in seen || s[j] in s[1..j] then s[j] else UNK
  {
    var inner := s[1..|s| - 1];
    FirstSeenAt(inner, seen);
    forall j | 1 <= j < |s| - 1
      ensures Rewritten(s, seen)[j] == if s[j] in seen || s[j] in s[1..j] then s[j] else UNK
    {
      RewrittenInner(s, seen, j);
    }
  }

  /** An inner position of `Rewritten` is the rewrite pass's word for it, after the prefix `s[1..j]`. */
  lemma {:induction false} RewrittenInner(s: seq<Word>, seen: set<Word>, j: int)
    requires 1 <= j < |s| - 1
    ensures Rewritten(s, seen)[j] == FirstSeen(s[1..|s| - 1], seen)[j - 1]
    ensures s[1..|s| - 1][j - 1] == s[j] && s[1..|s| - 1][..j - 1] == s[1..j]
  {
    var inner := s[1..|s| - 1];
    assert Rewritten(s, seen) == [s[0]] + FirstSeen(inner, seen) + [s[|s| - 1]];
    assert forall k :: 0 <= k < j - 1 ==> inner[..j - 1][k] == s[1..j][k];
  }

  // ---------------------------------------------------------------------
  // Training
  // ---------------------------------------------------------------------

  /** One rewritten line counted into `c`. */
  function CountLine(c: Counts, s: seq<Word>): Counts
  {
    Counts(CountUnigrams(c.uni, s), CountBigrams(c.bi, s), c.words + |s|)
  }

  /** The counts and the words met after training on every line of `corpus`, in order. */
  function Train(corpus: seq<seq<Word>>): Trained
    decreases |corpus|
  {
    if corpus == [] then Trained(InitialCounts(), {})
    else
      var t := Train(corpus[..|corpus| - 1]);
      var s := Wrap(corpus[|corpus| - 1]);
      Trained(CountLine(t.counts, Rewritten(s, t.seen)), Seen(s, t.seen))
  }

  /**
   * What the raw counts promise the finishing passes: the reserved unigrams
   * exist, the unigram counts add up to the word count, and every context
   * and every successor of a bigram has a unigram count.
   */
  ghost predicate WellFormed(c: Counts)
  {
    && Reserved <= c.uni.Keys
    && SumOver(c.uni, c.uni.Keys) == c.words as real
    && (forall a :: a in c.bi ==> a in c.uni && c.bi[a].Keys <= c.uni.Keys)
  }

  /** Counting one line keeps the counts well formed and adds the line's length to the word count. */
  lemma {:induction false} CountLineWellFormed(c: Counts, s: seq<Word>)
    requires WellFormed(c)
    ensures WellFormed(CountLine(c, s))
  {
    var c' := CountLine(c, s);
    UnigramsMass(c.uni, s);
    forall w | w in Reserved
      ensures w in c'.uni
    {
      UnigramsCount(c.uni, s, w);
    }
    forall a | a in c'.bi
      ensures a in c'.uni && c'.bi[a].Keys <= c'.uni.Keys
    {
      BigramsCount(c.bi, s, a, a);
      UnigramsCount(c.uni, s, a);
      if a !in c.bi {
        assert DropLast(s) == s[..|s| - 1];
        assert a in s;
      }
      forall b | b in c'.bi[a]
        ensures b in c'.uni
      {
        BigramsCount(c.bi, s, a, b);
        UnigramsCount(c.uni, s, b);
        if !(a in c.bi && b in c.bi[a]) {
          PairOccWords(s, a, b);
        }
      }
    }
  }

  /** Training keeps the counts well formed; a non-empty corpus gives a positive word count. */
  lemma {:induction false} TrainWellFormed(corpus: seq<seq<Word>>)
    ensures WellFormed(Train(corpus).counts)
    ensures corpus != [] ==> Train(corpus).counts.words > 0
    decreases |corpus|
  {
    if corpus == [] {
      ReservedCountsMass();
    } else {
      var t := Train(corpus[..|corpus| - 1]);
      TrainWellFormed(corpus[..|corpus| - 1]);
      CountLineWellFormed(t.counts, Rewritten(Wrap(corpus[|corpus| - 1]), t.seen));
    }
  }

  // ---------------------------------------------------------------------
  // Discounting and backoff
  // ---------------------------------------------------------------------

  /** `reserved_mass`: the discount of each of the `size` seen successors, as a share of the context's total. */
  function ReservedMass(size: nat, discount: real, total: real): real
    requires total != 0.0
  {
    size as real * discount / total
  }

  /** Every context row has a non-zero total, the divisor of its discounted estimates. */
  ghost predicate Totalled(raw: Table2)
  {
    forall a {:trigger SumOver(raw[a], raw[a].Keys)} :: a in raw ==> SumOver(raw[a], raw[a].Keys) != 0.0
  }

  /**
   * A context row whose `backSum` is defined and not zero: every successor
   * has a unigram probability, and those probabilities do not add up to 1.
   */
  ghost predicate Backable(row: Table1, probs: Table1)
  {
    row.Keys <= probs.Keys && 1.0 - SumOver(probs, row.Keys) != 0.0
  }

  /**
   * `alpha` of one context row: its reserved mass over `backSum`, which is
   * one minus the unigram probability of the successors seen in the row.
   */
  ghost function RowAlpha(row: Table1, probs: Table1, discount: real): real
    requires SumOver(row, row.Keys) != 0.0 && Backable(row, probs)
  {
    ReservedMass(|row|, discount, SumOver(row, row.Keys)) / (1.0 - SumOver(probs, row.Keys))
  }

  /** Every context row discounted against its own total. */
  ghost function DiscountAll(raw: Table2, discount: real): (r: Table2)
    requires Totalled(raw)
    ensures r.Keys == raw.Keys
    ensures forall a :: a in raw ==> r[a] == Discounted(raw[a], discount, SumOver(raw[a], raw[a].Keys))
  {
    map a | a in raw :: Discounted(raw[a], discount, SumOver(raw[a], raw[a].Keys))
  }

  /** The `alpha` of every context row. */
  ghost function AlphaAll(raw: Table2, probs: Table1, discount: real): (r: Table1)
    requires Totalled(raw) && forall a :: a in raw ==> Backable(raw[a], probs)
    ensures r.Keys == raw.Keys
    ensures forall a :: a in raw ==> r[a] == RowAlpha(raw[a], probs, discount)
  {
    map a | a in raw :: RowAlpha(raw[a], probs, discount)
  }

  /** `row'` and `alpha` are the discounted row and the `alpha` that the bigram pass computes from `row`. */
  ghost predicate Finished(row: Table1, probs: Table1, discount: real, row': Table1, alpha: real)
  {
    && SumOver(row, row.Keys) != 0.0
    && Backable(row, probs)
    && row' == Discounted(row, discount, SumOver(row, row.Keys))
    && alpha == RowAlpha(row, probs, discount)
  }

  /** `rows` and `weights` hold, for every row of `raw`, what the bigram pass computes from it. */
  ghost predicate Finishes(raw: Table2, probs: Table1, discount: real, rows: Table2, weights: Table1)
  {
    && rows.Keys == raw.Keys
    && weights.Keys == raw.Keys
    && forall a {:trigger Finished(raw[a], probs, discount, rows[a], weights[a])} :: a in raw ==> Finished(raw[a], probs, discount, rows[a], weights[a])
  }

  /** The tables `DiscountAll` and `AlphaAll` hold what the pass computes for each row. */
  lemma {:induction false} AllFinished(raw: Table2, probs: Table1, discount: real)
    requires Totalled(raw) && forall a :: a in raw ==> Backable(raw[a], probs)
    ensures Finishes(raw, probs, discount, DiscountAll(raw, discount), AlphaAll(raw, probs, discount))
  {
  }

  /** `backSum` of context `a`: one minus the unigram probability of the successors seen after `a`. */
  ghost function BackSum(c: Counts, a: Word): real
    requires WellFormed(c) && c.words > 0 && a in c.bi
  {
    1.0 - SumOver(Normalised(c.uni, c.words as real), c.bi[a].Keys)
  }

  /**
   * Well-formed counts on which the Java divisions are defined: a positive
   * word count, every context row a non-zero total and a non-zero `backSum`.
   */
  ghost predicate Finalisable(c: Counts)
  {
    && WellFormed(c)
    && c.words > 0
    && Totalled(c.bi)
    && forall a {:trigger Backable(c.bi[a], Normalised(c.uni, c.words as real))} :: a in c.bi ==> Backable(c.bi[a], Normalised(c.uni, c.words as real))
  }

  /** `alpha` of context `a`. */
  ghost function Alpha(c: Counts, discount: real, a: Word): real
    requires Finalisable(c) && a in c.bi
  {
    RowAlpha(c.bi[a], Normalised(c.uni, c.words as real), discount)
  }

  /** Every value of `m` multiplied by `a`. */
  function Scaled<K>(m: map<K, real>, a: real): (r: map<K, real>)
    ensures r.Keys == m.Keys
    ensures forall k :: k in m ==> r[k] == a * m[k]
  {
    map k | k in m :: a * m[k]
  }

  /**
   * The distribution the model gives the word after context `a`: `alpha`
   * times the unigram probability, overridden by the discounted estimate
   * for every successor seen after `a`.
   */
  ghost function Backoff(c: Counts, discount: real, a: Word): (r: Table1)
    requires Finalisable(c) && a in c.bi
    ensures r.Keys == c.uni.Keys
  {
    Scaled(Normalised(c.uni, c.words as real), Alpha(c, discount, a))
      + Discounted(c.bi[a], discount, RowSum(c.bi, a))
  }

  /** What is left of `sum` after `n` discounts of `d` each, divided by `t`. */
  function Remaining(sum: real, n: nat, d: real, t: real): real
    requires t != 0.0
  {
    (sum - (n as real) * d) / t
  }

  /**
   * Lowering every summed value by `d` and dividing it by `t` lowers the sum
   * by `d` once per key and divides it by `t`.
   */
  lemma {:induction false} SumDiscount<K>(m: map<K, real>, m': map<K, real>, keys: set<K>, d: real, t: real)
    requires keys <= m.Keys && keys <= m'.Keys && t != 0.0
    requires forall k :: k in keys ==> m'[k] == (m[k] - d) / t
    ensures SumOver(m', keys) == Remaining(SumOver(m, keys), |keys|, d, t)
    decreases keys
  {
    if keys == {} {
      NothingRemains(d, t);
    } else {
      var k :| k in keys;
      SumRemove(m, keys, k);
      SumRemove(m', keys, k);
      SumDiscount(m, m', keys - {k}, d, t);
      assert |keys - {k}| + 1 == |keys|;
      RemainingStep(m[k], SumOver(m, keys - {k}), |keys - {k}|, d, t, SumOver(m, keys), |keys|);
    }
  }

  /** Nothing discounted from nothing leaves nothing. */
  lemma {:induction false} NothingRemains(d: real, t: real)
    requires t != 0.0
    ensures Remaining(0.0, 0, d, t) == 0.0
  {
  }

  /** One more value `x`, discounted and divided, adds `(x - d) / t` to what remains. */
  lemma {:induction false} RemainingStep(x: real, s: real, n: nat, d: real, t: real, sum: real, size: nat)
    requires t != 0.0 && sum == x + s && size == n + 1
    ensures (x - d) / t + Remaining(s, n, d, t) == Remaining(sum, size, d, t)
  {
  }

  /**
   * For a row whose counts add up to `total`, the discounted values and the
   * reserved mass add up to 1, whatever the discount.
   */
  lemma {:induction false} DiscountPartition(row: Table1, discount: real, total: real)
    requires total != 0.0 && SumOver(row, row.Keys) == total
    ensures SumOver(Discounted(row, discount, total), row.Keys) + ReservedMass(|row|, discount, total) == 1.0
  {
    SumDiscount(row, Discounted(row, discount, total), row.Keys, discount, total);
    Rebalance(total, |row|, discount);
  }

  /** `(t - n d) / t + n d / t == 1`, the arithmetic of `DiscountPartition`. */
  lemma {:induction false} Rebalance(t: real, n: nat, d: real)
    requires t != 0.0
    ensures Remaining(t, n, d, t) + ReservedMass(n, d, t) == 1.0
  {
  }

  /** `alpha` times `backSum` is the reserved mass. */
  lemma {:induction false} AlphaBalance(c: Counts, discount: real, a: Word)
    requires Finalisable(c) && a in c.bi
    ensures Alpha(c, discount, a) * BackSum(c, a) == ReservedMass(|c.bi[a]|, discount, RowSum(c.bi, a))
  {
    assert Backable(c.bi[a], Normalised(c.uni, c.words as real));
    DivTimes(ReservedMass(|c.bi[a]|, discount, RowSum(c.bi, a)), BackSum(c, a));
  }

  /** Dividing by `y` and multiplying back by `y` is the identity. */
  lemma {:induction false} DivTimes(x: real, y: real)
    requires y != 0.0
    ensures x / y * y == x
  {
  }

  /** The unigram probabilities of the words never seen after `a` add up to `backSum`. */
  lemma {:induction false} UnseenMass(c: Counts, a: Word)
    requires Finalisable(c) && a in c.bi
    ensures SumOver(Normalised(c.uni, c.words as real), c.uni.Keys - c.bi[a].Keys) == BackSum(c, a)
  {
    SumSplit(Normalised(c.uni, c.words as real), c.uni.Keys, c.bi[a].Keys);
    NormalisedMass(c.uni, c.words as real);
  }

  /** Scaling every value by `a` scales the sum by `a`. */
  lemma {:induction false} SumScaled<K>(m: map<K, real>, keys: set<K>, a: real)
    requires keys <= m.Keys
    ensures SumOver(Scaled(m, a), keys) == a * SumOver(m, keys)
  {
    SumScale(m, Scaled(m, a), keys, a);
  }

  /** Equal factors give equal products. */
  lemma {:induction false} MulEqual(a: real, x: real, y: real)
    requires x == y
    ensures a * x == a * y
  {
  }

  /**
   * Overriding some values of `base` by `over`: the sum is that of `over`
   * plus that of `base` on the keys `over` leaves alone.
   */
  lemma {:induction false} SumOverride<K>(base: map<K, real>, over: map<K, real>)
    requires over.Keys <= base.Keys
    ensures SumOver(base + over, base.Keys) == SumOver(over, over.Keys) + SumOver(base, base.Keys - over.Keys)
  {
    var m := base + over;
    assert m.Keys == base.Keys;
    SumSplit(m, base.Keys, over.Keys);
    SumAgree(over, m, over.Keys);
    SumAgree(base, m, base.Keys - over.Keys);
  }

  /**
   * The backoff partition law: after any context, the discounted estimates
   * of the seen successors and `alpha` times the unigram probabilities of
   * all other words add up to 1.
   */
  lemma {:induction false} BackoffMass(c: Counts, discount: real, a: Word)
    requires Finalisable(c) && a in c.bi
    ensures SumOver(Backoff(c, discount, a), c.uni.Keys) == 1.0
  {
    BackoffParts(c, discount, a);
    DiscountPartition(c.bi[a], discount, RowSum(c.bi, a));
    BackoffUnseen(c, discount, a);
  }

  /** The backoff distribution splits into the seen successors' discounted estimates and the rest. */
  lemma {:induction false} BackoffParts(c: Counts, discount: real, a: Word)
    requires Finalisable(c) && a in c.bi
    ensures SumOver(Backoff(c, discount, a), c.uni.Keys)
            == SumOver(Discounted(c.bi[a], discount, RowSum(c.bi, a)), c.bi[a].Keys)
             + SumOver(Scaled(Normalised(c.uni, c.words as real), Alpha(c, discount, a)), c.uni.Keys - c.bi[a].Keys)
  {
    SumOverride(Scaled(Normalised(c.uni, c.words as real), Alpha(c, discount, a)),
                Discounted(c.bi[a], discount, RowSum(c.bi, a)));
  }

  /** `alpha` times the unigram probabilities of the words never seen after `a` is the reserved mass. */
  lemma {:induction false} BackoffUnseen(c: Counts, discount: real, a: Word)
    requires Finalisable(c) && a in c.bi
    ensures SumOver(Scaled(Normalised(c.uni, c.words as real), Alpha(c, discount, a)), c.uni.Keys - c.bi[a].Keys)
            == ReservedMass(|c.bi[a]|, discount, RowSum(c.bi, a))
  {
    var p := Normalised(c.uni, c.words as real);
    UnseenMass(c, a);
    SumScaled(p, c.uni.Keys - c.bi[a].Keys, Alpha(c, discount, a));
    MulEqual(Alpha(c, discount, a), SumOver(p, c.uni.Keys - c.bi[a].Keys), BackSum(c, a));
    AlphaBalance(c, discount, a);
  }

  /** The three tables of a trained model. */
  datatype Tables = Tables(unigrams: Table1, bigrams: Table2, alphas: Table1)

  datatype Option<T> = None | Some(value: T)

  /**
   * The tables the finishing passes compute from `c`: unigrams as relative
   * frequencies, every bigram row discounted against its own total, and the
   * `alpha` of every context; `None` where a pass would divide by zero.
   */
  ghost function Finalised(c: Counts, discount: real): Option<Tables>
  {
    if Finalisable(c) then
      Some(Tables(Normalised(c.uni, c.words as real), DiscountAll(c.bi, discount),
                  AlphaAll(c.bi, Normalised(c.uni, c.words as real), discount)))
    else None
  }

  /** Finalisable counts have tables, and those are what the passes compute. */
  lemma {:induction false} FinalTables(c: Counts, discount: real) returns (t: Tables)
    requires Finalised(c, discount).Some?
    ensures Finalised(c, discount) == Some(t) && c.words > 0
    ensures t.unigrams == Normalised(c.uni, c.words as real)
    ensures Finishes(c.bi, t.unigrams, discount, t.bigrams, t.alphas)
  {
    t := Finalised(c, discount).value;
    AllFinished(c.bi, t.unigrams, discount);
  }

  /** The finalised tables have the keys of the counts they come from. */
  lemma {:induction false} TablesKeys(c: Counts, discount: real, t: Tables)
    requires Finalised(c, discount) == Some(t)
    ensures Finalisable(c) && Reserved <= c.uni.Keys
    ensures t.unigrams.Keys == c.uni.Keys && t.bigrams.Keys == c.bi.Keys && t.alphas.Keys == c.bi.Keys
  {
  }

  /**
   * After context `a`, the backoff distribution is the finalised unigram
   * table scaled by the context's `alpha`, overridden by its finalised row.
   */
  lemma {:induction false} TablesBackoff(c: Counts, discount: real, t: Tables, a: Word)
    requires Finalised(c, discount) == Some(t)
    ensures a in c.bi ==>
      && a in t.bigrams && a in t.alphas
      && Backoff(c, discount, a) == Scaled(t.unigrams, t.alphas[a]) + t.bigrams[a]
  {
    TablesKeys(c, discount, t);
    if a in c.bi {
      TablesRow(c, discount, t, a);
    }
  }

  /**
   * A word is looked up in a scaled table overridden by a row: the row's
   * value where the row has one, the scaled value elsewhere.
   */
  lemma {:induction false} BackedLookup<K>(b: map<K, real>, m: map<K, real>, x: real, row: map<K, real>, k: K)
    requires b == Scaled(m, x) + row && k in m
    ensures k in b && b[k] == if k in row then row[k] else x * m[k]
  {
  }

  /**
   * The value the finalised tables give word `w` after context `a`: the
   * stored discounted estimate if there is one, `alpha` times the unigram
   * probability otherwise. Either way it is the backoff distribution's.
   */
  lemma {:induction false} TablesLookup(c: Counts, discount: real, t: Tables, a: Word, w: Word)
    requires Finalised(c, discount) == Some(t) && a in c.bi && w in c.uni
    ensures a in t.bigrams && a in t.alphas && w in t.unigrams
    ensures Backoff(c, discount, a)[w] == Estimate(t, a, w)
  {
    TablesBackoff(c, discount, t, a);
    EstimateBacked(t, a, w);
  }

  /** The tables' estimate is the lookup in the scaled unigram table overridden by the context's row. */
  lemma {:induction false} EstimateBacked(t: Tables, a: Word, w: Word)
    requires a in t.bigrams && a in t.alphas && w in t.unigrams
    ensures Estimate(t, a, w) == (Scaled(t.unigrams, t.alphas[a]) + t.bigrams[a])[w]
  {
    BackedLookup(Scaled(t.unigrams, t.alphas[a]) + t.bigrams[a], t.unigrams, t.alphas[a], t.bigrams[a], w);
  }

  /** The backed-off probability of a word: the context's `alpha` times the word's unigram probability. */
  function BackedOff(alpha: real, p: real): real
  {
    alpha * p
  }

  /**
   * What the finalised tables give word `w` after context `a`: the stored
   * discounted estimate of the pair, else `alpha` times the unigram probability.
   */
  function Estimate(t: Tables, a: Word, w: Word): real
    requires a in t.bigrams && a in t.alphas && w in t.unigrams
  {
    if w in t.bigrams[a] then t.bigrams[a][w] else BackedOff(t.alphas[a], t.unigrams[w])
  }

  /**
   * `getBigramProb` on the finalised tables `t`: either word not in the
   * unigram table is read as `<UNK>`; a stored pair gives its discounted
   * estimate, any other `alpha` of the context times the unigram
   * probability. A context without an `alpha` makes the Java unboxing throw.
   */
  function Query(t: Tables, first: Word, second: Word): Result<real>
    requires UNK in t.unigrams
  {
    var f := Known(t.unigrams.Keys, first);
    var s := Known(t.unigrams.Keys, second);
    if f in t.bigrams && s in t.bigrams[f] then Ok(t.bigrams[f][s])
    else if f in t.alphas then Ok(BackedOff(t.alphas[f], t.unigrams[s]))
    else Err(NullPointer)
  }

  /** A context seen in training gets the backoff distribution's value. */
  lemma {:induction false} QueryHit(c: Counts, discount: real, t: Tables, first: Word, second: Word)
    requires Finalised(c, discount) == Some(t) && Known(c.uni.Keys, first) in c.bi
    ensures UNK in t.unigrams
    ensures Query(t, first, second) == Ok(Backoff(c, discount, Known(c.uni.Keys, first))[Known(c.uni.Keys, second)])
  {
    TablesKeys(c, discount, t);
    var f := Known(c.uni.Keys, first);
    var s := Known(c.uni.Keys, second);
    TablesLookup(c, discount, t, f, s);
    assert Known(t.unigrams.Keys, first) == f && Known(t.unigrams.Keys, second) == s;
    QueryEstimate(t, first, second);
  }

  /** Where the context has a row and an `alpha`, the query gives the tables' estimate. */
  lemma {:induction false} QueryEstimate(t: Tables, first: Word, second: Word)
    requires UNK in t.unigrams
    requires Known(t.unigrams.Keys, first) in t.bigrams && Known(t.unigrams.Keys, first) in t.alphas
    ensures Query(t, first, second) == Ok(Estimate(t, Known(t.unigrams.Keys, first), Known(t.unigrams.Keys, second)))
  {
    var f := Known(t.unigrams.Keys, first);
    var s := Known(t.unigrams.Keys, second);
    if s in t.bigrams[f] {
      assert Query(t, first, second) == Ok(t.bigrams[f][s]);
    } else {
      assert Query(t, first, second) == Ok(BackedOff(t.alphas[f], t.unigrams[s]));
    }
  }

  /** Any other context is `</s>`, and the query throws. */
  lemma {:induction false} QueryMiss(c: Counts, discount: real, t: Tables, first: Word, second: Word)
    requires Covers(c) && Finalised(c, discount) == Some(t) && Known(c.uni.Keys, first) !in c.bi
    ensures UNK in t.unigrams
    ensures Query(t, first, second) == Err(NullPointer) && Known(c.uni.Keys, first) == EOS
  {
    TablesKeys(c, discount, t);
  }

  /**
   * The query on finalised tables fails exactly for a context that was never
   * followed by a word, which can only be `</s>`, and otherwise gives the
   * backoff distribution's value.
   */
  lemma {:induction false} QueryBackoff(c: Counts, discount: real, t: Tables, first: Word, second: Word)
    requires Covers(c) && Finalised(c, discount) == Some(t)
    ensures UNK in t.unigrams
    ensures Query(t, first, second).Err? <==> Known(c.uni.Keys, first) !in c.bi
    ensures Query(t, first, second).Err? ==>
      Query(t, first, second).error == NullPointer && Known(c.uni.Keys, first) == EOS
    ensures Query(t, first, second).Ok? ==>
      Query(t, first, second).value == Backoff(c, discount, Known(c.uni.Keys, first))[Known(c.uni.Keys, second)]
  {
    if Known(c.uni.Keys, first) in c.bi {
      QueryHit(c, discount, t, first, second);
    } else {
      QueryMiss(c, discount, t, first, second);
    }
  }

  /** `QueryBackoff` for two words that are both unigram keys, so neither is mapped. */
  lemma {:induction false} QueryKnown(c: Counts, discount: real, t: Tables, first: Word, second: Word)
    requires Covers(c) && Finalised(c, discount) == Some(t) && first in c.uni && second in c.uni
    ensures Query(t, first, second).Err? <==> first !in c.bi
    ensures first !in c.bi ==> first == EOS
    ensures first in c.bi ==> Query(t, first, second) == Ok(Backoff(c, discount, first)[second])
  {
    QueryBackoff(c, discount, t, first, second);
  }

  /**
   * The probabilities `logProb` takes the logarithm of, for the first `n`
   * pairs of consecutive words of `ps`, in order; the first pair whose query
   * throws ends the walk with the exception.
   */
  function PairFactors(t: Tables, ps: seq<Word>, n: nat): (r: Result<seq<real>>)
    requires UNK in t.unigrams && (n == 0 || n < |ps|)
    ensures r.Err? ==> r.error == NullPointer
    ensures r.Ok? ==> |r.value| == n
    decreases n
  {
    if n == 0 then Ok([])
    else
      var prev := PairFactors(t, ps, n - 1);
      var last := Query(t, ps[n - 1], ps[n]);
      if prev.Err? then prev
      else if last.Err? then Err(last.error)
      else Ok(prev.value + [last.value])
  }

  /**
   * The walk succeeds exactly when the query of every one of its pairs does,
   * and then holds their values in order.
   */
  lemma {:induction false} PairFactorsWalk(t: Tables, ps: seq<Word>, n: nat)
    requires UNK in t.unigrams && (n == 0 || n < |ps|)
    ensures PairFactors(t, ps, n).Ok? <==> forall i :: 0 <= i < n ==> Query(t, ps[i], ps[i + 1]).Ok?
    ensures PairFactors(t, ps, n).Ok? ==>
              forall i :: 0 <= i < n ==> Query(t, ps[i], ps[i + 1]) == Ok(PairFactors(t, ps, n).value[i])
    decreases n
  {
    if n > 0 {
      PairFactorsWalk(t, ps, n - 1);
    }
  }

  /** A failed walk has a pair whose query throws. */
  lemma {:induction false} PairFactorsFailure(t: Tables, ps: seq<Word>, n: nat) returns (i: nat)
    requires UNK in t.unigrams && (n == 0 || n < |ps|) && PairFactors(t, ps, n).Err?
    ensures i < n && Query(t, ps[i], ps[i + 1]).Err?
    decreases n
  {
    if PairFactors(t, ps, n - 1).Err? {
      i := PairFactorsFailure(t, ps, n - 1);
    } else {
      i := n - 1;
    }
  }

  /** One more pair extends the factors by its probability, or fails them. */
  lemma {:induction false} PairFactorsNext(t: Tables, ps: seq<Word>, n: nat, prev: seq<real>, p: Result<real>)
    requires UNK in t.unigrams && n + 1 < |ps| && PairFactors(t, ps, n) == Ok(prev)
    requires p == Query(t, ps[n], ps[n + 1])
    ensures PairFactors(t, ps, n + 1) == if p.Ok? then Ok(prev + [p.value]) else Err(p.error)
  {
  }

  /** Once the walk fails, walking further fails the same way. */
  lemma {:induction false} PairFactorsFail(t: Tables, ps: seq<Word>, n: nat, m: nat)
    requires UNK in t.unigrams && 0 < n <= m < |ps| && PairFactors(t, ps, n).Err?
    ensures PairFactors(t, ps, m) == PairFactors(t, ps, n)
    decreases m
  {
    if n < m {
      PairFactorsFail(t, ps, n, m - 1);
    }
  }

  /** Training on one more line counts its rewritten form and extends the words seen. */
  lemma {:induction false} TrainStep(corpus: seq<seq<Word>>, i: nat)
    requires i < |corpus|
    ensures var t := Train(corpus[..i]);
      Train(corpus[..i + 1])
        == Trained(CountLine(t.counts, Rewritten(Wrap(corpus[i]), t.seen)), Seen(Wrap(corpus[i]), t.seen))
  {
    assert corpus[..i + 1][..i] == corpus[..i];
  }

  /**
   * The accumulation loop of `logProb`: queries every pair of consecutive
   * words of `ps` in order; the first query that throws ends it.
   */
  method WalkPairs(t: Tables, ps: seq<Word>) returns (r: Result<seq<real>>)
    requires UNK in t.unigrams && 0 < |ps|
    ensures r == PairFactors(t, ps, |ps| - 1)
  {
    var logSum: seq<real> := [];
    var i := 0;
    while i < |ps| - 1
      invariant 0 <= i < |ps|
      invariant PairFactors(t, ps, i) == Ok(logSum)
    {
      var p := Query(t, ps[i], ps[i + 1]);
      PairFactorsNext(t, ps, i, logSum, p);
      if p.Err? {
        PairFactorsFail(t, ps, i + 1, |ps| - 1);
        return Err(p.error);
      }
      logSum := logSum + [p.value];
      i := i + 1;
    }
    r := Ok(logSum);
  }

  /** The finalised tables hold the parts `Backoff` is built from. */
  lemma {:induction false} TablesRow(c: Counts, discount: real, t: Tables, a: Word)
    requires Finalised(c, discount) == Some(t) && Finalisable(c) && a in c.bi
    ensures t.unigrams == Normalised(c.uni, c.words as real)
    ensures a in t.bigrams && t.bigrams[a] == Discounted(c.bi[a], discount, RowSum(c.bi, a))
    ensures a in t.alphas && t.alphas[a] == Alpha(c, discount, a)
  {
  }

  // ---------------------------------------------------------------------
  // Which words have a backoff weight
  // ---------------------------------------------------------------------

  /**
   * Every counted word except `</s>` has been counted as a context: a word
   * at any but the last position of a line is followed by another.
   */
  ghost predicate Covers(c: Counts)
  {
    forall w :: w in c.uni ==> w in c.bi || w == EOS
  }

  /** Counting a line that ends in `</s>` keeps every word but `</s>` a context. */
  lemma {:induction false} CountLineCovers(c: Counts, s: seq<Word>)
    requires Covers(c) && s != [] && s[|s| - 1] == EOS
    ensures Covers(CountLine(c, s))
  {
    var c' := CountLine(c, s);
    forall w | w in c'.uni && w != EOS
      ensures w in c'.bi
    {
      UnigramsCount(c.uni, s, w);
      BigramsCount(c.bi, s, w, w);
      LastSplit(s, w);
    }
  }

  /** Training keeps every word but `</s>` a context. */
  lemma {:induction false} TrainCovers(corpus: seq<seq<Word>>)
    ensures Covers(Train(corpus).counts)
    decreases |corpus|
  {
    if corpus != [] {
      var t := Train(corpus[..|corpus| - 1]);
      TrainCovers(corpus[..|corpus| - 1]);
      RewrittenWrap(corpus[|corpus| - 1], t.seen);
      CountLineCovers(t.counts, Rewritten(Wrap(corpus[|corpus| - 1]), t.seen));
    }
  }

  /**
   * One line of the corpus as the constructor holds it: wrapped in `<s>` and
   * `</s>` into a fresh array, then rewritten in place against `vocab`.
   */
  method PrepareLine(line: seq<Word>, vocab: set<Word>) returns (currLine: array<Word>, seen: set<Word>)
    ensures fresh(currLine)
    ensures currLine[..] == Rewritten(Wrap(line), vocab)
    ensures seen == Seen(Wrap(line), vocab)
  {
    var wrapped := Wrap(line);
    currLine := new Word[|wrapped|](j requires 0 <= j < |wrapped| => wrapped[j]);
    assert currLine[..] == wrapped;
    seen := ReplaceUnseen(currLine, vocab);
  }

  // ---------------------------------------------------------------------
  // Maps filled in key by key
  // ---------------------------------------------------------------------

  /** The entries of `m` whose keys are in `keys`. */
  function Restrict<K, V>(m: map<K, V>, keys: set<K>): (r: map<K, V>)
    ensures r.Keys == m.Keys * keys
    ensures forall k :: k in r ==> r[k] == m[k]
  {
    map k | k in m && k in keys :: m[k]
  }

  /** Admitting no key gives the empty map. */
  lemma {:induction false} RestrictNone<K, V>(m: map<K, V>)
    ensures Restrict(m, {}) == map[]
  {
  }

  /** Before a pass over the keys of `raw`: nothing is overridden yet. */
  lemma {:induction false} PassStart<K, V, W>(raw: map<K, V>, rows: map<K, V>, weights: map<K, W>)
    ensures raw + Restrict(rows, raw.Keys - raw.Keys) == raw
    ensures Restrict(weights, raw.Keys - raw.Keys) == map[]
  {
    assert raw.Keys - raw.Keys == {};
    RestrictNone(rows);
    RestrictNone(weights);
  }

  /** After a pass over the keys of `raw`: everything is overridden. */
  lemma {:induction false} PassEnd<K, V, W>(raw: map<K, V>, rows: map<K, V>, weights: map<K, W>)
    requires rows.Keys == raw.Keys && weights.Keys == raw.Keys
    ensures raw + Restrict(rows, raw.Keys - {}) == rows
    ensures Restrict(weights, raw.Keys - {}) == weights
  {
    RestrictAll(rows, raw.Keys - {});
    RestrictAll(weights, raw.Keys - {});
    OverrideAll(raw, rows);
  }

  /** Admitting one more key of `m` adds its entry. */
  lemma {:induction false} RestrictStep<K, V>(m: map<K, V>, keys: set<K>, k: K)
    requires k in m
    ensures Restrict(m, keys + {k}) == Restrict(m, keys)[k := m[k]]
  {
  }

  /** Admitting every key of `m` gives `m`. */
  lemma {:induction false} RestrictAll<K, V>(m: map<K, V>, keys: set<K>)
    requires m.Keys <= keys
    ensures Restrict(m, keys) == m
  {
  }

  /** Updating an overriding map updates the result. */
  lemma {:induction false} OverrideStep<K, V>(base: map<K, V>, over: map<K, V>, k: K, v: V)
    ensures (base + over)[k := v] == base + over[k := v]
  {
  }

  /** A key the overriding map lacks keeps its value from `base`. */
  lemma {:induction false} OverrideOutside<K, V>(base: map<K, V>, over: map<K, V>, k: K)
    requires k in base && k !in over
    ensures k in base + over && (base + over)[k] == base[k]
  {
  }

  /** Taking `k` off the keys still to do adds it to the keys done. */
  lemma {:induction false} DoneStep<K>(all: set<K>, todo: set<K>, k: K)
    requires k in todo && todo <= all
    ensures all - (todo - {k}) == (all - todo) + {k}
  {
  }

  /** A map overriding every key of `base` is the result. */
  lemma {:induction false} OverrideAll<K, V>(base: map<K, V>, over: map<K, V>)
    requires base.Keys <= over.Keys
    ensures base + over == over
  {
  }

  // ---------------------------------------------------------------------
  // The model
  // ---------------------------------------------------------------------

  class DiscountModel {
    var unigrams: Table1
    var bigrams: Table2
    var alphas: Table1
    const discount: real

    /** The raw counts the tables were computed from. */
    ghost var counts: Counts

    /** The tables are those finalised from `counts`, which cover their words. */
    ghost predicate Valid()
      reads this
    {
      Covers(counts) && Finalised(counts, discount) == Some(Tables(unigrams, bigrams, alphas))
    }

    /** Trains on `corpus`, one already split line per element. */
    constructor (corpus: seq<seq<Word>>, discount: real)
      requires Finalisable(Train(corpus).counts)
      ensures Valid()
      ensures this.discount == discount
      ensures counts == Train(corpus).counts
    {
      this.discount := discount;
      unigrams := map[];
      bigrams := map[];
      alphas := map[];
      counts := InitialCounts();
      new;
      Learn(corpus);
    }

    /** The constructor's work on the empty tables: counting, then the finishing passes. */
    method Learn(corpus: seq<seq<Word>>)
      requires Finalisable(Train(corpus).counts)
      requires unigrams == map[] && bigrams == map[] && alphas == map[]
      modifies this`unigrams, this`bigrams, this`alphas, this`counts
      ensures Valid() && counts == Train(corpus).counts
    {
      var wordCount := CountCorpus(corpus);
      TrainCovers(corpus);
      Finalise(wordCount, Train(corpus).counts);
    }

    /**
     * Puts the reserved entries into the empty tables, then rewrites and
     * counts every line of `corpus`, returning the total word count.
     */
    method CountCorpus(corpus: seq<seq<Word>>) returns (wordCount: nat)
      requires unigrams == map[] && bigrams == map[]
      modifies this`unigrams, this`bigrams
      ensures Counts(unigrams, bigrams, wordCount) == Train(corpus).counts
    {
      unigrams := unigrams[UNK := 0.0][BOS := 0.0][EOS := 0.0];
      bigrams := bigrams[UNK := map[]][BOS := map[]];
      wordCount := 0;
      var vocab: set<Word> := {};
      var i := 0;
      while i < |corpus|
        invariant 0 <= i <= |corpus|
        invariant Trained(Counts(unigrams, bigrams, wordCount), vocab) == Train(corpus[..i])
      {
        var length, seen := CountLineOf(corpus[i], vocab);
        TrainStep(corpus, i);
        vocab := seen;
        wordCount := wordCount + length;
        i := i + 1;
      }
      assert corpus[..i] == corpus;
    }

    /**
     * One pass of the training loop: wraps `line`, rewrites first occurrences
     * against `vocab` and counts the result; returns its length and the words
     * met so far.
     */
    method CountLineOf(line: seq<Word>, vocab: set<Word>) returns (length: nat, seen: set<Word>)
      modifies this`unigrams, this`bigrams
      ensures var s := Rewritten(Wrap(line), vocab);
        && unigrams == CountUnigrams(old(unigrams), s)
        && bigrams == CountBigrams(old(bigrams), s)
        && length == |s|
      ensures seen == Seen(Wrap(line), vocab)
    {
      var currLine;
      currLine, seen := PrepareLine(line, vocab);
      length := currLine.Length;
      CountWindows(currLine[..]);
    }

    /** Counts one rewritten line: at every position the word and the pair starting there. */
    method CountWindows(currLine: seq<Word>)
      modifies this`unigrams, this`bigrams
      ensures unigrams == CountUnigrams(old(unigrams), currLine)
      ensures bigrams == CountBigrams(old(bigrams), currLine)
    {
      ghost var u0, b0 := unigrams, bigrams;
      var n := |currLine|;
      var i := 0;
      while i < n
        invariant 0 <= i <= n
        invariant unigrams == CountUnigrams(u0, currLine[..i])
        invariant bigrams == CountBigrams(b0, currLine[..if i < n then i + 1 else n])
      {
        CountAt(currLine, i);
        UnigramsSnoc(u0, currLine, i + 1);
        if i < n - 1 {
          BigramsSnoc(b0, currLine, i + 2);
        }
        i := i + 1;
      }
      assert currLine[..n] == currLine;
    }

    /** One step of the counting loop: the word at `i`, then the pair starting there if any. */
    method CountAt(currLine: seq<Word>, i: nat)
      requires i < |currLine|
      modifies this`unigrams, this`bigrams
      ensures unigrams == Bump(old(unigrams), currLine[i])
      ensures bigrams == if i < |currLine| - 1 then BumpPair(old(bigrams), currLine[i], currLine[i + 1]) else old(bigrams)
    {
      if currLine[i] in unigrams {
        unigrams := unigrams[currLine[i] := unigrams[currLine[i]] + 1.0];
      } else {
        unigrams := unigrams[currLine[i] := 1.0];
      }
      if i < |currLine| - 1 {
        BigramAdd(currLine[i], currLine[i + 1]);
      }
    }

    /** Counts one pair as given, creating the context's row and the pair's entry when absent. */
    method BigramAdd(first: Word, last: Word)
      modifies this`bigrams
      ensures bigrams == BumpPair(old(bigrams), first, last)
    {
      var table := bigrams;
      ghost var row := if first in table then table[first] else map[];
      if first !in table {
        table := table[first := map[]];
      }
      assert table == old(bigrams)[first := row];
      if last in table[first] {
        var currCount := table[first][last];
        table := table[first := table[first][last := currCount + 1.0]];
      } else {
        table := table[first := table[first][last := 1.0]];
      }
      bigrams := table;
    }

    /**
     * The finishing passes over the raw counts: unigrams divided by the word
     * count, then every context's `alpha` and discounted row.
     */
    method Finalise(wordCount: nat, ghost c: Counts)
      requires c == Counts(unigrams, bigrams, wordCount) && alphas == map[]
      requires Covers(c) && Finalisable(c)
      modifies this`unigrams, this`bigrams, this`alphas, this`counts
      ensures Valid() && counts == c
    {
      ghost var t := FinalTables(c, discount);
      FinishPasses(wordCount, c, t);
    }

    /** The passes of `Finalise`, which turn the tables into `t`. */
    method FinishPasses(wordCount: nat, ghost c: Counts, ghost t: Tables)
      requires c == Counts(unigrams, bigrams, wordCount) && wordCount > 0 && alphas == map[]
      requires t.unigrams == Normalised(c.uni, c.words as real)
      requires Finishes(c.bi, t.unigrams, discount, t.bigrams, t.alphas)
      modifies this`unigrams, this`bigrams, this`alphas, this`counts
      ensures counts == c && Tables(unigrams, bigrams, alphas) == t
    {
      counts := c;
      unigrams := NormaliseRow(unigrams, wordCount as real);
      DiscountContexts(c.bi, t.unigrams, t.bigrams, t.alphas);
    }

    /**
     * The pass over every context, in an unspecified order: every row of
     * `bigrams` becomes its row in `rows`, and `alphas` becomes `weights`.
     */
    method DiscountContexts(ghost raw: Table2, ghost probs: Table1, ghost rows: Table2, ghost weights: Table1)
      requires bigrams == raw && unigrams == probs && alphas == map[]
      requires Finishes(raw, probs, discount, rows, weights)
      modifies this`bigrams, this`alphas
      ensures bigrams == rows && alphas == weights
    {
      PassStart(raw, rows, weights);
      var todo := bigrams.Keys;
      while todo != {}
        invariant unigrams == probs
        invariant Progress(raw, rows, weights, todo)
        decreases todo
      {
        var first :| first in todo;
        DiscountNext(first, raw, rows, weights, todo);
        todo := todo - {first};
      }
      PassEnd(raw, rows, weights);
    }

    /**
     * The state of the pass once the contexts outside `todo` are done: their
     * rows and weights are final, every other row is still raw.
     */
    ghost predicate Progress(raw: Table2, rows: Table2, weights: Table1, todo: set<Word>)
      reads this
    {
      && todo <= raw.Keys
      && bigrams == raw + Restrict(rows, raw.Keys - todo)
      && alphas == Restrict(weights, raw.Keys - todo)
    }

    /** One more context of the pass done. */
    method DiscountNext(first: Word, ghost raw: Table2, ghost rows: Table2, ghost weights: Table1, ghost todo: set<Word>)
      requires Progress(raw, rows, weights, todo) && first in todo
      requires first in rows && first in weights && Finished(raw[first], unigrams, discount, rows[first], weights[first])
      modifies this`bigrams, this`alphas
      ensures Progress(raw, rows, weights, todo - {first})
    {
      ghost var done := raw.Keys - todo;
      OverrideOutside(raw, Restrict(rows, done), first);
      DiscountContext(first);
      RestrictStep(rows, done, first);
      RestrictStep(weights, done, first);
      OverrideStep(raw, Restrict(rows, done), first, rows[first]);
      DoneStep(raw.Keys, todo, first);
    }

    /**
     * One context `first`: its reserved mass, its `backSum` over the
     * normalised unigrams, its `alpha`, and then its discounted row.
     */
    method DiscountContext(first: Word)
      requires first in bigrams && SumOver(bigrams[first], bigrams[first].Keys) != 0.0 && Backable(bigrams[first], unigrams)
      modifies this`bigrams, this`alphas
      ensures bigrams == old(bigrams)[first := Discounted(old(bigrams)[first], discount, SumOver(old(bigrams)[first], old(bigrams)[first].Keys))]
      ensures alphas == old(alphas)[first := RowAlpha(old(bigrams)[first], unigrams, discount)]
    {
      var row := bigrams[first];
      var reservedMass := |row| as real * discount;
      var firstXTotal := SumValues(row, row.Keys);
      reservedMass := reservedMass / firstXTotal;
      assert reservedMass == ReservedMass(|row|, discount, SumOver(row, row.Keys));
      var backSum := SumValues(unigrams, row.Keys);
      backSum := 1.0 - backSum;
      var alpha := reservedMass / backSum;
      assert alpha == RowAlpha(row, unigrams, discount);
      alphas := alphas[first := alpha];
      var discounted := DiscountRow(row, discount, firstXTotal);
      bigrams := bigrams[first := discounted];
    }

    /**
     * `getBigramProb(first, second)`: either word not in the unigram table is
     * read as `<UNK>`; a stored pair gives its discounted estimate, any other
     * gives `alpha` of the context times the unigram probability. A context
     * without an `alpha` makes the Java unboxing throw; only `</s>` can be one.
     */
    function BigramProb(first: Word, second: Word): (r: Result<real>)
      reads this
      requires Valid()
      ensures r.Err? <==> Known(counts.uni.Keys, first) !in counts.bi
      ensures r.Err? ==> r.error == NullPointer && Known(counts.uni.Keys, first) == EOS
      ensures r.Ok? ==> r.value == Backoff(counts, discount, Known(counts.uni.Keys, first))[Known(counts.uni.Keys, second)]
    {
      QueryBackoff(counts, discount, Tables(unigrams, bigrams, alphas), first, second);
      Query(Tables(unigrams, bigrams, alphas), first, second)
    }

    /** The unigram probabilities add up to 1. */
    lemma {:induction false} UnigramMass()
      requires Valid()
      ensures SumOver(unigrams, unigrams.Keys) == 1.0
    {
      var t := FinalTables(counts, discount);
      TablesKeys(counts, discount, t);
      NormalisedMass(counts.uni, counts.words as real);
    }

    /**
     * The backoff partition law on the stored tables: after any context, the
     * stored discounted estimates and `alpha` times the unigram probability
     * of every other word add up to 1.
     */
    lemma {:induction false} ContextMass(a: Word)
      requires Valid() && a in bigrams
      ensures a in alphas
      ensures SumOver(Scaled(unigrams, alphas[a]) + bigrams[a], unigrams.Keys) == 1.0
    {
      var t := Tables(unigrams, bigrams, alphas);
      TablesKeys(counts, discount, t);
      TablesBackoff(counts, discount, t, a);
      BackoffMass(counts, discount, a);
    }

    /**
     * The factors `logProb` multiplies for one sentence: one per pair of
     * consecutive words of its formatted form.
     */
    function SentenceFactors(sent: seq<Word>): (r: Result<seq<real>>)
      reads this
      requires Reserved <= unigrams.Keys
      ensures r.Err? ==> r.error == NullPointer
      ensures r.Ok? ==> |r.value| == |sent| + 1
    {
      PairFactors(Tables(unigrams, bigrams, alphas), Formatted(sent, unigrams.Keys), |sent| + 1)
    }

    /**
     * `logProb(sentWords)`: walks the formatted sentence pair by pair; the
     * first pair whose context has no `alpha` ends it with the exception.
     */
    method LogProbFactors(sentWords: seq<Word>) returns (r: Result<seq<real>>)
      requires Reserved <= unigrams.Keys
      ensures r == SentenceFactors(sentWords)
    {
      var processedSentence := FormatSentence(sentWords, unigrams.Keys);
      r := WalkPairs(Tables(unigrams, bigrams, alphas), processedSentence);
    }

    /**
     * Pair `i` of a formatted sentence throws exactly when its first word was
     * never a context in training, which only `</s>` can be; any other pair
     * gets the backoff distribution's value.
     */
    lemma {:induction false} SentencePair(sent: seq<Word>, i: nat)
      requires Valid() && i <= |sent|
      ensures Reserved <= unigrams.Keys && unigrams.Keys == counts.uni.Keys
      ensures var ps := Formatted(sent, unigrams.Keys);
        && (Query(Tables(unigrams, bigrams, alphas), ps[i], ps[i + 1]).Err? <==> ps[i] !in counts.bi)
        && (ps[i] !in counts.bi ==> ps[i] == EOS)
        && (ps[i] in counts.bi ==>
              Query(Tables(unigrams, bigrams, alphas), ps[i], ps[i + 1])
                == Ok(Backoff(counts, discount, ps[i])[ps[i + 1]]))
    {
      var t := Tables(unigrams, bigrams, alphas);
      TablesKeys(counts, discount, t);
      var ps := Formatted(sent, unigrams.Keys);
      QueryKnown(counts, discount, t, ps[i], ps[i + 1]);
    }

    /**
     * `logProb` throws for a sentence exactly when it contains `</s>` and
     * `</s>` was never followed by a word in training (it only ends lines).
     */
    lemma {:induction false} SentenceFails(sent: seq<Word>)
      requires Valid()
      ensures Reserved <= unigrams.Keys
      ensures SentenceFactors(sent).Err? <==> EOS in sent && EOS !in counts.bi
    {
      FailureAtEnd(sent);
      EndFails(sent);
    }

    /** A failing sentence has a `</s>` that was never a context. */
    lemma {:induction false} FailureAtEnd(sent: seq<Word>)
      requires Valid()
      ensures Reserved <= unigrams.Keys
      ensures SentenceFactors(sent).Err? ==> EOS in sent && EOS !in counts.bi
    {
      TablesKeys(counts, discount, Tables(unigrams, bigrams, alphas));
      var t := Tables(unigrams, bigrams, alphas);
      var ps := Formatted(sent, unigrams.Keys);
      if PairFactors(t, ps, |sent| + 1).Err? {
        var i := PairFactorsFailure(t, ps, |sent| + 1);
        SentencePair(sent, i);
        assert i != 0;
        FormattedEnds(sent, unigrams.Keys, i - 1);
      }
    }

    /** A `</s>` in the sentence that was never a context makes it fail. */
    lemma {:induction false} EndFails(sent: seq<Word>)
      requires Valid()
      ensures Reserved <= unigrams.Keys
      ensures EOS in sent && EOS !in counts.bi ==> SentenceFactors(sent).Err?
    {
      TablesKeys(counts, discount, Tables(unigrams, bigrams, alphas));
      var t := Tables(unigrams, bigrams, alphas);
      var ps := Formatted(sent, unigrams.Keys);
      if EOS in sent && EOS !in counts.bi {
        var j :| 0 <= j < |sent| && sent[j] == EOS;
        FormattedEnds(sent, unigrams.Keys, j);
        SentencePair(sent, j + 1);
        PairFactorsWalk(t, ps, |sent| + 1);
        assert Query(t, ps[j + 1], ps[j + 2]).Err?;
      }
    }

    /** Every factor of a sentence `logProb` accepts is the backoff distribution's value for its pair. */
    lemma {:induction false} SentenceBackoff(sent: seq<Word>)
      requires Valid()
      ensures Reserved <= unigrams.Keys
      ensures var r := SentenceFactors(sent); var ps := Formatted(sent, counts.uni.Keys);
        r.Ok? ==> forall i :: 0 <= i <= |sent| ==>
          ps[i] in counts.bi && r.value[i] == Backoff(counts, discount, ps[i])[ps[i + 1]]
    {
      TablesKeys(counts, discount, Tables(unigrams, bigrams, alphas));
      var t := Tables(unigrams, bigrams, alphas);
      var ps := Formatted(sent, unigrams.Keys);
      assert ps == Formatted(sent, counts.uni.Keys);
      var r := PairFactors(t, ps, |sent| + 1);
      assert SentenceFactors(sent) == r;
      PairFactorsWalk(t, ps, |sent| + 1);
      if r.Ok? {
        forall i | 0 <= i <= |sent|
          ensures ps[i] in counts.bi && r.value[i] == Backoff(counts, discount, ps[i])[ps[i + 1]]
        {
          SentencePair(sent, i);
          assert Query(t, ps[i], ps[i + 1]) == Ok(r.value[i]);
        }
      }
    }

    /**
     * `getPerplexity(filename)` up to the final power of ten: the factors of
     * every line and the word count, which grows by the line's length plus
     * the two boundaries, one more than the line's factors. An exception
     * from any line ends the whole computation.
     */
    method PerplexityTerms(lines: seq<seq<Word>>) returns (r: Result<Scored>)
      requires Reserved <= unigrams.Keys
      ensures r.Ok? <==> forall i :: 0 <= i < |lines| ==> SentenceFactors(lines[i]).Ok?
      ensures r.Err? ==> r.error == NullPointer
      ensures r.Ok? ==> |r.value.factors| == |lines|
      ensures r.Ok? ==> forall i :: 0 <= i < |lines| ==> SentenceFactors(lines[i]) == Ok(r.value.factors[i])
      ensures r.Ok? ==> r.value.wordCount == TotalLength(r.value.factors) + |lines|
    {
      var logSum: seq<seq<real>> := [];
      var wordCount: nat := 0;
      var i := 0;
      while i < |lines|
        invariant 0 <= i <= |lines| && |logSum| == i
        invariant forall j :: 0 <= j < i ==> SentenceFactors(lines[j]) == Ok(logSum[j])
        invariant wordCount == TotalLength(logSum) + i
      {
        var currLine := lines[i];
        wordCount := wordCount + |currLine| + 2;
        var lp := LogProbFactors(currLine);
        if lp.Err? {
          return Err(lp.error);
        }
        TotalLengthAppend(logSum, lp.value);
        ghost var before := logSum;
        logSum := logSum + [lp.value];
        forall j | 0 <= j < i + 1
          ensures SentenceFactors(lines[j]) == Ok(logSum[j])
        {
          if j < i {
            assert logSum[j] == before[j];
          }
        }
        i := i + 1;
      }
      r := Ok(Scored(logSum, wordCount));
    }
  }
}
