/**
 * What the two language models have in common: the reserved symbols, the
 * string-keyed count tables, the "increment one cell" helpers, the count
 * folds over a boundary-wrapped line, the row normalisations and the
 * sentence formatter.
 *
 * A table starts its life holding counts and is later overwritten in place
 * with probabilities, exactly as the `HashMap<String, Double>` fields of the
 * Java models are; a value of type `real` stands for a Java `double`.
 */
module NGram {
  import opened Sums

  type Word = string

  /** word -> count or probability */
  type Table1 = map<Word, real>
  /** first word -> second word -> count or probability */
  type Table2 = map<Word, Table1>
  /** first word -> second word -> third word -> count or probability */
  type Table3 = map<Word, Table2>

  const BOS: Word := "<s>"
  const EOS: Word := "</s>"
  const UNK: Word := "<UNK>"

  /** The symbols every vocabulary and every unigram table holds. */
  const Reserved: set<Word> := {BOS, EOS, UNK}

  /** The unigram table both constructors start from: every reserved symbol at 0. */
  function ReservedCounts(): Table1
  {
    map[UNK := 0.0, BOS := 0.0, EOS := 0.0]
  }

  /** The starting table holds exactly the reserved symbols, and its counts add up to no words. */
  lemma {:induction false} ReservedCountsMass()
    ensures ReservedCounts().Keys == Reserved
    ensures SumOver(ReservedCounts(), ReservedCounts().Keys) == 0.0
  {
    var u := ReservedCounts();
    SumZero(u, u.Keys);
  }

  /** The failures the Java code raises as exceptions. */
  datatype Error = IllegalArgument | NullPointer

  datatype Result<T> = Ok(value: T) | Err(error: Error)

  /**
   * What a perplexity computation accumulates over a file: for every line the
   * probabilities whose base-10 logarithms are added up, and the word count
   * the sum of logarithms is divided by.
   */
  datatype Scored = Scored(factors: seq<seq<real>>, wordCount: nat)

  /** The number of factors over all lines. */
  function TotalLength(ss: seq<seq<real>>): nat
    decreases |ss|
  {
    if ss == [] then 0 else TotalLength(ss[..|ss| - 1]) + |ss[|ss| - 1]|
  }

  /** Appending one more sequence adds its length. */
  lemma {:induction false} TotalLengthAppend(ss: seq<seq<real>>, s: seq<real>)
    ensures TotalLength(ss + [s]) == TotalLength(ss) + |s|
  {
    assert (ss + [s])[..|ss|] == ss;
  }

  // ---------------------------------------------------------------------
  // Sequences of words
  // ---------------------------------------------------------------------

  /** A corpus line with the sentence boundaries added around it. */
  function Wrap(line: seq<Word>): seq<Word>
  {
    [BOS] + line + [EOS]
  }

  /** A word kept if `known` has it, otherwise the unknown-word symbol. */
  function Known(known: set<Word>, w: Word): Word
  {
    if w in known then w else UNK
  }

  /** Every word of `s` passed through `Known`. */
  function MapAll(known: set<Word>, s: seq<Word>): (r: seq<Word>)
    ensures |r| == |s|
    ensures forall i :: 0 <= i < |s| ==> r[i] == Known(known, s[i])
  {
    seq(|s|, i requires 0 <= i < |s| => Known(known, s[i]))
  }

  function DropLast<T>(s: seq<T>): seq<T>
  {
    if s == [] then [] else s[..|s| - 1]
  }

  /** The words of all lines, as a set. */
  function Words(lines: seq<seq<Word>>): set<Word>
    decreases |lines|
  {
    if lines == [] then {} else Words(lines[..|lines| - 1]) + Elements(lines[|lines| - 1])
  }

  /** The words of one line, as a set. */
  function Elements(s: seq<Word>): set<Word>
  {
    set i | 0 <= i < |s| :: s[i]
  }

  /** Number of occurrences of `w` over all lines. */
  function CorpusOcc(lines: seq<seq<Word>>, w: Word): nat
    decreases |lines|
  {
    if lines == [] then 0 else CorpusOcc(lines[..|lines| - 1], w) + Occ(lines[|lines| - 1], w)
  }

  /** Number of positions of `s` holding `w`. */
  function Occ(s: seq<Word>, w: Word): nat
    decreases |s|
  {
    if s == [] then 0
    else Occ(s[..|s| - 1], w) + (if s[|s| - 1] == w then 1 else 0)
  }

  /** Number of positions `i` with `s[i] == a` and `s[i + 1] == b`. */
  function PairOcc(s: seq<Word>, a: Word, b: Word): nat
    decreases |s|
  {
    if |s| < 2 then 0
    else PairOcc(s[..|s| - 1], a, b) + (if s[|s| - 2] == a && s[|s| - 1] == b then 1 else 0)
  }

  /** Number of positions `i` with `s[i..i + 3] == [a, b, c]`. */
  function TripleOcc(s: seq<Word>, a: Word, b: Word, c: Word): nat
    decreases |s|
  {
    if |s| < 3 then 0
    else TripleOcc(s[..|s| - 1], a, b, c)
         + (if s[|s| - 3] == a && s[|s| - 2] == b && s[|s| - 1] == c then 1 else 0)
  }

  // ---------------------------------------------------------------------
  // Table lookups and the one-cell increments
  // ---------------------------------------------------------------------

  /** The count of `w`, zero when the table has no entry. */
  function Get(m: Table1, w: Word): real
  {
    if w in m then m[w] else 0.0
  }

  function Get2(t: Table2, a: Word, b: Word): real
  {
    if a in t then Get(t[a], b) else 0.0
  }

  function Get3(t: Table3, a: Word, b: Word, c: Word): real
  {
    if a in t then Get2(t[a], b, c) else 0.0
  }

  /** The keys of the row of `a`, empty when `a` is no context. */
  function RowKeys(t: Table2, a: Word): set<Word>
  {
    if a in t then t[a].Keys else {}
  }

  /** Counting one occurrence of `w`: its entry is created at 1 when absent, otherwise raised by 1. */
  function Bump(m: Table1, w: Word): Table1
  {
    m[w := Get(m, w) + 1.0]
  }

  /** Counting one occurrence of the pair `(a, b)` into the row of context `a`. */
  function BumpPair(t: Table2, a: Word, b: Word): Table2
  {
    var row := if a in t then t[a] else map[];
    t[a := Bump(row, b)]
  }

  /** Counting one occurrence of the triple `(a, b, c)` into the rows of context `a`. */
  function BumpTriple(t: Table3, a: Word, b: Word, c: Word): Table3
  {
    var rows := if a in t then t[a] else map[];
    t[a := BumpPair(rows, b, c)]
  }

  /** `Bump` adds `w` to the keys and raises its count by exactly 1; nothing else changes. */
  lemma {:induction false} BumpCounts(m: Table1, w: Word)
    ensures Bump(m, w).Keys == m.Keys + {w}
    ensures forall x :: Get(Bump(m, w), x) == Get(m, x) + (if x == w then 1.0 else 0.0)
  {
  }

  /**
   * `BumpPair` creates the context `a` when absent and the pair's count at 1
   * or raises it by 1; every other context row and every other pair keeps
   * its count.
   */
  lemma {:induction false} BumpPairCounts(t: Table2, a: Word, b: Word)
    ensures BumpPair(t, a, b).Keys == t.Keys + {a}
    ensures forall x :: x in t && x != a ==> BumpPair(t, a, b)[x] == t[x]
    ensures BumpPair(t, a, b)[a].Keys == RowKeys(t, a) + {b}
    ensures forall x, y :: Get2(BumpPair(t, a, b), x, y) == Get2(t, x, y) + (if x == a && y == b then 1.0 else 0.0)
  {
    BumpCounts(if a in t then t[a] else map[], b);
  }

  /**
   * `BumpTriple` creates missing first- and second-level keys and the
   * triple's count at 1 or raises it by 1; every other triple keeps its count.
   */
  lemma {:induction false} BumpTripleCounts(t: Table3, a: Word, b: Word, c: Word)
    ensures BumpTriple(t, a, b, c).Keys == t.Keys + {a}
    ensures forall x :: x in t && x != a ==> BumpTriple(t, a, b, c)[x] == t[x]
    ensures BumpTriple(t, a, b, c)[a].Keys == (if a in t then t[a].Keys else {}) + {b}
    ensures forall x, y, z :: Get3(BumpTriple(t, a, b, c), x, y, z)
                           == Get3(t, x, y, z) + (if x == a && y == b && z == c then 1.0 else 0.0)
  {
    BumpPairCounts(if a in t then t[a] else map[], b, c);
  }

  // ---------------------------------------------------------------------
  // Count folds over one (already boundary-wrapped and mapped) line
  // ---------------------------------------------------------------------

  /** Every word of `s` counted into `u`, left to right. */
  function CountUnigrams(u: Table1, s: seq<Word>): Table1
    decreases |s|
  {
    if s == [] then u else Bump(CountUnigrams(u, s[..|s| - 1]), s[|s| - 1])
  }

  /** Every window of size 2 of `s` counted into `t`, left to right. */
  function CountBigrams(t: Table2, s: seq<Word>): Table2
    decreases |s|
  {
    if |s| < 2 then t else BumpPair(CountBigrams(t, s[..|s| - 1]), s[|s| - 2], s[|s| - 1])
  }

  /** Every window of size 3 of `s` counted into `t`, left to right. */
  function CountTrigrams(t: Table3, s: seq<Word>): Table3
    decreases |s|
  {
    if |s| < 3 then t
    else BumpTriple(CountTrigrams(t, s[..|s| - 1]), s[|s| - 3], s[|s| - 2], s[|s| - 1])
  }

  /** The unigram fold over a prefix one word longer counts one more word. */
  lemma {:induction false} UnigramsSnoc(u: Table1, s: seq<Word>, k: nat)
    requires 1 <= k <= |s|
    ensures CountUnigrams(u, s[..k]) == Bump(CountUnigrams(u, s[..k - 1]), s[k - 1])
  {
    assert s[..k][..k - 1] == s[..k - 1];
  }

  /** The bigram fold over a prefix one word longer counts one more pair. */
  lemma {:induction false} BigramsSnoc(t: Table2, s: seq<Word>, k: nat)
    requires 2 <= k <= |s|
    ensures CountBigrams(t, s[..k]) == BumpPair(CountBigrams(t, s[..k - 1]), s[k - 2], s[k - 1])
  {
    assert s[..k][..k - 1] == s[..k - 1];
  }

  /** The trigram fold over a prefix one word longer counts one more triple. */
  lemma {:induction false} TrigramsSnoc(t: Table3, s: seq<Word>, k: nat)
    requires 3 <= k <= |s|
    ensures CountTrigrams(t, s[..k]) == BumpTriple(CountTrigrams(t, s[..k - 1]), s[k - 3], s[k - 2], s[k - 1])
  {
    assert s[..k][..k - 1] == s[..k - 1];
  }

  /** Total count stored in the row of context `a`. */
  ghost function RowSum(t: Table2, a: Word): real
  {
    if a in t then SumOver(t[a], t[a].Keys) else 0.0
  }

  /** Total count stored in the row of context `(a, b)`. */
  ghost function RowSum2(t: Table3, a: Word, b: Word): real
  {
    if a in t then RowSum(t[a], b) else 0.0
  }

  // ---------------------------------------------------------------------
  // What the folds count
  // ---------------------------------------------------------------------

  lemma {:induction false} LastSplit(s: seq<Word>, w: Word)
    requires s != []
    ensures w in s <==> w in s[..|s| - 1] || w == s[|s| - 1]
  {
    assert s == s[..|s| - 1] + [s[|s| - 1]];
  }

  /** After the fold, the count of `w` has grown by its number of occurrences. */
  lemma {:induction false} UnigramsCount(u: Table1, s: seq<Word>, w: Word)
    ensures Get(CountUnigrams(u, s), w) == Get(u, w) + Occ(s, w) as real
    ensures w in CountUnigrams(u, s) <==> w in u || w in s
    decreases |s|
  {
    if s != [] {
      UnigramsCount(u, s[..|s| - 1], w);
      LastSplit(s, w);
    }
  }

  /** One more counted word adds exactly 1 to the table's total. */
  lemma {:induction false} BumpMass(m: Table1, w: Word)
    ensures SumOver(Bump(m, w), Bump(m, w).Keys) == SumOver(m, m.Keys) + 1.0
  {
    var r := Bump(m, w);
    assert Get(r, w) == Get(m, w) + 1.0;
    forall k | k in m.Keys - {w}
      ensures r[k] == m[k]
    {
      assert Get(r, k) == Get(m, k);
    }
    SumRemove(r, r.Keys, w);
    assert r.Keys - {w} == m.Keys - {w};
    SumAgree(m, r, m.Keys - {w});
    if w in m {
      SumRemove(m, m.Keys, w);
    } else {
      assert m.Keys - {w} == m.Keys;
    }
  }

  /** Counting a line of length n adds exactly n to the table's total. */
  lemma {:induction false} UnigramsMass(u: Table1, s: seq<Word>)
    ensures SumOver(CountUnigrams(u, s), CountUnigrams(u, s).Keys) == SumOver(u, u.Keys) + |s| as real
    decreases |s|
  {
    if s != [] {
      UnigramsMass(u, s[..|s| - 1]);
      BumpMass(CountUnigrams(u, s[..|s| - 1]), s[|s| - 1]);
    }
  }

  lemma {:induction false} PairOccWords(s: seq<Word>, a: Word, b: Word)
    requires PairOcc(s, a, b) > 0
    ensures a in s && b in s
    decreases |s|
  {
    if s[|s| - 2] != a || s[|s| - 1] != b {
      PairOccWords(s[..|s| - 1], a, b);
    }
  }

  /** After the fold, the count of `(a, b)` has grown by its number of windows. */
  lemma {:induction false} BigramsCount(t: Table2, s: seq<Word>, a: Word, b: Word)
    ensures Get2(CountBigrams(t, s), a, b) == Get2(t, a, b) + PairOcc(s, a, b) as real
    ensures (a in CountBigrams(t, s) && b in CountBigrams(t, s)[a])
        <==> (a in t && b in t[a]) || PairOcc(s, a, b) > 0
    ensures a in CountBigrams(t, s) <==> a in t || a in DropLast(s)
    decreases |s|
  {
    if |s| >= 2 {
      var s' := s[..|s| - 1];
      BigramsCount(t, s', a, b);
      LastSplit(s', a);
      assert DropLast(s') == s'[..|s'| - 1];
      assert s'[|s'| - 1] == s[|s| - 2];
    } else {
      assert DropLast(s) == [];
    }
  }

  /** The row of a freshly counted pair's context grows by exactly 1. */
  lemma {:induction false} RowSumBump(t: Table2, x: Word, y: Word, a: Word)
    ensures RowSum(BumpPair(t, x, y), a) == RowSum(t, a) + (if a == x then 1.0 else 0.0)
  {
    if a == x {
      var row := if x in t then t[x] else map[];
      BumpMass(row, y);
    }
  }

  /**
   * After the fold, the row of `a` has grown by the number of times `a`
   * occurs before the last position (every such occurrence opens a window).
   */
  lemma {:induction false} BigramsRowMass(t: Table2, s: seq<Word>, a: Word)
    ensures RowSum(CountBigrams(t, s), a) == RowSum(t, a) + Occ(DropLast(s), a) as real
    decreases |s|
  {
    if |s| >= 2 {
      var s' := s[..|s| - 1];
      BigramsRowMass(t, s', a);
      RowSumBump(CountBigrams(t, s'), s[|s| - 2], s[|s| - 1], a);
      assert DropLast(s) == s';
      assert DropLast(s') == s'[..|s'| - 1];
    } else if |s| == 1 {
      assert DropLast(s) == [];
    }
  }

  /** After the fold, the count of `(a, b, c)` has grown by its number of windows. */
  lemma {:induction false} TrigramsCount(t: Table3, s: seq<Word>, a: Word, b: Word, c: Word)
    ensures Get3(CountTrigrams(t, s), a, b, c) == Get3(t, a, b, c) + TripleOcc(s, a, b, c) as real
    ensures (a in CountTrigrams(t, s) && b in CountTrigrams(t, s)[a])
        <==> (a in t && b in t[a]) || PairOcc(DropLast(s), a, b) > 0
    ensures a in CountTrigrams(t, s) <==> a in t || a in DropLast(DropLast(s))
    decreases |s|
  {
    if |s| >= 3 {
      var s' := s[..|s| - 1];
      TrigramsCount(t, s', a, b, c);
      assert DropLast(s) == s';
      assert DropLast(s') == s'[..|s'| - 1];
      LastSplit(DropLast(s'), a);
      assert DropLast(DropLast(s')) == DropLast(s')[..|DropLast(s')| - 1];
    } else if |s| == 2 {
      assert DropLast(s) == s[..1];
      assert DropLast(DropLast(s)) == [];
    } else if |s| == 1 {
      assert DropLast(s) == [];
    }
  }

  lemma {:induction false} RowSum2Bump(t: Table3, x: Word, y: Word, z: Word, a: Word, b: Word)
    ensures RowSum2(BumpTriple(t, x, y, z), a, b) == RowSum2(t, a, b) + (if a == x && b == y then 1.0 else 0.0)
  {
    if a == x {
      var rows := if x in t then t[x] else map[];
      RowSumBump(rows, y, z, b);
    }
  }

  /**
   * After the fold, the row of `(a, b)` has grown by the number of windows
   * `(a, b)` before the last position.
   */
  lemma {:induction false} TrigramsRowMass(t: Table3, s: seq<Word>, a: Word, b: Word)
    ensures RowSum2(CountTrigrams(t, s), a, b) == RowSum2(t, a, b) + PairOcc(DropLast(s), a, b) as real
    decreases |s|
  {
    if |s| >= 3 {
      var s' := s[..|s| - 1];
      TrigramsRowMass(t, s', a, b);
      RowSum2Bump(CountTrigrams(t, s'), s[|s| - 3], s[|s| - 2], s[|s| - 1], a, b);
      assert DropLast(s) == s';
      assert DropLast(s') == s'[..|s'| - 1];
    } else if |s| == 2 {
      assert DropLast(s) == s[..1];
    } else if |s| == 1 {
      assert DropLast(s) == [];
    }
  }

  /** A window opened before the last position is a window of the line. */
  lemma {:induction false} DropLastOcc(s: seq<Word>, a: Word, b: Word)
    ensures Occ(DropLast(s), a) <= Occ(s, a)
    ensures PairOcc(DropLast(s), a, b) <= PairOcc(s, a, b)
  {
    if s != [] {
      assert DropLast(s) == s[..|s| - 1];
    }
  }

  // ---------------------------------------------------------------------
  // Normalisation of count rows into probabilities
  // ---------------------------------------------------------------------

  /** Every value divided by `total`. */
  function Normalised(m: Table1, total: real): (r: Table1)
    requires total != 0.0
    ensures r.Keys == m.Keys
    ensures forall k :: k in m ==> r[k] == m[k] / total
  {
    map k | k in m :: m[k] / total
  }

  /**
   * The add-lambda estimate `(c + lambda) / (total + lambda * size)` of an
   * event seen `c` times in a context seen `total` times, over `size`
   * possible events: a probability whenever `c` is a count of at most `total`.
   */
  function SmoothedShare(c: real, total: real, lambda: real, size: nat): (p: real)
    requires total >= 0.0 && lambda > 0.0 && size >= 1
    ensures 0.0 <= c ==> 0.0 < p
    ensures 0.0 <= c <= total ==> 0.0 < p <= 1.0
  {
    SmoothedBounds(c, total, lambda, size);
    (c + lambda) / (total + lambda * size as real)
  }

  /**
   * `lambda / (p + lambda * size)`, the value the add-lambda model gives an
   * event it never stored, `p` being the weight of the context: positive and
   * never above the uniform share `1 / size`.
   */
  function FallbackShare(p: real, lambda: real, size: nat): (r: real)
    requires p >= 0.0 && lambda > 0.0 && size >= 1
    ensures 0.0 < r <= 1.0 / size as real
  {
    FallbackBounds(p, lambda, size);
    lambda / (p + lambda * size as real)
  }

  /** `lambda / (lambda * size)`, which is the uniform share `1 / size`. */
  function UniformShare(lambda: real, size: nat): (r: real)
    requires lambda > 0.0 && size >= 1
    ensures r == 1.0 / size as real
    ensures 0.0 < r <= 1.0
  {
    FractionAtMostOne(1.0, size as real);
    lambda / (lambda * size as real)
  }

  /** Add-lambda smoothing of a row of counts whose context was seen `total` times. */
  function Smoothed(row: Table1, total: real, lambda: real, size: nat): (r: Table1)
    requires total >= 0.0 && lambda > 0.0 && size >= 1
    ensures r.Keys == row.Keys
    ensures forall k :: k in row ==> r[k] == SmoothedShare(row[k], total, lambda, size)
  {
    map k | k in row :: SmoothedShare(row[k], total, lambda, size)
  }

  /** Absolute discounting of a row of counts whose counts add up to `total`. */
  function Discounted(row: Table1, discount: real, total: real): (r: Table1)
    requires total != 0.0
    ensures r.Keys == row.Keys
    ensures forall k :: k in row ==> r[k] == (row[k] - discount) / total
  {
    map k | k in row :: (row[k] - discount) / total
  }

  /** Every row of `rows` smoothed against its context's count in `totals`. */
  function SmoothedRows(rows: Table2, totals: Table1, lambda: real, size: nat): (r: Table2)
    requires lambda > 0.0 && size > 0
    requires forall a :: a in rows ==> a in totals && totals[a] >= 0.0
    ensures r.Keys == rows.Keys
    ensures forall a :: a in rows ==> r[a] == Smoothed(rows[a], totals[a], lambda, size)
  {
    map a | a in rows :: Smoothed(rows[a], totals[a], lambda, size)
  }

  /** Relative frequencies add up to 1 when the total is the sum of the counts. */
  lemma {:induction false} NormalisedMass(m: Table1, total: real)
    requires total != 0.0 && SumOver(m, m.Keys) == total
    ensures SumOver(Normalised(m, total), m.Keys) == 1.0
  {
    SumScale(m, Normalised(m, total), m.Keys, 1.0 / total);
  }

  /** The sum of `m` over `keys`, computed by the accumulation loop of the Java code. */
  method SumValues(m: Table1, keys: set<Word>) returns (sum: real)
    requires keys <= m.Keys
    ensures sum == SumOver(m, keys)
  {
    sum := 0.0;
    var todo := keys;
    while todo != {}
      invariant todo <= keys
      invariant sum == SumOver(m, keys - todo)
      decreases todo
    {
      var k :| k in todo;
      SumInsert(m, keys - todo, k);
      assert keys - todo + {k} == keys - (todo - {k});
      sum := sum + m[k];
      todo := todo - {k};
    }
    assert keys - todo == keys;
  }

  /** Divides every value by `total`, key by key. */
  method NormaliseRow(m: Table1, total: real) returns (r: Table1)
    requires total != 0.0
    ensures r == Normalised(m, total)
  {
    r := m;
    var todo := m.Keys;
    while todo != {}
      invariant todo <= m.Keys && r.Keys == m.Keys
      invariant forall k :: k in m ==> r[k] == if k in todo then m[k] else m[k] / total
      decreases todo
    {
      var k :| k in todo;
      r := r[k := r[k] / total];
      todo := todo - {k};
    }
  }

  /** Replaces every count `c` of the row by `(c + lambda) / (total + lambda * size)`. */
  method SmoothRow(row: Table1, total: real, lambda: real, size: nat) returns (r: Table1)
    requires total >= 0.0 && lambda > 0.0 && size >= 1
    ensures r == Smoothed(row, total, lambda, size)
  {
    r := row;
    var todo := row.Keys;
    while todo != {}
      invariant todo <= row.Keys && r.Keys == row.Keys
      invariant forall k :: k in row ==>
        r[k] == if k in todo then row[k] else SmoothedShare(row[k], total, lambda, size)
      decreases todo
    {
      var k :| k in todo;
      var numer := r[k] + lambda;
      var denom := total + lambda * size as real;
      r := r[k := numer / denom];
      todo := todo - {k};
    }
  }

  /** Smooths every row against its context's count, one context at a time. */
  method SmoothRows(rows: Table2, totals: Table1, lambda: real, size: nat) returns (r: Table2)
    requires lambda > 0.0 && size > 0
    requires forall a :: a in rows ==> a in totals && totals[a] >= 0.0
    ensures r == SmoothedRows(rows, totals, lambda, size)
  {
    r := rows;
    var todo := rows.Keys;
    while todo != {}
      invariant todo <= rows.Keys && r.Keys == rows.Keys
      invariant forall a :: a in rows ==>
        r[a] == if a in todo then rows[a] else Smoothed(rows[a], totals[a], lambda, size)
      decreases todo
    {
      var a :| a in todo;
      var total := totals[a];
      var smoothed := SmoothRow(r[a], total, lambda, size);
      r := r[a := smoothed];
      todo := todo - {a};
    }
  }

  /** Replaces every count `c` of the row by `(c - discount) / total`. */
  method DiscountRow(row: Table1, discount: real, total: real) returns (r: Table1)
    requires total != 0.0
    ensures r == Discounted(row, discount, total)
  {
    r := row;
    var todo := row.Keys;
    while todo != {}
      invariant todo <= row.Keys && r.Keys == row.Keys
      invariant forall k :: k in row ==>
        r[k] == if k in todo then row[k] else (row[k] - discount) / total
      decreases todo
    {
      var k :| k in todo;
      var count := r[k];
      count := count - discount;
      r := r[k := count / total];
      todo := todo - {k};
    }
  }

  // ---------------------------------------------------------------------
  // Bounds on the smoothed values
  // ---------------------------------------------------------------------

  lemma {:induction false} FractionAtMostOne(x: real, y: real)
    requires 0.0 <= x <= y && y > 0.0
    ensures 0.0 <= x / y <= 1.0
  {
  }

  lemma {:induction false} SmoothedBounds(c: real, total: real, lambda: real, size: nat)
    requires total >= 0.0 && lambda > 0.0 && size >= 1
    ensures 0.0 <= c ==> 0.0 < (c + lambda) / (total + lambda * size as real)
    ensures 0.0 <= c <= total ==> 0.0 < (c + lambda) / (total + lambda * size as real) <= 1.0
  {
    ScaledAtLeast(lambda, size);
    if 0.0 <= c {
      PositiveFraction(c + lambda, total + lambda * size as real);
      if c <= total {
        FractionAtMostOne(c + lambda, total + lambda * size as real);
      }
    }
  }

  /** Scaling a positive `lambda` by a size of at least one does not shrink it. */
  lemma {:induction false} ScaledAtLeast(lambda: real, size: nat)
    requires lambda > 0.0 && size >= 1
    ensures lambda * size as real >= lambda
  {
    assert lambda * (size as real - 1.0) >= 0.0;
  }

  /** A positive numerator over a positive denominator is positive. */
  lemma {:induction false} PositiveFraction(x: real, y: real)
    requires x > 0.0 && y > 0.0
    ensures x / y > 0.0
  {
  }

  lemma {:induction false} FallbackBounds(p: real, lambda: real, size: nat)
    requires 0.0 <= p && lambda > 0.0 && size >= 1
    ensures 0.0 < lambda / (p + lambda * size as real) <= 1.0 / size as real
  {
    var ls := lambda * size as real;
    assert ls > 0.0;
    DivAntitone(lambda, ls, p + ls);
    assert lambda / ls == 1.0 / size as real;
  }

  /** Dividing by a larger positive number gives less. */
  lemma {:induction false} DivAntitone(x: real, a: real, b: real)
    requires x >= 0.0 && 0.0 < a <= b
    ensures x / b <= x / a
  {
    var q := x / a;
    assert q * a == x;
    assert q * b >= q * a by {
      assert q * (b - a) >= 0.0;
    }
  }

  /** Three distinct reserved symbols make any vocabulary holding them at least that large. */
  lemma {:induction false} ReservedSize(v: set<Word>)
    requires Reserved <= v
    ensures |v| >= 3
  {
    assert |Reserved| == 3;
    assert |v| == |Reserved| + |v - Reserved| by {
      assert v == Reserved + (v - Reserved);
    }
  }

  // ---------------------------------------------------------------------
  // Sentence formatting
  // ---------------------------------------------------------------------

  /**
   * A sentence as the models score it: `<s>` first, `</s>` last, and every
   * word in between kept when `known` has it, `<UNK>` otherwise.
   */
  function Formatted(sent: seq<Word>, known: set<Word>): (r: seq<Word>)
    ensures |r| == |sent| + 2
    ensures r[0] == BOS && r[|r| - 1] == EOS
    ensures Reserved <= known ==> forall i :: 0 <= i < |r| ==> r[i] in known
  {
    [BOS] + MapAll(known, sent) + [EOS]
  }

  /** The words between the boundaries are the sentence's words, each kept when known, `<UNK>` otherwise. */
  lemma {:induction false} FormattedWords(sent: seq<Word>, known: set<Word>)
    ensures forall i :: 0 <= i < |sent| ==>
              Formatted(sent, known)[i + 1] == if sent[i] in known then sent[i] else UNK
  {
  }

  /** When `</s>` is known, it appears between the boundaries exactly where the sentence has it. */
  lemma {:induction false} FormattedEnds(sent: seq<Word>, known: set<Word>, i: nat)
    requires EOS in known && i < |sent|
    ensures Formatted(sent, known)[i + 1] == EOS <==> sent[i] == EOS
  {
    FormattedWords(sent, known);
  }

  /**
   * Builds the formatted sentence the way the Java code does: copy the
   * words, overwrite the unknown ones, then add the two boundary symbols.
   * The argument is a value, so it cannot be changed.
   */
  method FormatSentence(sent: seq<Word>, known: set<Word>) returns (sentence: seq<Word>)
    ensures sentence == Formatted(sent, known)
  {
    sentence := sent;
    var i := 0;
    while i < |sentence|
      invariant 0 <= i <= |sentence| == |sent|
      invariant forall j :: 0 <= j < i ==> sentence[j] == Known(known, sent[j])
      invariant forall j :: i <= j < |sent| ==> sentence[j] == sent[j]
    {
      if sentence[i] !in known {
        sentence := sentence[i := UNK];
      }
      i := i + 1;
    }
    assert sentence == MapAll(known, sent);
    sentence := [BOS] + sentence;
    sentence := sentence + [EOS];
  }
}
