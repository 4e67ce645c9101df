/**
 * Line splitting and the "column 1" classifier: a line is flagged when its whitespace count is
 * both in the top decile of the document (percentile rank, scipy's default 'rank' kind) and more
 * than three times the document's median count.
 */
module Layout {
  import opened TextOps

  /** The characters of linebreak_p: carriage return, line feed and form feed. */
  predicate IsLineBreak(c: char) {
    c == '\r' || c == '\n' || c == '\U{C}'
  }

  predicate NoBreak(s: string) {
    forall k :: 0 <= k < |s| ==> !IsLineBreak(s[k])
  }

  function BreakCount(text: string): nat
  {
    if |text| == 0 then 0 else (if IsLineBreak(text[0]) then 1 else 0) + BreakCount(text[1..])
  }

  /** linebreak_p.split(text): one piece per break character plus one; empty pieces are kept. */
  function SplitLines(text: string): (lines: seq<string>)
    ensures |lines| == BreakCount(text) + 1
    ensures forall k :: 0 <= k < |lines| ==> NoBreak(lines[k])
  {
    if |text| == 0 then [""]
    else
      var rest := SplitLines(text[1..]);
      if IsLineBreak(text[0]) then [""] + rest
      else [[text[0]] + rest[0]] + rest[1..]
  }

  /** Every break character turned into '\n'. */
  function NormalizeBreaks(text: string): (r: string)
    ensures |r| == |text|
  {
    if |text| == 0 then "" else [if IsLineBreak(text[0]) then '\n' else text[0]] + NormalizeBreaks(text[1..])
  }

  lemma {:induction false} JoinPrefixHead(x: string, parts: seq<string>, sep: string)
    requires |parts| > 0
    ensures Join([x + parts[0]] + parts[1..], sep) == x + Join(parts, sep)
  {
    var q := [x + parts[0]] + parts[1..];
    if |parts| > 1 {
      assert q[1..] == parts[1..];
    }
  }

  /** Round trip: joining the split lines with '\n' gives the text with every break written as '\n'. */
  lemma {:induction false} JoinSplitLines(text: string)
    ensures Join(SplitLines(text), "\n") == NormalizeBreaks(text)
  {
    if |text| > 0 {
      var rest := SplitLines(text[1..]);
      JoinSplitLines(text[1..]);
      if IsLineBreak(text[0]) {
        assert ([""] + rest)[1..] == rest;
      } else {
        JoinPrefixHead([text[0]], rest, "\n");
      }
    }
  }

  /** len(l) - len(l.strip()): leading and trailing whitespace together. */
  function WsCount(l: string): nat
  {
    |l| - |Strip(l)|
  }

  function WsCounts(lines: seq<string>): (c: seq<nat>)
    ensures |c| == |lines|
  {
    seq(|lines|, k requires 0 <= k < |lines| => WsCount(lines[k]))
  }

  /** Number of counts strictly below x. */
  function CountBelow(c: seq<nat>, x: nat): nat
  {
    if |c| == 0 then 0 else (if c[0] < x then 1 else 0) + CountBelow(c[1..], x)
  }

  /** Number of counts at most x. */
  function CountAtMost(c: seq<nat>, x: nat): nat
  {
    if |c| == 0 then 0 else (if c[0] <= x then 1 else 0) + CountAtMost(c[1..], x)
  }

  /** scipy.stats.percentileofscore(c, x) with kind='rank', in exact arithmetic. */
  function PercentileOfScore(c: seq<nat>, x: nat): real
    requires |c| > 0
  {
    var left := CountBelow(c, x);
    var right := CountAtMost(c, x);
    var plus1 := if left < right then 1 else 0;
    Rank(left + right + plus1, |c|)
  }

  /** a halves of a percent over n: (left + right + plus1) * 50 / n. */
  function Rank(a: nat, n: nat): real
    requires n > 0
  {
    a as real * (50.0 / n as real)
  }

  predicate IsSorted(s: seq<nat>) {
    forall i, j :: 0 <= i < j < |s| ==> s[i] <= s[j]
  }

  function Insert(x: nat, s: seq<nat>): (r: seq<nat>)
    ensures |r| == |s| + 1
  {
    if |s| == 0 then [x]
    else if x <= s[0] then [x] + s
    else [s[0]] + Insert(x, s[1..])
  }

  /** Inserting x, no smaller than a bound of s, keeps every element above the bound. */
  lemma {:induction false} InsertBound(x: nat, s: seq<nat>, lb: nat)
    requires lb <= x && forall k :: 0 <= k < |s| ==> lb <= s[k]
    ensures forall k :: 0 <= k < |Insert(x, s)| ==> lb <= Insert(x, s)[k]
  {
    if |s| > 0 && x > s[0] {
      InsertBound(x, s[1..], lb);
    }
  }

  /** Inserting into a sorted sequence keeps it sorted. */
  lemma {:induction false} InsertSorted(x: nat, s: seq<nat>)
    requires IsSorted(s)
    ensures IsSorted(Insert(x, s))
  {
    if |s| > 0 && x > s[0] {
      var t := s[1..];
      InsertSorted(x, t);
      InsertBound(x, t, s[0]);
      var r := Insert(x, s);
      var r' := Insert(x, t);
      assert r == [s[0]] + r';
      forall i, j | 0 <= i < j < |r| ensures r[i] <= r[j] {
        if i > 0 {
          assert r[i] == r'[i - 1] && r[j] == r'[j - 1];
        } else {
          assert r[j] == r'[j - 1];
        }
      }
    }
  }

  /** Inserting adds exactly one copy of x. */
  lemma {:induction false} InsertMultiset(x: nat, s: seq<nat>)
    ensures multiset(Insert(x, s)) == multiset(s) + multiset{x}
  {
    if |s| > 0 && x > s[0] {
      assert s == [s[0]] + s[1..];
      InsertMultiset(x, s[1..]);
    }
  }

  /** The counts in ascending order (the order numpy sorts them in before taking a percentile). */
  function SortNats(s: seq<nat>): (r: seq<nat>)
    ensures |r| == |s|
  {
    if |s| == 0 then [] else Insert(s[0], SortNats(s[1..]))
  }

  /** SortNats returns a sorted permutation of its input. */
  lemma {:induction false} SortNatsSpec(s: seq<nat>)
    ensures IsSorted(SortNats(s))
    ensures multiset(SortNats(s)) == multiset(s)
  {
    if |s| > 0 {
      assert s == [s[0]] + s[1..];
      SortNatsSpec(s[1..]);
      InsertSorted(s[0], SortNats(s[1..]));
      InsertMultiset(s[0], SortNats(s[1..]));
    }
  }

  /** Sum of the two middle elements of the sorted counts (the same element twice when |c| is odd). */
  function MiddleSum(c: seq<nat>): nat
    requires |c| > 0
  {
    var s := SortNats(c);
    s[(|c| - 1) / 2] + s[|c| / 2]
  }

  /** numpy.percentile(c, 50) with linear interpolation: the middle element, or the mean of the two. */
  function Median(c: seq<nat>): real
    requires |c| > 0
  {
    MiddleSum(c) as real / 2.0
  }

  /** rows_that_start_in_colIdx1: percentile rank at least 90 and count above three medians. */
  predicate IsColumnOne(c: seq<nat>, i: nat)
    requires i < |c|
  {
    PercentileOfScore(c, c[i]) >= 90.0 && c[i] as real > 3.0 * Median(c)
  }

  /**
   * The classifier of parse_pnc_statement_pdf: counts whitespace per line, ranks each count and
   * returns the indices of the lines that start in column 1.
   */
  method FlagColumnOne(lines: seq<string>) returns (flagged: set<nat>)
    requires |lines| > 0
    ensures forall i: nat :: i in flagged <==> i < |lines| && IsColumnOne(WsCounts(lines), i)
  {
    var counts := CountWhitespace(lines);
    var percs := Percentiles(counts);
    var median := Median(counts);
    flagged := {};
    for i := 0 to |counts|
      invariant forall j: nat :: j in flagged <==> j < i && IsColumnOne(counts, j)
    {
      if percs[i] >= 90.0 && counts[i] as real > 3.0 * median {
        flagged := flagged + {i};
      }
    }
  }

  /** The whitespace count of every line. */
  method CountWhitespace(lines: seq<string>) returns (counts: seq<nat>)
    ensures counts == WsCounts(lines)
  {
    counts := [];
    for i := 0 to |lines|
      invariant |counts| == i
      invariant forall k :: 0 <= k < i ==> counts[k] == WsCount(lines[k])
    {
      counts := counts + [|lines[i]| - |Strip(lines[i])|];
    }
  }

  /** The percentile rank of every count within the counts. */
  method Percentiles(counts: seq<nat>) returns (percs: seq<real>)
    requires |counts| > 0
    ensures |percs| == |counts|
    ensures forall k :: 0 <= k < |counts| ==> percs[k] == PercentileOfScore(counts, counts[k])
  {
    percs := [];
    for i := 0 to |counts|
      invariant |percs| == i
      invariant forall k :: 0 <= k < i ==> percs[k] == PercentileOfScore(counts, counts[k])
    {
      percs := percs + [PercentileOfScore(counts, counts[i])];
    }
  }

  lemma {:induction false} CountBelowAtMost(c: seq<nat>, x: nat)
    ensures CountBelow(c, x) <= CountAtMost(c, x)
    ensures x in c ==> CountBelow(c, x) < CountAtMost(c, x)
  {
    if |c| > 0 {
      CountBelowAtMost(c[1..], x);
      assert x in c ==> c[0] == x || x in c[1..];
    }
  }

  /** The rank of a count that occurs in the document: (lt + le + 1) halves over the length. */
  lemma {:induction false} PercentileOfMember(c: seq<nat>, x: nat)
    requires x in c
    ensures PercentileOfScore(c, x) == Rank(CountBelow(c, x) + CountAtMost(c, x) + 1, |c|)
  {
    CountBelowAtMost(c, x);
  }

  lemma {:induction false} PercentileThreshold(c: seq<nat>, i: nat)
    requires i < |c|
    ensures PercentileOfScore(c, c[i]) >= 90.0 <==>
              5 * (CountBelow(c, c[i]) + CountAtMost(c, c[i]) + 1) >= 9 * |c|
  {
    assert c[i] in c;
    PercentileOfMember(c, c[i]);
    RateThreshold(CountBelow(c, c[i]) + CountAtMost(c, c[i]) + 1, |c|);
  }

  /** A rank of a halves over n reaches 90 exactly when 5 * a >= 9 * n. */
  lemma {:induction false} RateThreshold(a: nat, n: nat)
    requires n > 0
    ensures Rank(a, n) >= 90.0 <==> 5 * a >= 9 * n
  {
    var q := 50.0 / n as real;
    assert q * n as real == 50.0;
    assert a as real * q * n as real == 50.0 * a as real;
    if a as real * q >= 90.0 {
      assert a as real * q * n as real >= 90.0 * n as real;
    } else {
      assert a as real * q * n as real < 90.0 * n as real;
    }
  }

  lemma {:induction false} MulMonotone(a: int, b: int, f: int)
    requires f > 0
    ensures a < b <==> a * f < b * f
    ensures a <= b <==> a * f <= b * f
  {
    if a < b {
      assert (b - a) * f > 0;
      assert b * f - a * f == (b - a) * f;
    } else {
      assert (a - b) * f >= 0;
      assert a * f - b * f == (a - b) * f;
    }
  }

  /** When every line has the same whitespace count, no line is flagged. */
  lemma {:induction false} AllEqualNoneFlagged(c: seq<nat>, i: nat)
    requires i < |c|
    requires forall k :: 0 <= k < |c| ==> c[k] == c[0]
    ensures !IsColumnOne(c, i)
  {
    var s := SortNats(c);
    SortNatsSpec(c);
    forall k | 0 <= k < |s| ensures s[k] == c[0] {
      assert s[k] in multiset(s);
      assert s[k] in multiset(c);
    }
    assert Median(c) == c[0] as real;
  }

  function Scale(c: seq<nat>, f: nat): (r: seq<nat>)
    ensures |r| == |c|
  {
    seq(|c|, k requires 0 <= k < |c| => c[k] * f)
  }

  lemma {:induction false} ScaleCounts(c: seq<nat>, f: nat, x: nat)
    requires f > 0
    ensures CountBelow(Scale(c, f), x * f) == CountBelow(c, x)
    ensures CountAtMost(Scale(c, f), x * f) == CountAtMost(c, x)
  {
    if |c| > 0 {
      assert Scale(c, f)[1..] == Scale(c[1..], f);
      ScaleCounts(c[1..], f, x);
      MulMonotone(c[0], x, f);
    }
  }

  lemma {:induction false} ScaleCons(y: nat, t: seq<nat>, f: nat)
    ensures Scale([y] + t, f) == [y * f] + Scale(t, f)
  {
    var l, r := Scale([y] + t, f), [y * f] + Scale(t, f);
    assert |l| == |r|;
    forall k | 0 <= k < |l| ensures l[k] == r[k] {
      if k > 0 {
        assert ([y] + t)[k] == t[k - 1];
      }
    }
  }

  /** Scaling commutes with inserting: the comparisons do not change under a positive factor. */
  lemma {:induction false} ScaleInsert(x: nat, s: seq<nat>, f: nat)
    requires f > 0
    ensures Insert(x * f, Scale(s, f)) == Scale(Insert(x, s), f)
  {
    if |s| > 0 {
      MulMonotone(x, s[0], f);
      assert s == [s[0]] + s[1..];
      ScaleCons(s[0], s[1..], f);
      if x > s[0] {
        ScaleInsert(x, s[1..], f);
        ScaleCons(s[0], Insert(x, s[1..]), f);
      } else {
        ScaleCons(x, s, f);
      }
    } else {
      ScaleCons(x, s, f);
    }
  }

  /** Scaling commutes with sorting. */
  lemma {:induction false} ScaleSort(c: seq<nat>, f: nat)
    requires f > 0
    ensures SortNats(Scale(c, f)) == Scale(SortNats(c), f)
  {
    if |c| > 0 {
      assert c == [c[0]] + c[1..];
      ScaleCons(c[0], c[1..], f);
      ScaleSort(c[1..], f);
      ScaleInsert(c[0], SortNats(c[1..]), f);
    }
  }

  /** The median test of the classifier in integers: x > 3 * median iff 2 * x > 3 * (sum of middles). */
  lemma {:induction false} MedianTestInt(x: nat, c: seq<nat>)
    requires |c| > 0
    ensures x as real > 3.0 * Median(c) <==> 2 * x > 3 * MiddleSum(c)
  {
  }

  lemma {:induction false} MiddleSumScale(c: seq<nat>, f: nat)
    requires f > 0 && |c| > 0
    ensures MiddleSum(Scale(c, f)) == MiddleSum(c) * f
  {
    var lo, hi := (|c| - 1) / 2, |c| / 2;
    var s := SortNats(c);
    ScaleSort(c, f);
    assert SortNats(Scale(c, f)) == Scale(s, f);
    assert s[lo] * f + s[hi] * f == (s[lo] + s[hi]) * f;
  }

  lemma {:induction false} ScalePercentile(c: seq<nat>, f: nat, i: nat)
    requires f > 0 && i < |c|
    ensures PercentileOfScore(Scale(c, f), Scale(c, f)[i]) == PercentileOfScore(c, c[i])
  {
    assert Scale(c, f)[i] == c[i] * f;
    ScaleCounts(c, f, c[i]);
  }

  /** Scaling both sides of the median test by the same positive factor does not change it. */
  lemma {:induction false} ScaledTest(x: int, m: int, f: int)
    requires f > 0
    ensures 2 * (x * f) > 3 * (m * f) <==> 2 * x > 3 * m
  {
    assert 2 * (x * f) == (2 * x) * f;
    assert 3 * (m * f) == (3 * m) * f;
    MulMonotone(3 * m, 2 * x, f);
  }

  lemma {:induction false} ScaleMedianTest(c: seq<nat>, f: nat, i: nat)
    requires f > 0 && i < |c|
    ensures 2 * Scale(c, f)[i] > 3 * MiddleSum(Scale(c, f)) <==> 2 * c[i] > 3 * MiddleSum(c)
  {
    MiddleSumScale(c, f);
    ScaledTest(c[i], MiddleSum(c), f);
  }

  /** The classifier is scale-invariant: multiplying every count by the same factor flags the same lines. */
  lemma {:induction false} ScaleInvariantFlags(c: seq<nat>, f: nat, i: nat)
    requires f > 0 && i < |c|
    ensures IsColumnOne(Scale(c, f), i) <==> IsColumnOne(c, i)
  {
    var sc := Scale(c, f);
    ScalePercentile(c, f, i);
    ScaleMedianTest(c, f, i);
    MedianTestInt(sc[i], sc);
    MedianTestInt(c[i], c);
  }
}
