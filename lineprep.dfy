/**
 * The line loop of parse_pnc_statement_pdf that builds new_lines: drop empty lines and page
 * headers/footers, glue a deeply indented continuation onto the line above, and clean each line.
 */
module LinePrep {
  import opened TextOps
  import opened CustomChars
  import opened Layout

  /** The 19 leading spaces that mark a continuation of the line above. */
  const ContinuationIndent: string := "                   "

  /** str.lower() restricted to what can matter for the substring "page": 'A'..'Z' become 'a'..'z'. */
  function LowerAscii(s: string): (r: string)
    ensures |r| == |s|
    ensures forall k :: 0 <= k < |s| ==> r[k] == if 'A' <= s[k] <= 'Z' then (s[k] - 'A' + 'a') as char else s[k]
  {
    if |s| == 0 then "" else [if 'A' <= s[0] <= 'Z' then (s[0] - 'A' + 'a') as char else s[0]] + LowerAscii(s[1..])
  }

  /** 'page' in l.lower() */
  predicate MentionsPage(l: string) {
    Contains(LowerAscii(l), "page")
  }

  /** The guard of the loop: not starting with a break character, non-empty, no "page" in any case. */
  predicate Keep(l: string) {
    !(|l| > 0 && IsLineBreak(l[0])) && |l| > 0 && !MentionsPage(l)
  }

  /** The line, joined with '\n' to the stripped next line when that one starts with 19 spaces. */
  function JoinNext(lines: seq<string>, i: nat): string
    requires i < |lines|
  {
    if i + 1 < |lines| && StartsWith(lines[i + 1], ContinuationIndent)
    then lines[i] + "\n" + Strip(lines[i + 1])
    else lines[i]
  }

  /** What the loop appends for line i. */
  function PreparedLine(lines: seq<string>, flagged: set<nat>, i: nat): string
    requires i < |lines|
  {
    RmCustomChars(JoinNext(lines, i), i in flagged)
  }

  /** Indices below n of the lines the loop keeps, in order. */
  function KeptIndices(lines: seq<string>, n: nat): (kept: seq<nat>)
    requires n <= |lines|
    ensures forall k :: 0 <= k < |kept| ==> kept[k] < n
  {
    if n == 0 then []
    else KeptIndices(lines, n - 1) + (if Keep(lines[n - 1]) then [n - 1] else [])
  }

  /** new_lines after the first n lines: one prepared line per kept line, in order. */
  function PreparedUpTo(lines: seq<string>, flagged: set<nat>, n: nat): seq<string>
    requires n <= |lines|
  {
    if n == 0 then []
    else PreparedUpTo(lines, flagged, n - 1) + (if Keep(lines[n - 1]) then [PreparedLine(lines, flagged, n - 1)] else [])
  }

  /** new_lines as a whole. */
  function PreparedLines(lines: seq<string>, flagged: set<nat>): seq<string>
  {
    PreparedUpTo(lines, flagged, |lines|)
  }

  /**
   * The kept indices are in increasing order and are exactly the lines that are non-empty,
   * do not start with a break character and do not mention "page".
   */
  lemma {:induction false} KeptIndicesSpec(lines: seq<string>, n: nat)
    requires n <= |lines|
    ensures forall a, b :: 0 <= a < b < |KeptIndices(lines, n)| ==> KeptIndices(lines, n)[a] < KeptIndices(lines, n)[b]
    ensures forall i: nat :: i in KeptIndices(lines, n) <==> i < n && Keep(lines[i])
  {
    if n > 0 {
      KeptIndicesSpec(lines, n - 1);
    }
  }

  /** One prepared line per kept line. */
  lemma {:induction false} PreparedUpToLength(lines: seq<string>, flagged: set<nat>, n: nat)
    requires n <= |lines|
    ensures |PreparedUpTo(lines, flagged, n)| == |KeptIndices(lines, n)|
  {
    if n > 0 {
      PreparedUpToLength(lines, flagged, n - 1);
    }
  }

  /** The k-th prepared line is the k-th kept line, joined with its continuation and cleaned. */
  lemma {:induction false} PreparedUpToKept(lines: seq<string>, flagged: set<nat>, n: nat, k: nat)
    requires n <= |lines| && k < |KeptIndices(lines, n)|
    ensures |PreparedUpTo(lines, flagged, n)| == |KeptIndices(lines, n)|
    ensures PreparedUpTo(lines, flagged, n)[k] == PreparedLine(lines, flagged, KeptIndices(lines, n)[k])
  {
    PreparedUpToLength(lines, flagged, n);
    var kept := KeptIndices(lines, n - 1);
    PreparedUpToLength(lines, flagged, n - 1);
    if k < |kept| {
      PreparedUpToKept(lines, flagged, n - 1, k);
      assert KeptIndices(lines, n)[k] == kept[k];
      assert PreparedUpTo(lines, flagged, n)[k] == PreparedUpTo(lines, flagged, n - 1)[k];
    }
  }

  /**
   * The loop of parse_pnc_statement_pdf that fills new_lines: each kept line, joined with its
   * continuation, is cleaned with rm_custom_chars under its column-1 flag.
   */
  method PrepareLines(lines: seq<string>, flagged: set<nat>) returns (newLines: seq<string>)
    ensures newLines == PreparedLines(lines, flagged)
  {
    newLines := [];
    for i := 0 to |lines|
      invariant newLines == PreparedUpTo(lines, flagged, i)
    {
      var l := lines[i];
      if !(|l| > 0 && IsLineBreak(l[0])) && |l| > 0 && !MentionsPage(l) {
        var startsInColumnOne := i in flagged;
        if i + 1 < |lines| && StartsWith(lines[i + 1], ContinuationIndent) {
          l := l + "\n" + Strip(lines[i + 1]);
        }
        assert l == JoinNext(lines, i);
        newLines := newLines + [RmCustomChars(l, startsInColumnOne)];
      }
    }
  }

  /** Every prepared line is stripped and free of ',' and '$'. */
  lemma {:induction false} PreparedLinesClean(lines: seq<string>, flagged: set<nat>)
    ensures forall k :: 0 <= k < |PreparedLines(lines, flagged)| ==>
              var l := PreparedLines(lines, flagged)[k];
              IsStripped(l) && ',' !in l && '$' !in l
  {
    forall k | 0 <= k < |PreparedLines(lines, flagged)|
      ensures var l := PreparedLines(lines, flagged)[k]; IsStripped(l) && ',' !in l && '$' !in l
    {
      PreparedUpToLength(lines, flagged, |lines|);
      PreparedUpToKept(lines, flagged, |lines|, k);
    }
  }

  /**
   * A continuation line is not consumed by the join: when line i+1 is glued onto a kept line i,
   * line i+1 is still processed as its own line whenever it passes the guard.
   */
  lemma {:induction false} ContinuationKeptTwice(lines: seq<string>, i: nat)
    requires i + 1 < |lines| && Keep(lines[i]) && Keep(lines[i + 1])
    requires StartsWith(lines[i + 1], ContinuationIndent)
    ensures JoinNext(lines, i) == lines[i] + "\n" + Strip(lines[i + 1])
    ensures i in KeptIndices(lines, |lines|) && i + 1 in KeptIndices(lines, |lines|)
  {
    KeptIndicesSpec(lines, |lines|);
  }
}
