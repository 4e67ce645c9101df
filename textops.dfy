/** Python string primitives used by the parser: whitespace, strip, search, split and join. */
module TextOps {
  import opened Wrappers

  /** Python's str.isspace for a single character. */
  predicate IsSpace(c: char) {
    || ('\U{9}' <= c <= '\U{D}')
    || ('\U{1C}' <= c <= '\U{1F}')
    || c == ' ' || c == '\U{85}' || c == '\U{A0}' || c == '\U{1680}'
    || ('\U{2000}' <= c <= '\U{200A}')
    || c == '\U{2028}' || c == '\U{2029}' || c == '\U{202F}' || c == '\U{205F}' || c == '\U{3000}'
  }

  predicate IsDigit(c: char) {
    '0' <= c <= '9'
  }

  predicate AllDigits(s: string) {
    forall k :: 0 <= k < |s| ==> IsDigit(s[k])
  }

  /** The decimal value of a run of ASCII digits, most significant first. */
  function DigitsValue(s: string): (v: nat)
    requires AllDigits(s)
    ensures |s| == 0 ==> v == 0
  {
    if |s| == 0 then 0
    else DigitsValue(s[..|s| - 1]) * 10 + ((s[|s| - 1] as int) - ('0' as int))
  }

  function Pow10(e: nat): (p: nat)
    ensures p >= 1
  {
    if e == 0 then 1 else 10 * Pow10(e - 1)
  }

  /** Number of leading whitespace characters. */
  function Lead(s: string): (n: nat)
    ensures n <= |s|
    ensures forall k :: 0 <= k < n ==> IsSpace(s[k])
    ensures n == |s| || !IsSpace(s[n])
  {
    if |s| == 0 || !IsSpace(s[0]) then 0 else 1 + Lead(s[1..])
  }

  /** Number of trailing whitespace characters. */
  function Trail(s: string): (n: nat)
    ensures n <= |s|
    ensures forall k :: |s| - n <= k < |s| ==> IsSpace(s[k])
    ensures n == |s| || !IsSpace(s[|s| - 1 - n])
  {
    if |s| == 0 || !IsSpace(s[|s| - 1]) then 0 else 1 + Trail(s[..|s| - 1])
  }

  /** Python's str.strip() with no argument. */
  function Strip(s: string): (r: string)
    ensures |r| <= |s|
  {
    var t := s[Lead(s)..];
    t[..|t| - Trail(t)]
  }

  /** No whitespace at either end. */
  predicate IsStripped(s: string) {
    |s| == 0 || (!IsSpace(s[0]) && !IsSpace(s[|s| - 1]))
  }

  /** Strip removes exactly a whitespace prefix and a whitespace suffix and leaves none. */
  lemma {:induction false} StripSpec(s: string)
    ensures IsStripped(Strip(s))
    ensures exists i, j :: 0 <= i <= j <= |s| && Strip(s) == s[i..j]
              && (forall k :: 0 <= k < i ==> IsSpace(s[k]))
              && (forall k :: j <= k < |s| ==> IsSpace(s[k]))
  {
    var t := s[Lead(s)..];
    var r := t[..|t| - Trail(t)];
    assert r == s[Lead(s)..Lead(s) + |t| - Trail(t)];
    if |r| > 0 {
      assert r[0] == t[0];
    }
  }

  /** Every character of a stripped string comes from the original. */
  lemma {:induction false} StripChars(s: string)
    ensures forall c :: c in Strip(s) ==> c in s
  {
    var t := s[Lead(s)..];
    assert forall c :: c in t ==> c in s;
    assert forall c :: c in t[..|t| - Trail(t)] ==> c in t;
  }

  /** Stripping an already stripped string changes nothing. */
  lemma {:induction false} StripOfStripped(s: string)
    requires IsStripped(s)
    ensures Strip(s) == s
  {
    assert Lead(s) == 0;
    assert Trail(s) == 0;
  }

  lemma {:induction false} StripIdempotent(s: string)
    ensures Strip(Strip(s)) == Strip(s)
  {
    StripSpec(s);
    StripOfStripped(Strip(s));
  }

  predicate StartsWith(s: string, prefix: string) {
    |prefix| <= |s| && s[..|prefix|] == prefix
  }

  /** `sub` occurs in `s` at index `i`. */
  predicate OccursAt(s: string, sub: string, i: nat) {
    i + |sub| <= |s| && s[i..i + |sub|] == sub
  }

  /** Index of the leftmost occurrence of `sub` in `s` at or after `from`. */
  function IndexFrom(s: string, sub: string, from: nat): (r: Option<nat>)
    ensures r.Some? ==> from <= r.value && OccursAt(s, sub, r.value)
    ensures r.Some? ==> forall j: nat :: from <= j < r.value ==> !OccursAt(s, sub, j)
    ensures r.None? ==> forall j: nat :: from <= j ==> !OccursAt(s, sub, j)
    decreases |s| - from
  {
    if from + |sub| > |s| then None
    else if OccursAt(s, sub, from) then Some(from)
    else IndexFrom(s, sub, from + 1)
  }

  /** Index of the leftmost occurrence of `sub` in `s` (Python's str.find). */
  function IndexOf(s: string, sub: string): Option<nat>
  {
    IndexFrom(s, sub, 0)
  }

  /** Python's `sub in s`. */
  predicate Contains(s: string, sub: string) {
    IndexOf(s, sub).Some?
  }

  /** Python's s.split(sep) for a non-empty separator: leftmost, non-overlapping pieces. */
  function SplitOn(s: string, sep: string): (parts: seq<string>)
    requires |sep| > 0
    ensures |parts| >= 1
    decreases |s|
  {
    match IndexOf(s, sep)
    case None => [s]
    case Some(i) => [s[..i]] + SplitOn(s[i + |sep|..], sep)
  }

  /** Python's sep.join(parts). */
  function Join(parts: seq<string>, sep: string): string
  {
    if |parts| == 0 then ""
    else if |parts| == 1 then parts[0]
    else parts[0] + sep + Join(parts[1..], sep)
  }

  /** Joining the pieces of a split with the same separator gives back the original string. */
  lemma {:induction false} JoinSplitOn(s: string, sep: string)
    requires |sep| > 0
    ensures Join(SplitOn(s, sep), sep) == s
    decreases |s|
  {
    match IndexOf(s, sep)
    case None =>
    case Some(i) =>
      var head, rest := s[..i], s[i + |sep|..];
      var tail := SplitOn(rest, sep);
      JoinSplitOn(rest, sep);
      var parts := SplitOn(s, sep);
      assert parts == [head] + tail;
      assert |parts| >= 2 && parts[0] == head && parts[1..] == tail;
      assert Join(parts, sep) == head + sep + Join(tail, sep);
      assert s[i..i + |sep|] == sep;
      assert s == s[..i] + s[i..i + |sep|] + s[i + |sep|..];
  }

  /** No piece of a split contains the separator. */
  lemma {:induction false} SplitOnPiecesFree(s: string, sep: string)
    requires |sep| > 0
    ensures forall k :: 0 <= k < |SplitOn(s, sep)| ==> !Contains(SplitOn(s, sep)[k], sep)
    decreases |s|
  {
    match IndexOf(s, sep)
    case None =>
    case Some(i) =>
      var rest := s[i + |sep|..];
      SplitOnPiecesFree(rest, sep);
      var head := s[..i];
      if Contains(head, sep) {
        var j := IndexOf(head, sep).value;
        assert |head| == i && j + |sep| <= i;
        assert head[j..j + |sep|] == sep;
        assert s[j..j + |sep|] == head[j..j + |sep|];
        assert OccursAt(s, sep, j);
        assert false;
      }
      var parts := SplitOn(s, sep);
      assert parts[0] == head;
      assert forall k :: 1 <= k < |parts| ==> parts[k] == SplitOn(rest, sep)[k - 1];
  }

  /** The first piece of a split is a prefix of the string. */
  lemma {:induction false} SplitOnFirstIsPrefix(s: string, sep: string)
    requires |sep| > 0
    ensures StartsWith(s, SplitOn(s, sep)[0])
  {
  }

  /** Splitting a string that ends just before a separator, with more text after it. */
  lemma {:induction false} SplitOnAppend(a: string, sep: string, b: string)
    requires |sep| > 0
    requires forall j: nat :: j < |a| ==> !OccursAt(a + sep, sep, j)
    ensures SplitOn(a + sep + b, sep) == [a] + SplitOn(b, sep)
  {
    var s := a + sep + b;
    assert s[..|a| + |sep|] == a + sep;
    assert OccursAt(s, sep, |a|) by { assert s[|a|..|a| + |sep|] == sep; }
    forall j: nat | j < |a| ensures !OccursAt(s, sep, j) {
      assert !OccursAt(a + sep, sep, j);
      assert s[j..j + |sep|] == (a + sep)[j..j + |sep|];
    }
    assert IndexOf(s, sep) == Some(|a|);
    assert s[..|a|] == a;
    assert s[|a| + |sep|..] == b;
  }

  /** No occurrence of sep in a + sep starts inside a and ends inside the appended sep. */
  predicate NoStraddle(a: string, sep: string) {
    forall j: nat :: j < |a| < j + |sep| ==> !OccursAt(a + sep, sep, j)
  }

  /**
   * Splitting text made of two parts around a separator gives the pieces of each part, provided
   * no occurrence of the separator straddles the end of the first part.
   */
  lemma {:induction false} SplitOnConcat(a: string, sep: string, b: string)
    requires |sep| > 0
    requires NoStraddle(a, sep)
    ensures SplitOn(a + sep + b, sep) == SplitOn(a, sep) + SplitOn(b, sep)
    decreases |a|
  {
    match IndexOf(a, sep)
    case None =>
      SplitOnConcatLast(a, sep, b);
    case Some(i) =>
      var rest := a[i + |sep|..];
      SplitOnConcatStep(a, sep, b);
      ConcatTail(a, sep, i + |sep|);
      SplitOnConcat(rest, sep, b);
      ConcatAssoc([a[..i]], SplitOn(rest, sep), SplitOn(b, sep));
  }

  lemma ConcatAssoc<T>(x: seq<T>, p: seq<T>, q: seq<T>)
    ensures x + (p + q) == (x + p) + q
  {
  }

  /** SplitOnConcat when a holds no separator. */
  lemma {:induction false} SplitOnConcatLast(a: string, sep: string, b: string)
    requires |sep| > 0
    requires NoStraddle(a, sep)
    requires IndexOf(a, sep).None?
    ensures SplitOn(a + sep + b, sep) == [a] + SplitOn(b, sep)
  {
    forall j: nat | j < |a| ensures !OccursAt(a + sep, sep, j) {
      if j + |sep| <= |a| {
        assert !OccursAt(a, sep, j);
        assert (a + sep)[j..j + |sep|] == a[j..j + |sep|];
      }
    }
    SplitOnAppend(a, sep, b);
  }

  /** The first piece of a is the first piece of a + sep + b, and the rest follows it. */
  lemma {:induction false} SplitOnConcatStep(a: string, sep: string, b: string)
    requires |sep| > 0
    requires IndexOf(a, sep).Some?
    ensures var i := IndexOf(a, sep).value;
            SplitOn(a + sep + b, sep) == [a[..i]] + SplitOn(a[i + |sep|..] + sep + b, sep)
    ensures var i := IndexOf(a, sep).value;
            SplitOn(a, sep) == [a[..i]] + SplitOn(a[i + |sep|..], sep)
  {
    var i := IndexOf(a, sep).value;
    var c := sep + b;
    IndexOfExtend(a, c, sep);
    SplitOnAt(a + c, sep, i);
    SplitOnAt(a, sep, i);
    SliceOfConcat(a, c, i + |sep|);
    SliceOfConcat(a, c, i);
    ConcatAssoc(a, sep, b);
    ConcatAssoc(a[i + |sep|..], sep, b);
  }

  /** One step of a split at its first separator. */
  lemma {:induction false} SplitOnAt(s: string, sep: string, i: nat)
    requires |sep| > 0 && IndexOf(s, sep) == Some(i)
    ensures i + |sep| <= |s|
    ensures SplitOn(s, sep) == [s[..i]] + SplitOn(s[i + |sep|..], sep)
  {
  }

  /** Slicing a concatenation at a point inside its first part. */
  lemma {:induction false} SliceOfConcat(a: string, c: string, d: nat)
    requires d <= |a|
    ensures (a + c)[d..] == a[d..] + c && (a + c)[..d] == a[..d]
  {
  }

  /** The first occurrence of sub in a is also the first one in any extension of a. */
  lemma {:induction false} IndexOfExtend(a: string, c: string, sub: string)
    requires IndexOf(a, sub).Some?
    ensures IndexOf(a + c, sub) == IndexOf(a, sub)
  {
    var i := IndexOf(a, sub).value;
    var s := a + c;
    assert OccursAt(a, sub, i);
    assert s[i..i + |sub|] == a[i..i + |sub|];
    assert OccursAt(s, sub, i);
    forall j: nat | j < i ensures !OccursAt(s, sub, j) {
      assert !OccursAt(a, sub, j);
      assert s[j..j + |sub|] == a[j..j + |sub|];
    }
  }

  /** No separator straddling the end of a means none straddles the end of any tail of a. */
  lemma {:induction false} ConcatTail(a: string, sep: string, d: nat)
    requires d <= |a|
    requires NoStraddle(a, sep)
    ensures NoStraddle(a[d..], sep)
  {
    var rest := a[d..];
    forall j: nat | j < |rest| < j + |sep| ensures !OccursAt(rest + sep, sep, j) {
      var k: nat := j + d;
      assert k < |a| < k + |sep|;
      assert !OccursAt(a + sep, sep, k);
      assert (rest + sep)[j..j + |sep|] == (a + sep)[k..k + |sep|];
    }
  }
}
