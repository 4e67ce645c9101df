/** rm_custom_chars: the per-line cleaner that makes amounts easy to match. */
module CustomChars {
  import opened TextOps

  /** Python's txt.replace(',', ''). */
  function RemoveCommas(s: string): (r: string)
    ensures ',' !in r
    ensures |r| <= |s|
  {
    if |s| == 0 then ""
    else (if s[0] == ',' then "" else [s[0]]) + RemoveCommas(s[1..])
  }

  /** Python's txt.replace('$', ' '). */
  function DollarToSpace(s: string): (r: string)
    ensures |r| == |s|
    ensures '$' !in r
    ensures forall k :: 0 <= k < |s| ==> r[k] == if s[k] == '$' then ' ' else s[k]
  {
    if |s| == 0 then ""
    else [if s[0] == '$' then ' ' else s[0]] + DollarToSpace(s[1..])
  }

  /** Commas removed, dollars turned into spaces; the step that follows the optional marker. */
  function Unmoney(s: string): string
  {
    DollarToSpace(RemoveCommas(s))
  }

  const ThreeSpaces: string := "   "

  /** Whether the marker branch of rm_custom_chars fires: the text starts with three spaces and is flagged. */
  predicate MarksColumnOne(txt: string, startsInColumnOne: bool) {
    startsInColumnOne && StartsWith(txt, ThreeSpaces)
  }

  /**
   * rm_custom_chars(txt, row_starts_in_colIdx1): a flagged line that starts with three spaces
   * gets its first space (position 0) replaced by '_'; then commas are dropped, '$' becomes a
   * space and the result is stripped.
   */
  function RmCustomChars(txt: string, startsInColumnOne: bool): (r: string)
    ensures ',' !in r && '$' !in r
    ensures IsStripped(r)
  {
    var marked := if MarksColumnOne(txt, startsInColumnOne) then "_" + txt[1..] else txt;
    var u := Unmoney(marked);
    StripSpec(u);
    StripChars(u);
    assert ',' !in u by {
      var c := RemoveCommas(marked);
      assert ',' !in c;
      assert forall k :: 0 <= k < |u| ==> u[k] != ',' by {
        forall k | 0 <= k < |u| ensures u[k] != ',' {
          assert c[k] in c;
        }
      }
    }
    Strip(u)
  }

  lemma {:induction false} RemoveCommasAppend(a: string, b: string)
    ensures RemoveCommas(a + b) == RemoveCommas(a) + RemoveCommas(b)
  {
    if |a| > 0 {
      assert (a + b)[0] == a[0];
      assert (a + b)[1..] == a[1..] + b;
      RemoveCommasAppend(a[1..], b);
      assert RemoveCommas(a + b) == (if a[0] == ',' then "" else [a[0]]) + RemoveCommas(a[1..] + b);
    } else {
      assert a + b == b;
    }
  }

  lemma {:induction false} DollarToSpaceAppend(a: string, b: string)
    ensures DollarToSpace(a + b) == DollarToSpace(a) + DollarToSpace(b)
  {
    if |a| > 0 {
      assert (a + b)[0] == a[0];
      assert (a + b)[1..] == a[1..] + b;
      DollarToSpaceAppend(a[1..], b);
      assert DollarToSpace(a + b) == [if a[0] == '$' then ' ' else a[0]] + DollarToSpace(a[1..] + b);
    } else {
      assert a + b == b;
    }
  }

  /**
   * rm_custom_chars differs from plain comma/dollar removal plus strip only when the marker fires;
   * then the result is '_' followed by the cleaned rest with only its trailing whitespace removed,
   * because the leading '_' is not whitespace and survives the strip.
   */
  lemma {:induction false} RmCustomCharsCases(txt: string, startsInColumnOne: bool)
    ensures !MarksColumnOne(txt, startsInColumnOne) ==>
              RmCustomChars(txt, startsInColumnOne) == Strip(Unmoney(txt))
    ensures MarksColumnOne(txt, startsInColumnOne) ==>
              var u := Unmoney(txt[1..]);
              RmCustomChars(txt, startsInColumnOne) == "_" + u[..|u| - Trail(u)]
  {
    if MarksColumnOne(txt, startsInColumnOne) {
      var u := Unmoney(txt[1..]);
      RemoveCommasAppend("_", txt[1..]);
      DollarToSpaceAppend("_", RemoveCommas(txt[1..]));
      var m := Unmoney("_" + txt[1..]);
      assert m == "_" + u;
      assert Lead(m) == 0;
      TrailPrefix("_", u);
    }
  }

  /** Trailing whitespace of a string whose first part ends in a non-space character. */
  lemma {:induction false} TrailPrefix(a: string, u: string)
    requires |a| > 0 && !IsSpace(a[|a| - 1])
    ensures Trail(a + u) == Trail(u) && Trail(u) <= |u|
    ensures (a + u)[..|a + u| - Trail(a + u)] == a + u[..|u| - Trail(u)]
    decreases |u|
  {
    var s := a + u;
    if |u| == 0 {
      assert s == a;
    } else if !IsSpace(u[|u| - 1]) {
      assert s[|s| - 1] == u[|u| - 1];
    } else {
      assert s[..|s| - 1] == a + u[..|u| - 1];
      TrailPrefix(a, u[..|u| - 1]);
      assert u[..|u| - 1][..|u| - 1 - Trail(u[..|u| - 1])] == u[..|u| - Trail(u)];
    }
  }

  /** The quirk of a marked line: its cleaned form starts with '_'. */
  lemma {:induction false} MarkedLineStartsWithUnderscore(txt: string, startsInColumnOne: bool)
    requires MarksColumnOne(txt, startsInColumnOne)
    ensures |RmCustomChars(txt, startsInColumnOne)| > 0 && RmCustomChars(txt, startsInColumnOne)[0] == '_'
  {
    RmCustomCharsCases(txt, startsInColumnOne);
  }
}
