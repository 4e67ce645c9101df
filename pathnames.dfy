/** The account name derived from the output path (get_fname_from_fpath). */
module PathNames {
  import opened Wrappers
  import opened TextOps

  /** The last '/'-separated segment of a path, cut at its first '.'. */
  function GetFnameFromFpath(saveToFpath: string): (name: string)
    ensures '/' !in name && '.' !in name
  {
    var segments := SplitOn(saveToFpath, "/");
    var last := segments[|segments| - 1];
    SplitOnPiecesFree(saveToFpath, "/");
    CharFree(last, '/');
    SplitOnPiecesFree(last, ".");
    SplitOnFirstIsPrefix(last, ".");
    var name := SplitOn(last, ".")[0];
    CharFree(name, '.');
    assert name == last[..|name|];
    name
  }

  /** A string that does not contain the one-character string [c] does not contain c. */
  lemma {:induction false} CharFree(s: string, c: char)
    requires !Contains(s, [c])
    ensures c !in s
  {
    if c in s {
      var k :| 0 <= k < |s| && s[k] == c;
      assert OccursAt(s, [c], k);
    }
  }

  /** A string without the character c is a single piece when split on c. */
  lemma {:induction false} SplitOnAbsent(s: string, c: char)
    requires c !in s
    ensures SplitOn(s, [c]) == [s]
  {
    assert forall j: nat :: OccursAt(s, [c], j) ==> s[j] == c;
    assert IndexOf(s, [c]).None?;
  }

  /** Splitting on a single character: whatever precedes a separator does not affect the last piece. */
  lemma {:induction false} SplitOnCharLast(x: string, c: char, y: string)
    ensures var parts := SplitOn(x + [c] + y, [c]);
            var tail := SplitOn(y, [c]);
            parts[|parts| - 1] == tail[|tail| - 1]
    decreases |x|
  {
    var s := x + [c] + y;
    match IndexOf(x, [c])
    case None =>
      forall j: nat | j < |x| ensures !OccursAt(x + [c], [c], j) {
        assert !OccursAt(x, [c], j);
        assert (x + [c])[j..j + 1] == x[j..j + 1];
      }
      SplitOnAppend(x, [c], y);
    case Some(i) =>
      assert x[i] == c by { assert x[i..i + 1] == [c]; }
      forall j: nat | j < i ensures !OccursAt(s, [c], j) {
        assert !OccursAt(x, [c], j);
        assert s[j..j + 1] == x[j..j + 1];
      }
      assert OccursAt(s, [c], i) by { assert s[i..i + 1] == [c]; }
      assert IndexOf(s, [c]) == Some(i);
      var x' := x[i + 1..];
      assert s[i + 1..] == x' + [c] + y;
      SplitOnCharLast(x', c, y);
  }

  /** The last '/'-separated segment of dir + "/" + y is y when y holds no '/'. */
  lemma {:induction false} LastSegment(dir: string, y: string)
    requires '/' !in y
    ensures var parts := SplitOn(dir + "/" + y, "/");
            parts[|parts| - 1] == y
  {
    assert dir + "/" + y == dir + ['/'] + y;
    SplitOnCharLast(dir, '/', y);
    SplitOnAbsent(y, '/');
  }

  /** The first '.'-separated piece of name + "." + ext is name when name holds no '.'. */
  lemma {:induction false} FirstPiece(name: string, ext: string)
    requires '.' !in name
    ensures SplitOn(name + "." + ext, ".")[0] == name
  {
    assert name + "." + ext == name + ['.'] + ext;
    forall j: nat | j < |name| ensures !OccursAt(name + ['.'], ['.'], j) {
      assert (name + ['.'])[j..j + 1] == [name[j]];
    }
    SplitOnAppend(name, ['.'], ext);
  }

  /** Round trip: the account name of "<dir>/<name>.<ext>" is <name>. */
  lemma {:induction false} FnameOfPath(dir: string, name: string, ext: string)
    requires '/' !in name && '.' !in name && '/' !in ext
    ensures GetFnameFromFpath(dir + "/" + name + "." + ext) == name
  {
    var y := name + "." + ext;
    assert '/' !in y by {
      assert forall k :: 0 <= k < |y| ==> y[k] == (if k < |name| then name[k] else if k == |name| then '.' else ext[k - |name| - 1]);
    }
    assert dir + "/" + name + "." + ext == dir + "/" + y;
    LastSegment(dir, y);
    FirstPiece(name, ext);
  }
}
