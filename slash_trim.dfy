/**
 PHP's `trim($s, '/')` as the frontend-URL plugin uses it: every '/' at the
 start and at the end of the string is removed, and nothing else is touched.

 PHP trims bytes; the only byte in the character list is '/', which is ASCII
 and never part of a multi-byte UTF-8 sequence, so trimming characters is the
 same operation.
 */
module SlashTrim {

  /** The one character in the trim list. */
  const Slash: char := '/'

  /** Every character of `s` is a '/' (true of the empty string). */
  predicate AllSlashes(s: string) {
    forall k :: 0 <= k < |s| ==> s[k] == Slash
  }

  /** `s` neither starts nor ends with a '/'. */
  predicate NoEdgeSlash(s: string) {
    s == [] || (s[0] != Slash && s[|s| - 1] != Slash)
  }

  /** Reference definition of trimming, independent of how it is computed:
      `r` is a piece `s[i..j]` of `s` such that everything cut off before
      and after it is a '/', and `r` itself has no '/' at either end. */
  ghost predicate IsTrimOf(s: string, r: string) {
    NoEdgeSlash(r) && exists i, j :: CutAt(s, r, i, j)
  }

  /** `r` is `s[i..j]`, and only '/' characters lie outside it. */
  ghost predicate CutAt(s: string, r: string, i: int, j: int) {
    0 <= i <= j <= |s| && r == s[i..j] && AllSlashes(s[..i]) && AllSlashes(s[j..])
  }

  /** The left half of the trim: drops the leading run of '/'. */
  function TrimLeft(s: string): (r: string)
    ensures |r| <= |s| && r == s[|s| - |r|..]
    ensures AllSlashes(s[..|s| - |r|])
    ensures r == [] || r[0] != Slash
  {
    if s != [] && s[0] == Slash then
      TrimLeft(s[1..])
    else
      s
  }

  /** The right half of the trim: drops the trailing run of '/'. */
  function TrimRight(s: string): (r: string)
    ensures |r| <= |s| && r == s[..|r|]
    ensures AllSlashes(s[|r|..])
    ensures r == [] || r[|r| - 1] != Slash
  {
    if s != [] && s[|s| - 1] == Slash then
      TrimRight(s[..|s| - 1])
    else
      s
  }

  /** `trim($s, '/')`: the leading run is dropped first, then the trailing one
      of what is left (so a string of '/' only becomes empty). */
  function Trim(s: string): (r: string)
    ensures NoEdgeSlash(r)
  {
    TrimRight(TrimLeft(s))
  }

  /** `Trim` meets the reference definition: what it cuts off is '/' only. */
  lemma TrimMeetsDefinition(s: string)
    ensures IsTrimOf(s, Trim(s))
  {
    var left := TrimLeft(s);
    var i := |s| - |left|;
    assert left == s[i..];
    var r := TrimRight(left);
    assert r == left[..|r|];
    var j := i + |r|;
    assert r == s[i..j];
    assert s[j..] == left[|r|..];
    assert CutAt(s, r, i, j);
  }

  /** The characters before index `i` are those of `s[..i]`. */
  lemma SlashesBefore(s: string, i: int)
    requires 0 <= i <= |s| && AllSlashes(s[..i])
    ensures forall k :: 0 <= k < i ==> s[k] == Slash
  {
    assert forall k :: 0 <= k < i ==> s[..i][k] == s[k];
  }

  /** The characters from index `j` on are those of `s[j..]`. */
  lemma SlashesFrom(s: string, j: int)
    requires 0 <= j <= |s| && AllSlashes(s[j..])
    ensures forall k :: j <= k < |s| ==> s[k] == Slash
  {
    assert forall k :: j <= k < |s| ==> s[j..][k - j] == s[k];
  }

  /** Two runs of '/' put together are a run of '/'. */
  lemma SlashesConcat(a: string, b: string)
    requires AllSlashes(a) && AllSlashes(b)
    ensures AllSlashes(a + b)
  {
    assert forall k :: |a| <= k < |a + b| ==> (a + b)[k] == b[k - |a|];
  }

  /** A trim that is empty means the whole string was '/' characters. */
  lemma EmptyTrimOnlyOfSlashes(s: string)
    requires IsTrimOf(s, [])
    ensures AllSlashes(s)
  {
    var i, j :| CutAt(s, [], i, j);
    forall k | 0 <= k < |s| ensures s[k] == Slash {
      if k < i {
        assert s[..i][k] == s[k];
      } else {
        assert s[j..][k - j] == s[k];
      }
    }
  }

  /** A string of '/' characters only has no trim but the empty one. */
  lemma SlashesTrimToEmpty(s: string, r: string)
    requires AllSlashes(s) && IsTrimOf(s, r)
    ensures r == []
  {
    var i, j :| CutAt(s, r, i, j);
  }

  /** The reference definition admits exactly one trim of each string. */
  lemma TrimOfUnique(s: string, r1: string, r2: string)
    requires IsTrimOf(s, r1) && IsTrimOf(s, r2)
    ensures r1 == r2
  {
    if r1 == [] {
      EmptyTrimOnlyOfSlashes(s);
      SlashesTrimToEmpty(s, r2);
    } else if r2 == [] {
      EmptyTrimOnlyOfSlashes(s);
      SlashesTrimToEmpty(s, r1);
    } else {
      var i1, j1 :| CutAt(s, r1, i1, j1);
      var i2, j2 :| CutAt(s, r2, i2, j2);
      // Only '/' lies outside each cut, and each cut starts and ends on a
      // character other than '/', so neither cut can reach past the other.
      SlashesBefore(s, i1);
      SlashesBefore(s, i2);
      SlashesFrom(s, j1);
      SlashesFrom(s, j2);
      assert s[i1] == r1[0] && s[i2] == r2[0];
      assert s[j1 - 1] == r1[|r1| - 1] && s[j2 - 1] == r2[|r2| - 1];
    }
  }

  /** `Trim` computes the trim of the reference definition, and no other. */
  lemma TrimIsTheTrim(s: string, r: string)
    requires IsTrimOf(s, r)
    ensures Trim(s) == r
  {
    TrimMeetsDefinition(s);
    TrimOfUnique(s, Trim(s), r);
  }

  /** Trimming twice gives the same as trimming once. */
  lemma TrimIdempotent(s: string)
    ensures Trim(Trim(s)) == Trim(s)
  {
    var t := Trim(s);
    assert t[..0] == [] && t[0..|t|] == t && t[|t|..] == [];
    assert CutAt(t, t, 0, |t|);
    TrimIsTheTrim(t, t);
  }

  /** A cut stays a cut when '/' characters are added around the string. */
  lemma CutWithOuterSlashes(before: string, s: string, after: string, r: string, i: int, j: int)
    requires AllSlashes(before) && AllSlashes(after) && CutAt(s, r, i, j)
    ensures CutAt(before + s + after, r, |before| + i, |before| + j)
  {
    var whole := before + s + after;
    var n := |before|;
    assert r == whole[n + i..n + j];
    assert whole[..n + i] == before + s[..i];
    assert whole[n + j..] == s[j..] + after;
    SlashesConcat(before, s[..i]);
    SlashesConcat(s[j..], after);
  }

  /** Extra '/' characters before or after a string do not change its trim. */
  lemma TrimIgnoresOuterSlashes(before: string, s: string, after: string)
    requires AllSlashes(before) && AllSlashes(after)
    ensures Trim(before + s + after) == Trim(s)
  {
    var t := Trim(s);
    TrimMeetsDefinition(s);
    var i, j :| CutAt(s, t, i, j);
    CutWithOuterSlashes(before, s, after, t, i, j);
    TrimIsTheTrim(before + s + after, t);
  }

  /** The trim is empty exactly when the string holds nothing but '/'. */
  lemma TrimEmptyIffAllSlashes(s: string)
    ensures Trim(s) == [] <==> AllSlashes(s)
  {
    TrimMeetsDefinition(s);
    if Trim(s) == [] {
      EmptyTrimOnlyOfSlashes(s);
    }
    if AllSlashes(s) {
      SlashesTrimToEmpty(s, Trim(s));
    }
  }

  /** A string that has no '/' at either end is its own trim. */
  lemma TrimKeepsUnslashedEnds(s: string)
    requires NoEdgeSlash(s)
    ensures Trim(s) == s
  {
    assert s[..0] == [] && s[0..|s|] == s && s[|s|..] == [];
    assert CutAt(s, s, 0, |s|);
    TrimIsTheTrim(s, s);
  }
}
