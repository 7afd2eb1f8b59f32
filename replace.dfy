/**
 * `str::replace(pat, rep)`, which viewer.rs uses to fill in the manifest
 * template: the text is cut at every occurrence of `pat`, scanning left to
 * right and resuming after each match, and the pieces are joined with `rep`.
 * `Pieces` and `Join` are that description; `ReplaceAll` is the scan.
 */
module Replace {

  predicate OccursAt(t: string, pat: string, k: nat)
  {
    k + |pat| <= |t| && t[k..k + |pat|] == pat
  }

  /** No occurrence of `pat` starts in `t` before position `n`. */
  predicate NoMatchBefore(t: string, pat: string, n: nat)
  {
    forall k: nat :: k < n ==> !OccursAt(t, pat, k)
  }

  /** `s.replace(pat, rep)` for a nonempty `pat`. */
  function ReplaceAll(s: string, pat: string, rep: string): string
    requires pat != []
    decreases |s|
  {
    if s == [] then []
    else if pat <= s then rep + ReplaceAll(s[|pat|..], pat, rep)
    else [s[0]] + ReplaceAll(s[1..], pat, rep)
  }

  /** The text between the occurrences of `pat`, leftmost occurrence first. */
  function Pieces(s: string, pat: string): (r: seq<string>)
    requires pat != []
    ensures |r| >= 1
    decreases |s|
  {
    if s == [] then [""]
    else if pat <= s then [""] + Pieces(s[|pat|..], pat)
    else
      var r := Pieces(s[1..], pat);
      [[s[0]] + r[0]] + r[1..]
  }

  function Join(ps: seq<string>, sep: string): string
    requires |ps| >= 1
    decreases |ps|
  {
    if |ps| == 1 then ps[0] else ps[0] + (sep + Join(ps[1..], sep))
  }

  lemma JoinHead(c: char, x: string, rest: seq<string>, sep: string)
    ensures Join([[c] + x] + rest, sep) == [c] + Join([x] + rest, sep)
  {
    if rest != [] {
      assert ([[c] + x] + rest)[1..] == rest;
      assert ([x] + rest)[1..] == rest;
    }
  }

  lemma JoinEmptyHead(rest: seq<string>, sep: string)
    requires rest != []
    ensures Join([""] + rest, sep) == sep + Join(rest, sep)
  {
    assert ([""] + rest)[1..] == rest;
  }

  /** `replace` joins the pieces with the replacement. */
  lemma {:induction false} ReplaceIsJoin(s: string, pat: string, rep: string)
    requires pat != []
    ensures ReplaceAll(s, pat, rep) == Join(Pieces(s, pat), rep)
    decreases |s|
  {
    if s == [] {
    } else if pat <= s {
      ReplaceIsJoin(s[|pat|..], pat, rep);
      JoinEmptyHead(Pieces(s[|pat|..], pat), rep);
    } else {
      var r := Pieces(s[1..], pat);
      ReplaceIsJoin(s[1..], pat, rep);
      JoinHead(s[0], r[0], r[1..], rep);
      assert [r[0]] + r[1..] == r;
    }
  }

  /** Joining the pieces with `pat` itself gives the text back. */
  lemma {:induction false} PiecesJoin(s: string, pat: string)
    requires pat != []
    ensures Join(Pieces(s, pat), pat) == s
    decreases |s|
  {
    if s == [] {
    } else if pat <= s {
      PiecesJoin(s[|pat|..], pat);
      JoinEmptyHead(Pieces(s[|pat|..], pat), pat);
      assert s == pat + s[|pat|..];
    } else {
      var r := Pieces(s[1..], pat);
      PiecesJoin(s[1..], pat);
      JoinHead(s[0], r[0], r[1..], pat);
      assert [r[0]] + r[1..] == r;
      assert s == [s[0]] + s[1..];
    }
  }

  lemma OccursShift(c: char, t: string, pat: string, k: nat)
    requires k >= 1
    ensures OccursAt([c] + t, pat, k) == OccursAt(t, pat, k - 1)
  {
    if k + |pat| <= |[c] + t| {
      assert ([c] + t)[k..k + |pat|] == t[k - 1..k - 1 + |pat|];
    }
  }

  /**
   * The cuts are the leftmost ones: no occurrence of `pat` starts inside a
   * piece, counting one that runs into the separator after it.
   */
  predicate LeftmostCuts(ps: seq<string>, pat: string)
    requires |ps| >= 1
  {
    && (forall i :: 0 <= i < |ps| - 1 ==> NoMatchBefore(ps[i] + pat, pat, |ps[i]|))
    && NoMatchBefore(ps[|ps| - 1], pat, |ps[|ps| - 1]|)
  }

  /** `Pieces` cuts at the leftmost occurrences. */
  lemma {:induction false} PiecesLeftmost(s: string, pat: string)
    requires pat != []
    ensures LeftmostCuts(Pieces(s, pat), pat)
    decreases |s|
  {
    if s == [] {
    } else if pat <= s {
      PiecesLeftmost(s[|pat|..], pat);
      LeftmostAfterMatch(Pieces(s[|pat|..], pat), pat);
    } else {
      PiecesLeftmost(s[1..], pat);
      LeftmostAfterChar(s, pat);
    }
  }

  /** A match at the front adds an empty piece. */
  lemma LeftmostAfterMatch(r: seq<string>, pat: string)
    requires |r| >= 1 && LeftmostCuts(r, pat)
    ensures LeftmostCuts([""] + r, pat)
  {
    var ps := [""] + r;
    forall i | 0 <= i < |ps| - 1
      ensures NoMatchBefore(ps[i] + pat, pat, |ps[i]|)
    {
      if i > 0 { assert ps[i] == r[i - 1]; }
    }
    assert ps[|ps| - 1] == r[|r| - 1];
  }

  /** A character that does not start a match joins the first piece. */
  lemma LeftmostAfterChar(s: string, pat: string)
    requires pat != [] && s != [] && !(pat <= s)
    requires LeftmostCuts(Pieces(s[1..], pat), pat)
    ensures LeftmostCuts(Pieces(s, pat), pat)
  {
    var ps := Pieces(s, pat);
    PiecesJoin(s[1..], pat);
    var r := Pieces(s[1..], pat);
    var x := [s[0]] + r[0];
    assert ps == [x] + r[1..];
    if |r| == 1 {
      assert s == [s[0]] + r[0];
      NoMatchCons(s[0], r[0], pat);
    } else {
      var rest := Join(r[1..], pat);
      assert s[1..] == r[0] + (pat + rest);
      assert s == [s[0]] + (r[0] + (pat + rest));
      NoMatchConsBeforeCut(s[0], r[0], pat, rest);
      LeftmostNewHead(r, x, pat);
    }
  }

  /** Replacing the first piece by one with no early match keeps the cuts leftmost. */
  lemma LeftmostNewHead(r: seq<string>, x: string, pat: string)
    requires |r| >= 2 && LeftmostCuts(r, pat)
    requires NoMatchBefore(x + pat, pat, |x|)
    ensures LeftmostCuts([x] + r[1..], pat)
  {
    var ps := [x] + r[1..];
    forall i | 0 <= i < |ps| - 1
      ensures NoMatchBefore(ps[i] + pat, pat, |ps[i]|)
    {
      if i > 0 { assert ps[i] == r[i]; }
    }
    assert ps[|ps| - 1] == r[|r| - 1];
  }

  /** The last piece: a character that starts no match, before a text without matches. */
  lemma NoMatchCons(c: char, t: string, pat: string)
    requires pat != [] && !(pat <= [c] + t)
    requires NoMatchBefore(t, pat, |t|)
    ensures NoMatchBefore([c] + t, pat, |t| + 1)
  {
    forall k: nat | k < |t| + 1
      ensures !OccursAt([c] + t, pat, k)
    {
      if k == 0 {
        assert OccursAt([c] + t, pat, 0) ==> pat <= [c] + t;
      } else {
        OccursShift(c, t, pat, k);
      }
    }
  }

  /** A piece before a cut: a character that starts no match, before a piece whose only match is the cut. */
  lemma NoMatchConsBeforeCut(c: char, t: string, pat: string, rest: string)
    requires pat != [] && !(pat <= [c] + (t + (pat + rest)))
    requires NoMatchBefore(t + pat, pat, |t|)
    ensures NoMatchBefore(([c] + t) + pat, pat, |t| + 1)
  {
    var x := ([c] + t) + pat;
    assert x == [c] + (t + pat);
    forall k: nat | k < |t| + 1
      ensures !OccursAt(x, pat, k)
    {
      if k > 0 {
        OccursShift(c, t + pat, pat, k);
      }
    }
  }
}
