/** The two java.lang.String operations the uploader relies on: `split` with a
    one-character delimiter (and the default limit 0, which drops trailing empty
    strings) and `trim`. Each is given by small recursive functions whose
    contracts characterise the result completely. */
module JavaStrings {

  /** Every character of `s` is `c` (true of the empty string). */
  predicate OnlyOf(s: string, c: char)
  {
    forall k :: 0 <= k < |s| ==> s[k] == c
  }

  /** `s` without its trailing run of `c`. */
  function StripTrailing(s: string, c: char): (t: string)
    ensures t <= s
    ensures OnlyOf(s[|t|..], c)
    ensures t == [] || t[|t| - 1] != c
    ensures t == [] <==> OnlyOf(s, c)
  {
    if s != [] && s[|s| - 1] == c then
      var t := StripTrailing(s[..|s| - 1], c);
      assert s[|t|..] == s[..|s| - 1][|t|..] + [c];
      t
    else
      s
  }

  /** The part of `s` after its last `c` (all of `s` when `c` does not occur). */
  function AfterLast(s: string, c: char): (r: string)
    ensures c !in r
    ensures |r| <= |s| && r == s[|s| - |r|..]
    ensures |r| < |s| ==> s[|s| - |r| - 1] == c
  {
    if s == [] || s[|s| - 1] == c then []
    else
      var r := AfterLast(s[..|s| - 1], c);
      assert s[|s| - |r| - 1..] == s[..|s| - 1][|s| - 1 - |r|..] + [s[|s| - 1]];
      r + [s[|s| - 1]]
  }

  /** The pieces joined back together with `c` between neighbours. */
  function Join(ps: seq<string>, c: char): string
    requires |ps| >= 1
  {
    if |ps| == 1 then ps[0] else Join(ps[..|ps| - 1], c) + [c] + ps[|ps| - 1]
  }

  /** Every piece of `s` between occurrences of `c`, empty ones included
      (Java's split with a negative limit). */
  function Pieces(s: string, c: char): (ps: seq<string>)
    ensures |ps| >= 1
    ensures forall k :: 0 <= k < |ps| ==> c !in ps[k]
    ensures Join(ps, c) == s
  {
    if s == [] then [""]
    else
      var init := Pieces(s[..|s| - 1], c);
      var x := s[|s| - 1];
      assert s == s[..|s| - 1] + [x];
      if x == c then
        JoinPush(init, "", c);
        init + [""]
      else
        JoinExtendLast(init, x, c);
        init[..|init| - 1] + [init[|init| - 1] + [x]]
  }

  lemma JoinPush(ps: seq<string>, p: string, c: char)
    requires |ps| >= 1
    ensures Join(ps + [p], c) == Join(ps, c) + [c] + p
  {
    assert (ps + [p])[..|ps|] == ps;
  }

  lemma JoinExtendLast(ps: seq<string>, x: char, c: char)
    requires |ps| >= 1
    ensures Join(ps[..|ps| - 1] + [ps[|ps| - 1] + [x]], c) == Join(ps, c) + [x]
  {
    var init := ps[..|ps| - 1];
    var last := ps[|ps| - 1];
    if |ps| > 1 {
      JoinPush(init, last + [x], c);
      assert ps == init + [last];
      JoinPush(init, last, c);
    }
  }

  /** The pieces without their trailing empty strings. */
  function DropTrailingEmpty(ps: seq<string>): (r: seq<string>)
    ensures r <= ps
    ensures forall k :: |r| <= k < |ps| ==> ps[k] == ""
    ensures r == [] || r[|r| - 1] != ""
  {
    if ps != [] && ps[|ps| - 1] == "" then DropTrailingEmpty(ps[..|ps| - 1]) else ps
  }

  /** `s.split(c)` in Java: when `c` does not occur the result is `[s]`, even for
      the empty string; otherwise trailing empty strings are removed, so a
      string made only of delimiters gives the empty array. */
  function Split(s: string, c: char): (r: seq<string>)
    ensures forall k :: 0 <= k < |r| ==> c !in r[k]
    ensures r == [] <==> s != [] && OnlyOf(s, c)
    ensures r != [] ==> Join(r, c) == StripTrailing(s, c)
  {
    var ps := Pieces(s, c);
    if |ps| == 1 then
      assert s != [] ==> s[0] != c && StripTrailing(s, c) == s;
      ps
    else
      DropTrailingPieces(s, c);
      DropTrailingEmpty(ps)
  }

  /** Dropping the trailing empty pieces is splitting without the trailing
      delimiters. */
  lemma {:induction false} DropTrailingPieces(s: string, c: char)
    ensures DropTrailingEmpty(Pieces(s, c))
         == if StripTrailing(s, c) == [] then [] else Pieces(StripTrailing(s, c), c)
  {
    if s != [] && s[|s| - 1] == c {
      var init := Pieces(s[..|s| - 1], c);
      assert Pieces(s, c) == init + [""];
      assert (init + [""])[..|init|] == init;
      DropTrailingPieces(s[..|s| - 1], c);
    }
  }

  /** The last piece is what follows the last delimiter. */
  lemma {:induction false} LastPiece(s: string, c: char)
    ensures Pieces(s, c)[|Pieces(s, c)| - 1] == AfterLast(s, c)
  {
    if s != [] {
      LastPiece(s[..|s| - 1], c);
    }
  }

  /** Splitting a string made by joining delimiter-free pieces gives back the
      pieces: together with the ensures of `Pieces`, the two are inverse. */
  lemma {:induction false} PiecesOfJoin(ps: seq<string>, c: char)
    requires |ps| >= 1
    requires forall k :: 0 <= k < |ps| ==> c !in ps[k]
    ensures Pieces(Join(ps, c), c) == ps
  {
    if |ps| == 1 {
      PiecesOfPlain(ps[0], c);
    } else {
      var init, last := ps[..|ps| - 1], ps[|ps| - 1];
      assert ps == init + [last];
      var j := Join(init, c);
      assert Join(ps, c) == j + [c] + last;
      assert Pieces(j, c) == init by {
        PiecesOfJoin(init, c);
      }
      assert Pieces(j + [c] + last, c) == Pieces(j, c) + [last] by {
        PiecesAfterDelimiter(j, last, c);
      }
    }
  }

  lemma {:induction false} PiecesOfPlain(s: string, c: char)
    requires c !in s
    ensures Pieces(s, c) == [s]
  {
    if s != [] {
      PiecesOfPlain(s[..|s| - 1], c);
    }
  }

  lemma {:induction false} PiecesAfterDelimiter(x: string, l: string, c: char)
    requires c !in l
    ensures Pieces(x + [c] + l, c) == Pieces(x, c) + [l]
  {
    if l == [] {
      assert x + [c] + l == x + [c];
      PiecesSnoc(x, c, c);
    } else {
      var l', y := l[..|l| - 1], l[|l| - 1];
      var t := x + [c] + l';
      assert x + [c] + l == t + [y] && l' + [y] == l;
      var init := Pieces(x, c) + [l'];
      assert Pieces(t, c) == init by {
        PiecesAfterDelimiter(x, l', c);
      }
      assert Pieces(t + [y], c) == init[..|init| - 1] + [init[|init| - 1] + [y]] by {
        PiecesSnoc(t, y, c);
      }
      assert init[..|init| - 1] == Pieces(x, c);
    }
  }

  /** Pieces unfolded at its last character. */
  lemma PiecesSnoc(t: string, x: char, c: char)
    ensures Pieces(t + [x], c)
         == if x == c then Pieces(t, c) + [""]
            else Pieces(t, c)[..|Pieces(t, c)| - 1] + [Pieces(t, c)[|Pieces(t, c)| - 1] + [x]]
  {
    assert (t + [x])[..|t|] == t;
  }

  /** `s` without leading characters at or below the space character. */
  function TrimLeading(s: string): (r: string)
    ensures |r| <= |s| && r == s[|s| - |r|..]
    ensures forall k :: 0 <= k < |s| - |r| ==> s[k] <= ' '
    ensures r == [] || r[0] > ' '
  {
    if s != [] && s[0] <= ' ' then TrimLeading(s[1..]) else s
  }

  /** `s` without trailing characters at or below the space character. */
  function TrimTrailing(s: string): (r: string)
    ensures r <= s
    ensures forall k :: |r| <= k < |s| ==> s[k] <= ' '
    ensures r == [] || r[|r| - 1] > ' '
  {
    if s != [] && s[|s| - 1] <= ' ' then TrimTrailing(s[..|s| - 1]) else s
  }

  /** Java's `String.trim`: strips characters at or below U+0020 from both ends. */
  function Trim(s: string): (r: string)
    ensures |r| <= |s|
    ensures r == [] || (r[0] > ' ' && r[|r| - 1] > ' ')
    ensures r == [] <==> forall k :: 0 <= k < |s| ==> s[k] <= ' '
  {
    TrimTrailing(TrimLeading(s))
  }
}
