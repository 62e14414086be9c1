/** java.lang.String.split as Organization.setLogo uses it: a one-character
    separator that is not a regular-expression metacharacter, and limit 0. */
module JavaStrings {

  /** Number of occurrences of c in s. */
  function Count(s: string, c: char): (n: nat)
    ensures n <= |s|
    ensures n == 0 <==> c !in s
  {
    if |s| == 0 then 0
    else (if s[0] == c then 1 else 0) + Count(s[1..], c)
  }

  /** The pieces glued together with sep between consecutive pieces. */
  function Join(pieces: seq<string>, sep: char): string
  {
    if |pieces| == 0 then ""
    else if |pieces| == 1 then pieces[0]
    else pieces[0] + [sep] + Join(pieces[1..], sep)
  }

  /** s cut at every occurrence of sep, empty pieces included. */
  function SplitAll(s: string, sep: char): (pieces: seq<string>)
    ensures |pieces| >= 1
    ensures forall i :: 0 <= i < |pieces| ==> sep !in pieces[i]
  {
    if |s| == 0 then [""]
    else
      var rest := SplitAll(s[1..], sep);
      if s[0] == sep then [""] + rest
      else [[s[0]] + rest[0]] + rest[1..]
  }

  /** The list with its empty pieces at the end removed, as split does for limit 0. */
  function DropTrailingEmpty(pieces: seq<string>): (r: seq<string>)
    ensures |r| <= |pieces| && r == pieces[..|r|]
    ensures forall i :: |r| <= i < |pieces| ==> pieces[i] == ""
    ensures |r| == 0 || r[|r| - 1] != ""
  {
    if |pieces| == 0 || pieces[|pieces| - 1] != "" then pieces
    else DropTrailingEmpty(pieces[..|pieces| - 1])
  }

  /** s.split(sep): the string itself when sep does not occur in it (so "" gives
      one empty line), otherwise every piece with the trailing empty ones dropped. */
  function JavaSplit(s: string, sep: char): (lines: seq<string>)
    ensures forall i :: 0 <= i < |lines| ==> sep !in lines[i]
  {
    if sep !in s then [s] else DropTrailingEmpty(SplitAll(s, sep))
  }

  lemma {:induction false} JoinConsChar(c: char, pieces: seq<string>, sep: char)
    requires |pieces| >= 1
    ensures Join([[c] + pieces[0]] + pieces[1..], sep) == [c] + Join(pieces, sep)
  {
    var ps := [[c] + pieces[0]] + pieces[1..];
    if |pieces| > 1 {
      assert ps[1..] == pieces[1..];
    }
  }

  /** Joining the pieces of a split gives back the original string. */
  lemma {:induction false} JoinSplitAll(s: string, sep: char)
    ensures Join(SplitAll(s, sep), sep) == s
  {
    if |s| > 0 {
      var rest := SplitAll(s[1..], sep);
      JoinSplitAll(s[1..], sep);
      if s[0] == sep {
        assert ([""] + rest)[1..] == rest;
      } else {
        JoinConsChar(s[0], rest, sep);
      }
      assert s == [s[0]] + s[1..];
    }
  }

  lemma {:induction false} SplitAllAfterPiece(p: string, t: string, sep: char)
    requires sep !in p
    ensures SplitAll(p + t, sep) == [p + SplitAll(t, sep)[0]] + SplitAll(t, sep)[1..]
  {
    var x := SplitAll(t, sep);
    if |p| == 0 {
      assert p + t == t;
      assert p + x[0] == x[0];
      assert [x[0]] + x[1..] == x;
    } else {
      assert (p + t)[0] == p[0];
      assert (p + t)[1..] == p[1..] + t;
      SplitAllAfterPiece(p[1..], t, sep);
      assert [p[0]] + (p[1..] + x[0]) == p + x[0];
    }
  }

  /** Splitting a join of separator-free pieces gives back the pieces. */
  lemma {:induction false} SplitAllJoin(pieces: seq<string>, sep: char)
    requires |pieces| >= 1
    requires forall i :: 0 <= i < |pieces| ==> sep !in pieces[i]
    ensures SplitAll(Join(pieces, sep), sep) == pieces
  {
    if |pieces| == 1 {
      SplitAllAfterPiece(pieces[0], "", sep);
      assert pieces[0] + "" == pieces[0];
    } else {
      var rest := pieces[1..];
      var j := Join(rest, sep);
      assert Join(pieces, sep) == pieces[0] + ([sep] + j);
      SplitAllAfterPiece(pieces[0], [sep] + j, sep);
      SplitAllJoin(rest, sep);
      assert ([sep] + j)[1..] == j;
      assert pieces[0] + "" == pieces[0];
      assert pieces == [pieces[0]] + rest;
    }
  }

  /** Without a separator there is exactly one piece. */
  lemma SplitAllNoSeparator(s: string, sep: char)
    requires sep !in s
    ensures SplitAll(s, sep) == [s]
  {
    SplitAllJoin([s], sep);
  }

  /** There is one piece more than there are separators. */
  lemma {:induction false} SplitAllCount(s: string, sep: char)
    ensures |SplitAll(s, sep)| == Count(s, sep) + 1
  {
    if |s| > 0 {
      SplitAllCount(s[1..], sep);
    }
  }

  /** When s does not end with sep, its last piece is not empty. */
  lemma {:induction false} SplitAllLastNonEmpty(s: string, sep: char)
    requires |s| > 0 && s[|s| - 1] != sep
    ensures SplitAll(s, sep)[|SplitAll(s, sep)| - 1] != ""
  {
    if |s| > 1 {
      assert s[1..][|s[1..]| - 1] == s[|s| - 1];
      SplitAllLastNonEmpty(s[1..], sep);
    }
  }

  /** Appending one separator adds one empty piece at the end. */
  lemma {:induction false} SplitAllAppendSeparator(s: string, sep: char)
    ensures SplitAll(s + [sep], sep) == SplitAll(s, sep) + [""]
  {
    if |s| == 0 {
      assert s + [sep] == [sep];
      assert [sep][1..] == "";
    } else {
      assert (s + [sep])[1..] == s[1..] + [sep];
      SplitAllAppendSeparator(s[1..], sep);
      var r := SplitAll(s[1..], sep);
      assert (r + [""])[0] == r[0];
      assert (r + [""])[1..] == r[1..] + [""];
    }
  }

  /** The lines split returns: no more than the pieces, and every line within a
      width w exactly when every piece is (the dropped pieces are empty). */
  lemma JavaSplitLines(s: string, sep: char, w: nat)
    ensures |JavaSplit(s, sep)| <= |SplitAll(s, sep)|
    ensures (forall i :: 0 <= i < |JavaSplit(s, sep)| ==> |JavaSplit(s, sep)[i]| <= w)
        <==> (forall i :: 0 <= i < |SplitAll(s, sep)| ==> |SplitAll(s, sep)[i]| <= w)
  {
    if sep !in s {
      SplitAllNoSeparator(s, sep);
    } else {
      var all := SplitAll(s, sep);
      var lines := JavaSplit(s, sep);
      assert lines == all[..|lines|];
      assert forall i :: |lines| <= i < |all| ==> |all[i]| == 0;
    }
  }

  /** split reports one line more than there are separators, unless s ends
      with a separator (then the trailing empty lines are not counted). */
  lemma JavaSplitLineCount(s: string, sep: char)
    requires |s| == 0 || s[|s| - 1] != sep
    ensures |JavaSplit(s, sep)| == Count(s, sep) + 1
  {
    SplitAllCount(s, sep);
    if sep in s {
      SplitAllLastNonEmpty(s, sep);
    }
  }

  /** A separator appended to a non-empty string does not change what split returns. */
  lemma JavaSplitIgnoresTrailingSeparator(s: string, sep: char)
    requires |s| > 0
    ensures JavaSplit(s + [sep], sep) == JavaSplit(s, sep)
  {
    SplitAllAppendSeparator(s, sep);
    var all := SplitAll(s, sep);
    assert sep in s + [sep] by { assert (s + [sep])[|s|] == sep; }
    assert (all + [""])[..|all|] == all;
    if sep !in s {
      SplitAllNoSeparator(s, sep);
    }
  }
}
