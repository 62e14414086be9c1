/** The checks Organization.setLogo makes before it stores a logo. */
module Logo {
  import opened OrgTypes
  import opened JavaStrings

  const LogoWidth := 15
  const LogoHeight := 15
  /** 15 * (15 + 1) = 240: room for 15 lines of 15 characters and their
      newlines, not the 225 characters of a bare 15 x 15 grid. */
  const LogoMaxCharLength := LogoHeight * (LogoWidth + 1)

  /** What setLogo decides, check by check in the order it makes them: the
      total length, then the number of lines split reports, then each line's
      width. The line limit rejects LogoHeight lines or more, so an accepted
      logo has at most 14 lines. */
  function LogoVerdict(logo: string): Outcome
  {
    var lines := JavaSplit(logo, '\n');
    if |logo| > LogoMaxCharLength then Fail(LogoTooLong)
    else if |lines| >= LogoHeight then Fail(LogoTooManyLines)
    else if exists i :: 0 <= i < |lines| && |lines[i]| > LogoWidth then Fail(LogoLineTooWide)
    else Pass
  }

  /** The validation half of setLogo, with its loop over the split lines;
      the first line that is too wide ends it. */
  method ValidateLogo(logo: string) returns (r: Outcome)
    ensures r == LogoVerdict(logo)
  {
    if |logo| > LogoMaxCharLength {
      return Fail(LogoTooLong);
    }
    var logoLines := JavaSplit(logo, '\n');
    if |logoLines| >= LogoHeight {
      return Fail(LogoTooManyLines);
    }
    for i := 0 to |logoLines|
      invariant forall j :: 0 <= j < i ==> |logoLines[j]| <= LogoWidth
    {
      if |logoLines[i]| > LogoWidth {
        return Fail(LogoLineTooWide);
      }
    }
    return Pass;
  }

  /** Lines of at most LogoWidth characters, joined by newlines, take at most
      LogoWidth + 1 characters per line, less the missing final newline. */
  lemma {:induction false} JoinedGridLength(lines: seq<string>)
    requires |lines| >= 1
    requires forall i :: 0 <= i < |lines| ==> |lines[i]| <= LogoWidth
    ensures |Join(lines, '\n')| <= |lines| * (LogoWidth + 1) - 1
  {
    if |lines| > 1 {
      JoinedGridLength(lines[1..]);
    }
  }

  lemma JoinHasSeparator(lines: seq<string>)
    requires |lines| >= 2
    ensures '\n' in Join(lines, '\n')
  {
    assert Join(lines, '\n')[|lines[0]|] == '\n';
  }

  /** An accepted logo is at most LogoMaxCharLength characters, and it is the
      newline-join of its lines, none wider than LogoWidth. */
  lemma LogoAcceptedIsGrid(logo: string)
    requires LogoVerdict(logo) == Pass
    ensures |logo| <= LogoMaxCharLength
    ensures Join(SplitAll(logo, '\n'), '\n') == logo
    ensures forall i :: 0 <= i < |SplitAll(logo, '\n')| ==> |SplitAll(logo, '\n')[i]| <= LogoWidth
  {
    JoinSplitAll(logo, '\n');
    JavaSplitLines(logo, '\n', LogoWidth);
  }

  /** From one to 14 lines, each without newlines and at most LogoWidth wide:
      setLogo accepts them joined by newlines. */
  lemma LogoGridAccepted(lines: seq<string>)
    requires 1 <= |lines| < LogoHeight
    requires forall i :: 0 <= i < |lines| ==> '\n' !in lines[i] && |lines[i]| <= LogoWidth
    ensures LogoVerdict(Join(lines, '\n')) == Pass
  {
    var logo := Join(lines, '\n');
    JoinedGridLength(lines);
    assert |logo| <= LogoMaxCharLength;
    SplitAllJoin(lines, '\n');
    JavaSplitLines(logo, '\n', LogoWidth);
    var split := JavaSplit(logo, '\n');
    assert |split| < LogoHeight;
    assert forall i :: 0 <= i < |split| ==> |split[i]| <= LogoWidth;
  }

  /** Fifteen lines of at most LogoWidth characters, the last not empty, fit in
      LogoMaxCharLength, yet setLogo rejects them for having too many lines. */
  lemma LogoFifteenLinesRejected(lines: seq<string>)
    requires |lines| == LogoHeight
    requires forall i :: 0 <= i < |lines| ==> '\n' !in lines[i] && |lines[i]| <= LogoWidth
    requires lines[|lines| - 1] != ""
    ensures |Join(lines, '\n')| <= LogoMaxCharLength
    ensures LogoVerdict(Join(lines, '\n')) == Fail(LogoTooManyLines)
  {
    var logo := Join(lines, '\n');
    JoinedGridLength(lines);
    SplitAllJoin(lines, '\n');
    JoinHasSeparator(lines);
    assert JavaSplit(logo, '\n') == lines;
  }

  /** Up to 14 lines within the length limit, one of them wider than
      LogoWidth: setLogo rejects them for that line. */
  lemma LogoWideLineRejected(lines: seq<string>, j: nat)
    requires 1 <= |lines| < LogoHeight
    requires forall i :: 0 <= i < |lines| ==> '\n' !in lines[i]
    requires |Join(lines, '\n')| <= LogoMaxCharLength
    requires j < |lines| && |lines[j]| > LogoWidth
    ensures LogoVerdict(Join(lines, '\n')) == Fail(LogoLineTooWide)
  {
    var logo := Join(lines, '\n');
    SplitAllJoin(lines, '\n');
    JavaSplitLines(logo, '\n', LogoWidth);
  }

  /** Trailing newlines are not lines to split, so a newline appended to a
      non-empty logo changes setLogo's verdict only through the length check. */
  lemma LogoTrailingNewlineIgnored(logo: string)
    requires 0 < |logo| < LogoMaxCharLength
    ensures LogoVerdict(logo + ['\n']) == LogoVerdict(logo)
  {
    JavaSplitIgnoresTrailingSeparator(logo, '\n');
  }
}
