/** Line splitting shared by the rename engine and the directive extractor.
    A document is a string; a bare CR, a bare LF and a CRLF pair each end
    exactly one line, and the last line ends at the end of the text. */
module Text {

  predicate IsLineBreak(ch: char) { ch == '\r' || ch == '\n' }

  predicate NoLineBreak(s: string) { forall i :: 0 <= i < |s| ==> !IsLineBreak(s[i]) }

  /** How one physical line ends. */
  datatype Terminator = CR | LF | CRLF | EndOfText

  function TerminatorText(t: Terminator): string
  {
    match t
    case CR => "\r"
    case LF => "\n"
    case CRLF => "\r\n"
    case EndOfText => ""
  }

  datatype RawLine = RawLine(content: string, terminator: Terminator)

  /** Index of the first line-break character at or after `i` (or |text|). */
  function BreakIndex(text: string, i: nat): (k: nat)
    requires i <= |text|
    ensures i <= k <= |text|
    ensures forall j :: i <= j < k ==> !IsLineBreak(text[j])
    ensures k == |text| || IsLineBreak(text[k])
    decreases |text| - i
  {
    if i == |text| || IsLineBreak(text[i]) then i else BreakIndex(text, i + 1)
  }

  /** The well-formedness of a split: every content is free of line breaks,
      only the last line ends at the end of text, and no CR-terminated line is
      followed by an empty LF-terminated line (that pair would read as CRLF). */
  ghost predicate WellFormed(ls: seq<RawLine>)
  {
    && |ls| >= 1
    && (forall i :: 0 <= i < |ls| ==> NoLineBreak(ls[i].content))
    && (forall i :: 0 <= i < |ls| ==> (ls[i].terminator == EndOfText <==> i == |ls| - 1))
    && (forall i :: 0 <= i < |ls| - 1 && ls[i].terminator == CR ==> ls[i + 1] != RawLine("", LF))
  }

  /** The terminator that starts at a line-break character `text[k]`. */
  function TerminatorAt(text: string, k: nat): (t: Terminator)
    requires k < |text| && IsLineBreak(text[k])
    ensures t != EndOfText
    ensures k + |TerminatorText(t)| <= |text| && text[k..k + |TerminatorText(t)|] == TerminatorText(t)
    ensures t == CR ==> k + 1 == |text| || text[k + 1] != '\n'
  {
    if text[k] == '\r' && k + 1 < |text| && text[k + 1] == '\n' then CRLF
    else if text[k] == '\r' then CR
    else LF
  }

  function SplitLines(text: string): (ls: seq<RawLine>)
    ensures |ls| >= 1
    decreases |text|
  {
    var k := BreakIndex(text, 0);
    if k == |text| then
      [RawLine(text, EndOfText)]
    else
      var t := TerminatorAt(text, k);
      var rest := SplitLines(text[k + |TerminatorText(t)|..]);
      [RawLine(text[..k], t)] + rest
  }

  /** Every split is well formed. */
  lemma {:induction false} SplitLinesWellFormed(text: string)
    ensures WellFormed(SplitLines(text))
    ensures SplitLines(text)[0] == RawLine("", LF) ==> |text| > 0 && text[0] == '\n'
    decreases |text|
  {
    var ls := SplitLines(text);
    var k := BreakIndex(text, 0);
    if k < |text| {
      var t := TerminatorAt(text, k);
      var s := text[k + |TerminatorText(t)|..];
      var rest := SplitLines(s);
      SplitLinesWellFormed(s);
      assert ls == [RawLine(text[..k], t)] + rest;
      forall i | 0 <= i < |ls| ensures NoLineBreak(ls[i].content) {
        if i > 0 { assert ls[i] == rest[i - 1]; }
      }
      forall i | 0 <= i < |ls| ensures (ls[i].terminator == EndOfText <==> i == |ls| - 1) {
        if i > 0 { assert ls[i] == rest[i - 1]; }
      }
      forall i | 0 <= i < |ls| - 1 && ls[i].terminator == CR ensures ls[i + 1] != RawLine("", LF) {
        assert ls[i + 1] == rest[i];
      }
    }
  }

  /** The inverse of SplitLines: put the terminators back. */
  function Render(ls: seq<RawLine>): string
  {
    if ls == [] then "" else ls[0].content + TerminatorText(ls[0].terminator) + Render(ls[1..])
  }

  /** Splitting loses nothing: rendering the lines gives back the text. */
  lemma {:induction false} RenderSplitLines(text: string)
    ensures Render(SplitLines(text)) == text
    decreases |text|
  {
    var k := BreakIndex(text, 0);
    if k < |text| {
      var t := TerminatorAt(text, k);
      var n := |TerminatorText(t)|;
      var rest := SplitLines(text[k + n..]);
      RenderSplitLines(text[k + n..]);
      var ls := SplitLines(text);
      assert ls == [RawLine(text[..k], t)] + rest;
      assert ls[1..] == rest;
      RenderConcatFirst(ls);
      assert text == text[..k] + text[k..k + n] + text[k + n..];
    }
  }

  /** The line contents, the view both consumers use. */
  function Lines(text: string): (lines: seq<string>)
    ensures |lines| == |SplitLines(text)| >= 1
    ensures forall i :: 0 <= i < |lines| ==> lines[i] == SplitLines(text)[i].content && NoLineBreak(lines[i])
  {
    var ls := SplitLines(text);
    SplitLinesWellFormed(text);
    seq(|ls|, i requires 0 <= i < |ls| => ls[i].content)
  }

  /** Independent count of line breaks, a CRLF pair counting once. */
  function BreakCount(text: string): nat
    decreases |text|
  {
    if text == [] then 0
    else if text[0] == '\r' && |text| > 1 && text[1] == '\n' then 1 + BreakCount(text[2..])
    else if IsLineBreak(text[0]) then 1 + BreakCount(text[1..])
    else BreakCount(text[1..])
  }

  lemma {:induction false} BreakCountSkip(text: string, k: nat)
    requires k <= |text|
    requires forall j :: 0 <= j < k ==> !IsLineBreak(text[j])
    ensures BreakCount(text) == BreakCount(text[k..])
    decreases k
  {
    if k > 0 {
      BreakCountSkip(text[1..], k - 1);
      assert text[1..][k - 1..] == text[k..];
    }
  }

  /** A text with n line breaks has n + 1 lines. */
  lemma {:induction false} LineCount(text: string)
    ensures |Lines(text)| == BreakCount(text) + 1
    decreases |text|
  {
    var k := BreakIndex(text, 0);
    BreakCountSkip(text, k);
    if k < |text| {
      var n := |TerminatorText(TerminatorAt(text, k))|;
      LineCount(text[k + n..]);
      var t := text[k..];
      assert t[0] == text[k];
      if n == 2 {
        assert t[1] == '\n' && t[2..] == text[k + 2..];
      } else {
        assert t[1..] == text[k + 1..];
      }
    }
  }

  lemma RenderConcatFirst(ls: seq<RawLine>)
    requires |ls| >= 1
    ensures Render(ls) == ls[0].content + TerminatorText(ls[0].terminator) + Render(ls[1..])
  {
  }

  /** The rendering of a well-formed sequence begins with LF only when its
      first line is the empty LF line. */
  lemma RenderStartsWithLF(ls: seq<RawLine>)
    requires WellFormed(ls)
    ensures ls[0] != RawLine("", LF) && |Render(ls)| > 0 ==> Render(ls)[0] != '\n'
  {
    var l := ls[0];
    RenderConcatFirst(ls);
    if l.content != "" {
      assert Render(ls)[0] == l.content[0];
    } else if l.terminator == EndOfText {
      assert |ls| == 1 && Render(ls) == "";
    } else if l.terminator != LF {
      assert Render(ls)[0] == '\r';
    }
  }

  lemma WellFormedTail(ls: seq<RawLine>)
    requires WellFormed(ls) && |ls| >= 2
    ensures WellFormed(ls[1..])
  {
    var tl := ls[1..];
    forall i | 0 <= i < |tl| ensures NoLineBreak(tl[i].content) { assert tl[i] == ls[i + 1]; }
    forall i | 0 <= i < |tl| ensures (tl[i].terminator == EndOfText <==> i == |tl| - 1) { assert tl[i] == ls[i + 1]; }
  }

  lemma BreakIndexOfRendered(c: string, rest: string, t: Terminator)
    requires NoLineBreak(c) && t != EndOfText
    ensures BreakIndex(c + TerminatorText(t) + rest, 0) == |c|
  {
    var text := c + TerminatorText(t) + rest;
    BreakIndexAt(text, 0, |c|);
  }

  lemma {:induction false} BreakIndexAt(text: string, i: nat, k: nat)
    requires i <= k < |text| && IsLineBreak(text[k])
    requires forall j :: i <= j < k ==> !IsLineBreak(text[j])
    ensures BreakIndex(text, i) == k
    decreases k - i
  {
    if i < k { BreakIndexAt(text, i + 1, k); }
  }

  lemma BreakIndexNone(text: string)
    requires NoLineBreak(text)
    ensures BreakIndex(text, 0) == |text|
  {
  }

  /** Splitting inverts rendering on well-formed line sequences. */
  lemma {:induction false} SplitLinesRender(ls: seq<RawLine>)
    requires WellFormed(ls)
    ensures SplitLines(Render(ls)) == ls
    decreases |ls|
  {
    var l := ls[0];
    RenderConcatFirst(ls);
    if |ls| == 1 {
      var text := Render(ls);
      assert l.terminator == EndOfText;
      assert Render(ls[1..]) == "";
      assert text == l.content;
      BreakIndexNone(text);
    } else {
      WellFormedTail(ls);
      SplitLinesRender(ls[1..]);
      if l.terminator == CR {
        RenderStartsWithLF(ls[1..]);
      }
      SplitLinesCons(l.content, l.terminator, Render(ls[1..]));
      assert ls == [l] + ls[1..];
    }
  }

  /** A line break after a line-free content splits off exactly that line. */
  lemma SplitLinesCons(c: string, t: Terminator, rest: string)
    requires NoLineBreak(c) && t != EndOfText
    requires t == CR ==> |rest| == 0 || rest[0] != '\n'
    ensures SplitLines(c + TerminatorText(t) + rest) == [RawLine(c, t)] + SplitLines(rest)
  {
    var text := c + TerminatorText(t) + rest;
    var k := |c|;
    BreakIndexOfRendered(c, rest, t);
    assert text[..k] == c;
    match t
    case CRLF =>
      assert text[k] == '\r' && text[k + 1] == '\n';
      assert text[k + 2..] == rest;
    case LF =>
      assert text[k] == '\n';
      assert text[k + 1..] == rest;
    case CR =>
      assert text[k] == '\r';
      assert text[k + 1..] == rest;
  }

  /** A leading line break contributes one empty line and shifts the rest. */
  lemma LinesAfterBreak(br: Terminator, rest: string)
    requires br != EndOfText
    requires br == CR ==> |rest| == 0 || rest[0] != '\n'
    ensures Lines(TerminatorText(br) + rest) == [""] + Lines(rest)
  {
    var text := TerminatorText(br) + rest;
    BreakIndexOfRendered("", rest, br);
    assert "" + TerminatorText(br) + rest == text;
    var n := |TerminatorText(br)|;
    assert text[n..] == rest;
    assert text[..0] == "";
  }

  /** A text without line breaks is one line. */
  lemma LinesSingle(c: string)
    requires NoLineBreak(c)
    ensures Lines(c) == [c]
  {
    BreakIndexNone(c);
  }

  /** A line followed by LF contributes that line and leaves the rest. */
  lemma LinesCons(c: string, rest: string)
    requires NoLineBreak(c)
    ensures Lines(c + "\n" + rest) == [c] + Lines(rest)
  {
    var text := c + "\n" + rest;
    BreakIndexOfRendered(c, rest, LF);
    assert c + TerminatorText(LF) + rest == text;
    assert text[|c|] == '\n';
    assert TerminatorAt(text, |c|) == LF;
    assert text[..|c|] == c;
    assert text[|c| + 1..] == rest;
    var ls := SplitLines(text);
    assert ls == [RawLine(c, LF)] + SplitLines(rest);
    var a := Lines(text);
    var b := [c] + Lines(rest);
    forall i | 0 <= i < |a| ensures a[i] == b[i] {
      if i > 0 { assert ls[i] == SplitLines(rest)[i - 1]; }
    }
  }

  /** Lines joined by LF, the way a document is usually written. */
  function Join(lines: seq<string>): string
  {
    if |lines| == 0 then "" else if |lines| == 1 then lines[0] else lines[0] + "\n" + Join(lines[1..])
  }

  /** Splitting a document joined from break-free lines gives the lines back. */
  lemma {:induction false} LinesJoin(lines: seq<string>)
    requires |lines| >= 1 && forall i :: 0 <= i < |lines| ==> NoLineBreak(lines[i])
    ensures Lines(Join(lines)) == lines
    decreases |lines|
  {
    assert NoLineBreak(lines[0]);
    if |lines| == 1 {
      LinesSingle(lines[0]);
    } else {
      LinesJoin(lines[1..]);
      LinesCons(lines[0], Join(lines[1..]));
    }
  }
}
