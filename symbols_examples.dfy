/** The directive scenarios of the extractor's behaviour, stated for both the
    extractor as written and the corrected one. */
module DocumentSymbolsExamples {

  import opened Protocol
  import opened Text
  import opened DocumentSymbols

  const Uri: string := "uri://host/Dockerfile.sample"

  function Expected(line: nat, start: nat, end: nat): SymbolInformation
  {
    SymbolInformation("escape", Property, None, Location(Uri, Range(Position(line, start), Position(line, end))))
  }

  /** An empty document has no symbols. */
  lemma EmptyFile()
    ensures ParseSymbolInformation("", Uri) == []
    ensures ParseSymbolInformationAsWritten("", Uri) == []
  {
    LinesSingle("");
    assert Directives([""], 0) == Directives([""], 1);
  }

  /** The `escape` key at columns [s, s + 6) of a one-line document. */
  lemma EscapeAt(c: string, s: nat)
    requires NoLineBreak(c) && IsDirectiveKey(c, s, s + 6) && c[s..s + 6] == "escape"
    ensures ParseSymbolInformation(c, Uri) == [Expected(0, s, s + 6)]
    ensures ParseSymbolInformationAsWritten(c, Uri) == [Expected(0, s, s + 5)]
  {
    EscapeKeyAt(c, s);
    ShortenedSingle(c, Expected(0, s, s + 6));
  }

  lemma EscapeKeyAt(c: string, s: nat)
    requires NoLineBreak(c) && IsDirectiveKey(c, s, s + 6) && c[s..s + 6] == "escape"
    ensures ParseSymbolInformation(c, Uri) == [Expected(0, s, s + 6)]
  {
    var sym := KeySymbol(Uri, Located(0, Directive(c[s..s + 6], s, s + 6)));
    SingleLineDirective(c, s, s + 6, Uri);
    assert sym == Expected(0, s, s + 6);
  }

  /** As written, a document with one symbol reports it one column short. */
  lemma ShortenedSingle(c: string, sym: SymbolInformation)
    requires ParseSymbolInformation(c, Uri) == [sym] && sym.location.range.end.character > 0
    ensures ParseSymbolInformationAsWritten(c, Uri) == [ShortenEnd(sym)]
  {
  }

  lemma EscapeDirective()
    ensures ParseSymbolInformationAsWritten("#escape=`", Uri) == [Expected(0, 1, 6)]
    ensures ParseSymbolInformation("#escape=`", Uri) == [Expected(0, 1, 7)]
  {
    var c := "#escape=`";
    assert c[0] == '#' && c[7] == '=';
    assert c[1..7] == "escape";
    EscapeAt(c, 1);
  }

  /** A space between `#` and the key. */
  lemma SpaceAfterHash()
    ensures ParseSymbolInformationAsWritten("# escape=`", Uri) == [Expected(0, 2, 7)]
    ensures ParseSymbolInformation("# escape=`", Uri) == [Expected(0, 2, 8)]
  {
    var c := "# escape=`";
    assert c[0] == '#' && c[8] == '=';
    assert c[2..8] == "escape";
    EscapeAt(c, 2);
  }

  /** A tab between `#` and the key. */
  lemma TabAfterHash()
    ensures ParseSymbolInformationAsWritten("#\tescape=`", Uri) == [Expected(0, 2, 7)]
    ensures ParseSymbolInformation("#\tescape=`", Uri) == [Expected(0, 2, 8)]
  {
    var c := "#\tescape=`";
    assert c[0] == '#' && c[8] == '=';
    assert c[2..8] == "escape";
    EscapeAt(c, 2);
  }

  /** A space before `#`. */
  lemma LeadingSpace()
    ensures ParseSymbolInformationAsWritten(" #escape=`", Uri) == [Expected(0, 2, 7)]
    ensures ParseSymbolInformation(" #escape=`", Uri) == [Expected(0, 2, 8)]
  {
    var c := " #escape=`";
    assert c[1] == '#' && c[8] == '=';
    assert c[2..8] == "escape";
    EscapeAt(c, 2);
  }

  /** A tab before `#`. */
  lemma LeadingTab()
    ensures ParseSymbolInformationAsWritten("\t#escape=`", Uri) == [Expected(0, 2, 7)]
    ensures ParseSymbolInformation("\t#escape=`", Uri) == [Expected(0, 2, 8)]
  {
    var c := "\t#escape=`";
    assert c[1] == '#' && c[8] == '=';
    assert c[2..8] == "escape";
    EscapeAt(c, 2);
  }

  /** The directive after one line break of the given style. */
  lemma EscapeAfterBreak(br: Terminator)
    requires br != EndOfText
    ensures ParseSymbolInformation(TerminatorText(br) + "#escape=`", Uri) == [Expected(1, 1, 7)]
    ensures ParseSymbolInformationAsWritten(TerminatorText(br) + "#escape=`", Uri) == [Expected(1, 1, 6)]
  {
    EscapeDirective();
    SingleAfterBreak(br, "#escape=`", Expected(0, 1, 7));
    assert ShiftSymbol(Expected(0, 1, 7)) == Expected(1, 1, 7);
  }

  /** A line break before a document with a single symbol moves that symbol
      one line down. */
  lemma SingleAfterBreak(br: Terminator, rest: string, sym: SymbolInformation)
    requires br != EndOfText && (br == CR ==> |rest| == 0 || rest[0] != '\n')
    requires ParseSymbolInformation(rest, Uri) == [sym] && sym.location.range.end.character > 0
    ensures ParseSymbolInformation(TerminatorText(br) + rest, Uri) == [ShiftSymbol(sym)]
    ensures ParseSymbolInformationAsWritten(TerminatorText(br) + rest, Uri) == [ShortenEnd(ShiftSymbol(sym))]
  {
    ParseSymbolInformationShift(br, rest, Uri);
    ShortenedSingle(TerminatorText(br) + rest, ShiftSymbol(sym));
  }

  lemma LeadingLineBreaks()
    ensures ParseSymbolInformationAsWritten("\r#escape=`", Uri) == [Expected(1, 1, 6)]
    ensures ParseSymbolInformationAsWritten("\n#escape=`", Uri) == [Expected(1, 1, 6)]
    ensures ParseSymbolInformationAsWritten("\r\n#escape=`", Uri) == [Expected(1, 1, 6)]
  {
    LeadingCarriageReturn();
    LeadingLineFeed();
    LeadingCarriageReturnLineFeed();
  }

  lemma LeadingCarriageReturn()
    ensures ParseSymbolInformationAsWritten("\r#escape=`", Uri) == [Expected(1, 1, 6)]
  {
    EscapeAfterBreak(CR);
    assert TerminatorText(CR) + "#escape=`" == "\r#escape=`";
  }

  lemma LeadingLineFeed()
    ensures ParseSymbolInformationAsWritten("\n#escape=`", Uri) == [Expected(1, 1, 6)]
  {
    EscapeAfterBreak(LF);
    assert TerminatorText(LF) + "#escape=`" == "\n#escape=`";
  }

  lemma LeadingCarriageReturnLineFeed()
    ensures ParseSymbolInformationAsWritten("\r\n#escape=`", Uri) == [Expected(1, 1, 6)]
  {
    EscapeAfterBreak(CRLF);
    assert TerminatorText(CRLF) + "#escape=`" == "\r\n#escape=`";
  }

  /** On a one-line document holding the `escape` key, the as-written range
      covers "escap", one character short of the key it reports. */
  lemma AsWrittenRangeMissesLastCharacter(c: string, s: nat)
    requires NoLineBreak(c) && IsDirectiveKey(c, s, s + 6) && c[s..s + 6] == "escape"
    ensures |ParseSymbolInformationAsWritten(c, Uri)| == 1
    ensures var r := ParseSymbolInformationAsWritten(c, Uri)[0].location.range;
      && r.start.character <= r.end.character <= |c|
      && c[r.start.character..r.end.character] == "escap"
  {
    EscapeAt(c, s);
    assert c[s..s + 5] == c[s..s + 6][..5];
  }
}
