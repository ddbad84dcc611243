/** The document symbol extractor: every parser directive in the leading
    block of comment and blank lines is reported as a property symbol whose
    range is the directive's key. */
module DocumentSymbols {

  import opened Protocol
  import opened Text
  import opened Instructions

  /** A key is a run of characters that are neither blank nor `=`. */
  predicate IsKeyChar(ch: char) { !IsBlank(ch) && ch != '=' }

  /** The end of the run of key characters starting at `i`. */
  function KeyEnd(c: string, i: nat): (j: nat)
    requires i <= |c|
    ensures i <= j <= |c|
    ensures forall k :: i <= k < j ==> IsKeyChar(c[k])
    ensures j == |c| || !IsKeyChar(c[j])
    decreases |c| - i
  {
    if i == |c| || !IsKeyChar(c[i]) then i else KeyEnd(c, i + 1)
  }

  /** Columns [s, e) of line `c` hold a directive key: the line is blanks, one
      `#`, blanks, the key, blanks and then `=` (the value after it is free). */
  predicate IsDirectiveKey(c: string, s: nat, e: nat)
  {
    && s < e < |c|
    && (exists h :: 0 <= h < s && c[h] == '#' && forall j :: 0 <= j < s && j != h ==> IsBlank(c[j]))
    && (forall j :: s <= j < e ==> IsKeyChar(c[j]))
    && (exists t :: e <= t < |c| && c[t] == '=' && forall j :: e <= j < t ==> IsBlank(c[j]))
  }

  /** A directive key and its columns [start, end) on its line. */
  datatype Directive = Directive(name: string, start: nat, end: nat)

  /** The directive a line declares, if it declares one. */
  function DirectiveAt(c: string): (r: Option<Directive>)
    ensures r.Some? ==> IsComment(c)
    ensures r.Some? ==> IsDirectiveKey(c, r.value.start, r.value.end) && r.value.name == c[r.value.start..r.value.end]
  {
    var h := SkipBlanks(c, 0);
    if h == |c| || c[h] != '#' then None
    else
      var s := SkipBlanks(c, h + 1);
      var e := KeyEnd(c, s);
      var t := SkipBlanks(c, e);
      if s < e && t < |c| && c[t] == '=' then
        assert forall j :: 0 <= j < s && j != h ==> IsBlank(c[j]) by {
          forall j | 0 <= j < s && j != h ensures IsBlank(c[j]) {
            if j > h { assert h + 1 <= j < s; }
          }
        }
        Some(Directive(c[s..e], s, e))
      else None
  }

  lemma FirstNonBlank(c: string, i: nat, k: nat)
    requires i <= k < |c| && !IsBlank(c[k])
    requires forall j :: i <= j < k ==> IsBlank(c[j])
    ensures SkipBlanks(c, i) == k
  {
  }

  lemma FirstNonKey(c: string, i: nat, k: nat)
    requires i <= k < |c| && !IsKeyChar(c[k])
    requires forall j :: i <= j < k ==> IsKeyChar(c[j])
    ensures KeyEnd(c, i) == k
  {
  }

  /** Whatever columns hold a directive key, DirectiveAt finds exactly them. */
  lemma DirectiveAtComplete(c: string, s: nat, e: nat)
    requires IsDirectiveKey(c, s, e)
    ensures DirectiveAt(c) == Some(Directive(c[s..e], s, e))
  {
    var h :| 0 <= h < s && c[h] == '#' && forall j :: 0 <= j < s && j != h ==> IsBlank(c[j]);
    var t :| e <= t < |c| && c[t] == '=' && forall j :: e <= j < t ==> IsBlank(c[j]);
    FirstNonBlank(c, 0, h);
    assert IsKeyChar(c[s]);
    FirstNonBlank(c, h + 1, s);
    assert !IsKeyChar(c[e]) by {
      if e < t { assert IsBlank(c[e]); }
    }
    FirstNonKey(c, s, e);
    FirstNonBlank(c, e, t);
    DirectiveAtScanned(c, h, s, e, t);
  }

  /** DirectiveAt once its four scans are known. */
  lemma DirectiveAtScanned(c: string, h: nat, s: nat, e: nat, t: nat)
    requires h < |c| && c[h] == '#' && SkipBlanks(c, 0) == h
    requires h + 1 <= |c| && SkipBlanks(c, h + 1) == s
    requires s <= |c| && KeyEnd(c, s) == e && s < e
    requires SkipBlanks(c, e) == t && t < |c| && c[t] == '='
    ensures DirectiveAt(c) == Some(Directive(c[s..e], s, e))
  {
  }

  /** A directive together with the line it is on. */
  datatype Located = Located(line: nat, directive: Directive)

  /** A line that the tokenizer reads as an instruction ends the directive block. */
  predicate IsInstructionLine(c: string) { ParseInstruction(c).Some? }

  /** The directives on lines `k` and after, up to the first instruction. */
  function Directives(lines: seq<string>, k: nat): seq<Located>
    decreases |lines| - k
  {
    if k >= |lines| || IsInstructionLine(lines[k]) then []
    else
      match DirectiveAt(lines[k])
      case Some(d) => [Located(k, d)] + Directives(lines, k + 1)
      case None => Directives(lines, k + 1)
  }

  /** No instruction occurs on lines [k, l). */
  predicate LeadingFrom(lines: seq<string>, k: nat, l: nat)
    requires l <= |lines|
  {
    forall j :: k <= j < l ==> !IsInstructionLine(lines[j])
  }

  /** The directives found are exactly the directive lines that no instruction
      precedes, and they are listed line by line. */
  lemma {:induction false} DirectivesExact(lines: seq<string>, k: nat, x: Located)
    ensures x in Directives(lines, k) <==>
      k <= x.line < |lines| && LeadingFrom(lines, k, x.line + 1) && DirectiveAt(lines[x.line]) == Some(x.directive)
    decreases |lines| - k
  {
    if k < |lines| && !IsInstructionLine(lines[k]) {
      DirectivesExact(lines, k + 1, x);
      var rest := Directives(lines, k + 1);
      if k < x.line < |lines| {
        assert LeadingFrom(lines, k, x.line + 1) == LeadingFrom(lines, k + 1, x.line + 1);
      }
      match DirectiveAt(lines[k])
      case Some(d) =>
        assert Directives(lines, k) == [Located(k, d)] + rest;
      case None =>
        assert Directives(lines, k) == rest;
    }
  }

  lemma {:induction false} DirectivesOrdered(lines: seq<string>, k: nat)
    ensures forall x :: x in Directives(lines, k) ==> k <= x.line
    ensures forall i, j :: 0 <= i < j < |Directives(lines, k)| ==> Directives(lines, k)[i].line < Directives(lines, k)[j].line
    decreases |lines| - k
  {
    if k < |lines| && !IsInstructionLine(lines[k]) {
      DirectivesOrdered(lines, k + 1);
      var rest := Directives(lines, k + 1);
      if DirectiveAt(lines[k]).Some? {
        var all := Directives(lines, k);
        assert all == [Located(k, DirectiveAt(lines[k]).value)] + rest;
        forall i, j | 0 <= i < j < |all| ensures all[i].line < all[j].line {
          assert all[j] == rest[j - 1];
          if i > 0 { assert all[i] == rest[i - 1]; }
        }
      }
    }
  }

  /** The symbol of a directive: its key, as a property with no container,
      located at the key's columns. */
  function KeySymbol(uri: string, x: Located): SymbolInformation
  {
    SymbolInformation(x.directive.name, Property, None,
      Location(uri, Range(Position(x.line, x.directive.start), Position(x.line, x.directive.end))))
  }

  /** Directives that each sit on a line of `lines` and were found there. */
  predicate FoundIn(lines: seq<string>, ds: seq<Located>)
  {
    forall i :: 0 <= i < |ds| ==> ds[i].line < |lines| && DirectiveAt(lines[ds[i].line]) == Some(ds[i].directive)
  }

  lemma DirectivesFound(lines: seq<string>)
    ensures FoundIn(lines, Directives(lines, 0))
  {
    var ds := Directives(lines, 0);
    forall i | 0 <= i < |ds| ensures ds[i].line < |lines| && DirectiveAt(lines[ds[i].line]) == Some(ds[i].directive) {
      DirectivesExact(lines, 0, ds[i]);
    }
  }

  function KeySymbols(uri: string, ds: seq<Located>): seq<SymbolInformation>
  {
    seq(|ds|, i requires 0 <= i < |ds| => KeySymbol(uri, ds[i]))
  }

  /** The directive symbols of a document, in document order. */
  function ParseSymbolInformation(text: string, uri: string): (syms: seq<SymbolInformation>)
    ensures forall i :: 0 <= i < |syms| ==>
      var sym := syms[i];
      var l := sym.location.range.start.line;
      var r := sym.location.range;
      && sym.kind == Property && sym.containerName == None && sym.location.uri == uri
      && IsLineSpan(r) && l < |Lines(text)|
      && IsDirectiveKey(Lines(text)[l], r.start.character, r.end.character)
      && sym.name == Lines(text)[l][r.start.character..r.end.character]
  {
    DirectivesFound(Lines(text));
    KeySymbols(uri, Directives(Lines(text), 0))
  }

  /** Every directive key of the leading block is reported. */
  lemma ParseSymbolInformationComplete(text: string, uri: string, l: nat, s: nat, e: nat)
    requires l < |Lines(text)| && LeadingFrom(Lines(text), 0, l + 1)
    requires IsDirectiveKey(Lines(text)[l], s, e)
    ensures KeySymbol(uri, Located(l, Directive(Lines(text)[l][s..e], s, e))) in ParseSymbolInformation(text, uri)
  {
    var lines := Lines(text);
    var x := Located(l, Directive(lines[l][s..e], s, e));
    DirectiveAtComplete(lines[l], s, e);
    DirectivesExact(lines, 0, x);
    var ds := Directives(lines, 0);
    var i :| 0 <= i < |ds| && ds[i] == x;
    assert ParseSymbolInformation(text, uri)[i] == KeySymbol(uri, x);
  }

  /** Every reported symbol comes before the first instruction, and the
      symbols are listed in strictly increasing line order. */
  lemma ParseSymbolInformationLeading(text: string, uri: string)
    ensures var syms := ParseSymbolInformation(text, uri);
      && (forall i :: 0 <= i < |syms| ==> LeadingFrom(Lines(text), 0, syms[i].location.range.start.line + 1))
      && (forall i, j :: 0 <= i < j < |syms| ==> syms[i].location.range.start.line < syms[j].location.range.start.line)
  {
    var lines := Lines(text);
    var ds := Directives(lines, 0);
    DirectivesOrdered(lines, 0);
    forall i | 0 <= i < |ds| ensures ds[i].line < |lines| && LeadingFrom(lines, 0, ds[i].line + 1) {
      DirectivesExact(lines, 0, ds[i]);
    }
  }

  /** A document without a directive-shaped line before its first instruction
      has no symbols. */
  lemma ParseSymbolInformationNone(text: string, uri: string)
    requires forall l :: 0 <= l < |Lines(text)| && LeadingFrom(Lines(text), 0, l + 1) ==> DirectiveAt(Lines(text)[l]).None?
    ensures ParseSymbolInformation(text, uri) == []
  {
    var lines := Lines(text);
    var ds := Directives(lines, 0);
    if |ds| > 0 {
      DirectivesExact(lines, 0, ds[0]);
    }
  }

  // -----------------------------------------------------------------------
  // Line shifting: a leading line break moves every directive down one line.

  function ShiftLocated(x: Located): Located
  {
    Located(x.line + 1, x.directive)
  }

  /** Every directive of `ds` moved down one line. */
  function Shifted(ds: seq<Located>): (r: seq<Located>)
    ensures |r| == |ds|
    ensures forall i :: 0 <= i < |ds| ==> r[i] == ShiftLocated(ds[i])
  {
    if ds == [] then [] else [ShiftLocated(ds[0])] + Shifted(ds[1..])
  }

  lemma {:induction false} DirectivesShift(lines: seq<string>, k: nat)
    ensures Directives([""] + lines, k + 1) == Shifted(Directives(lines, k))
    decreases |lines| - k
  {
    if k < |lines| {
      DirectivesShift(lines, k + 1);
      DirectivesShiftStep(lines, k);
    }
  }

  /** One line of DirectivesShift: line `k` of `lines` is line `k + 1` below a blank line. */
  lemma DirectivesShiftStep(lines: seq<string>, k: nat)
    requires k < |lines|
    requires Directives([""] + lines, k + 2) == Shifted(Directives(lines, k + 1))
    ensures Directives([""] + lines, k + 1) == Shifted(Directives(lines, k))
  {
    var big := [""] + lines;
    assert big[k + 1] == lines[k];
    DirectivesUnfold(lines, k);
    DirectivesUnfold(big, k + 1);
    ShiftedLine(IsInstructionLine(lines[k]), DirectiveAt(lines[k]), k, Directives(lines, k + 1));
  }

  /** What a line numbered `k` contributes in front of the directives `rest`
      after it, given whether it is an instruction and the directive found on it. */
  function LineDirectives(instruction: bool, found: Option<Directive>, k: nat, rest: seq<Located>): seq<Located>
  {
    if instruction then []
    else
      match found
      case Some(d) => [Located(k, d)] + rest
      case None => rest
  }

  lemma DirectivesUnfold(lines: seq<string>, k: nat)
    requires k < |lines|
    ensures Directives(lines, k) == LineDirectives(IsInstructionLine(lines[k]), DirectiveAt(lines[k]), k, Directives(lines, k + 1))
  {
  }

  lemma ShiftedLine(instruction: bool, found: Option<Directive>, k: nat, rest: seq<Located>)
    ensures Shifted(LineDirectives(instruction, found, k, rest)) == LineDirectives(instruction, found, k + 1, Shifted(rest))
  {
    if !instruction && found.Some? {
      ShiftedCons(Located(k, found.value), rest);
    }
  }

  lemma ShiftedCons(x: Located, rest: seq<Located>)
    ensures Shifted([x] + rest) == [ShiftLocated(x)] + Shifted(rest)
  {
    assert ([x] + rest)[1..] == rest;
  }

  /** The symbol moved down one line. */
  function ShiftSymbol(sym: SymbolInformation): SymbolInformation
  {
    var r := sym.location.range;
    sym.(location := sym.location.(range := Range(
      Position(r.start.line + 1, r.start.character), Position(r.end.line + 1, r.end.character))))
  }

  /** Prefixing a document with one line break, of any of the three styles,
      reports the same symbols one line lower. */
  lemma ParseSymbolInformationShift(br: Terminator, rest: string, uri: string)
    requires br != EndOfText
    requires br == CR ==> |rest| == 0 || rest[0] != '\n'
    ensures |ParseSymbolInformation(TerminatorText(br) + rest, uri)| == |ParseSymbolInformation(rest, uri)|
    ensures forall i :: 0 <= i < |ParseSymbolInformation(rest, uri)| ==>
      ParseSymbolInformation(TerminatorText(br) + rest, uri)[i] == ShiftSymbol(ParseSymbolInformation(rest, uri)[i])
  {
    var ds := Directives(Lines(rest), 0);
    DirectivesAfterBreak(br, rest);
    assert ParseSymbolInformation(TerminatorText(br) + rest, uri) == KeySymbols(uri, Directives(Lines(TerminatorText(br) + rest), 0));
    assert ParseSymbolInformation(rest, uri) == KeySymbols(uri, ds);
  }

  lemma DirectivesAfterBreak(br: Terminator, rest: string)
    requires br != EndOfText
    requires br == CR ==> |rest| == 0 || rest[0] != '\n'
    ensures var ds := Directives(Lines(rest), 0);
      Directives(Lines(TerminatorText(br) + rest), 0) == Shifted(ds)
  {
    LinesAfterBreak(br, rest);
    DirectivesBlankFirst(Lines(rest));
  }

  /** A blank first line shifts every directive down one line. */
  lemma DirectivesBlankFirst(lines: seq<string>)
    ensures var ds := Directives(lines, 0);
      Directives([""] + lines, 0) == Shifted(ds)
  {
    DirectivesBlankSkipped(lines);
    DirectivesShift(lines, 0);
  }

  lemma DirectivesBlankSkipped(lines: seq<string>)
    ensures Directives([""] + lines, 0) == Directives([""] + lines, 1)
  {
    var big := [""] + lines;
    assert big[0] == "";
    assert ParseInstruction("") == None;
    assert DirectiveAt("") == None;
  }

  // -----------------------------------------------------------------------
  // The extractor as written, whose ranges stop one column short.

  /** As written, the range ends at the key's last column instead of one past it. */
  function KeySymbolAsWritten(uri: string, x: Located): SymbolInformation
    requires x.directive.start < x.directive.end
  {
    SymbolInformation(x.directive.name, Property, None,
      Location(uri, Range(Position(x.line, x.directive.start), Position(x.line, x.directive.end - 1))))
  }

  /** The same symbol with its range's end moved one column left. */
  function ShortenEnd(sym: SymbolInformation): SymbolInformation
    requires sym.location.range.end.character > 0
  {
    var r := sym.location.range;
    sym.(location := sym.location.(range := r.(end := r.end.(character := r.end.character - 1))))
  }

  function ParseSymbolInformationAsWritten(text: string, uri: string): (syms: seq<SymbolInformation>)
    ensures |syms| == |ParseSymbolInformation(text, uri)|
    ensures forall i :: 0 <= i < |syms| ==> syms[i] == ShortenEnd(ParseSymbolInformation(text, uri)[i])
  {
    var ds := Directives(Lines(text), 0);
    DirectivesFound(Lines(text));
    seq(|ds|, i requires 0 <= i < |ds| => KeySymbolAsWritten(uri, ds[i]))
  }

  /** The as-written range covers the key without its last character. */
  lemma AsWrittenRangeShort(text: string, uri: string, i: nat)
    requires i < |ParseSymbolInformationAsWritten(text, uri)|
    ensures var sym := ParseSymbolInformationAsWritten(text, uri)[i];
      var r := sym.location.range;
      var l := r.start.line;
      && l < |Lines(text)| && r.start.character <= r.end.character < |Lines(text)[l]|
      && |sym.name| >= 1
      && Lines(text)[l][r.start.character..r.end.character] == sym.name[..|sym.name| - 1]
  {
    var good := ParseSymbolInformation(text, uri)[i];
    var r := good.location.range;
    var c := Lines(text)[r.start.line];
    assert IsDirectiveKey(c, r.start.character, r.end.character);
    SliceShortened(c, r.start.character, r.end.character, good.name);
  }

  /** Dropping the last column of a slice drops the last character of its text. */
  lemma SliceShortened(c: string, s: nat, e: nat, name: string)
    requires s < e <= |c| && name == c[s..e]
    ensures |name| >= 1 && c[s..e - 1] == name[..|name| - 1]
  {
  }

  /** A one-line document holding a directive reports exactly that directive. */
  lemma SingleLineDirective(c: string, s: nat, e: nat, uri: string)
    requires NoLineBreak(c) && IsDirectiveKey(c, s, e)
    ensures ParseSymbolInformation(c, uri) == [KeySymbol(uri, Located(0, Directive(c[s..e], s, e)))]
  {
    LinesSingle(c);
    DirectiveAtComplete(c, s, e);
    assert !IsInstructionLine(c);
    assert Directives([c], 0) == [Located(0, Directive(c[s..e], s, e))] + Directives([c], 1);
  }
}
