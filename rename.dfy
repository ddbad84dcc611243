/** The rename engine. Every line of the document is classified; the symbol
    under the cursor, if any, selects a family and a name, and every symbol of
    that family with exactly that name, anywhere in the document, is replaced
    by the new name. The edits come in document order. */
module Rename {

  import opened Protocol
  import opened Text
  import opened Instructions
  import opened Classifier

  /** A classified occurrence: its kind, its name and its single-line range. */
  datatype Symbol = Symbol(kind: Kind, name: string, range: Range)

  function SpanOf(s: Symbol): Span
  {
    Span(s.kind, s.range.start.character, s.range.end.character)
  }

  function ToSymbol(c: string, line: nat, sp: Span): Symbol
    requires sp.start <= sp.end <= |c|
  {
    Symbol(sp.kind, c[sp.start..sp.end], Range(Position(line, sp.start), Position(line, sp.end)))
  }

  /** Spans that lie inside line `c`, are non-empty and run left to right. */
  predicate SpansOfLine(c: string, sps: seq<Span>)
  {
    (forall i :: 0 <= i < |sps| ==> sps[i].start < sps[i].end <= |c|) && Ascending(sps)
  }

  /** The spans of family `f` on one line, with the facts every consumer needs. */
  lemma FamilySpansFacts(c: string, f: Family)
    ensures SpansOfLine(c, FamilySpans(c, f))
    ensures forall sp :: sp in FamilySpans(c, f) ==> FamilyOf(sp.kind) == f
  {
    FamilySpansDelimited(c, f);
  }

  lemma FamilySpansDelimited(c: string, f: Family)
    ensures forall sp :: sp in FamilySpans(c, f) ==> FamilyOf(sp.kind) == f && Delimited(c, sp)
    ensures Ascending(FamilySpans(c, f))
  {
    StageSpansDelimited(c);
    VariableSpansDelimited(c);
  }

  /** The symbols on line `line`, whose text is `c`, of the spans `sps`. */
  function LineSymbols(c: string, line: nat, sps: seq<Span>): (syms: seq<Symbol>)
    requires SpansOfLine(c, sps)
  {
    seq(|sps|, i requires 0 <= i < |sps| => ToSymbol(c, line, sps[i]))
  }

  /** One list of spans per line. */
  predicate SpansOfLines(lines: seq<string>, spans: seq<seq<Span>>)
  {
    |spans| == |lines| && forall i :: 0 <= i < |lines| ==> SpansOfLine(lines[i], spans[i])
  }

  /** The symbols of lines `k` and after, in document order. */
  function Collect(lines: seq<string>, spans: seq<seq<Span>>, k: nat): seq<Symbol>
    requires SpansOfLines(lines, spans)
    decreases |lines| - k
  {
    if k >= |lines| then [] else LineSymbols(lines[k], k, spans[k]) + Collect(lines, spans, k + 1)
  }

  /** The spans of family `f`, line by line. */
  function Classify(lines: seq<string>, f: Family): (spans: seq<seq<Span>>)
    ensures SpansOfLines(lines, spans)
  {
    forall i | 0 <= i < |lines| ensures SpansOfLine(lines[i], FamilySpans(lines[i], f)) {
      FamilySpansFacts(lines[i], f);
    }
    seq(|lines|, i requires 0 <= i < |lines| => FamilySpans(lines[i], f))
  }

  function FamilySymbols(text: string, f: Family): seq<Symbol>
  {
    var lines := Lines(text);
    Collect(lines, Classify(lines, f), 0)
  }

  /** Every classified symbol of the document. */
  function AllSymbols(text: string): seq<Symbol>
  {
    FamilySymbols(text, Stage) + FamilySymbols(text, Variable)
  }

  /** The symbols of `syms` whose name is exactly `name`, in their order. */
  function Filter(syms: seq<Symbol>, name: string): (g: seq<Symbol>)
    ensures forall s :: s in g <==> s in syms && s.name == name
  {
    if syms == [] then []
    else if syms[0].name == name then [syms[0]] + Filter(syms[1..], name)
    else Filter(syms[1..], name)
  }

  /** The equivalence group of a family and a name: every occurrence of the
      family with exactly that name, anywhere in the document. */
  function Group(text: string, f: Family, name: string): (g: seq<Symbol>)
    ensures forall s :: s in g <==> s in FamilySymbols(text, f) && s.name == name
  {
    Filter(FamilySymbols(text, f), name)
  }

  /** The first symbol of `syms` whose range contains `p`. */
  function Find(syms: seq<Symbol>, p: Position): (r: Option<Symbol>)
    ensures r.Some? ==> r.value in syms && Contains(r.value.range, p)
    ensures r.None? ==> forall s :: s in syms ==> !Contains(s.range, p)
  {
    if syms == [] then None
    else if Contains(syms[0].range, p) then Some(syms[0])
    else Find(syms[1..], p)
  }

  function SymbolAt(text: string, p: Position): Option<Symbol>
  {
    Find(AllSymbols(text), p)
  }

  function Edits(g: seq<Symbol>, newName: string): (edits: seq<TextEdit>)
    ensures |edits| == |g|
    ensures forall i :: 0 <= i < |g| ==> edits[i] == TextEdit(g[i].range, newName)
  {
    seq(|g|, i requires 0 <= i < |g| => TextEdit(g[i].range, newName))
  }

  predicate SymbolsAscending(syms: seq<Symbol>)
  {
    forall i, j :: 0 <= i < j < |syms| ==> Precedes(syms[i].range, syms[j].range)
  }

  predicate EditsAscending(edits: seq<TextEdit>)
  {
    forall i, j :: 0 <= i < j < |edits| ==> Precedes(edits[i].range, edits[j].range)
  }

  /** rename(document, position, newName): the edits renaming the symbol
      under the cursor, or none when the cursor is on no symbol. */
  function Rename(text: string, position: Position, newName: string): (edits: seq<TextEdit>)
    ensures edits == [] <==> forall s :: s in AllSymbols(text) ==> !Contains(s.range, position)
    ensures edits != [] ==> exists i :: 0 <= i < |edits| && Contains(edits[i].range, position)
    ensures forall i :: 0 <= i < |edits| ==> edits[i].newText == newName && IsLineSpan(edits[i].range)
    ensures EditsAscending(edits)
  {
    match SymbolAt(text, position)
    case None => []
    case Some(s) =>
      GroupEdits(text, s, position, newName);
      Edits(Group(text, FamilyOf(s.kind), s.name), newName)
  }

  /** The edits of the group of a symbol under the cursor. */
  lemma GroupEdits(text: string, s: Symbol, position: Position, newName: string)
    requires s in AllSymbols(text) && Contains(s.range, position)
    ensures var edits := Edits(Group(text, FamilyOf(s.kind), s.name), newName);
      && (exists i :: 0 <= i < |edits| && Contains(edits[i].range, position))
      && (forall i :: 0 <= i < |edits| ==> edits[i].newText == newName && IsLineSpan(edits[i].range))
      && EditsAscending(edits)
  {
    var g := Group(text, FamilyOf(s.kind), s.name);
    SymbolInFamily(text, s);
    assert s in g;
    GroupFacts(text, FamilyOf(s.kind), s.name);
    var i :| 0 <= i < |g| && g[i] == s;
    assert Edits(g, newName)[i].range == s.range;
    EditsFollowSymbols(g, newName);
  }

  /** Edits keep the order and the shape of the symbols they come from. */
  lemma EditsFollowSymbols(g: seq<Symbol>, newName: string)
    requires SymbolsAscending(g) && forall s :: s in g ==> IsLineSpan(s.range)
    ensures var edits := Edits(g, newName);
      && EditsAscending(edits)
      && forall i :: 0 <= i < |edits| ==> edits[i].newText == newName && IsLineSpan(edits[i].range)
  {
    var edits := Edits(g, newName);
    forall i | 0 <= i < |edits| ensures IsLineSpan(edits[i].range) {
      assert g[i] in g;
    }
  }

  // ---------------------------------------------------------------------
  // Where symbols come from

  lemma {:induction false} CollectMember(lines: seq<string>, spans: seq<seq<Span>>, k: nat, s: Symbol)
    requires SpansOfLines(lines, spans) && s in Collect(lines, spans, k)
    ensures var l := s.range.start.line;
      && k <= l < |lines|
      && SpanOf(s) in spans[l]
      && SpanOf(s).start < SpanOf(s).end <= |lines[l]|
      && s == ToSymbol(lines[l], l, SpanOf(s))
    decreases |lines| - k
  {
    var here := LineSymbols(lines[k], k, spans[k]);
    if s in here {
      var i :| 0 <= i < |here| && here[i] == s;
      assert SpanOf(s) == spans[k][i];
    } else {
      CollectMember(lines, spans, k + 1, s);
    }
  }

  lemma {:induction false} CollectComplete(lines: seq<string>, spans: seq<seq<Span>>, k: nat, l: nat, sp: Span)
    requires SpansOfLines(lines, spans)
    requires k <= l < |lines| && sp in spans[l]
    ensures sp.start < sp.end <= |lines[l]|
    ensures ToSymbol(lines[l], l, sp) in Collect(lines, spans, k)
    decreases l - k
  {
    var i :| 0 <= i < |spans[l]| && spans[l][i] == sp;
    var here, rest := LineSymbols(lines[k], k, spans[k]), Collect(lines, spans, k + 1);
    assert Collect(lines, spans, k) == here + rest;
    if l == k {
      assert (here + rest)[i] == here[i] == ToSymbol(lines[l], l, sp);
    } else {
      CollectComplete(lines, spans, k + 1, l, sp);
    }
  }

  lemma {:induction false} CollectAscending(lines: seq<string>, spans: seq<seq<Span>>, k: nat)
    requires SpansOfLines(lines, spans)
    ensures SymbolsAscending(Collect(lines, spans, k))
    ensures forall s :: s in Collect(lines, spans, k) ==> k <= s.range.start.line
    decreases |lines| - k
  {
    if k < |lines| {
      var here := LineSymbols(lines[k], k, spans[k]);
      var rest := Collect(lines, spans, k + 1);
      CollectAscending(lines, spans, k + 1);
      var all := here + rest;
      forall i, j | 0 <= i < j < |all| ensures Precedes(all[i].range, all[j].range) {
        if j < |here| {
          assert all[i] == here[i] && all[j] == here[j];
        } else if i >= |here| {
          assert all[i] == rest[i - |here|] && all[j] == rest[j - |here|];
        } else {
          assert all[i] == here[i] && all[j] in rest;
        }
      }
    }
  }

  /** The symbols of a document written as its lines, from each line's spans. */
  lemma FamilySymbolsOfLines(lines: seq<string>, f: Family, spans: seq<seq<Span>>)
    requires |lines| >= 1 && forall i :: 0 <= i < |lines| ==> NoLineBreak(lines[i])
    requires |spans| == |lines| && forall i :: 0 <= i < |lines| ==> FamilySpans(lines[i], f) == spans[i]
    ensures SpansOfLines(lines, spans)
    ensures FamilySymbols(Join(lines), f) == Collect(lines, spans, 0)
  {
    LinesJoin(lines);
    assert Classify(lines, f) == spans;
  }

  /** A symbol of family `f` is a classified span of its line. */
  lemma FamilyMember(text: string, f: Family, s: Symbol)
    requires s in FamilySymbols(text, f)
    ensures FamilyOf(s.kind) == f
    ensures var l := s.range.start.line;
      && l < |Lines(text)|
      && SpanOf(s) in FamilySpans(Lines(text)[l], f)
      && Delimited(Lines(text)[l], SpanOf(s))
      && IsSymbolSpan(Lines(text)[l], SpanOf(s))
      && s == ToSymbol(Lines(text)[l], l, SpanOf(s))
  {
    var lines := Lines(text);
    CollectMember(lines, Classify(lines, f), 0, s);
    FamilySpansDelimited(lines[s.range.start.line], f);
    SpansExact(lines[s.range.start.line], SpanOf(s));
  }

  /** A symbol of the document is exactly a classified span of its line. */
  lemma SymbolInFamily(text: string, s: Symbol)
    requires s in AllSymbols(text)
    ensures s in FamilySymbols(text, FamilyOf(s.kind))
    ensures var l := s.range.start.line;
      && l < |Lines(text)|
      && SpanOf(s) in FamilySpans(Lines(text)[l], FamilyOf(s.kind))
      && Delimited(Lines(text)[l], SpanOf(s))
      && s == ToSymbol(Lines(text)[l], l, SpanOf(s))
  {
    var f := if s in FamilySymbols(text, Stage) then Stage else Variable;
    FamilyMember(text, f, s);
  }

  /** Every classified span of every line appears as a symbol of its family. */
  lemma FamilyComplete(text: string, f: Family, l: nat, sp: Span)
    requires l < |Lines(text)| && sp in FamilySpans(Lines(text)[l], f)
    ensures sp.start < sp.end <= |Lines(text)[l]|
    ensures ToSymbol(Lines(text)[l], l, sp) in FamilySymbols(text, f)
  {
    var lines := Lines(text);
    CollectComplete(lines, Classify(lines, f), 0, l, sp);
  }

  /** Conversely, every symbol span of every line, as the line's words
      define it, is a symbol of the document. */
  lemma SymbolComplete(text: string, l: nat, sp: Span)
    requires l < |Lines(text)| && IsSymbolSpan(Lines(text)[l], sp)
    ensures sp.start < sp.end <= |Lines(text)[l]|
    ensures ToSymbol(Lines(text)[l], l, sp) in AllSymbols(text)
  {
    SpansExact(Lines(text)[l], sp);
    FamilyComplete(text, FamilyOf(sp.kind), l, sp);
  }

  lemma {:induction false} FilterAscending(syms: seq<Symbol>, name: string)
    requires SymbolsAscending(syms)
    ensures SymbolsAscending(Filter(syms, name))
  {
    if syms != [] {
      var tl := syms[1..];
      assert SymbolsAscending(tl) by {
        forall i, j | 0 <= i < j < |tl| ensures Precedes(tl[i].range, tl[j].range) {
          assert tl[i] == syms[i + 1] && tl[j] == syms[j + 1];
        }
      }
      FilterAscending(tl, name);
      if syms[0].name == name {
        var g := [syms[0]] + Filter(tl, name);
        forall i, j | 0 <= i < j < |g| ensures Precedes(g[i].range, g[j].range) {
          if i == 0 {
            assert g[j] in tl;
            var k :| 0 <= k < |tl| && tl[k] == g[j];
            assert syms[k + 1] == g[j];
          }
        }
      }
    }
  }

  /** What an equivalence group is: every member is a single-line span of
      the family, and the members run in document order without overlap. */
  lemma GroupFacts(text: string, f: Family, name: string)
    ensures SymbolsAscending(Group(text, f, name))
    ensures forall s :: s in Group(text, f, name) ==> IsLineSpan(s.range) && FamilyOf(s.kind) == f
  {
    var lines := Lines(text);
    CollectAscending(lines, Classify(lines, f), 0);
    FilterAscending(FamilySymbols(text, f), name);
    forall s | s in Group(text, f, name) ensures IsLineSpan(s.range) && FamilyOf(s.kind) == f {
      FamilyMember(text, f, s);
    }
  }

  // ---------------------------------------------------------------------
  // The properties of rename

  /** No two symbols of a document overlap, so at most one is under the cursor. */
  lemma SymbolAtUnique(text: string, s1: Symbol, s2: Symbol, p: Position)
    requires s1 in AllSymbols(text) && s2 in AllSymbols(text)
    requires Contains(s1.range, p) && Contains(s2.range, p)
    ensures s1 == s2
  {
    SymbolInFamily(text, s1);
    SymbolInFamily(text, s2);
    var c := Lines(text)[p.line];
    SpanAtColumnUnique(c, FamilyOf(s1.kind), FamilyOf(s2.kind), SpanOf(s1), SpanOf(s2), p.character);
  }

  /** Renaming at any position inside any member of a group returns the
      edits of that whole group, the same list whichever member was chosen. */
  lemma RenameAtMember(text: string, s: Symbol, p: Position, newName: string)
    requires s in AllSymbols(text) && Contains(s.range, p)
    ensures Rename(text, p, newName) == Edits(Group(text, FamilyOf(s.kind), s.name), newName)
  {
    var t := SymbolAt(text, p);
    SymbolAtUnique(text, s, t.value, p);
  }

  /** Symmetry: renaming from inside any of the returned edits gives back
      the same edit list. */
  lemma RenameSymmetric(text: string, p: Position, q: Position, newName: string)
    requires exists i :: 0 <= i < |Rename(text, p, newName)| && Contains(Rename(text, p, newName)[i].range, q)
    ensures Rename(text, q, newName) == Rename(text, p, newName)
  {
    var edits := Rename(text, p, newName);
    var i :| 0 <= i < |edits| && Contains(edits[i].range, q);
    var s := SymbolAt(text, p).value;
    var f := FamilyOf(s.kind);
    var g := Group(text, f, s.name);
    var m := g[i];
    assert m in g;
    GroupFacts(text, f, s.name);
    assert m in FamilySymbols(text, f);
    assert m in AllSymbols(text);
    RenameAtMember(text, m, q, newName);
  }

  /** The edits are exactly the occurrences of the family that bear the
      name under the cursor: whichever symbol of the family has that name,
      it is edited, and nothing else is. */
  lemma RenameExact(text: string, s: Symbol, p: Position, newName: string, t: Symbol)
    requires s in AllSymbols(text) && Contains(s.range, p)
    requires t in FamilySymbols(text, FamilyOf(s.kind))
    ensures (exists i :: 0 <= i < |Rename(text, p, newName)| && Rename(text, p, newName)[i].range == t.range)
            <==> t.name == s.name
  {
    RenameAtMember(text, s, p, newName);
    GroupExact(text, FamilyOf(s.kind), s.name, newName, t);
  }

  /** The edits of a group reach a symbol of its family iff it bears the name. */
  lemma GroupExact(text: string, f: Family, name: string, newName: string, t: Symbol)
    requires t in FamilySymbols(text, f)
    ensures var edits := Edits(Group(text, f, name), newName);
      (exists i :: 0 <= i < |edits| && edits[i].range == t.range) <==> t.name == name
  {
    var g := Group(text, f, name);
    var edits := Edits(g, newName);
    if t.name == name {
      assert t in g;
      var i :| 0 <= i < |g| && g[i] == t;
      assert edits[i].range == t.range;
    } else {
      forall i | 0 <= i < |edits| ensures edits[i].range != t.range {
        assert g[i] in g;
        SameRangeSameSymbol(text, f, g[i], t);
      }
    }
  }

  /** Within one family, a range determines the symbol. */
  lemma SameRangeSameSymbol(text: string, f: Family, a: Symbol, b: Symbol)
    requires a in FamilySymbols(text, f) && b in FamilySymbols(text, f)
    ensures a.range == b.range ==> a == b
  {
    FamilyMember(text, f, a);
    FamilyMember(text, f, b);
    if a.range == b.range {
      var c := Lines(text)[a.range.start.line];
      SpanAtColumnUnique(c, f, f, SpanOf(a), SpanOf(b), SpanOf(a).start);
    }
  }

  /** The span of every symbol is its name and nothing else: the name is
      the text under the range, and it holds none of the punctuation (`$`,
      `{`, `--from=`, the blank after `AS`) that introduces it, and it sits
      where the line's words put a symbol of its kind. */
  lemma SymbolSpansName(text: string, s: Symbol)
    requires s in AllSymbols(text)
    ensures var l := s.range.start.line;
      && l < |Lines(text)| && IsLineSpan(s.range)
      && s.range.end.character <= |Lines(text)[l]|
      && s.name == Lines(text)[l][s.range.start.character..s.range.end.character]
      && Delimited(Lines(text)[l], SpanOf(s))
      && IsSymbolSpan(Lines(text)[l], SpanOf(s))
  {
    SymbolInFamily(text, s);
    SpansExact(Lines(text)[s.range.start.line], SpanOf(s));
  }
}
