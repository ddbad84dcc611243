/** The rename scenarios of the engine's behaviour, each document written as
    its lines joined by LF. */
module RenameExamples {

  import opened Protocol
  import opened Text
  import opened Instructions
  import opened Classifier
  import opened Rename
  import opened ScenarioLines

  function R(line: nat, start: nat, end: nat): Range
  {
    Range(Position(line, start), Position(line, end))
  }

  function Edit(line: nat, start: nat, end: nat): TextEdit
  {
    TextEdit(R(line, start, end), "renamed")
  }

  // -----------------------------------------------------------------------
  // From lines to symbols

  /** What one line classifies to: its stage spans and its variable spans. */
  predicate LineHas(c: string, st: seq<Span>, vs: seq<Span>)
  {
    NoLineBreak(c) && FamilySpans(c, Stage) == st && FamilySpans(c, Variable) == vs
  }

  /** What every line of a document classifies to, stated line after line. */
  predicate LinesHave(lines: seq<string>, stage: seq<seq<Span>>, variable: seq<seq<Span>>)
    decreases |lines|
  {
    |stage| == |lines| && |variable| == |lines|
    && (lines != [] ==> LineHas(lines[0], stage[0], variable[0]) && LinesHave(lines[1..], stage[1..], variable[1..]))
  }

  lemma LinesHaveCons(c: string, st: seq<Span>, vs: seq<Span>, lines: seq<string>, stage: seq<seq<Span>>, variable: seq<seq<Span>>)
    requires LineHas(c, st, vs) && LinesHave(lines, stage, variable)
    ensures LinesHave([c] + lines, [st] + stage, [vs] + variable)
  {
    assert ([c] + lines)[1..] == lines;
    assert ([st] + stage)[1..] == stage;
    assert ([vs] + variable)[1..] == variable;
  }

  lemma {:induction false} LinesHaveEach(lines: seq<string>, stage: seq<seq<Span>>, variable: seq<seq<Span>>)
    requires LinesHave(lines, stage, variable)
    ensures forall i :: 0 <= i < |lines| ==> LineHas(lines[i], stage[i], variable[i])
    decreases |lines|
  {
    if lines != [] {
      LinesHaveEach(lines[1..], stage[1..], variable[1..]);
      forall i | 1 <= i < |lines| ensures LineHas(lines[i], stage[i], variable[i]) {
        assert lines[i] == lines[1..][i - 1];
      }
    }
  }

  /** The symbols of a document whose per-line spans are known. */
  lemma SymbolsOfLines(lines: seq<string>, stage: seq<seq<Span>>, variable: seq<seq<Span>>)
    requires |lines| >= 1 && LinesHave(lines, stage, variable)
    ensures SpansOfLines(lines, stage) && SpansOfLines(lines, variable)
    ensures AllSymbols(Join(lines)) == Collect(lines, stage, 0) + Collect(lines, variable, 0)
    ensures FamilySymbols(Join(lines), Stage) == Collect(lines, stage, 0)
    ensures FamilySymbols(Join(lines), Variable) == Collect(lines, variable, 0)
  {
    LinesHaveEach(lines, stage, variable);
    FamilySymbolsOfLines(lines, Stage, stage);
    FamilySymbolsOfLines(lines, Variable, variable);
  }

  // -----------------------------------------------------------------------
  // FROM ... AS name

  function Other(f: Family): Family
  {
    if f == Stage then Variable else Stage
  }

  /** When the symbol under the cursor is the only one of its family with its
      name, the rename is that one edit. */
  lemma RenameSingleton(text: string, s: Symbol, p: Position)
    requires s in AllSymbols(text) && Contains(s.range, p)
    requires Group(text, FamilyOf(s.kind), s.name) == [s]
    ensures Rename.Rename(text, p, "renamed") == [TextEdit(s.range, "renamed")]
  {
    RenameAtMember(text, s, p, "renamed");
  }

  /** The symbols of a one-line document. */
  lemma OneLineSymbols(c: string, st: seq<Span>, vs: seq<Span>)
    requires NoLineBreak(c)
    requires FamilySpans(c, Stage) == st && FamilySpans(c, Variable) == vs
    ensures SpansOfLine(c, st) && SpansOfLine(c, vs)
    ensures FamilySymbols(c, Stage) == LineSymbols(c, 0, st)
    ensures FamilySymbols(c, Variable) == LineSymbols(c, 0, vs)
  {
    var lines := [c];
    assert Join(lines) == c;
    LinesHaveCons(c, st, vs, [], [], []);
    assert [c] + [] == lines;
    SymbolsOfLines(lines, [st], [vs]);
    CollectLast(lines, [st], 0);
    CollectLast(lines, [vs], 0);
  }

  /** The symbols of the last line. */
  lemma CollectLast(lines: seq<string>, spans: seq<seq<Span>>, k: nat)
    requires SpansOfLines(lines, spans) && k + 1 == |lines|
    ensures Collect(lines, spans, k) == LineSymbols(lines[k], k, spans[k])
  {
    assert Collect(lines, spans, k + 1) == [];
  }

  /** The symbols of a line holding a single span. */
  lemma LineSymbolsOne(c: string, line: nat, sp: Span)
    requires sp.start < sp.end <= |c|
    ensures SpansOfLine(c, [sp])
    ensures LineSymbols(c, line, [sp]) == [ToSymbol(c, line, sp)]
  {
  }

  /** A one-line document holding a single symbol, of family `f`: a cursor
      inside it renames that symbol alone. */
  lemma RenameOneLine(c: string, f: Family, sp: Span, p: nat)
    requires NoLineBreak(c) && FamilyOf(sp.kind) == f
    requires FamilySpans(c, f) == [sp] && FamilySpans(c, Other(f)) == []
    requires sp.start <= p < sp.end <= |c|
    ensures Rename.Rename(c, Position(0, p), "renamed") == [Edit(0, sp.start, sp.end)]
  {
    if f == Stage {
      OneLineSymbols(c, [sp], []);
    } else {
      OneLineSymbols(c, [], [sp]);
    }
    LineSymbolsOne(c, 0, sp);
    var s := ToSymbol(c, 0, sp);
    assert s in AllSymbols(c);
    assert Filter([s], s.name) == [s];
    RenameSingleton(c, s, Position(0, p));
  }

  /** "no COPY": the cursor in the stage name renames its one declaration. */
  lemma RenameStageAlone(c: string)
    requires c == Spaced(["FROM", "node", "AS", "bootstrap"])
    ensures Rename.Rename(c, Position(0, 17), "renamed") == [Edit(0, 13, 22)]
  {
    FromAsLine(c);
    RenameOneLine(c, Stage, Span(StageDeclaration, 13, 22), 17);
  }

  // -----------------------------------------------------------------------
  // Unrolling the line-by-line collection

  lemma {:induction false} CollectNone(lines: seq<string>, spans: seq<seq<Span>>, k: nat)
    requires SpansOfLines(lines, spans)
    requires forall i :: k <= i < |lines| ==> spans[i] == []
    ensures Collect(lines, spans, k) == []
    decreases |lines| - k
  {
    if k < |lines| {
      CollectNone(lines, spans, k + 1);
    }
  }

  /** Lines without spans contribute nothing. */
  lemma {:induction false} CollectSkip(lines: seq<string>, spans: seq<seq<Span>>, k: nat, l: nat)
    requires SpansOfLines(lines, spans) && k <= l <= |lines|
    requires forall i :: k <= i < l ==> spans[i] == []
    ensures Collect(lines, spans, k) == Collect(lines, spans, l)
    decreases l - k
  {
    if k < l {
      CollectSkip(lines, spans, k + 1, l);
    }
  }

  /** Lines holding one span each contribute one symbol each, in order. */
  lemma {:induction false} CollectSingles(lines: seq<string>, spans: seq<seq<Span>>, k: nat)
    requires SpansOfLines(lines, spans) && k <= |lines|
    requires forall i :: k <= i < |lines| ==> |spans[i]| == 1
    ensures var syms := Collect(lines, spans, k);
      |syms| == |lines| - k
      && forall j :: 0 <= j < |syms| ==> syms[j] == ToSymbol(lines[k + j], k + j, spans[k + j][0])
    decreases |lines| - k
  {
    if k < |lines| {
      CollectSingles(lines, spans, k + 1);
      var rest := Collect(lines, spans, k + 1);
      var syms := Collect(lines, spans, k);
      assert syms == LineSymbols(lines[k], k, spans[k]) + rest;
      forall j | 0 <= j < |syms|
        ensures syms[j] == ToSymbol(lines[k + j], k + j, spans[k + j][0])
      {
        if j > 0 {
          assert syms[j] == rest[j - 1];
        }
      }
    }
  }

  /** A list of symbols that already share a name filters to itself. */
  lemma {:induction false} FilterAll(syms: seq<Symbol>, name: string)
    requires forall s :: s in syms ==> s.name == name
    ensures Filter(syms, name) == syms
  {
    if syms != [] {
      assert syms[0] in syms;
      FilterAll(syms[1..], name);
      assert [syms[0]] + syms[1..] == syms;
    }
  }

  // -----------------------------------------------------------------------
  // Documents of variables

  /** Column span `sp` of line `c` reads "var". */
  predicate NamesVar(c: string, sp: Span)
  {
    sp.start <= sp.end <= |c| && c[sp.start..sp.end] == "var"
  }

  /** The shape of a variable document: no stage spans, no variable spans
      before line `k`, and from `k` on the one variable span `vs[i]`, which
      reads "var". */
  predicate VariableShape(lines: seq<string>, stage: seq<seq<Span>>, variable: seq<seq<Span>>, vs: seq<Span>, k: nat)
  {
    && k <= |lines| == |stage| == |variable| == |vs|
    && (forall i :: 0 <= i < |lines| ==> stage[i] == [])
    && (forall i :: 0 <= i < k ==> variable[i] == [])
    && (forall i :: k <= i < |lines| ==> variable[i] == [vs[i]] && NamesVar(lines[i], vs[i]) && FamilyOf(vs[i].kind) == Variable)
  }

  /** The symbols of a variable document: one per line from `k` on. */
  lemma VariableDocumentSymbols(lines: seq<string>, stage: seq<seq<Span>>, variable: seq<seq<Span>>, vs: seq<Span>, k: nat)
    requires |lines| >= 1 && LinesHave(lines, stage, variable) && VariableShape(lines, stage, variable, vs, k)
    ensures var syms := AllSymbols(Join(lines));
      && syms == FamilySymbols(Join(lines), Variable)
      && |syms| == |lines| - k
      && forall j :: 0 <= j < |syms| ==> syms[j] == Symbol(vs[k + j].kind, "var", R(k + j, vs[k + j].start, vs[k + j].end))
  {
    SymbolsOfLines(lines, stage, variable);
    CollectNone(lines, stage, 0);
    CollectSkip(lines, variable, 0, k);
    CollectSingles(lines, variable, k);
  }

  /** When every symbol of the cursor's family shares its name, the rename
      edits the whole family. */
  lemma RenameWholeFamily(text: string, s: Symbol, p: Position)
    requires s in AllSymbols(text) && Contains(s.range, p)
    requires forall t :: t in FamilySymbols(text, FamilyOf(s.kind)) ==> t.name == s.name
    ensures Rename.Rename(text, p, "renamed") == Edits(FamilySymbols(text, FamilyOf(s.kind)), "renamed")
  {
    FilterAll(FamilySymbols(text, FamilyOf(s.kind)), s.name);
    RenameAtMember(text, s, p, "renamed");
  }

  /** One edit per span of `vs` from index `k` on, on the span's own line. */
  function VariableEdits(vs: seq<Span>, k: nat): (edits: seq<TextEdit>)
    requires k <= |vs|
    ensures |edits| == |vs| - k
  {
    seq(|vs| - k, j requires 0 <= j < |vs| - k => Edit(k + j, vs[k + j].start, vs[k + j].end))
  }

  /** A document whose lines from `k` on each hold one variable occurrence
      named "var", and whose earlier lines hold none: the cursor inside any
      occurrence renames all of them, one edit per line from `k` on. */
  lemma RenameVariableDocument(lines: seq<string>, stage: seq<seq<Span>>, variable: seq<seq<Span>>, vs: seq<Span>,
                               k: nat, l: nat, p: nat)
    requires |lines| >= 1 && LinesHave(lines, stage, variable) && VariableShape(lines, stage, variable, vs, k)
    requires k <= l < |lines| && vs[l].start <= p < vs[l].end
    ensures Rename.Rename(Join(lines), Position(l, p), "renamed") == VariableEdits(vs, k)
  {
    var text := Join(lines);
    VariableDocumentSymbols(lines, stage, variable, vs, k);
    var syms := FamilySymbols(text, Variable);
    var s := syms[l - k];
    assert s in AllSymbols(text);
    forall t | t in syms ensures t.name == "var" {
    }
    RenameWholeFamily(text, s, Position(l, p));
    VariableSymbolEdits(syms, vs, k);
  }

  lemma VariableSymbolEdits(syms: seq<Symbol>, vs: seq<Span>, k: nat)
    requires k <= |vs| && |syms| == |vs| - k
    requires forall j :: 0 <= j < |syms| ==> syms[j] == Symbol(vs[k + j].kind, "var", R(k + j, vs[k + j].start, vs[k + j].end))
    ensures Edits(syms, "renamed") == VariableEdits(vs, k)
  {
    var a, b := Edits(syms, "renamed"), VariableEdits(vs, k);
    forall j | 0 <= j < |a| ensures a[j] == b[j] {
      assert a[j] == TextEdit(syms[j].range, "renamed");
    }
  }

  const BracedSpans := [Span(VariableDeclaration, 4, 7), Span(VariableReference, 13, 16),
                        Span(VariableReference, 7, 10), Span(VariableReference, 10, 13)]

  const BracedCursors := [Position(0, 5), Position(1, 13), Position(2, 7), Position(3, 11)]

  const BracedEdits := [Edit(0, 4, 7), Edit(1, 13, 16), Edit(2, 7, 10), Edit(3, 10, 13)]

  const BareSpans := [Span(VariableDeclaration, 4, 7), Span(VariableReference, 12, 15), Span(VariableReference, 6, 9),
                      Span(VariableReference, 9, 12), Span(VariableReference, 11, 14), Span(VariableReference, 11, 14)]

  const BareCursors := [Position(0, 5), Position(1, 13), Position(2, 7), Position(3, 11), Position(4, 12), Position(5, 13)]

  const BareEdits := [Edit(0, 4, 7), Edit(1, 12, 15), Edit(2, 6, 9), Edit(3, 9, 12), Edit(4, 11, 14), Edit(5, 11, 14)]

  /** A declaration line of "var" at columns [4, 7). */
  predicate DeclaresVar(decl: string)
  {
    LineHas(decl, [], [Span(VariableDeclaration, 4, 7)]) && NamesVar(decl, Span(VariableDeclaration, 4, 7))
  }

  /** Each declaration line of the variable scenarios declares "var" at
      columns [4, 7), with or without a value. */
  lemma DeclarationLines(av: string, ev: string, es: string, ab: string, eb: string)
    requires av == Spaced(["ARG", "var=value"]) && ev == Spaced(["ENV", "var=value"])
    requires es == Spaced(["ENV", "var", "value"])
    requires ab == Spaced(["ARG", "var"]) && eb == Spaced(["ENV", "var"])
    ensures DeclaresVar(av) && DeclaresVar(ev) && DeclaresVar(es) && DeclaresVar(ab) && DeclaresVar(eb)
  {
    ArgValueLine(av);
    EnvValueLine(ev);
    EnvSpaceValueLine(es);
    ArgBareLine(ab);
    EnvBareLine(eb);
  }

  predicate BracedReferences(a: string, b: string, d: string)
  {
    a == Spaced(["STOPSIGNAL", "${var}"]) && b == Spaced(["USER", "${var}"]) && d == Spaced(["WORKDIR", "${var}"])
  }

  predicate BareReferences(a: string, b: string, d: string, e: string, g: string)
  {
    && a == Spaced(["STOPSIGNAL", "$var"]) && b == Spaced(["USER", "$var"]) && d == Spaced(["WORKDIR", "$var"])
    && e == Spaced(["RUN", "echo", "\"$var\""]) && g == Spaced(["RUN", "echo", "'$var'"])
  }

  /** A reference line holding "var" at the span `sp`. */
  predicate ReferencesVar(c: string, sp: Span)
  {
    LineHas(c, [], [sp]) && NamesVar(c, sp)
  }

  lemma BracedReferenceLines(a: string, b: string, d: string)
    requires BracedReferences(a, b, d)
    ensures ReferencesVar(a, BracedSpans[1]) && ReferencesVar(b, BracedSpans[2]) && ReferencesVar(d, BracedSpans[3])
  {
    StopsignalBracedLine(a);
    UserBracedLine(b);
    WorkdirBracedLine(d);
  }

  lemma BareReferenceLines(a: string, b: string, d: string, e: string, g: string)
    requires BareReferences(a, b, d, e, g)
    ensures ReferencesVar(a, BareSpans[1]) && ReferencesVar(b, BareSpans[2]) && ReferencesVar(d, BareSpans[3])
    ensures ReferencesVar(e, BareSpans[4]) && ReferencesVar(g, BareSpans[5])
  {
    BareUnquotedLines(a, b, d);
    BareQuotedLines(e, g);
  }

  lemma BareUnquotedLines(a: string, b: string, d: string)
    requires a == Spaced(["STOPSIGNAL", "$var"]) && b == Spaced(["USER", "$var"]) && d == Spaced(["WORKDIR", "$var"])
    ensures ReferencesVar(a, BareSpans[1]) && ReferencesVar(b, BareSpans[2]) && ReferencesVar(d, BareSpans[3])
  {
    StopsignalBare(a);
    UserBare(b);
    WorkdirBare(d);
  }

  lemma StopsignalBare(c: string)
    requires c == Spaced(["STOPSIGNAL", "$var"])
    ensures ReferencesVar(c, BareSpans[1])
  {
    StopsignalBareLine(c);
  }

  lemma UserBare(c: string)
    requires c == Spaced(["USER", "$var"])
    ensures ReferencesVar(c, BareSpans[2])
  {
    UserBareLine(c);
  }

  lemma WorkdirBare(c: string)
    requires c == Spaced(["WORKDIR", "$var"])
    ensures ReferencesVar(c, BareSpans[3])
  {
    WorkdirBareLine(c);
  }

  lemma BareQuotedLines(e: string, g: string)
    requires e == Spaced(["RUN", "echo", "\"$var\""]) && g == Spaced(["RUN", "echo", "'$var'"])
    ensures ReferencesVar(e, BareSpans[4]) && ReferencesVar(g, BareSpans[5])
  {
    RunDoubleQuotedLine(e);
    RunSingleQuotedLine(g);
  }

  lemma BracedLines(decl: string, a: string, b: string, d: string)
    requires DeclaresVar(decl)
    requires ReferencesVar(a, BracedSpans[1]) && ReferencesVar(b, BracedSpans[2]) && ReferencesVar(d, BracedSpans[3])
    ensures LinesHave([decl] + ([a] + ([b] + ([d] + []))), [[]] + ([[]] + ([[]] + ([[]] + []))),
                      [[BracedSpans[0]]] + ([[BracedSpans[1]]] + ([[BracedSpans[2]]] + ([[BracedSpans[3]]] + []))))
  {
    LinesHaveCons(d, [], [BracedSpans[3]], [], [], []);
    LinesHaveCons(b, [], [BracedSpans[2]], [d] + [], [[]] + [], [[BracedSpans[3]]] + []);
    LinesHaveCons(a, [], [BracedSpans[1]], [b] + ([d] + []), [[]] + ([[]] + []), [[BracedSpans[2]]] + ([[BracedSpans[3]]] + []));
    LinesHaveCons(decl, [], [BracedSpans[0]], [a] + ([b] + ([d] + [])), [[]] + ([[]] + ([[]] + [])),
                  [[BracedSpans[1]]] + ([[BracedSpans[2]]] + ([[BracedSpans[3]]] + [])));
  }

  /** Where each line of a `${var}` document holds its one occurrence. */
  lemma BracedShape(decl: string, a: string, b: string, d: string)
    requires NamesVar(decl, BracedSpans[0]) && NamesVar(a, BracedSpans[1]) && NamesVar(b, BracedSpans[2]) && NamesVar(d, BracedSpans[3])
    ensures VariableShape([decl, a, b, d], [[]] + ([[]] + ([[]] + ([[]] + []))),
                          [[BracedSpans[0]]] + ([[BracedSpans[1]]] + ([[BracedSpans[2]]] + ([[BracedSpans[3]]] + []))), BracedSpans, 0)
  {
  }

  /** A cursor anywhere inside the occurrence on line `l`. */
  lemma RenameBracedAt(lines: seq<string>, stage: seq<seq<Span>>, variable: seq<seq<Span>>, l: nat, p: nat)
    requires |lines| == 4 && LinesHave(lines, stage, variable) && VariableShape(lines, stage, variable, BracedSpans, 0)
    requires l < 4 && BracedSpans[l].start <= p < BracedSpans[l].end
    ensures Rename.Rename(Join(lines), Position(l, p), "renamed") == BracedEdits
  {
    RenameVariableDocument(lines, stage, variable, BracedSpans, 0, l, p);
    BracedEditsOfSpans();
  }

  lemma BracedEditsOfSpans()
    ensures VariableEdits(BracedSpans, 0) == BracedEdits
  {
  }

  /** "referenced variable ${var}": after any line declaring "var" at
      columns [4, 7), every cursor the scenario uses renames all four
      occurrences. */
  lemma RenameBraced(decl: string, a: string, b: string, d: string)
    requires DeclaresVar(decl) && BracedReferences(a, b, d)
    ensures forall l, p :: 0 <= l < 4 && BracedSpans[l].start <= p < BracedSpans[l].end ==>
      Rename.Rename(Join([decl, a, b, d]), Position(l, p), "renamed") == BracedEdits
  {
    BracedReferenceLines(a, b, d);
    RenameBracedOccurrences(decl, a, b, d);
  }

  /** The four cursors the braced scenarios rename at. */
  lemma RenameBracedCursors(decl: string, a: string, b: string, d: string)
    requires DeclaresVar(decl) && BracedReferences(a, b, d)
    ensures forall i :: 0 <= i < 4 ==> Rename.Rename(Join([decl, a, b, d]), BracedCursors[i], "renamed") == BracedEdits
  {
    RenameBraced(decl, a, b, d);
    BracedCursorsOf(Join([decl, a, b, d]));
  }

  lemma BracedCursorsOf(text: string)
    requires forall l, p :: 0 <= l < 4 && BracedSpans[l].start <= p < BracedSpans[l].end ==>
      Rename.Rename(text, Position(l, p), "renamed") == BracedEdits
    ensures forall i :: 0 <= i < 4 ==> Rename.Rename(text, BracedCursors[i], "renamed") == BracedEdits
  {
    BracedCursorsInSpans();
    forall i | 0 <= i < 4 ensures Rename.Rename(text, BracedCursors[i], "renamed") == BracedEdits {
      assert BracedCursors[i] == Position(i, BracedCursors[i].character);
    }
  }

  /** Each cursor lies on its own line, inside that line's span. */
  lemma BracedCursorsInSpans()
    ensures forall i :: 0 <= i < 4 ==> BracedCursors[i].line == i && BracedSpans[i].start <= BracedCursors[i].character < BracedSpans[i].end
  {
  }

  /** The same, for any lines holding "var" where the `${var}` lines do. */
  lemma RenameBracedOccurrences(decl: string, a: string, b: string, d: string)
    requires DeclaresVar(decl)
    requires ReferencesVar(a, BracedSpans[1]) && ReferencesVar(b, BracedSpans[2]) && ReferencesVar(d, BracedSpans[3])
    ensures forall l, p :: 0 <= l < 4 && BracedSpans[l].start <= p < BracedSpans[l].end ==>
      Rename.Rename(Join([decl, a, b, d]), Position(l, p), "renamed") == BracedEdits
  {
    BracedLines(decl, a, b, d);
    ListOfFour(decl, a, b, d);
    BracedShape(decl, a, b, d);
    forall l: nat, p: nat | l < 4 && BracedSpans[l].start <= p < BracedSpans[l].end
      ensures Rename.Rename(Join([decl, a, b, d]), Position(l, p), "renamed") == BracedEdits
    {
      RenameBracedAt([decl, a, b, d], [[]] + ([[]] + ([[]] + ([[]] + []))),
                     [[BracedSpans[0]]] + ([[BracedSpans[1]]] + ([[BracedSpans[2]]] + ([[BracedSpans[3]]] + []))), l, p);
    }
  }

  lemma ListOfFour<T>(w: T, x: T, y: T, z: T)
    ensures [w] + ([x] + ([y] + ([z] + []))) == [w, x, y, z]
  {
  }

  lemma BareLines(decl: string, a: string, b: string, d: string, e: string, g: string)
    requires DeclaresVar(decl)
    requires ReferencesVar(a, BareSpans[1]) && ReferencesVar(b, BareSpans[2]) && ReferencesVar(d, BareSpans[3])
    requires ReferencesVar(e, BareSpans[4]) && ReferencesVar(g, BareSpans[5])
    ensures LinesHave([decl] + ([a] + ([b] + ([d] + ([e] + ([g] + []))))),
                      [[]] + ([[]] + ([[]] + ([[]] + ([[]] + ([[]] + []))))),
                      [[BareSpans[0]]] + ([[BareSpans[1]]] + ([[BareSpans[2]]] + ([[BareSpans[3]]] + ([[BareSpans[4]]] + ([[BareSpans[5]]] + []))))))
  {
    LinesHaveCons(g, [], [BareSpans[5]], [], [], []);
    LinesHaveCons(e, [], [BareSpans[4]], [g] + [], [[]] + [], [[BareSpans[5]]] + []);
    LinesHaveCons(d, [], [BareSpans[3]], [e] + ([g] + []), [[]] + ([[]] + []), [[BareSpans[4]]] + ([[BareSpans[5]]] + []));
    LinesHaveCons(b, [], [BareSpans[2]], [d] + ([e] + ([g] + [])), [[]] + ([[]] + ([[]] + [])), [[BareSpans[3]]] + ([[BareSpans[4]]] + ([[BareSpans[5]]] + [])));
    LinesHaveCons(a, [], [BareSpans[1]], [b] + ([d] + ([e] + ([g] + []))), [[]] + ([[]] + ([[]] + ([[]] + []))), [[BareSpans[2]]] + ([[BareSpans[3]]] + ([[BareSpans[4]]] + ([[BareSpans[5]]] + []))));
    LinesHaveCons(decl, [], [BareSpans[0]], [a] + ([b] + ([d] + ([e] + ([g] + [])))), [[]] + ([[]] + ([[]] + ([[]] + ([[]] + [])))), [[BareSpans[1]]] + ([[BareSpans[2]]] + ([[BareSpans[3]]] + ([[BareSpans[4]]] + ([[BareSpans[5]]] + [])))));
  }

  lemma ListOfSix<T>(u: T, v: T, w: T, x: T, y: T, z: T)
    ensures [u] + ([v] + ([w] + ([x] + ([y] + ([z] + []))))) == [u, v, w, x, y, z]
  {
  }

  /** Where each line of a `$var` document holds its one occurrence. */
  lemma BareShape(decl: string, a: string, b: string, d: string, e: string, g: string)
    requires NamesVar(decl, BareSpans[0]) && NamesVar(a, BareSpans[1]) && NamesVar(b, BareSpans[2])
    requires NamesVar(d, BareSpans[3]) && NamesVar(e, BareSpans[4]) && NamesVar(g, BareSpans[5])
    ensures VariableShape([decl, a, b, d, e, g], [[]] + ([[]] + ([[]] + ([[]] + ([[]] + ([[]] + []))))),
                          [[BareSpans[0]]] + ([[BareSpans[1]]] + ([[BareSpans[2]]] + ([[BareSpans[3]]] + ([[BareSpans[4]]] + ([[BareSpans[5]]] + []))))),
                          BareSpans, 0)
  {
  }

  /** A cursor anywhere inside the occurrence on line `l`. */
  lemma RenameBareAt(lines: seq<string>, stage: seq<seq<Span>>, variable: seq<seq<Span>>, l: nat, p: nat)
    requires |lines| == 6 && LinesHave(lines, stage, variable) && VariableShape(lines, stage, variable, BareSpans, 0)
    requires l < 6 && BareSpans[l].start <= p < BareSpans[l].end
    ensures Rename.Rename(Join(lines), Position(l, p), "renamed") == BareEdits
  {
    RenameVariableDocument(lines, stage, variable, BareSpans, 0, l, p);
    BareEditsOfSpans();
  }

  lemma BareEditsOfSpans()
    ensures VariableEdits(BareSpans, 0) == BareEdits
  {
  }

  /** "referenced variable $var": after any line declaring "var" at columns
      [4, 7), every cursor the scenario uses renames all six occurrences,
      the two inside quotes included. */
  lemma RenameBare(decl: string, a: string, b: string, d: string, e: string, g: string)
    requires DeclaresVar(decl) && BareReferences(a, b, d, e, g)
    ensures forall l, p :: 0 <= l < 6 && BareSpans[l].start <= p < BareSpans[l].end ==>
      Rename.Rename(Join([decl, a, b, d, e, g]), Position(l, p), "renamed") == BareEdits
  {
    BareReferenceLines(a, b, d, e, g);
    RenameBareOccurrences(decl, a, b, d, e, g);
  }

  /** The six cursors the unbraced scenarios rename at. */
  lemma RenameBareCursors(decl: string, a: string, b: string, d: string, e: string, g: string)
    requires DeclaresVar(decl) && BareReferences(a, b, d, e, g)
    ensures forall i :: 0 <= i < 6 ==> Rename.Rename(Join([decl, a, b, d, e, g]), BareCursors[i], "renamed") == BareEdits
  {
    RenameBare(decl, a, b, d, e, g);
    BareCursorsOf(Join([decl, a, b, d, e, g]));
  }

  lemma BareCursorsOf(text: string)
    requires forall l, p :: 0 <= l < 6 && BareSpans[l].start <= p < BareSpans[l].end ==>
      Rename.Rename(text, Position(l, p), "renamed") == BareEdits
    ensures forall i :: 0 <= i < 6 ==> Rename.Rename(text, BareCursors[i], "renamed") == BareEdits
  {
    BareCursorsInSpans();
    forall i | 0 <= i < 6 ensures Rename.Rename(text, BareCursors[i], "renamed") == BareEdits {
      assert BareCursors[i] == Position(i, BareCursors[i].character);
    }
  }

  /** Each cursor lies on its own line, inside that line's span. */
  lemma BareCursorsInSpans()
    ensures forall i :: 0 <= i < 6 ==> BareCursors[i].line == i && BareSpans[i].start <= BareCursors[i].character < BareSpans[i].end
  {
  }

  /** The same, for any lines holding "var" where the `$var` lines do. */
  lemma RenameBareOccurrences(decl: string, a: string, b: string, d: string, e: string, g: string)
    requires DeclaresVar(decl)
    requires ReferencesVar(a, BareSpans[1]) && ReferencesVar(b, BareSpans[2]) && ReferencesVar(d, BareSpans[3])
    requires ReferencesVar(e, BareSpans[4]) && ReferencesVar(g, BareSpans[5])
    ensures forall l, p :: 0 <= l < 6 && BareSpans[l].start <= p < BareSpans[l].end ==>
      Rename.Rename(Join([decl, a, b, d, e, g]), Position(l, p), "renamed") == BareEdits
  {
    BareLines(decl, a, b, d, e, g);
    ListOfSix(decl, a, b, d, e, g);
    BareShape(decl, a, b, d, e, g);
    forall l: nat, p: nat | l < 6 && BareSpans[l].start <= p < BareSpans[l].end
      ensures Rename.Rename(Join([decl, a, b, d, e, g]), Position(l, p), "renamed") == BareEdits
    {
      RenameBareAt([decl, a, b, d, e, g], [[]] + ([[]] + ([[]] + ([[]] + ([[]] + ([[]] + []))))),
                   [[BareSpans[0]]] + ([[BareSpans[1]]] + ([[BareSpans[2]]] + ([[BareSpans[3]]] + ([[BareSpans[4]]] + ([[BareSpans[5]]] + []))))), l, p);
    }
  }

  const UndeclaredBracedEdits := [Edit(1, 13, 16), Edit(2, 7, 10), Edit(3, 10, 13)]

  const UndeclaredBareSpans := [Span(VariableReference, 0, 0), Span(VariableReference, 12, 15),
                                Span(VariableReference, 6, 9), Span(VariableReference, 9, 12)]

  const UndeclaredBareEdits := [Edit(1, 12, 15), Edit(2, 6, 9), Edit(3, 9, 12)]

  /** A line without stage or variable symbols, such as `FROM busybox`. */
  predicate Unrelated(c: string)
  {
    LineHas(c, [], [])
  }

  /** "non-existent variable ${var}": after `FROM busybox`, which declares
      nothing, the three references still rename one another. */
  lemma RenameUndeclaredBraced(first: string, a: string, b: string, d: string)
    requires first == Spaced(["FROM", "busybox"]) && BracedReferences(a, b, d)
    ensures forall l, p :: 1 <= l < 4 && BracedSpans[l].start <= p < BracedSpans[l].end ==>
      Rename.Rename(Join([first, a, b, d]), Position(l, p), "renamed") == UndeclaredBracedEdits
  {
    FromBusyboxLine(first);
    BracedReferenceLines(a, b, d);
    RenameUndeclaredBracedOccurrences(first, a, b, d);
  }

  lemma RenameUndeclaredBracedOccurrences(first: string, a: string, b: string, d: string)
    requires Unrelated(first)
    requires ReferencesVar(a, BracedSpans[1]) && ReferencesVar(b, BracedSpans[2]) && ReferencesVar(d, BracedSpans[3])
    ensures forall l, p :: 1 <= l < 4 && BracedSpans[l].start <= p < BracedSpans[l].end ==>
      Rename.Rename(Join([first, a, b, d]), Position(l, p), "renamed") == UndeclaredBracedEdits
  {
    UndeclaredBracedLines(first, a, b, d);
    ListOfFour(first, a, b, d);
    UndeclaredBracedShape(first, a, b, d);
    forall l: nat, p: nat | 1 <= l < 4 && BracedSpans[l].start <= p < BracedSpans[l].end
      ensures Rename.Rename(Join([first, a, b, d]), Position(l, p), "renamed") == UndeclaredBracedEdits
    {
      RenameUndeclaredBracedAt([first, a, b, d], [[]] + ([[]] + ([[]] + ([[]] + []))),
                     [[]] + ([[BracedSpans[1]]] + ([[BracedSpans[2]]] + ([[BracedSpans[3]]] + []))), l, p);
    }
  }

  lemma UndeclaredBracedLines(first: string, a: string, b: string, d: string)
    requires Unrelated(first)
    requires ReferencesVar(a, BracedSpans[1]) && ReferencesVar(b, BracedSpans[2]) && ReferencesVar(d, BracedSpans[3])
    ensures LinesHave([first] + ([a] + ([b] + ([d] + []))), [[]] + ([[]] + ([[]] + ([[]] + []))),
                      [[]] + ([[BracedSpans[1]]] + ([[BracedSpans[2]]] + ([[BracedSpans[3]]] + []))))
  {
    LinesHaveCons(d, [], [BracedSpans[3]], [], [], []);
    LinesHaveCons(b, [], [BracedSpans[2]], [d] + [], [[]] + [], [[BracedSpans[3]]] + []);
    LinesHaveCons(a, [], [BracedSpans[1]], [b] + ([d] + []), [[]] + ([[]] + []), [[BracedSpans[2]]] + ([[BracedSpans[3]]] + []));
    LinesHaveCons(first, [], [], [a] + ([b] + ([d] + [])), [[]] + ([[]] + ([[]] + [])),
                  [[BracedSpans[1]]] + ([[BracedSpans[2]]] + ([[BracedSpans[3]]] + [])));
  }

  lemma UndeclaredBracedShape(first: string, a: string, b: string, d: string)
    requires NamesVar(a, BracedSpans[1]) && NamesVar(b, BracedSpans[2]) && NamesVar(d, BracedSpans[3])
    ensures VariableShape([first, a, b, d], [[]] + ([[]] + ([[]] + ([[]] + []))),
                          [[]] + ([[BracedSpans[1]]] + ([[BracedSpans[2]]] + ([[BracedSpans[3]]] + []))), BracedSpans, 1)
  {
  }

  lemma RenameUndeclaredBracedAt(lines: seq<string>, stage: seq<seq<Span>>, variable: seq<seq<Span>>, l: nat, p: nat)
    requires |lines| == 4 && LinesHave(lines, stage, variable) && VariableShape(lines, stage, variable, BracedSpans, 1)
    requires 1 <= l < 4 && BracedSpans[l].start <= p < BracedSpans[l].end
    ensures Rename.Rename(Join(lines), Position(l, p), "renamed") == UndeclaredBracedEdits
  {
    RenameVariableDocument(lines, stage, variable, BracedSpans, 1, l, p);
    UndeclaredBracedEditsOfSpans();
  }

  lemma UndeclaredBracedEditsOfSpans()
    ensures VariableEdits(BracedSpans, 1) == UndeclaredBracedEdits
  {
  }

  /** "non-existent variable $var no value": the same with unbraced references. */
  lemma RenameUndeclaredBare(first: string, a: string, b: string, d: string)
    requires first == Spaced(["FROM", "busybox"])
    requires a == Spaced(["STOPSIGNAL", "$var"]) && b == Spaced(["USER", "$var"]) && d == Spaced(["WORKDIR", "$var"])
    ensures forall l, p :: 1 <= l < 4 && UndeclaredBareSpans[l].start <= p < UndeclaredBareSpans[l].end ==>
      Rename.Rename(Join([first, a, b, d]), Position(l, p), "renamed") == UndeclaredBareEdits
  {
    FromBusyboxLine(first);
    BareUnquotedLines(a, b, d);
    RenameUndeclaredBareOccurrences(first, a, b, d);
  }

  lemma RenameUndeclaredBareOccurrences(first: string, a: string, b: string, d: string)
    requires Unrelated(first)
    requires ReferencesVar(a, BareSpans[1]) && ReferencesVar(b, BareSpans[2]) && ReferencesVar(d, BareSpans[3])
    ensures forall l, p :: 1 <= l < 4 && UndeclaredBareSpans[l].start <= p < UndeclaredBareSpans[l].end ==>
      Rename.Rename(Join([first, a, b, d]), Position(l, p), "renamed") == UndeclaredBareEdits
  {
    UndeclaredBareLines(first, a, b, d);
    ListOfFour(first, a, b, d);
    UndeclaredBareShape(first, a, b, d);
    forall l: nat, p: nat | 1 <= l < 4 && UndeclaredBareSpans[l].start <= p < UndeclaredBareSpans[l].end
      ensures Rename.Rename(Join([first, a, b, d]), Position(l, p), "renamed") == UndeclaredBareEdits
    {
      RenameUndeclaredBareAt([first, a, b, d], [[]] + ([[]] + ([[]] + ([[]] + []))),
                     [[]] + ([[BareSpans[1]]] + ([[BareSpans[2]]] + ([[BareSpans[3]]] + []))), l, p);
    }
  }

  lemma UndeclaredBareLines(first: string, a: string, b: string, d: string)
    requires Unrelated(first)
    requires ReferencesVar(a, BareSpans[1]) && ReferencesVar(b, BareSpans[2]) && ReferencesVar(d, BareSpans[3])
    ensures LinesHave([first] + ([a] + ([b] + ([d] + []))), [[]] + ([[]] + ([[]] + ([[]] + []))),
                      [[]] + ([[BareSpans[1]]] + ([[BareSpans[2]]] + ([[BareSpans[3]]] + []))))
  {
    LinesHaveCons(d, [], [BareSpans[3]], [], [], []);
    LinesHaveCons(b, [], [BareSpans[2]], [d] + [], [[]] + [], [[BareSpans[3]]] + []);
    LinesHaveCons(a, [], [BareSpans[1]], [b] + ([d] + []), [[]] + ([[]] + []), [[BareSpans[2]]] + ([[BareSpans[3]]] + []));
    LinesHaveCons(first, [], [], [a] + ([b] + ([d] + [])), [[]] + ([[]] + ([[]] + [])),
                  [[BareSpans[1]]] + ([[BareSpans[2]]] + ([[BareSpans[3]]] + [])));
  }

  lemma UndeclaredBareShape(first: string, a: string, b: string, d: string)
    requires NamesVar(a, BareSpans[1]) && NamesVar(b, BareSpans[2]) && NamesVar(d, BareSpans[3])
    ensures VariableShape([first, a, b, d], [[]] + ([[]] + ([[]] + ([[]] + []))),
                          [[]] + ([[BareSpans[1]]] + ([[BareSpans[2]]] + ([[BareSpans[3]]] + []))), UndeclaredBareSpans, 1)
  {
  }

  lemma RenameUndeclaredBareAt(lines: seq<string>, stage: seq<seq<Span>>, variable: seq<seq<Span>>, l: nat, p: nat)
    requires |lines| == 4 && LinesHave(lines, stage, variable) && VariableShape(lines, stage, variable, UndeclaredBareSpans, 1)
    requires 1 <= l < 4 && UndeclaredBareSpans[l].start <= p < UndeclaredBareSpans[l].end
    ensures Rename.Rename(Join(lines), Position(l, p), "renamed") == UndeclaredBareEdits
  {
    RenameVariableDocument(lines, stage, variable, UndeclaredBareSpans, 1, l, p);
    UndeclaredBareEditsOfSpans();
  }

  lemma UndeclaredBareEditsOfSpans()
    ensures VariableEdits(UndeclaredBareSpans, 1) == UndeclaredBareEdits
  {
  }

  // -----------------------------------------------------------------------
  // Documents of build stages

  const Bootstrap := Symbol(StageDeclaration, "bootstrap", R(0, 13, 22))

  /** A `FROM node AS bootstrap` line, with or without trailing blanks. */
  predicate DeclaresStage(c: string)
  {
    LineHas(c, [Span(StageDeclaration, 13, 22)], []) && 22 <= |c| && c[13..22] == "bootstrap"
  }

  /** A line whose one stage span `sp` reads `name`. */
  predicate ReferencesStage(c: string, sp: Span, name: string)
  {
    LineHas(c, [sp], []) && sp.start <= sp.end <= |c| && c[sp.start..sp.end] == name
  }

  lemma {:induction false} CollectFirstAndLast(lines: seq<string>, spans: seq<seq<Span>>, a: Span, b: Span)
    requires SpansOfLines(lines, spans) && |lines| == 3
    requires spans[0] == [a] && spans[1] == [] && spans[2] == [b]
    requires a.start <= a.end <= |lines[0]| && b.start <= b.end <= |lines[2]|
    ensures Collect(lines, spans, 0) == [ToSymbol(lines[0], 0, a), ToSymbol(lines[2], 2, b)]
  {
    CollectLast(lines, spans, 2);
    assert Collect(lines, spans, 1) == Collect(lines, spans, 2);
  }

  lemma {:induction false} CollectFirst(lines: seq<string>, spans: seq<seq<Span>>, a: Span)
    requires SpansOfLines(lines, spans) && |lines| >= 1
    requires spans[0] == [a] && forall i :: 1 <= i < |lines| ==> spans[i] == []
    requires a.start <= a.end <= |lines[0]|
    ensures Collect(lines, spans, 0) == [ToSymbol(lines[0], 0, a)]
  {
    CollectNone(lines, spans, 1);
  }

  /** A document of stage symbols only. */
  lemma StageDocumentSymbols(lines: seq<string>, stage: seq<seq<Span>>, variable: seq<seq<Span>>)
    requires |lines| >= 1 && LinesHave(lines, stage, variable)
    requires forall i :: 0 <= i < |lines| ==> variable[i] == []
    ensures SpansOfLines(lines, stage)
    ensures AllSymbols(Join(lines)) == FamilySymbols(Join(lines), Stage) == Collect(lines, stage, 0)
  {
    SymbolsOfLines(lines, stage, variable);
    CollectNone(lines, variable, 0);
  }

  /** The shape of a three-line stage document: one stage span `a` on the
      first line, one stage span `b` on the last, no variables. */
  predicate FirstAndLast(lines: seq<string>, stage: seq<seq<Span>>, variable: seq<seq<Span>>, a: Span, b: Span)
  {
    && |lines| == |stage| == |variable| == 3
    && stage[0] == [a] && stage[1] == [] && stage[2] == [b]
    && (forall i :: 0 <= i < 3 ==> variable[i] == [])
    && a.start <= a.end <= |lines[0]| && b.start <= b.end <= |lines[2]|
  }

  /** The symbols of `FROM node AS bootstrap`, an unrelated line, and a line
      holding one stage span. */
  lemma ThreeLineStages(a: string, b: string, c: string, r: Span, name: string)
    requires DeclaresStage(a) && Unrelated(b) && ReferencesStage(c, r, name)
    ensures var text := Join([a, b, c]);
      && AllSymbols(text) == FamilySymbols(text, Stage)
      && FamilySymbols(text, Stage) == [Bootstrap, Symbol(r.kind, name, R(2, r.start, r.end))]
  {
    var d := Span(StageDeclaration, 13, 22);
    ThreeLineStagesSpans(a, b, c, d, r);
    assert ToSymbol(a, 0, d) == Bootstrap;
    assert ToSymbol(c, 2, r) == Symbol(r.kind, name, R(2, r.start, r.end));
  }

  lemma ThreeLineStagesSpans(a: string, b: string, c: string, d: Span, r: Span)
    requires LineHas(a, [d], []) && Unrelated(b) && LineHas(c, [r], [])
    requires d.start <= d.end <= |a| && r.start <= r.end <= |c|
    ensures var text := Join([a, b, c]);
      && AllSymbols(text) == FamilySymbols(text, Stage)
      && FamilySymbols(text, Stage) == [ToSymbol(a, 0, d), ToSymbol(c, 2, r)]
  {
    ThreeStageLines(a, b, c, d, r);
    ListOfThree(a, b, c);
    var stage: seq<seq<Span>> := [[d], [], [r]];
    var variable: seq<seq<Span>> := [[], [], []];
    ListOfThree<seq<Span>>([d], [], [r]);
    ListOfThree<seq<Span>>([], [], []);
    assert FirstAndLast([a, b, c], stage, variable, d, r);
    ThreeLineStagesOf([a, b, c], stage, variable, d, r);
  }

  lemma ThreeStageLines(a: string, b: string, c: string, d: Span, r: Span)
    requires LineHas(a, [d], []) && Unrelated(b) && LineHas(c, [r], [])
    ensures LinesHave([a] + ([b] + ([c] + [])), [[d]] + ([[]] + ([[r]] + [])), [[]] + ([[]] + ([[]] + [])))
  {
    LinesHaveCons(c, [r], [], [], [], []);
    LinesHaveCons(b, [], [], [c] + [], [[r]] + [], [[]] + []);
    LinesHaveCons(a, [d], [], [b] + ([c] + []), [[]] + ([[r]] + []), [[]] + ([[]] + []));
  }

  lemma ListOfThree<T>(x: T, y: T, z: T)
    ensures [x] + ([y] + ([z] + [])) == [x, y, z]
  {
  }

  lemma ThreeLineStagesOf(lines: seq<string>, stage: seq<seq<Span>>, variable: seq<seq<Span>>, a: Span, b: Span)
    requires LinesHave(lines, stage, variable) && FirstAndLast(lines, stage, variable, a, b)
    ensures var text := Join(lines);
      && AllSymbols(text) == FamilySymbols(text, Stage)
      && FamilySymbols(text, Stage) == [ToSymbol(lines[0], 0, a), ToSymbol(lines[2], 2, b)]
  {
    StageDocumentSymbols(lines, stage, variable);
    CollectFirstAndLast(lines, stage, a, b);
  }

  /** The symbols of `FROM node AS bootstrap` and an unrelated line. */
  lemma TwoLineStages(a: string, b: string)
    requires DeclaresStage(a) && Unrelated(b)
    ensures var text := Join([a, b]);
      AllSymbols(text) == FamilySymbols(text, Stage) == [Bootstrap]
  {
    TwoStageLines(a, b);
    assert [a] + ([b] + []) == [a, b];
    TwoLineStagesOf([a, b], [[Span(StageDeclaration, 13, 22)]] + ([[]] + []), [[]] + ([[]] + []));
  }

  lemma TwoStageLines(a: string, b: string)
    requires DeclaresStage(a) && Unrelated(b)
    ensures LinesHave([a] + ([b] + []), [[Span(StageDeclaration, 13, 22)]] + ([[]] + []), [[]] + ([[]] + []))
  {
    LinesHaveCons(b, [], [], [], [], []);
    LinesHaveCons(a, [Span(StageDeclaration, 13, 22)], [], [b] + [], [[]] + [], [[]] + []);
  }

  lemma TwoLineStagesOf(lines: seq<string>, stage: seq<seq<Span>>, variable: seq<seq<Span>>)
    requires |lines| == |stage| == |variable| == 2 && LinesHave(lines, stage, variable)
    requires stage[0] == [Span(StageDeclaration, 13, 22)] && stage[1] == [] && variable[0] == variable[1] == []
    requires 22 <= |lines[0]|
    ensures var text := Join(lines);
      AllSymbols(text) == FamilySymbols(text, Stage) == [ToSymbol(lines[0], 0, Span(StageDeclaration, 13, 22))]
  {
    StageDocumentSymbols(lines, stage, variable);
    CollectFirst(lines, stage, Span(StageDeclaration, 13, 22));
  }

  /** Two stage symbols of one name rename together from inside either. */
  lemma RenameStagePair(text: string, s: Symbol, t: Symbol, p: Position)
    requires AllSymbols(text) == FamilySymbols(text, Stage) == [s, t]
    requires FamilyOf(s.kind) == FamilyOf(t.kind) == Stage
    requires s.name == t.name && (Contains(s.range, p) || Contains(t.range, p))
    ensures Rename.Rename(text, p, "renamed") == [TextEdit(s.range, "renamed"), TextEdit(t.range, "renamed")]
  {
    var u := if Contains(s.range, p) then s else t;
    assert u in AllSymbols(text);
    FilterSame(s, t);
    assert Group(text, Stage, u.name) == [s, t];
    RenameAtMember(text, u, p, "renamed");
  }

  lemma FilterSame(s: Symbol, t: Symbol)
    requires s.name == t.name
    ensures Filter([s, t], s.name) == [s, t]
  {
    assert [s, t][1..] == [t] && [t][1..] == [];
    assert Filter([t], s.name) == [t];
  }

  /** A stage symbol whose name no other stage symbol shares renames alone. */
  lemma RenameStageApart(text: string, s: Symbol, t: Symbol, p: Position)
    requires AllSymbols(text) == FamilySymbols(text, Stage)
    requires FamilySymbols(text, Stage) == [s, t] || FamilySymbols(text, Stage) == [t, s]
    requires FamilyOf(s.kind) == Stage && s.name != t.name && Contains(s.range, p)
    ensures Rename.Rename(text, p, "renamed") == [TextEdit(s.range, "renamed")]
  {
    assert s in AllSymbols(text);
    FilterApart(s, t);
    assert Group(text, Stage, s.name) == [s];
    RenameSingleton(text, s, p);
  }

  lemma FilterApart(s: Symbol, t: Symbol)
    requires s.name != t.name
    ensures Filter([s, t], s.name) == [s] && Filter([t, s], s.name) == [s]
  {
    assert [s, t][1..] == [t] && [t, s][1..] == [s] && [s][1..] == [t][1..] == [];
    assert Filter([t], s.name) == [] && Filter([s], s.name) == [s];
  }

  /** With one stage symbol, only a cursor inside it renames anything. */
  lemma RenameStageSingle(text: string, s: Symbol, p: Position)
    requires AllSymbols(text) == FamilySymbols(text, Stage) == [s] && FamilyOf(s.kind) == Stage
    ensures Rename.Rename(text, p, "renamed") == if Contains(s.range, p) then [TextEdit(s.range, "renamed")] else []
  {
    if Contains(s.range, p) {
      assert Filter([s], s.name) == [s];
      RenameSingleton(text, s, p);
    }
  }

  const CopyEdits := [Edit(0, 13, 22), Edit(2, 12, 21)]

  /** "COPY", "COPY incomplete" and "invalid position": a cursor inside
      either `bootstrap` renames both, and any other cursor renames nothing. */
  lemma RenameStageCopyOccurrences(a: string, b: string, c: string)
    requires DeclaresStage(a) && Unrelated(b) && ReferencesStage(c, Span(StageReference, 12, 21), "bootstrap")
    ensures forall l: nat, p: nat :: Rename.Rename(Join([a, b, c]), Position(l, p), "renamed") ==
                                     if (l == 0 && 13 <= p < 22) || (l == 2 && 12 <= p < 21) then CopyEdits else []
  {
    var text := Join([a, b, c]);
    var t := Symbol(StageReference, "bootstrap", R(2, 12, 21));
    ThreeLineStages(a, b, c, Span(StageReference, 12, 21), "bootstrap");
    forall l: nat, p: nat
      ensures Rename.Rename(text, Position(l, p), "renamed") ==
        if (l == 0 && 13 <= p < 22) || (l == 2 && 12 <= p < 21) then CopyEdits else []
    {
      RenameStageCopyAt(text, l, p);
    }
  }

  lemma RenameStageCopyAt(text: string, l: nat, p: nat)
    requires AllSymbols(text) == FamilySymbols(text, Stage)
    requires FamilySymbols(text, Stage) == [Bootstrap, Symbol(StageReference, "bootstrap", R(2, 12, 21))]
    ensures Rename.Rename(text, Position(l, p), "renamed") ==
      if (l == 0 && 13 <= p < 22) || (l == 2 && 12 <= p < 21) then CopyEdits else []
  {
    var t := Symbol(StageReference, "bootstrap", R(2, 12, 21));
    if (l == 0 && 13 <= p < 22) || (l == 2 && 12 <= p < 21) {
      RenameStagePair(text, Bootstrap, t, Position(l, p));
    } else {
      assert !Contains(Bootstrap.range, Position(l, p)) && !Contains(t.range, Position(l, p));
    }
  }

  lemma RenameStageCopy(a: string, b: string, c: string)
    requires a == Spaced(["FROM", "node", "AS", "bootstrap"]) && b == Spaced(["FROM", "node"])
    requires c == Spaced(["COPY", "--from=bootstrap", "/git/bin/app", "."])
    ensures forall l: nat, p: nat :: Rename.Rename(Join([a, b, c]), Position(l, p), "renamed") ==
                                     if (l == 0 && 13 <= p < 22) || (l == 2 && 12 <= p < 21) then CopyEdits else []
  {
    StageLine(a);
    BaseLine(b);
    CopyFromStageLine(c);
    RenameStageCopyOccurrences(a, b, c);
  }

  lemma RenameStageCopyIncomplete(a: string, b: string, c: string)
    requires a == Spaced(["FROM", "node", "AS", "bootstrap"]) && b == Spaced(["FROM", "node"])
    requires c == Spaced(["COPY", "--from=bootstrap"])
    ensures forall l: nat, p: nat :: Rename.Rename(Join([a, b, c]), Position(l, p), "renamed") ==
                                     if (l == 0 && 13 <= p < 22) || (l == 2 && 12 <= p < 21) then CopyEdits else []
  {
    StageLine(a);
    BaseLine(b);
    CopyFromStageIncompleteLine(c);
    RenameStageCopyOccurrences(a, b, c);
  }

  /** "invalid position": blanks after the stage name are outside it, as is
      the space after `--from=bootstrap`. */
  lemma RenameStageInvalidPosition(a: string, b: string, c: string)
    requires a == Spaced(["FROM", "node", "AS", "bootstrap"]) + "   " && b == Spaced(["FROM", "node"])
    requires c == Spaced(["COPY", "--from=bootstrap", "/git/bin/app", "."])
    ensures forall l: nat, p: nat :: Rename.Rename(Join([a, b, c]), Position(l, p), "renamed") ==
                                     if (l == 0 && 13 <= p < 22) || (l == 2 && 12 <= p < 21) then CopyEdits else []
    ensures Rename.Rename(Join([a, b, c]), Position(0, 24), "renamed") == []
    ensures Rename.Rename(Join([a, b, c]), Position(2, 22), "renamed") == []
  {
    StageTrailingLine(a);
    BaseLine(b);
    CopyFromStageLine(c);
    RenameStageCopyOccurrences(a, b, c);
  }

  /** "source mismatch": `--from=bootstrap2` names another stage, so each
      of the two names renames alone. */
  lemma RenameStageMismatch(a: string, b: string, c: string)
    requires a == Spaced(["FROM", "node", "AS", "bootstrap"]) && b == Spaced(["FROM", "node"])
    requires c == Spaced(["COPY", "--from=bootstrap2", "/git/bin/app", "."])
    ensures forall l: nat, p: nat :: Rename.Rename(Join([a, b, c]), Position(l, p), "renamed") ==
                                     if l == 0 && 13 <= p < 22 then [Edit(0, 13, 22)]
                                     else if l == 2 && 12 <= p < 22 then [Edit(2, 12, 22)]
                                     else []
  {
    StageLine(a);
    BaseLine(b);
    CopyFromOtherLine(c);
    RenameStageMismatchOccurrences(a, b, c);
  }

  lemma RenameStageMismatchOccurrences(a: string, b: string, c: string)
    requires DeclaresStage(a) && Unrelated(b) && ReferencesStage(c, Span(StageReference, 12, 22), "bootstrap2")
    ensures forall l: nat, p: nat :: Rename.Rename(Join([a, b, c]), Position(l, p), "renamed") ==
                                     if l == 0 && 13 <= p < 22 then [Edit(0, 13, 22)]
                                     else if l == 2 && 12 <= p < 22 then [Edit(2, 12, 22)]
                                     else []
  {
    var text := Join([a, b, c]);
    ThreeLineStages(a, b, c, Span(StageReference, 12, 22), "bootstrap2");
    forall l: nat, p: nat
      ensures Rename.Rename(text, Position(l, p), "renamed") ==
              if l == 0 && 13 <= p < 22 then [Edit(0, 13, 22)]
              else if l == 2 && 12 <= p < 22 then [Edit(2, 12, 22)]
              else []
    {
      RenameStageMismatchAt(text, l, p);
    }
  }

  lemma RenameStageMismatchAt(text: string, l: nat, p: nat)
    requires AllSymbols(text) == FamilySymbols(text, Stage)
    requires FamilySymbols(text, Stage) == [Bootstrap, Symbol(StageReference, "bootstrap2", R(2, 12, 22))]
    ensures Rename.Rename(text, Position(l, p), "renamed") ==
            if l == 0 && 13 <= p < 22 then [Edit(0, 13, 22)]
            else if l == 2 && 12 <= p < 22 then [Edit(2, 12, 22)]
            else []
  {
    var t := Symbol(StageReference, "bootstrap2", R(2, 12, 22));
    if l == 0 && 13 <= p < 22 {
      RenameStageApart(text, Bootstrap, t, Position(l, p));
    } else if l == 2 && 12 <= p < 22 {
      RenameStageApart(text, t, Bootstrap, Position(l, p));
    } else {
      assert !Contains(Bootstrap.range, Position(l, p)) && !Contains(t.range, Position(l, p));
    }
  }

  /** "source mismatch" and "COPY bootstrap": `COPY bootstrap` copies from
      the build context, not from the stage, so only the declaration renames. */
  lemma RenameStageCopySource(a: string, b: string)
    requires a == Spaced(["FROM", "node", "AS", "bootstrap"]) && b == Spaced(["COPY", "bootstrap", "/git/build/"])
    ensures forall l: nat, p: nat :: Rename.Rename(Join([a, b]), Position(l, p), "renamed") ==
                                     if l == 0 && 13 <= p < 22 then [Edit(0, 13, 22)] else []
    ensures Rename.Rename(Join([a, b]), Position(0, 17), "renamed") == [Edit(0, 13, 22)]
    ensures Rename.Rename(Join([a, b]), Position(1, 10), "renamed") == []
  {
    StageLine(a);
    CopyContextLine(b);
    RenameStageCopySourceOccurrences(a, b);
  }

  lemma RenameStageCopySourceOccurrences(a: string, b: string)
    requires DeclaresStage(a) && Unrelated(b)
    ensures forall l: nat, p: nat :: Rename.Rename(Join([a, b]), Position(l, p), "renamed") ==
                                     if l == 0 && 13 <= p < 22 then [Edit(0, 13, 22)] else []
  {
    var text := Join([a, b]);
    TwoLineStages(a, b);
    forall l: nat, p: nat
      ensures Rename.Rename(text, Position(l, p), "renamed") == if l == 0 && 13 <= p < 22 then [Edit(0, 13, 22)] else []
    {
      RenameStageSingle(text, Bootstrap, Position(l, p));
    }
  }

  // Each line of the stage scenarios, one at a time.

  lemma StageLine(c: string)
    requires c == Spaced(["FROM", "node", "AS", "bootstrap"])
    ensures DeclaresStage(c)
  {
    FromAsLine(c);
  }

  lemma StageTrailingLine(c: string)
    requires c == Spaced(["FROM", "node", "AS", "bootstrap"]) + "   "
    ensures DeclaresStage(c)
  {
    FromAsTrailingLine(c);
  }

  lemma BaseLine(c: string)
    requires c == Spaced(["FROM", "node"])
    ensures Unrelated(c)
  {
    FromNodeLine(c);
  }

  lemma CopyFromStageLine(c: string)
    requires c == Spaced(["COPY", "--from=bootstrap", "/git/bin/app", "."])
    ensures ReferencesStage(c, Span(StageReference, 12, 21), "bootstrap")
  {
    CopyFromBootstrapLine(c);
  }

  lemma CopyFromStageIncompleteLine(c: string)
    requires c == Spaced(["COPY", "--from=bootstrap"])
    ensures ReferencesStage(c, Span(StageReference, 12, 21), "bootstrap")
  {
    CopyFromIncompleteLine(c);
  }

  lemma CopyFromOtherLine(c: string)
    requires c == Spaced(["COPY", "--from=bootstrap2", "/git/bin/app", "."])
    ensures ReferencesStage(c, Span(StageReference, 12, 22), "bootstrap2")
  {
    CopyFromBootstrap2Line(c);
  }

  lemma CopyContextLine(c: string)
    requires c == Spaced(["COPY", "bootstrap", "/git/build/"])
    ensures Unrelated(c)
  {
    CopySourceLine(c);
  }
}
