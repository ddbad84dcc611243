/** The symbol classifier: the named sub-spans of one instruction line.
    A `FROM <image> AS <name>` line declares a build stage, a
    `COPY --from=<name>` flag refers to one, an `ARG`/`ENV` line declares a
    variable, and `$name` / `${name}` in the arguments of any instruction
    refers to a variable. A span covers the name characters only. */
module Classifier {

  import opened Protocol
  import opened Instructions

  datatype Kind = StageDeclaration | StageReference | VariableDeclaration | VariableReference

  /** Declarations and references of one sort of entity rename together. */
  datatype Family = Stage | Variable

  function FamilyOf(k: Kind): Family
  {
    if k == StageDeclaration || k == StageReference then Stage else Variable
  }

  /** A classified column range [start, end) of one line. */
  datatype Span = Span(kind: Kind, start: nat, end: nat)

  /** The characters of a variable name. */
  predicate IsNameChar(ch: char)
  {
    ('a' <= ch <= 'z') || ('A' <= ch <= 'Z') || ('0' <= ch <= '9') || ch == '_'
  }

  /** The end of the run of name characters starting at `i`. */
  function NameEnd(c: string, i: nat): (j: nat)
    requires i <= |c|
    ensures i <= j <= |c|
    ensures forall k :: i <= k < j ==> IsNameChar(c[k])
    ensures j == |c| || !IsNameChar(c[j])
    decreases |c| - i
  {
    if i == |c| || !IsNameChar(c[i]) then i else NameEnd(c, i + 1)
  }

  predicate NoDollar(c: string, start: nat, end: nat)
    requires start <= end <= |c|
  {
    forall k :: start <= k < end ==> c[k] != '$'
  }

  predicate AllNameChars(c: string, start: nat, end: nat)
    requires start <= end <= |c|
  {
    forall k :: start <= k < end ==> IsNameChar(c[k])
  }

  /** A `$name` or `${name}` reference: a maximal non-empty run of name
      characters right after `$` or `${`. */
  predicate IsReference(c: string, sp: Span)
  {
    && sp.kind == VariableReference
    && 1 <= sp.start < sp.end <= |c|
    && AllNameChars(c, sp.start, sp.end)
    && (sp.end == |c| || !IsNameChar(c[sp.end]))
    && (c[sp.start - 1] == '$' || (sp.start >= 2 && c[sp.start - 1] == '{' && c[sp.start - 2] == '$'))
  }

  /** Spans listed left to right, each ending before the next begins. */
  predicate Ascending(sps: seq<Span>)
  {
    forall i, j :: 0 <= i < j < |sps| ==> sps[i].end <= sps[j].start
  }

  /** All variable references in `c` from column `i` on, left to right. The
      scan does not treat quote characters specially. */
  function References(c: string, i: nat): (refs: seq<Span>)
    requires i <= |c|
    ensures forall j :: 0 <= j < |refs| ==> IsReference(c, refs[j]) && i < refs[j].start
    ensures forall j :: 0 <= j < |refs| - 1 ==> refs[j].end < refs[j + 1].start
    decreases |c| - i
  {
    if i == |c| then []
    else if c[i] != '$' then References(c, i + 1)
    else if i + 1 < |c| && c[i + 1] == '{' then
      var e := NameEnd(c, i + 2);
      if e == i + 2 then References(c, i + 2) else [Span(VariableReference, i + 2, e)] + References(c, e)
    else
      var e := NameEnd(c, i + 1);
      if e == i + 1 then References(c, i + 1) else [Span(VariableReference, i + 1, e)] + References(c, e)
  }

  lemma {:induction false} ReferencesAscending(c: string, i: nat)
    requires i <= |c|
    ensures Ascending(References(c, i))
    decreases |c| - i, 0
  {
    if i < |c| {
      if c[i] != '$' {
        ReferencesAscending(c, i + 1);
      } else if i + 1 < |c| && c[i + 1] == '{' {
        ReferencesConsAscending(c, i + 2);
      } else {
        ReferencesConsAscending(c, i + 1);
      }
    }
  }

  /** The step of ReferencesAscending after a `$` or `${` at column n - 1 or n - 2. */
  lemma {:induction false} ReferencesConsAscending(c: string, n: nat)
    requires n <= |c|
    ensures NameEnd(c, n) == n ==> Ascending(References(c, n))
    ensures NameEnd(c, n) > n ==> Ascending([Span(VariableReference, n, NameEnd(c, n))] + References(c, NameEnd(c, n)))
    decreases |c| - n, 1
  {
    var e := NameEnd(c, n);
    if e == n {
      ReferencesAscending(c, n);
    } else {
      var tl := References(c, e);
      ReferencesAscending(c, e);
      var refs := [Span(VariableReference, n, e)] + tl;
      forall a, b | 0 <= a < b < |refs| ensures refs[a].end <= refs[b].start {
        assert refs[b] == tl[b - 1];
        if a > 0 { assert refs[a] == tl[a - 1]; }
      }
    }
  }

  /** The first column of the argument text of an instruction. */
  function ArgumentsStart(c: string, ins: Instruction): nat
  {
    if |ins.args| > 0 then ins.args[0].start else |c|
  }

  /** `FROM <image> AS <name>`: the stage name, when it holds no `$`. */
  function StageDeclarationSpans(c: string, ins: Instruction): (sps: seq<Span>)
    requires forall j :: 0 <= j < |ins.args| ==> IsWord(c, ins.args[j])
  {
    if ins.keyword != "FROM" || |ins.args| <= 2 then []
    else
      var keyword := ins.args[1];
      var name := ins.args[2];
      assert IsWord(c, keyword) && IsWord(c, name);
      if Upper(WordText(c, keyword)) == "AS" && NoDollar(c, name.start, name.end)
      then [Span(StageDeclaration, name.start, name.end)]
      else []
  }

  predicate StartsWith(c: string, w: Word, prefix: string)
    requires w.start <= w.end <= |c|
  {
    |prefix| <= w.end - w.start && c[w.start..w.start + |prefix|] == prefix
  }

  /** The first `--from=` among the leading `--` flags of `COPY`, from word
      `j` on: its value, when non-empty and free of `$`. */
  function FromFlagSpans(c: string, args: seq<Word>, j: nat): (sps: seq<Span>)
    requires forall k :: 0 <= k < |args| ==> IsWord(c, args[k])
    decreases |args| - j
  {
    if j >= |args| then []
    else
      var w := args[j];
      assert IsWord(c, w);
      if !StartsWith(c, w, "--") then []
      else if StartsWith(c, w, "--from=") then
      if w.start + 7 < w.end && NoDollar(c, w.start + 7, w.end) then [Span(StageReference, w.start + 7, w.end)] else []
      else FromFlagSpans(c, args, j + 1)
  }

  /** `ARG <name>[=<value>]` and `ENV <name>[=| ]<value>`: the name, a run of
      name characters that is the whole first word or is followed by `=`. */
  function VariableDeclarationSpans(c: string, ins: Instruction): (sps: seq<Span>)
    requires forall j :: 0 <= j < |ins.args| ==> IsWord(c, ins.args[j])
  {
    if (ins.keyword == "ARG" || ins.keyword == "ENV") && |ins.args| > 0 then
      var w := ins.args[0];
      assert IsWord(c, w);
      var d := NameEnd(c, w.start);
      if w.start < d && (d == w.end || c[d] == '=') then [Span(VariableDeclaration, w.start, d)] else []
    else []
  }

  /** The stage-family spans of one instruction. */
  function InstructionStageSpans(c: string, ins: Instruction): seq<Span>
    requires IsInstructionOf(c, ins)
  {
    if ins.keyword == "COPY" then FromFlagSpans(c, ins.args, 0) else StageDeclarationSpans(c, ins)
  }

  /** The variable-family spans of one instruction: its declaration, if any,
      then every reference in the arguments of a known instruction. */
  function InstructionVariableSpans(c: string, ins: Instruction): seq<Span>
    requires IsInstructionOf(c, ins)
  {
    if ins.keyword in Keywords then VariableDeclarationSpans(c, ins) + References(c, ArgumentsStart(c, ins))
    else []
  }

  function StageSpans(c: string): seq<Span>
  {
    match ParseInstruction(c)
    case None => []
    case Some(ins) => InstructionStageSpans(c, ins)
  }

  function VariableSpans(c: string): seq<Span>
  {
    match ParseInstruction(c)
    case None => []
    case Some(ins) => InstructionVariableSpans(c, ins)
  }

  /** The spans of one family on line `c`. */
  function FamilySpans(c: string, f: Family): seq<Span>
  {
    if f == Stage then StageSpans(c) else VariableSpans(c)
  }

  /** What bounds each span: its characters are the name only, and the
      punctuation that introduces it sits right before it. */
  predicate Delimited(c: string, sp: Span)
  {
    && 1 <= sp.start < sp.end <= |c|
    && NoDollar(c, sp.start, sp.end)
    && (forall k :: sp.start <= k < sp.end ==> !IsBlank(c[k]))
    && match sp.kind
       case StageDeclaration =>
         IsBlank(c[sp.start - 1]) && (sp.end == |c| || IsBlank(c[sp.end]))
       case StageReference =>
         sp.start >= 7 && c[sp.start - 7..sp.start] == "--from=" && (sp.end == |c| || IsBlank(c[sp.end]))
       case VariableDeclaration =>
         IsBlank(c[sp.start - 1]) && AllNameChars(c, sp.start, sp.end)
         && (sp.end == |c| || c[sp.end] == '=' || IsBlank(c[sp.end]))
       case VariableReference =>
         IsReference(c, sp)
  }

  lemma {:induction false} FromFlagSpansDelimited(c: string, args: seq<Word>, j: nat)
    requires forall k :: 0 <= k < |args| ==> IsWord(c, args[k]) && args[k].start >= 1
    ensures |FromFlagSpans(c, args, j)| <= 1
    ensures forall sp :: sp in FromFlagSpans(c, args, j) ==> sp.kind == StageReference && Delimited(c, sp)
    decreases |args| - j
  {
    if j < |args| {
      assert IsWord(c, args[j]);
      if StartsWith(c, args[j], "--") && !StartsWith(c, args[j], "--from=") {
        FromFlagSpansDelimited(c, args, j + 1);
      }
    }
  }

  lemma StageDeclarationSpansDelimited(c: string, ins: Instruction)
    requires IsInstructionOf(c, ins)
    ensures |StageDeclarationSpans(c, ins)| <= 1
    ensures forall sp :: sp in StageDeclarationSpans(c, ins) ==> sp.kind == StageDeclaration && Delimited(c, sp)
  {
    if ins.keyword == "FROM" && |ins.args| > 2 {
      assert IsWord(c, ins.args[2]) && ins.args[2].start > 0;
    }
  }

  /** A line has at most one stage-family span, and it is delimited. */
  lemma StageSpansDelimited(c: string)
    ensures |StageSpans(c)| <= 1
    ensures forall sp :: sp in StageSpans(c) ==> FamilyOf(sp.kind) == Stage && Delimited(c, sp)
  {
    match ParseInstruction(c)
    case None =>
    case Some(ins) =>
      if ins.keyword == "COPY" {
        forall k | 0 <= k < |ins.args| ensures IsWord(c, ins.args[k]) && ins.args[k].start >= 1 {
          assert ins.keywordWord.end < ins.args[k].start;
        }
        FromFlagSpansDelimited(c, ins.args, 0);
      } else {
        StageDeclarationSpansDelimited(c, ins);
      }
  }

  /** A span that holds no `$` and whose preceding column is neither `$`,
      `{` nor a name character. */
  predicate Separated(c: string, sp: Span)
  {
    && 1 <= sp.start <= sp.end <= |c|
    && NoDollar(c, sp.start, sp.end)
    && c[sp.start - 1] != '$' && c[sp.start - 1] != '{' && !IsNameChar(c[sp.start - 1])
  }

  /** A separated span, such as a declaration or a stage name, never
      overlaps a reference. */
  lemma DisjointFromReference(c: string, sp: Span, r: Span)
    requires Separated(c, sp) && IsReference(c, r)
    ensures sp.end <= r.start || r.end <= sp.start
  {
  }

  lemma VariableDeclarationSpansDelimited(c: string, ins: Instruction)
    requires IsInstructionOf(c, ins)
    ensures |VariableDeclarationSpans(c, ins)| <= 1
    ensures forall sp :: sp in VariableDeclarationSpans(c, ins) ==>
      sp.kind == VariableDeclaration && Delimited(c, sp)
  {
    if |ins.args| > 0 {
      assert IsWord(c, ins.args[0]) && ins.args[0].start > 0;
    }
  }

  lemma VariableDeclarationSpansSeparated(c: string, ins: Instruction)
    requires IsInstructionOf(c, ins)
    ensures forall sp :: sp in VariableDeclarationSpans(c, ins) ==>
      Separated(c, sp) && sp.start == ArgumentsStart(c, ins)
  {
    if |ins.args| > 0 {
      assert IsWord(c, ins.args[0]) && ins.args[0].start > 0;
    }
  }

  lemma InstructionStageSpansSeparated(c: string, ins: Instruction)
    requires IsInstructionOf(c, ins)
    ensures forall sp :: sp in InstructionStageSpans(c, ins) ==> Separated(c, sp)
  {
    if ins.keyword == "COPY" {
      forall k | 0 <= k < |ins.args| ensures IsWord(c, ins.args[k]) && ins.args[k].start >= 1 {
        assert ins.keywordWord.end < ins.args[k].start;
      }
      FromFlagSpansDelimited(c, ins.args, 0);
      forall sp | sp in InstructionStageSpans(c, ins) ensures Separated(c, sp) {
        assert Delimited(c, sp);
        assert c[sp.start - 7..sp.start][6] == c[sp.start - 1];
      }
    } else {
      StageDeclarationSpansDelimited(c, ins);
    }
  }

  lemma {:induction false} ReferencesDelimited(c: string, i: nat)
    requires i <= |c|
    ensures forall r :: r in References(c, i) ==> Delimited(c, r)
  {
    var refs := References(c, i);
    forall r | r in refs ensures Delimited(c, r) {
      var j :| 0 <= j < |refs| && refs[j] == r;
      assert IsReference(c, r);
      assert AllNameChars(c, r.start, r.end);
    }
  }

  lemma AscendingConcat(a: seq<Span>, b: seq<Span>)
    requires Ascending(a) && Ascending(b)
    requires forall x, y :: x in a && y in b ==> x.end <= y.start
    ensures Ascending(a + b)
  {
    var ab := a + b;
    forall i, j | 0 <= i < j < |ab| ensures ab[i].end <= ab[j].start {
      if j < |a| {
        assert ab[i] == a[i] && ab[j] == a[j];
      } else if i >= |a| {
        assert ab[i] == b[i - |a|] && ab[j] == b[j - |a|];
      } else {
        assert ab[i] in a && ab[j] in b;
      }
    }
  }

  lemma InstructionVariableSpansDelimited(c: string, ins: Instruction)
    requires IsInstructionOf(c, ins)
    ensures forall sp :: sp in InstructionVariableSpans(c, ins) ==> FamilyOf(sp.kind) == Variable && Delimited(c, sp)
  {
    if ins.keyword in Keywords {
      VariableDeclarationSpansDelimited(c, ins);
      ReferencesDelimited(c, ArgumentsStart(c, ins));
    }
  }

  lemma InstructionVariableSpansAscending(c: string, ins: Instruction)
    requires IsInstructionOf(c, ins)
    ensures Ascending(InstructionVariableSpans(c, ins))
  {
    if ins.keyword in Keywords {
      var decl := VariableDeclarationSpans(c, ins);
      var start := ArgumentsStart(c, ins);
      var refs := References(c, start);
      VariableDeclarationSpansSeparated(c, ins);
      ReferencesAscending(c, start);
      forall d, r | d in decl && r in refs ensures d.end <= r.start {
        var j :| 0 <= j < |refs| && refs[j] == r;
        DisjointFromReference(c, d, r);
      }
      AscendingConcat(decl, refs);
    }
  }

  /** The variable-family spans of a line are delimited and run left to
      right, the declaration first. */
  lemma VariableSpansDelimited(c: string)
    ensures forall sp :: sp in VariableSpans(c) ==> FamilyOf(sp.kind) == Variable && Delimited(c, sp)
    ensures Ascending(VariableSpans(c))
  {
    match ParseInstruction(c)
    case None =>
    case Some(ins) =>
      InstructionVariableSpansDelimited(c, ins);
      InstructionVariableSpansAscending(c, ins);
  }

  /** Per line, no two classified spans overlap. */
  lemma SpansDisjoint(c: string, f1: Family, f2: Family, i: nat, j: nat)
    requires i < |FamilySpans(c, f1)| && j < |FamilySpans(c, f2)|
    requires f1 != f2 || i != j
    ensures FamilySpans(c, f1)[i].end <= FamilySpans(c, f2)[j].start
         || FamilySpans(c, f2)[j].end <= FamilySpans(c, f1)[i].start
  {
    StageSpansDelimited(c);
    VariableSpansDelimited(c);
    if f1 != f2 {
      var st := if f1 == Stage then FamilySpans(c, f1)[i] else FamilySpans(c, f2)[j];
      var v := if f1 == Stage then FamilySpans(c, f2)[j] else FamilySpans(c, f1)[i];
      assert st in StageSpans(c) && v in VariableSpans(c);
      StageVariableDisjoint(c, st, v);
    }
  }

  /** A stage span and a variable span of the same line never overlap. */
  lemma StageVariableDisjoint(c: string, st: Span, v: Span)
    requires st in StageSpans(c) && v in VariableSpans(c)
    ensures st.end <= v.start || v.end <= st.start
  {
    match ParseInstruction(c)
    case None =>
    case Some(ins) => InstructionStageVariableDisjoint(c, ins, st, v);
  }

  lemma InstructionStageVariableDisjoint(c: string, ins: Instruction, st: Span, v: Span)
    requires IsInstructionOf(c, ins)
    requires st in InstructionStageSpans(c, ins) && v in InstructionVariableSpans(c, ins)
    ensures st.end <= v.start || v.end <= st.start
  {
    if ins.keyword == "COPY" || ins.keyword == "FROM" {
      var refs := References(c, ArgumentsStart(c, ins));
      assert VariableDeclarationSpans(c, ins) == [];
      assert InstructionVariableSpans(c, ins) == refs;
      var j :| 0 <= j < |refs| && refs[j] == v;
      InstructionStageSpansSeparated(c, ins);
      DisjointFromReference(c, st, v);
    }
  }

  /** At most one classified span of a line contains a given column. */
  lemma SpanAtColumnUnique(c: string, f1: Family, f2: Family, s1: Span, s2: Span, col: nat)
    requires s1 in FamilySpans(c, f1) && s2 in FamilySpans(c, f2)
    requires s1.start <= col < s1.end && s2.start <= col < s2.end
    ensures s1 == s2
  {
    var i :| 0 <= i < |FamilySpans(c, f1)| && FamilySpans(c, f1)[i] == s1;
    var j :| 0 <= j < |FamilySpans(c, f2)| && FamilySpans(c, f2)[j] == s2;
    if f1 != f2 || i != j {
      SpansDisjoint(c, f1, f2, i, j);
    }
  }

  // -----------------------------------------------------------------------
  // Stepping lemmas: the reference scan, one `$` at a time.

  lemma NameEndAt(c: string, i: nat, k: nat)
    requires i <= k <= |c| && (k == |c| || !IsNameChar(c[k]))
    requires forall j :: i <= j < k ==> IsNameChar(c[j])
    ensures NameEnd(c, i) == k
  {
  }

  /** Columns without `$` contribute no reference. */
  lemma {:induction false} ReferencesSkip(c: string, i: nat, k: nat)
    requires i <= k <= |c| && NoDollar(c, i, k)
    ensures References(c, i) == References(c, k)
    decreases k - i
  {
    if i < k {
      ReferencesSkip(c, i + 1, k);
    }
  }

  /** A `${name}` reference whose name occupies [s, e). */
  lemma ReferencesBraced(c: string, s: nat, e: nat)
    requires 2 <= s < e <= |c| && c[s - 2] == '$' && c[s - 1] == '{'
    requires AllNameChars(c, s, e) && (e == |c| || !IsNameChar(c[e]))
    ensures References(c, s - 2) == [Span(VariableReference, s, e)] + References(c, e)
  {
    NameEndAt(c, s, e);
  }

  /** A `$name` reference whose name occupies [s, e). */
  lemma ReferencesBare(c: string, s: nat, e: nat)
    requires 1 <= s < e <= |c| && c[s - 1] == '$' && c[s] != '{'
    requires AllNameChars(c, s, e) && (e == |c| || !IsNameChar(c[e]))
    ensures References(c, s - 1) == [Span(VariableReference, s, e)] + References(c, e)
  {
    NameEndAt(c, s, e);
  }

  /** What a `${name}` piece at column `p` puts in each column. */
  lemma BracedPieceColumns(c: string, p: nat, name: string)
    requires p + |name| + 3 <= |c| && c[p..p + |name| + 3] == "${" + name + "}"
    ensures c[p] == '$' && c[p + 1] == '{' && c[p + 2 + |name|] == '}'
    ensures forall k :: p + 2 <= k < p + 2 + |name| ==> c[k] == name[k - p - 2]
  {
    var piece := "${" + name + "}";
    assert c[p] == piece[0];
    assert c[p + 1] == piece[1];
    assert c[p + 2 + |name|] == piece[|name| + 2];
    forall k | p + 2 <= k < p + 2 + |name| ensures c[k] == name[k - p - 2] {
      assert c[k] == piece[k - p];
    }
  }

  /** `${name}` at column `p`: one reference, and the scan goes on after `}`. */
  lemma ReferencesBracedPiece(c: string, p: nat, name: string)
    requires |name| > 0 && forall k :: 0 <= k < |name| ==> IsNameChar(name[k])
    requires p + |name| + 3 <= |c| && c[p..p + |name| + 3] == "${" + name + "}"
    ensures References(c, p) == [Span(VariableReference, p + 2, p + 2 + |name|)] + References(c, p + 3 + |name|)
  {
    var e := p + 2 + |name|;
    BracedPieceColumns(c, p, name);
    assert AllNameChars(c, p + 2, e) by {
      forall k | p + 2 <= k < e ensures IsNameChar(c[k]) {
        assert IsNameChar(name[k - p - 2]);
      }
    }
    ReferencesBracedColumns(c, p, e);
  }

  /** `${` at column `p`, a name up to `e` and `}` at `e`. */
  lemma ReferencesBracedColumns(c: string, p: nat, e: nat)
    requires p + 2 < e < |c| && c[p] == '$' && c[p + 1] == '{' && c[e] == '}'
    requires AllNameChars(c, p + 2, e)
    ensures References(c, p) == [Span(VariableReference, p + 2, e)] + References(c, e + 1)
  {
    ReferencesBraced(c, p + 2, e);
    assert References(c, e) == References(c, e + 1);
  }

  /** `$name` at column `p`, the name ending where a non-name character or
      the line does. */
  lemma ReferencesBarePiece(c: string, p: nat, name: string)
    requires |name| > 0 && forall k :: 0 <= k < |name| ==> IsNameChar(name[k])
    requires p + 1 + |name| <= |c| && c[p..p + 1 + |name|] == "$" + name
    requires p + 1 + |name| == |c| || !IsNameChar(c[p + 1 + |name|])
    ensures References(c, p) == [Span(VariableReference, p + 1, p + 1 + |name|)] + References(c, p + 1 + |name|)
  {
    var e := p + 1 + |name|;
    var piece := c[p..e];
    assert c[p] == piece[0] == '$';
    assert c[p + 1] == piece[1] == name[0] && IsNameChar(name[0]);
    forall k | p + 1 <= k < e ensures IsNameChar(c[k]) {
      assert c[k] == piece[k - p] == name[k - p - 1];
    }
    ReferencesBare(c, p + 1, e);
  }

  // -----------------------------------------------------------------------
  // What the classifier finds, stated on the line's words and characters.

  /** The `$` that introduces a reference. */
  function Introducer(c: string, sp: Span): (d: nat)
    requires IsReference(c, sp)
    ensures d < sp.start && c[d] == '$'
    ensures d + 1 == sp.start || (d + 2 == sp.start && c[d + 1] == '{')
  {
    if c[sp.start - 1] == '$' then sp.start - 1 else sp.start - 2
  }

  /** The reference scan from column `i` finds exactly the `$name` and
      `${name}` references whose `$` lies at or after `i`. */
  lemma {:induction false} ReferencesExact(c: string, i: nat, sp: Span)
    requires i <= |c|
    ensures sp in References(c, i) <==> IsReference(c, sp) && i <= Introducer(c, sp)
    decreases |c| - i
  {
    if i < |c| {
      if c[i] != '$' {
        ReferencesExact(c, i + 1, sp);
      } else if i + 1 < |c| && c[i + 1] == '{' {
        ReferencesFrom(c, i, i + 2, sp);
      } else {
        ReferencesFrom(c, i, i + 1, sp);
      }
    }
  }

  /** ReferencesExact at a `$` at column `i` whose name would start at `n`. */
  lemma {:induction false} ReferencesFrom(c: string, i: nat, n: nat, sp: Span)
    requires DollarAt(c, i, n)
    ensures sp in References(c, i) <==> IsReference(c, sp) && i <= Introducer(c, sp)
    decreases |c| - i, 0
  {
    var e := NameEnd(c, n);
    if IsReference(c, sp) && i <= Introducer(c, sp) {
      if Introducer(c, sp) == i {
        IntroducedHere(c, i, n, sp);
      } else {
        IntroducedLater(c, i, n, sp);
      }
    }
    ReferencesAtDollar(c, i, n);
    if e == n {
      ReferencesExact(c, n, sp);
    } else {
      ReferencesExact(c, e, sp);
    }
  }

  /** A `$` at column `i`, and `n` the column where the name after `$` or
      `${` would start. */
  predicate DollarAt(c: string, i: nat, n: nat)
  {
    && i < |c| && c[i] == '$'
    && ((n == i + 2 && i + 1 < |c| && c[i + 1] == '{') || (n == i + 1 && (i + 1 == |c| || c[i + 1] != '{')))
  }

  /** The scan at a `$`, one step. */
  lemma ReferencesAtDollar(c: string, i: nat, n: nat)
    requires DollarAt(c, i, n)
    ensures var e := NameEnd(c, n);
      References(c, i) == if e == n then References(c, n) else [Span(VariableReference, n, e)] + References(c, e)
  {
  }

  /** A reference introduced by the `$` at column `i` is the name run from `n`. */
  lemma IntroducedHere(c: string, i: nat, n: nat, sp: Span)
    requires DollarAt(c, i, n) && IsReference(c, sp) && Introducer(c, sp) == i
    ensures sp == Span(VariableReference, n, NameEnd(c, n)) && n < NameEnd(c, n)
  {
    NameEndAt(c, n, sp.end);
  }

  /** A reference introduced after column `i` starts past the name run from `n`. */
  lemma IntroducedLater(c: string, i: nat, n: nat, sp: Span)
    requires DollarAt(c, i, n) && IsReference(c, sp) && i < Introducer(c, sp)
    ensures NameEnd(c, n) <= Introducer(c, sp)
  {
    NameEndBefore(c, n, Introducer(c, sp));
  }

  /** The run of name characters from `n` stops at or before a non-name column `d`. */
  lemma NameEndBefore(c: string, n: nat, d: nat)
    requires n <= d < |c| && !IsNameChar(c[d])
    ensures NameEnd(c, n) <= d
  {
  }

  /** `FROM <image> AS <name>`: the third argument word, after an `AS`
      written in any case, when it holds no `$`. */
  predicate DeclaresStage(c: string, ins: Instruction, sp: Span)
    requires IsInstructionOf(c, ins)
  {
    && ins.keyword == "FROM" && |ins.args| > 2
    && Upper(WordText(c, ins.args[1])) == "AS"
    && sp == Span(StageDeclaration, ins.args[2].start, ins.args[2].end)
    && NoDollar(c, sp.start, sp.end)
  }

  /** Words [j, m) of `args` are `--` flags other than `--from=`, and word
      `m` is a `--from=` flag. */
  predicate FirstFromFlag(c: string, args: seq<Word>, j: nat, m: nat)
    requires forall k :: 0 <= k < |args| ==> IsWord(c, args[k])
  {
    && j <= m < |args|
    && (forall k :: j <= k < m ==> IsWord(c, args[k]) && StartsWith(c, args[k], "--") && !StartsWith(c, args[k], "--from="))
    && IsWord(c, args[m]) && StartsWith(c, args[m], "--from=")
  }

  /** The value of the `--from=` flag `args[m]`, when non-empty and free of `$`. */
  predicate FromValue(c: string, args: seq<Word>, m: nat, sp: Span)
    requires m < |args| && IsWord(c, args[m])
  {
    && sp == Span(StageReference, args[m].start + 7, args[m].end)
    && sp.start < sp.end && NoDollar(c, sp.start, sp.end)
  }

  /** `COPY [--<flag> ...] --from=<name> ...`: the value of the first
      `--from=` among the leading `--` flags. */
  predicate NamesStage(c: string, ins: Instruction, sp: Span)
    requires IsInstructionOf(c, ins)
  {
    && ins.keyword == "COPY"
    && exists m :: 0 <= m < |ins.args| && FirstFromFlag(c, ins.args, 0, m) && FromValue(c, ins.args, m, sp)
  }

  /** `ARG <name>[=<value>]`, `ENV <name>=<value>` or `ENV <name> <value>`:
      the first argument up to its end or up to an `=`, when that is a
      non-empty run of name characters. */
  predicate DeclaresVariable(c: string, ins: Instruction, sp: Span)
    requires IsInstructionOf(c, ins)
  {
    && (ins.keyword == "ARG" || ins.keyword == "ENV") && |ins.args| > 0
    && sp.kind == VariableDeclaration && sp.start == ins.args[0].start
    && sp.start < sp.end <= ins.args[0].end
    && AllNameChars(c, sp.start, sp.end)
    && (sp.end == ins.args[0].end || c[sp.end] == '=')
  }

  /** A `$name` or `${name}` whose `$` lies in the arguments of an
      instruction of the language. */
  predicate RefersToVariable(c: string, ins: Instruction, sp: Span)
  {
    ins.keyword in Keywords && IsReference(c, sp) && ArgumentsStart(c, ins) <= Introducer(c, sp)
  }

  /** The symbol spans of a line, by kind, stated on its words. */
  predicate IsSymbolSpan(c: string, sp: Span)
  {
    match ParseInstruction(c)
    case None => false
    case Some(ins) =>
      match sp.kind
      case StageDeclaration => DeclaresStage(c, ins, sp)
      case StageReference => NamesStage(c, ins, sp)
      case VariableDeclaration => DeclaresVariable(c, ins, sp)
      case VariableReference => RefersToVariable(c, ins, sp)
  }

  /** The classifier finds exactly the symbol spans of a line: every
      `AS` name of a `FROM`, every first `--from=` value of a `COPY`, every
      `ARG`/`ENV` name and every reference, and nothing else. */
  lemma SpansExact(c: string, sp: Span)
    ensures sp in FamilySpans(c, FamilyOf(sp.kind)) <==> IsSymbolSpan(c, sp)
  {
    match ParseInstruction(c)
    case None =>
    case Some(ins) =>
      if FamilyOf(sp.kind) == Stage {
        InstructionStageSpansExact(c, ins, sp);
      } else {
        InstructionVariableSpansExact(c, ins, sp);
      }
  }

  lemma InstructionStageSpansExact(c: string, ins: Instruction, sp: Span)
    requires IsInstructionOf(c, ins) && FamilyOf(sp.kind) == Stage
    ensures sp in InstructionStageSpans(c, ins) <==>
      if sp.kind == StageDeclaration then DeclaresStage(c, ins, sp) else NamesStage(c, ins, sp)
  {
    StageDeclarationSpansDelimited(c, ins);
    if ins.keyword == "COPY" {
      forall k | 0 <= k < |ins.args| ensures IsWord(c, ins.args[k]) && ins.args[k].start >= 1 {
        assert ins.keywordWord.end < ins.args[k].start;
      }
      FromFlagSpansDelimited(c, ins.args, 0);
      FromFlagSpansExact(c, ins.args, 0, sp);
    } else if sp.kind == StageDeclaration && ins.keyword == "FROM" && |ins.args| > 2 {
      assert IsWord(c, ins.args[1]) && IsWord(c, ins.args[2]);
    }
  }

  /** The `--from=` scan finds exactly the value of the first `--from=`
      among the `--` flags from word `j` on. */
  lemma {:induction false} FromFlagSpansExact(c: string, args: seq<Word>, j: nat, sp: Span)
    requires forall k :: 0 <= k < |args| ==> IsWord(c, args[k])
    ensures sp in FromFlagSpans(c, args, j) <==> exists m :: 0 <= m < |args| && FirstFromFlag(c, args, j, m) && FromValue(c, args, m, sp)
    decreases |args| - j
  {
    if j < |args| {
      var w := args[j];
      assert IsWord(c, w);
      FromFlagIsFlag(c, w);
      if !StartsWith(c, w, "--") {
        forall m: nat ensures !FirstFromFlag(c, args, j, m) {
          FirstFromFlagHead(c, args, j, m);
        }
      } else if StartsWith(c, w, "--from=") {
        forall m: nat ensures FirstFromFlag(c, args, j, m) ==> m == j {
          FirstFromFlagHead(c, args, j, m);
        }
        if w.start + 7 < w.end && NoDollar(c, w.start + 7, w.end) {
          assert FirstFromFlag(c, args, j, j);
        }
      } else {
        FromFlagSpansExact(c, args, j + 1, sp);
        FirstFromFlagStep(c, args, j);
      }
    }
  }

  /** Past a non-`--from=` flag at word `j`, the first `--from=` is the same. */
  lemma FirstFromFlagStep(c: string, args: seq<Word>, j: nat)
    requires forall k :: 0 <= k < |args| ==> IsWord(c, args[k])
    requires j < |args| && IsWord(c, args[j]) && StartsWith(c, args[j], "--") && !StartsWith(c, args[j], "--from=")
    ensures forall m :: FirstFromFlag(c, args, j, m) <==> FirstFromFlag(c, args, j + 1, m)
  {
  }

  /** What the first `--from=` from word `j` on says about word `j`. */
  lemma FirstFromFlagHead(c: string, args: seq<Word>, j: nat, m: nat)
    requires forall k :: 0 <= k < |args| ==> IsWord(c, args[k])
    ensures FirstFromFlag(c, args, j, m) ==> IsWord(c, args[j]) && StartsWith(c, args[j], "--")
    ensures FirstFromFlag(c, args, j, m) && j < m ==> !StartsWith(c, args[j], "--from=")
  {
    if FirstFromFlag(c, args, j, m) {
      FromFlagIsFlag(c, args[m]);
    }
  }

  /** A `--from=` flag is a `--` flag. */
  lemma FromFlagIsFlag(c: string, w: Word)
    requires w.start <= w.end <= |c|
    ensures StartsWith(c, w, "--from=") ==> StartsWith(c, w, "--")
  {
    if StartsWith(c, w, "--from=") {
      assert c[w.start..w.start + 2] == c[w.start..w.start + 7][..2];
    }
  }

  lemma InstructionVariableSpansExact(c: string, ins: Instruction, sp: Span)
    requires IsInstructionOf(c, ins) && FamilyOf(sp.kind) == Variable
    ensures sp in InstructionVariableSpans(c, ins) <==>
      if sp.kind == VariableDeclaration then DeclaresVariable(c, ins, sp) else RefersToVariable(c, ins, sp)
  {
    if ins.keyword in Keywords {
      var start := ArgumentsStart(c, ins);
      ReferencesExact(c, start, sp);
      VariableDeclarationSpansDelimited(c, ins);
      VariableDeclarationExact(c, ins, sp);
      assert sp in InstructionVariableSpans(c, ins) <==> sp in VariableDeclarationSpans(c, ins) || sp in References(c, start);
    }
  }

  lemma VariableDeclarationExact(c: string, ins: Instruction, sp: Span)
    requires IsInstructionOf(c, ins)
    ensures sp in VariableDeclarationSpans(c, ins) <==> DeclaresVariable(c, ins, sp)
  {
    if (ins.keyword == "ARG" || ins.keyword == "ENV") && |ins.args| > 0 {
      var w := ins.args[0];
      assert IsWord(c, w);
      if DeclaresVariable(c, ins, sp) {
        assert sp.end == |c| || !IsNameChar(c[sp.end]) by {
          if sp.end < |c| && sp.end == w.end { assert IsBlank(c[w.end]); }
        }
        NameEndAt(c, w.start, sp.end);
      }
    }
  }
}
