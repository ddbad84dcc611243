/** The single lines the rename scenarios are made of, each with its spans
    of both families, proved from the tokenizer and the classifier. */
module ScenarioLines {

  import opened Protocol
  import opened Text
  import opened Instructions
  import opened Classifier

  /** A line of spaced tokens, possibly followed by blanks. */
  lemma SpacedLine(c: string, ws: seq<string>, t: string)
    requires c == Spaced(ws) + t && AllBlank(t)
    requires forall i, k :: 0 <= i < |ws| && 0 <= k < |ws[i]| ==> !IsLineBreak(ws[i][k])
    ensures HoldsSpaced(c, 0, ws) && NoLineBreak(c)
  {
    var sp := Spaced(ws);
    assert c[0..|sp|] == sp;
    assert c[|sp|..] == t;
    SpacedAvoids(ws, '\n');
    SpacedAvoids(ws, '\r');
    forall j | 0 <= j < |c| ensures !IsLineBreak(c[j]) {
      if j < |sp| {
        assert c[j] == sp[j];
      } else {
        assert c[j] == t[j - |sp|];
      }
    }
  }

  /** A line of spaced tokens none of which holds `$`. */
  lemma SpacedNoDollar(c: string, ws: seq<string>, t: string)
    requires c == Spaced(ws) + t && AllBlank(t)
    requires forall i, k :: 0 <= i < |ws| && 0 <= k < |ws[i]| ==> ws[i][k] != '$'
    ensures NoDollar(c, 0, |c|)
  {
    var sp := Spaced(ws);
    SpacedAvoids(ws, '$');
    forall j | 0 <= j < |c| ensures c[j] != '$' {
      if j < |sp| {
        assert c[j] == sp[j];
      } else {
        assert c[j] == t[j - |sp|];
      }
    }
  }

  /** A keyword written in upper case is its own upper-cased form. */
  lemma UpperSelf(k: string)
    requires forall i :: 0 <= i < |k| ==> 'A' <= k[i] <= 'Z'
    ensures Upper(k) == k
  {
  }

  /** A line of spaced tokens whose first token is an upper-case keyword. */
  lemma ParsedSpaced(c: string, ws: seq<string>)
    requires HoldsSpaced(c, 0, ws)
    requires |ws| >= 1 && (forall i :: 0 <= i < |ws| ==> IsToken(ws[i]))
    requires forall i :: 0 <= i < |ws[0]| ==> 'A' <= ws[0][i] <= 'Z'
    ensures ParseInstruction(c) == Some(Instruction(ws[0], Word(0, |ws[0]|), Layout(ws[1..], |ws[0]| + 1)))
    ensures var args := Layout(ws[1..], |ws[0]| + 1);
      forall i :: 0 <= i < |args| ==> args[i].start <= args[i].end <= |c| && WordText(c, args[i]) == ws[1..][i]
  {
    UpperSelf(ws[0]);
    ParseSpacedText(c, ws);
  }

  /** A line of spaced tokens laid out as `words`, parsed back into those words. */
  lemma ParsedLine(c: string, ws: seq<string>, t: string, words: seq<Word>)
    requires c == Spaced(ws) + t && AllBlank(t)
    requires |ws| >= 1 && (forall i :: 0 <= i < |ws| ==> IsToken(ws[i]))
    requires forall i :: 0 <= i < |ws[0]| ==> 'A' <= ws[0][i] <= 'Z'
    requires forall i, k :: 0 <= i < |ws| && 0 <= k < |ws[i]| ==> !IsLineBreak(ws[i][k])
    requires Layout(ws, 0) == words
    ensures |words| == |ws|
    ensures ParseInstruction(c) == Some(Instruction(ws[0], words[0], words[1..]))
    ensures NoLineBreak(c) && |c| == words[|ws| - 1].end + |t|
    ensures forall i :: 1 <= i < |ws| ==> WordText(c, words[i]) == ws[i]
  {
    SpacedLine(c, ws, t);
    ParsedSpaced(c, ws);
    LayoutEnd(ws, 0);
    var args := Layout(ws[1..], |ws[0]| + 1);
    assert words == [Word(0, |ws[0]|)] + args;
    forall i | 1 <= i < |ws| ensures WordText(c, words[i]) == ws[i] {
      assert words[i] == args[i - 1] && ws[i] == ws[1..][i - 1];
    }
  }

  // -----------------------------------------------------------------------
  // Classifying parsed lines

  /** An instruction other than `ARG` and `ENV` on a line without `$` has no
      variable spans. */
  lemma NoVariables(c: string, ins: Instruction)
    requires ParseInstruction(c) == Some(ins) && ins.keyword != "ARG" && ins.keyword != "ENV"
    requires NoDollar(c, 0, |c|)
    ensures FamilySpans(c, Variable) == []
  {
    var a := ArgumentsStart(c, ins);
    if ins.keyword in Keywords {
      assert a <= |c| by {
        if |ins.args| > 0 {
          assert IsWord(c, ins.args[0]);
        }
      }
      ReferencesSkip(c, a, |c|);
    }
  }

  /** `FROM <image>` declares no stage. */
  lemma FromPlain(c: string, ins: Instruction)
    requires ParseInstruction(c) == Some(ins) && ins.keyword == "FROM" && |ins.args| <= 2
    ensures FamilySpans(c, Stage) == []
  {
  }

  /** `FROM <image> AS <name>` declares the stage <name>. */
  lemma FromAs(c: string, ins: Instruction)
    requires ParseInstruction(c) == Some(ins) && ins.keyword == "FROM" && |ins.args| >= 3
    requires ins.args[1].start <= ins.args[1].end <= |c| && WordText(c, ins.args[1]) == "AS"
    requires ins.args[2].start <= ins.args[2].end <= |c| && NoDollar(c, ins.args[2].start, ins.args[2].end)
    ensures FamilySpans(c, Stage) == [Span(StageDeclaration, ins.args[2].start, ins.args[2].end)]
  {
    UpperSelf("AS");
  }

  /** `COPY --from=<name> ...` refers to the stage <name>. */
  lemma CopyFrom(c: string, ins: Instruction, name: string)
    requires ParseInstruction(c) == Some(ins) && ins.keyword == "COPY" && |ins.args| >= 1
    requires ins.args[0].start <= ins.args[0].end <= |c| && WordText(c, ins.args[0]) == "--from=" + name
    requires |name| > 0 && NoDollar(c, 0, |c|)
    ensures ins.args[0].start + 7 + |name| == ins.args[0].end
    ensures FamilySpans(c, Stage) == [Span(StageReference, ins.args[0].start + 7, ins.args[0].end)]
    ensures c[ins.args[0].start + 7..ins.args[0].end] == name
  {
    var w := ins.args[0];
    var t := WordText(c, w);
    assert |t| == 7 + |name| && t == c[w.start..w.end];
    assert t[..2] == "--" && t[..7] == "--from=" && t[7..] == name;
    SlicePrefix(c, w.start, w.end, 2);
    SlicePrefix(c, w.start, w.end, 7);
    assert StartsWith(c, w, "--") && StartsWith(c, w, "--from=");
    assert NoDollar(c, w.start + 7, w.end);
    assert FromFlagSpans(c, ins.args, 0) == [Span(StageReference, w.start + 7, w.end)];
  }

  /** Cutting a slice of `c` cuts `c` itself. */
  lemma SlicePrefix(c: string, a: nat, b: nat, k: nat)
    requires a + k <= b <= |c|
    ensures c[a..b][..k] == c[a..a + k] && c[a..b][k..] == c[a + k..b]
  {
  }

  /** `COPY <source> ...` without a leading flag refers to no stage. */
  lemma CopyPlain(c: string, ins: Instruction)
    requires ParseInstruction(c) == Some(ins) && ins.keyword == "COPY" && |ins.args| >= 1
    requires ins.args[0].start <= ins.args[0].end <= |c|
    requires |WordText(c, ins.args[0])| > 0 && WordText(c, ins.args[0])[0] != '-'
    ensures FamilySpans(c, Stage) == []
  {
    var w := ins.args[0];
    assert c[w.start] == WordText(c, w)[0];
  }

  /** An instruction other than `FROM` and `COPY` has no stage spans. */
  lemma NoStages(c: string, ins: Instruction)
    requires ParseInstruction(c) == Some(ins) && ins.keyword != "FROM" && ins.keyword != "COPY"
    ensures FamilySpans(c, Stage) == []
  {
  }

  /** `ARG <name>...` or `ENV <name>...`, the name at column 4 and followed by
      `=`, a blank or the end of the line, declares the variable <name>. */
  lemma Declaration(c: string, ins: Instruction, name: string)
    requires ParseInstruction(c) == Some(ins) && (ins.keyword == "ARG" || ins.keyword == "ENV")
    requires |ins.args| >= 1 && ins.args[0].start == 4
    requires |name| > 0 && forall k :: 0 <= k < |name| ==> IsNameChar(name[k])
    requires 4 + |name| <= |c| && c[4..4 + |name|] == name
    requires 4 + |name| == ins.args[0].end || (4 + |name| < |c| && c[4 + |name|] == '=')
    requires NoDollar(c, 0, |c|)
    ensures FamilySpans(c, Variable) == [Span(VariableDeclaration, 4, 4 + |name|)]
  {
    var e := 4 + |name|;
    var w := ins.args[0];
    assert IsWord(c, w);
    forall j | 4 <= j < e ensures IsNameChar(c[j]) {
      assert c[j] == c[4..e][j - 4];
    }
    NameEndAt(c, 4, e);
    ReferencesSkip(c, 4, |c|);
  }

  /** The variable spans of a known instruction other than `ARG` and `ENV`
      are the references in its arguments. */
  lemma ReferencesOnly(c: string, ins: Instruction)
    requires ParseInstruction(c) == Some(ins) && ins.keyword in Keywords
    requires ins.keyword != "ARG" && ins.keyword != "ENV"
    requires |ins.args| >= 1
    ensures ins.args[0].start <= |c|
    ensures FamilySpans(c, Variable) == References(c, ins.args[0].start)
  {
    assert IsWord(c, ins.args[0]);
    VariableSpansOf(c, ins);
    InstructionReferences(c, ins);
  }

  lemma VariableSpansOf(c: string, ins: Instruction)
    requires ParseInstruction(c) == Some(ins)
    ensures IsInstructionOf(c, ins)
    ensures FamilySpans(c, Variable) == InstructionVariableSpans(c, ins)
  {
  }

  lemma InstructionReferences(c: string, ins: Instruction)
    requires IsInstructionOf(c, ins) && ins.keyword in Keywords
    requires ins.keyword != "ARG" && ins.keyword != "ENV"
    requires |ins.args| >= 1
    ensures InstructionVariableSpans(c, ins) == References(c, ins.args[0].start)
  {
    assert VariableDeclarationSpans(c, ins) == [];
  }

  /** A known instruction whose line ends in `${<name>}` at column q, with no
      `$` before it, refers to <name> once. */
  lemma BracedReference(c: string, ins: Instruction, q: nat, name: string)
    requires ParseInstruction(c) == Some(ins) && ins.keyword in Keywords
    requires ins.keyword != "ARG" && ins.keyword != "ENV"
    requires |ins.args| >= 1 && ins.args[0].start <= q
    requires |name| > 0 && forall k :: 0 <= k < |name| ==> IsNameChar(name[k])
    requires q + |name| + 3 == |c| && c[q..q + |name| + 3] == "${" + name + "}"
    requires NoDollar(c, ins.args[0].start, q)
    ensures FamilySpans(c, Variable) == [Span(VariableReference, q + 2, q + 2 + |name|)]
    ensures c[q + 2..q + 2 + |name|] == name
  {
    ReferencesOnly(c, ins);
    ReferencesSkip(c, ins.args[0].start, q);
    BracedAtEnd(c, q, name);
  }

  /** `${<name>}` closing the line is its last reference. */
  lemma BracedAtEnd(c: string, q: nat, name: string)
    requires |name| > 0 && forall k :: 0 <= k < |name| ==> IsNameChar(name[k])
    requires q + |name| + 3 == |c| && c[q..q + |name| + 3] == "${" + name + "}"
    ensures References(c, q) == [Span(VariableReference, q + 2, q + 2 + |name|)]
    ensures c[q + 2..q + 2 + |name|] == name
  {
    ReferencesBracedPiece(c, q, name);
    assert References(c, |c|) == [];
    var piece := c[q..q + |name| + 3];
    assert piece[2..2 + |name|] == name;
    forall k | 0 <= k < |name| ensures c[q + 2 + k] == name[k] {
      assert c[q + 2 + k] == piece[2 + k];
    }
  }

  /** A known instruction whose line holds `$<name>` at column q, not followed
      by a name character, and no other `$`, refers to <name> once. */
  lemma BareReference(c: string, ins: Instruction, q: nat, name: string)
    requires ParseInstruction(c) == Some(ins) && ins.keyword in Keywords
    requires ins.keyword != "ARG" && ins.keyword != "ENV"
    requires |ins.args| >= 1 && ins.args[0].start <= q
    requires |name| > 0 && forall k :: 0 <= k < |name| ==> IsNameChar(name[k])
    requires q + 1 + |name| <= |c| && c[q..q + 1 + |name|] == "$" + name
    requires q + 1 + |name| == |c| || !IsNameChar(c[q + 1 + |name|])
    requires NoDollar(c, ins.args[0].start, q) && NoDollar(c, q + 1 + |name|, |c|)
    ensures FamilySpans(c, Variable) == [Span(VariableReference, q + 1, q + 1 + |name|)]
    ensures c[q + 1..q + 1 + |name|] == name
  {
    ReferencesOnly(c, ins);
    ReferencesSkip(c, ins.args[0].start, q);
    ReferencesBarePiece(c, q, name);
    ReferencesSkip(c, q + 1 + |name|, |c|);
    assert c[q + 1..q + 1 + |name|] == c[q..q + 1 + |name|][1..];
  }

  // -----------------------------------------------------------------------
  // The scenario lines

  lemma FromAsTokens()
    ensures forall i :: 0 <= i < 4 ==> IsToken(["FROM", "node", "AS", "bootstrap"][i])
    ensures forall i :: 0 <= i < 4 ==> 'A' <= "FROM"[i] <= 'Z'
    ensures forall i, k :: 0 <= i < 4 && 0 <= k < |["FROM", "node", "AS", "bootstrap"][i]| ==> !IsLineBreak(["FROM", "node", "AS", "bootstrap"][i][k])
    ensures forall i, k :: 0 <= i < 4 && 0 <= k < |["FROM", "node", "AS", "bootstrap"][i]| ==> ["FROM", "node", "AS", "bootstrap"][i][k] != '$'
  {
    assert IsToken("FROM");
    assert IsToken("node");
    assert IsToken("AS");
    assert IsToken("bootstrap");
  }

  lemma FromAsParsed(c: string)
    requires c == Spaced(["FROM", "node", "AS", "bootstrap"])
    ensures ParseInstruction(c) == Some(Instruction("FROM", Word(0, 4), [Word(5, 9), Word(10, 12), Word(13, 22)]))
    ensures NoLineBreak(c) && |c| == 22
    ensures WordText(c, Word(5, 9)) == "node"
    ensures WordText(c, Word(10, 12)) == "AS"
    ensures WordText(c, Word(13, 22)) == "bootstrap"
  {
    var ws := ["FROM", "node", "AS", "bootstrap"];
    FromAsTokens();
    FromAsLayout();
    ParsedLine(c, ws, "", [Word(0, 4), Word(5, 9), Word(10, 12), Word(13, 22)]);
  }

  lemma FromAsLayout()
    ensures Layout(["FROM", "node", "AS", "bootstrap"], 0) == [Word(0, 4), Word(5, 9), Word(10, 12), Word(13, 22)]
  {
    assert Layout(["bootstrap"], 13) == [Word(13, 22)];
    assert Layout(["AS", "bootstrap"], 10) == [Word(10, 12), Word(13, 22)];
    assert Layout(["node", "AS", "bootstrap"], 5) == [Word(5, 9), Word(10, 12), Word(13, 22)];
  }

  lemma FromAsText(c: string)
    requires c == Spaced(["FROM", "node", "AS", "bootstrap"])
    ensures NoDollar(c, 0, |c|)
  {
    FromAsTokens();
    SpacedNoDollar(c, ["FROM", "node", "AS", "bootstrap"], "");
  }

  lemma FromAsSpans(c: string)
    requires ParseInstruction(c) == Some(Instruction("FROM", Word(0, 4), [Word(5, 9), Word(10, 12), Word(13, 22)]))
    requires NoLineBreak(c) && |c| == 22
    requires WordText(c, Word(5, 9)) == "node"
    requires WordText(c, Word(10, 12)) == "AS"
    requires WordText(c, Word(13, 22)) == "bootstrap"
    requires NoDollar(c, 0, |c|)
    ensures c[13..22] == "bootstrap"
    ensures FamilySpans(c, Stage) == [Span(StageDeclaration, 13, 22)]
    ensures FamilySpans(c, Variable) == []
  {
    var ins := Instruction("FROM", Word(0, 4), [Word(5, 9), Word(10, 12), Word(13, 22)]);
    FromAs(c, ins);
    NoVariables(c, ins);
  }

  /** `FROM node AS bootstrap` declares the stage `bootstrap` at [13, 22). */
  lemma FromAsLine(c: string)
    requires c == Spaced(["FROM", "node", "AS", "bootstrap"])
    ensures NoLineBreak(c) && c[13..22] == "bootstrap"
    ensures FamilySpans(c, Stage) == [Span(StageDeclaration, 13, 22)]
    ensures FamilySpans(c, Variable) == []
  {
    FromAsParsed(c);
    FromAsText(c);
    FromAsSpans(c);
  }

  lemma FromAsTrailingParsed(c: string)
    requires c == Spaced(["FROM", "node", "AS", "bootstrap"]) + "   "
    ensures ParseInstruction(c) == Some(Instruction("FROM", Word(0, 4), [Word(5, 9), Word(10, 12), Word(13, 22)]))
    ensures NoLineBreak(c) && |c| == 25
    ensures WordText(c, Word(5, 9)) == "node"
    ensures WordText(c, Word(10, 12)) == "AS"
    ensures WordText(c, Word(13, 22)) == "bootstrap"
  {
    var ws := ["FROM", "node", "AS", "bootstrap"];
    FromAsTokens();
    FromAsLayout();
    ParsedLine(c, ws, "   ", [Word(0, 4), Word(5, 9), Word(10, 12), Word(13, 22)]);
  }

  lemma FromAsTrailingText(c: string)
    requires c == Spaced(["FROM", "node", "AS", "bootstrap"]) + "   "
    ensures NoDollar(c, 0, |c|)
  {
    FromAsTokens();
    SpacedNoDollar(c, ["FROM", "node", "AS", "bootstrap"], "   ");
  }

  lemma FromAsTrailingSpans(c: string)
    requires ParseInstruction(c) == Some(Instruction("FROM", Word(0, 4), [Word(5, 9), Word(10, 12), Word(13, 22)]))
    requires NoLineBreak(c) && |c| == 25
    requires WordText(c, Word(5, 9)) == "node"
    requires WordText(c, Word(10, 12)) == "AS"
    requires WordText(c, Word(13, 22)) == "bootstrap"
    requires NoDollar(c, 0, |c|)
    ensures c[13..22] == "bootstrap"
    ensures FamilySpans(c, Stage) == [Span(StageDeclaration, 13, 22)]
    ensures FamilySpans(c, Variable) == []
  {
    var ins := Instruction("FROM", Word(0, 4), [Word(5, 9), Word(10, 12), Word(13, 22)]);
    FromAs(c, ins);
    NoVariables(c, ins);
  }

  /** `FROM node AS bootstrap` with trailing blanks declares the stage `bootstrap` at [13, 22). */
  lemma FromAsTrailingLine(c: string)
    requires c == Spaced(["FROM", "node", "AS", "bootstrap"]) + "   "
    ensures NoLineBreak(c) && c[13..22] == "bootstrap"
    ensures FamilySpans(c, Stage) == [Span(StageDeclaration, 13, 22)]
    ensures FamilySpans(c, Variable) == []
  {
    FromAsTrailingParsed(c);
    FromAsTrailingText(c);
    FromAsTrailingSpans(c);
  }

  lemma FromNodeTokens()
    ensures forall i :: 0 <= i < 2 ==> IsToken(["FROM", "node"][i])
    ensures forall i :: 0 <= i < 4 ==> 'A' <= "FROM"[i] <= 'Z'
    ensures forall i, k :: 0 <= i < 2 && 0 <= k < |["FROM", "node"][i]| ==> !IsLineBreak(["FROM", "node"][i][k])
    ensures forall i, k :: 0 <= i < 2 && 0 <= k < |["FROM", "node"][i]| ==> ["FROM", "node"][i][k] != '$'
  {
    assert IsToken("FROM");
    assert IsToken("node");
  }

  lemma FromNodeParsed(c: string)
    requires c == Spaced(["FROM", "node"])
    ensures ParseInstruction(c) == Some(Instruction("FROM", Word(0, 4), [Word(5, 9)]))
    ensures NoLineBreak(c) && |c| == 9
    ensures WordText(c, Word(5, 9)) == "node"
  {
    var ws := ["FROM", "node"];
    FromNodeTokens();
    FromNodeLayout();
    ParsedLine(c, ws, "", [Word(0, 4), Word(5, 9)]);
  }

  lemma FromNodeLayout()
    ensures Layout(["FROM", "node"], 0) == [Word(0, 4), Word(5, 9)]
  {
    assert Layout(["node"], 5) == [Word(5, 9)];
  }

  lemma FromNodeText(c: string)
    requires c == Spaced(["FROM", "node"])
    ensures NoDollar(c, 0, |c|)
  {
    FromNodeTokens();
    SpacedNoDollar(c, ["FROM", "node"], "");
  }

  lemma FromNodeSpans(c: string)
    requires ParseInstruction(c) == Some(Instruction("FROM", Word(0, 4), [Word(5, 9)]))
    requires NoLineBreak(c) && |c| == 9
    requires WordText(c, Word(5, 9)) == "node"
    requires NoDollar(c, 0, |c|)
    ensures FamilySpans(c, Stage) == []
    ensures FamilySpans(c, Variable) == []
  {
    var ins := Instruction("FROM", Word(0, 4), [Word(5, 9)]);
    FromPlain(c, ins);
    NoVariables(c, ins);
  }

  /** `FROM node` declares no stage. */
  lemma FromNodeLine(c: string)
    requires c == Spaced(["FROM", "node"])
    ensures NoLineBreak(c)
    ensures FamilySpans(c, Stage) == []
    ensures FamilySpans(c, Variable) == []
  {
    FromNodeParsed(c);
    FromNodeText(c);
    FromNodeSpans(c);
  }

  lemma FromBusyboxTokens()
    ensures forall i :: 0 <= i < 2 ==> IsToken(["FROM", "busybox"][i])
    ensures forall i :: 0 <= i < 4 ==> 'A' <= "FROM"[i] <= 'Z'
    ensures forall i, k :: 0 <= i < 2 && 0 <= k < |["FROM", "busybox"][i]| ==> !IsLineBreak(["FROM", "busybox"][i][k])
    ensures forall i, k :: 0 <= i < 2 && 0 <= k < |["FROM", "busybox"][i]| ==> ["FROM", "busybox"][i][k] != '$'
  {
    assert IsToken("FROM");
    assert IsToken("busybox");
  }

  lemma FromBusyboxParsed(c: string)
    requires c == Spaced(["FROM", "busybox"])
    ensures ParseInstruction(c) == Some(Instruction("FROM", Word(0, 4), [Word(5, 12)]))
    ensures NoLineBreak(c) && |c| == 12
    ensures WordText(c, Word(5, 12)) == "busybox"
  {
    var ws := ["FROM", "busybox"];
    FromBusyboxTokens();
    FromBusyboxLayout();
    ParsedLine(c, ws, "", [Word(0, 4), Word(5, 12)]);
  }

  lemma FromBusyboxLayout()
    ensures Layout(["FROM", "busybox"], 0) == [Word(0, 4), Word(5, 12)]
  {
    assert Layout(["busybox"], 5) == [Word(5, 12)];
  }

  lemma FromBusyboxText(c: string)
    requires c == Spaced(["FROM", "busybox"])
    ensures NoDollar(c, 0, |c|)
  {
    FromBusyboxTokens();
    SpacedNoDollar(c, ["FROM", "busybox"], "");
  }

  lemma FromBusyboxSpans(c: string)
    requires ParseInstruction(c) == Some(Instruction("FROM", Word(0, 4), [Word(5, 12)]))
    requires NoLineBreak(c) && |c| == 12
    requires WordText(c, Word(5, 12)) == "busybox"
    requires NoDollar(c, 0, |c|)
    ensures FamilySpans(c, Stage) == []
    ensures FamilySpans(c, Variable) == []
  {
    var ins := Instruction("FROM", Word(0, 4), [Word(5, 12)]);
    FromPlain(c, ins);
    NoVariables(c, ins);
  }

  /** `FROM busybox` declares no stage. */
  lemma FromBusyboxLine(c: string)
    requires c == Spaced(["FROM", "busybox"])
    ensures NoLineBreak(c)
    ensures FamilySpans(c, Stage) == []
    ensures FamilySpans(c, Variable) == []
  {
    FromBusyboxParsed(c);
    FromBusyboxText(c);
    FromBusyboxSpans(c);
  }

  lemma CopyFromBootstrapTokens()
    ensures forall i :: 0 <= i < 4 ==> IsToken(["COPY", "--from=bootstrap", "/git/bin/app", "."][i])
    ensures forall i :: 0 <= i < 4 ==> 'A' <= "COPY"[i] <= 'Z'
    ensures forall i, k :: 0 <= i < 4 && 0 <= k < |["COPY", "--from=bootstrap", "/git/bin/app", "."][i]| ==> !IsLineBreak(["COPY", "--from=bootstrap", "/git/bin/app", "."][i][k])
    ensures forall i, k :: 0 <= i < 4 && 0 <= k < |["COPY", "--from=bootstrap", "/git/bin/app", "."][i]| ==> ["COPY", "--from=bootstrap", "/git/bin/app", "."][i][k] != '$'
  {
    assert IsToken("COPY");
    assert IsToken("--from=bootstrap");
    assert IsToken("/git/bin/app");
    assert IsToken(".");
  }

  lemma CopyFromBootstrapParsed(c: string)
    requires c == Spaced(["COPY", "--from=bootstrap", "/git/bin/app", "."])
    ensures ParseInstruction(c) == Some(Instruction("COPY", Word(0, 4), [Word(5, 21), Word(22, 34), Word(35, 36)]))
    ensures NoLineBreak(c) && |c| == 36
    ensures WordText(c, Word(5, 21)) == "--from=bootstrap"
    ensures WordText(c, Word(22, 34)) == "/git/bin/app"
    ensures WordText(c, Word(35, 36)) == "."
  {
    var ws := ["COPY", "--from=bootstrap", "/git/bin/app", "."];
    CopyFromBootstrapTokens();
    CopyFromBootstrapLayout();
    ParsedLine(c, ws, "", [Word(0, 4), Word(5, 21), Word(22, 34), Word(35, 36)]);
  }

  lemma CopyFromBootstrapLayout()
    ensures Layout(["COPY", "--from=bootstrap", "/git/bin/app", "."], 0) == [Word(0, 4), Word(5, 21), Word(22, 34), Word(35, 36)]
  {
    assert Layout(["."], 35) == [Word(35, 36)];
    assert Layout(["/git/bin/app", "."], 22) == [Word(22, 34), Word(35, 36)];
    assert Layout(["--from=bootstrap", "/git/bin/app", "."], 5) == [Word(5, 21), Word(22, 34), Word(35, 36)];
  }

  lemma CopyFromBootstrapText(c: string)
    requires c == Spaced(["COPY", "--from=bootstrap", "/git/bin/app", "."])
    ensures NoDollar(c, 0, |c|)
  {
    CopyFromBootstrapTokens();
    SpacedNoDollar(c, ["COPY", "--from=bootstrap", "/git/bin/app", "."], "");
  }

  lemma CopyFromBootstrapSpans(c: string)
    requires ParseInstruction(c) == Some(Instruction("COPY", Word(0, 4), [Word(5, 21), Word(22, 34), Word(35, 36)]))
    requires NoLineBreak(c) && |c| == 36
    requires WordText(c, Word(5, 21)) == "--from=bootstrap"
    requires WordText(c, Word(22, 34)) == "/git/bin/app"
    requires WordText(c, Word(35, 36)) == "."
    requires NoDollar(c, 0, |c|)
    ensures c[12..21] == "bootstrap"
    ensures FamilySpans(c, Stage) == [Span(StageReference, 12, 21)]
    ensures FamilySpans(c, Variable) == []
  {
    var ins := Instruction("COPY", Word(0, 4), [Word(5, 21), Word(22, 34), Word(35, 36)]);
    CopyFrom(c, ins, "bootstrap");
    NoVariables(c, ins);
  }

  /** `COPY --from=bootstrap /git/bin/app .` refers to the stage `bootstrap` at [12, 21). */
  lemma CopyFromBootstrapLine(c: string)
    requires c == Spaced(["COPY", "--from=bootstrap", "/git/bin/app", "."])
    ensures NoLineBreak(c) && c[12..21] == "bootstrap"
    ensures FamilySpans(c, Stage) == [Span(StageReference, 12, 21)]
    ensures FamilySpans(c, Variable) == []
  {
    CopyFromBootstrapParsed(c);
    CopyFromBootstrapText(c);
    CopyFromBootstrapSpans(c);
  }

  lemma CopyFromIncompleteTokens()
    ensures forall i :: 0 <= i < 2 ==> IsToken(["COPY", "--from=bootstrap"][i])
    ensures forall i :: 0 <= i < 4 ==> 'A' <= "COPY"[i] <= 'Z'
    ensures forall i, k :: 0 <= i < 2 && 0 <= k < |["COPY", "--from=bootstrap"][i]| ==> !IsLineBreak(["COPY", "--from=bootstrap"][i][k])
    ensures forall i, k :: 0 <= i < 2 && 0 <= k < |["COPY", "--from=bootstrap"][i]| ==> ["COPY", "--from=bootstrap"][i][k] != '$'
  {
    assert IsToken("COPY");
    assert IsToken("--from=bootstrap");
  }

  lemma CopyFromIncompleteParsed(c: string)
    requires c == Spaced(["COPY", "--from=bootstrap"])
    ensures ParseInstruction(c) == Some(Instruction("COPY", Word(0, 4), [Word(5, 21)]))
    ensures NoLineBreak(c) && |c| == 21
    ensures WordText(c, Word(5, 21)) == "--from=bootstrap"
  {
    var ws := ["COPY", "--from=bootstrap"];
    CopyFromIncompleteTokens();
    CopyFromIncompleteLayout();
    ParsedLine(c, ws, "", [Word(0, 4), Word(5, 21)]);
  }

  lemma CopyFromIncompleteLayout()
    ensures Layout(["COPY", "--from=bootstrap"], 0) == [Word(0, 4), Word(5, 21)]
  {
    assert Layout(["--from=bootstrap"], 5) == [Word(5, 21)];
  }

  lemma CopyFromIncompleteText(c: string)
    requires c == Spaced(["COPY", "--from=bootstrap"])
    ensures NoDollar(c, 0, |c|)
  {
    CopyFromIncompleteTokens();
    SpacedNoDollar(c, ["COPY", "--from=bootstrap"], "");
  }

  lemma CopyFromIncompleteSpans(c: string)
    requires ParseInstruction(c) == Some(Instruction("COPY", Word(0, 4), [Word(5, 21)]))
    requires NoLineBreak(c) && |c| == 21
    requires WordText(c, Word(5, 21)) == "--from=bootstrap"
    requires NoDollar(c, 0, |c|)
    ensures c[12..21] == "bootstrap"
    ensures FamilySpans(c, Stage) == [Span(StageReference, 12, 21)]
    ensures FamilySpans(c, Variable) == []
  {
    var ins := Instruction("COPY", Word(0, 4), [Word(5, 21)]);
    CopyFrom(c, ins, "bootstrap");
    NoVariables(c, ins);
  }

  /** `COPY --from=bootstrap` refers to the stage `bootstrap` at [12, 21). */
  lemma CopyFromIncompleteLine(c: string)
    requires c == Spaced(["COPY", "--from=bootstrap"])
    ensures NoLineBreak(c) && c[12..21] == "bootstrap"
    ensures FamilySpans(c, Stage) == [Span(StageReference, 12, 21)]
    ensures FamilySpans(c, Variable) == []
  {
    CopyFromIncompleteParsed(c);
    CopyFromIncompleteText(c);
    CopyFromIncompleteSpans(c);
  }

  lemma CopyFromBootstrap2Tokens()
    ensures forall i :: 0 <= i < 4 ==> IsToken(["COPY", "--from=bootstrap2", "/git/bin/app", "."][i])
    ensures forall i :: 0 <= i < 4 ==> 'A' <= "COPY"[i] <= 'Z'
    ensures forall i, k :: 0 <= i < 4 && 0 <= k < |["COPY", "--from=bootstrap2", "/git/bin/app", "."][i]| ==> !IsLineBreak(["COPY", "--from=bootstrap2", "/git/bin/app", "."][i][k])
    ensures forall i, k :: 0 <= i < 4 && 0 <= k < |["COPY", "--from=bootstrap2", "/git/bin/app", "."][i]| ==> ["COPY", "--from=bootstrap2", "/git/bin/app", "."][i][k] != '$'
  {
    assert IsToken("COPY");
    assert IsToken("--from=bootstrap2");
    assert IsToken("/git/bin/app");
    assert IsToken(".");
  }

  lemma CopyFromBootstrap2Parsed(c: string)
    requires c == Spaced(["COPY", "--from=bootstrap2", "/git/bin/app", "."])
    ensures ParseInstruction(c) == Some(Instruction("COPY", Word(0, 4), [Word(5, 22), Word(23, 35), Word(36, 37)]))
    ensures NoLineBreak(c) && |c| == 37
    ensures WordText(c, Word(5, 22)) == "--from=bootstrap2"
    ensures WordText(c, Word(23, 35)) == "/git/bin/app"
    ensures WordText(c, Word(36, 37)) == "."
  {
    var ws := ["COPY", "--from=bootstrap2", "/git/bin/app", "."];
    CopyFromBootstrap2Tokens();
    CopyFromBootstrap2Layout();
    ParsedLine(c, ws, "", [Word(0, 4), Word(5, 22), Word(23, 35), Word(36, 37)]);
  }

  lemma CopyFromBootstrap2Layout()
    ensures Layout(["COPY", "--from=bootstrap2", "/git/bin/app", "."], 0) == [Word(0, 4), Word(5, 22), Word(23, 35), Word(36, 37)]
  {
    assert Layout(["."], 36) == [Word(36, 37)];
    assert Layout(["/git/bin/app", "."], 23) == [Word(23, 35), Word(36, 37)];
    assert Layout(["--from=bootstrap2", "/git/bin/app", "."], 5) == [Word(5, 22), Word(23, 35), Word(36, 37)];
  }

  lemma CopyFromBootstrap2Text(c: string)
    requires c == Spaced(["COPY", "--from=bootstrap2", "/git/bin/app", "."])
    ensures NoDollar(c, 0, |c|)
  {
    CopyFromBootstrap2Tokens();
    SpacedNoDollar(c, ["COPY", "--from=bootstrap2", "/git/bin/app", "."], "");
  }

  lemma CopyFromBootstrap2Spans(c: string)
    requires ParseInstruction(c) == Some(Instruction("COPY", Word(0, 4), [Word(5, 22), Word(23, 35), Word(36, 37)]))
    requires NoLineBreak(c) && |c| == 37
    requires WordText(c, Word(5, 22)) == "--from=bootstrap2"
    requires WordText(c, Word(23, 35)) == "/git/bin/app"
    requires WordText(c, Word(36, 37)) == "."
    requires NoDollar(c, 0, |c|)
    ensures c[12..22] == "bootstrap2"
    ensures FamilySpans(c, Stage) == [Span(StageReference, 12, 22)]
    ensures FamilySpans(c, Variable) == []
  {
    var ins := Instruction("COPY", Word(0, 4), [Word(5, 22), Word(23, 35), Word(36, 37)]);
    CopyFrom(c, ins, "bootstrap2");
    NoVariables(c, ins);
  }

  /** `COPY --from=bootstrap2 /git/bin/app .` refers to the stage `bootstrap2` at [12, 22). */
  lemma CopyFromBootstrap2Line(c: string)
    requires c == Spaced(["COPY", "--from=bootstrap2", "/git/bin/app", "."])
    ensures NoLineBreak(c) && c[12..22] == "bootstrap2"
    ensures FamilySpans(c, Stage) == [Span(StageReference, 12, 22)]
    ensures FamilySpans(c, Variable) == []
  {
    CopyFromBootstrap2Parsed(c);
    CopyFromBootstrap2Text(c);
    CopyFromBootstrap2Spans(c);
  }

  lemma CopySourceTokens()
    ensures forall i :: 0 <= i < 3 ==> IsToken(["COPY", "bootstrap", "/git/build/"][i])
    ensures forall i :: 0 <= i < 4 ==> 'A' <= "COPY"[i] <= 'Z'
    ensures forall i, k :: 0 <= i < 3 && 0 <= k < |["COPY", "bootstrap", "/git/build/"][i]| ==> !IsLineBreak(["COPY", "bootstrap", "/git/build/"][i][k])
    ensures forall i, k :: 0 <= i < 3 && 0 <= k < |["COPY", "bootstrap", "/git/build/"][i]| ==> ["COPY", "bootstrap", "/git/build/"][i][k] != '$'
  {
    assert IsToken("COPY");
    assert IsToken("bootstrap");
    assert IsToken("/git/build/");
  }

  lemma CopySourceParsed(c: string)
    requires c == Spaced(["COPY", "bootstrap", "/git/build/"])
    ensures ParseInstruction(c) == Some(Instruction("COPY", Word(0, 4), [Word(5, 14), Word(15, 26)]))
    ensures NoLineBreak(c) && |c| == 26
    ensures WordText(c, Word(5, 14)) == "bootstrap"
    ensures WordText(c, Word(15, 26)) == "/git/build/"
  {
    var ws := ["COPY", "bootstrap", "/git/build/"];
    CopySourceTokens();
    CopySourceLayout();
    ParsedLine(c, ws, "", [Word(0, 4), Word(5, 14), Word(15, 26)]);
  }

  lemma CopySourceLayout()
    ensures Layout(["COPY", "bootstrap", "/git/build/"], 0) == [Word(0, 4), Word(5, 14), Word(15, 26)]
  {
    assert Layout(["/git/build/"], 15) == [Word(15, 26)];
    assert Layout(["bootstrap", "/git/build/"], 5) == [Word(5, 14), Word(15, 26)];
  }

  lemma CopySourceText(c: string)
    requires c == Spaced(["COPY", "bootstrap", "/git/build/"])
    ensures NoDollar(c, 0, |c|)
  {
    CopySourceTokens();
    SpacedNoDollar(c, ["COPY", "bootstrap", "/git/build/"], "");
  }

  lemma CopySourceSpans(c: string)
    requires ParseInstruction(c) == Some(Instruction("COPY", Word(0, 4), [Word(5, 14), Word(15, 26)]))
    requires NoLineBreak(c) && |c| == 26
    requires WordText(c, Word(5, 14)) == "bootstrap"
    requires WordText(c, Word(15, 26)) == "/git/build/"
    requires NoDollar(c, 0, |c|)
    ensures FamilySpans(c, Stage) == []
    ensures FamilySpans(c, Variable) == []
  {
    var ins := Instruction("COPY", Word(0, 4), [Word(5, 14), Word(15, 26)]);
    CopyPlain(c, ins);
    NoVariables(c, ins);
  }

  /** `COPY bootstrap /git/build/` names `bootstrap` as a source path, which is no stage reference. */
  lemma CopySourceLine(c: string)
    requires c == Spaced(["COPY", "bootstrap", "/git/build/"])
    ensures NoLineBreak(c)
    ensures FamilySpans(c, Stage) == []
    ensures FamilySpans(c, Variable) == []
  {
    CopySourceParsed(c);
    CopySourceText(c);
    CopySourceSpans(c);
  }

  lemma ArgValueTokens()
    ensures forall i :: 0 <= i < 2 ==> IsToken(["ARG", "var=value"][i])
    ensures forall i :: 0 <= i < 3 ==> 'A' <= "ARG"[i] <= 'Z'
    ensures forall i, k :: 0 <= i < 2 && 0 <= k < |["ARG", "var=value"][i]| ==> !IsLineBreak(["ARG", "var=value"][i][k])
    ensures forall i, k :: 0 <= i < 2 && 0 <= k < |["ARG", "var=value"][i]| ==> ["ARG", "var=value"][i][k] != '$'
  {
    assert IsToken("ARG");
    assert IsToken("var=value");
  }

  lemma ArgValueParsed(c: string)
    requires c == Spaced(["ARG", "var=value"])
    ensures ParseInstruction(c) == Some(Instruction("ARG", Word(0, 3), [Word(4, 13)]))
    ensures NoLineBreak(c) && |c| == 13
    ensures WordText(c, Word(4, 13)) == "var=value"
  {
    var ws := ["ARG", "var=value"];
    ArgValueTokens();
    ArgValueLayout();
    ParsedLine(c, ws, "", [Word(0, 3), Word(4, 13)]);
  }

  lemma ArgValueLayout()
    ensures Layout(["ARG", "var=value"], 0) == [Word(0, 3), Word(4, 13)]
  {
    assert Layout(["var=value"], 4) == [Word(4, 13)];
  }

  lemma ArgValueText(c: string)
    requires c == Spaced(["ARG", "var=value"])
    ensures NoDollar(c, 0, |c|)
    ensures c[4..7] == "var"
    ensures c[7] == '='
  {
    ArgValueParsed(c);
    ArgValueTokens();
    SpacedNoDollar(c, ["ARG", "var=value"], "");
    assert c[4..7] == WordText(c, Word(4, 13))[..3];
    assert c[7] == WordText(c, Word(4, 13))[3];
  }

  lemma ArgValueSpans(c: string)
    requires ParseInstruction(c) == Some(Instruction("ARG", Word(0, 3), [Word(4, 13)]))
    requires NoLineBreak(c) && |c| == 13
    requires WordText(c, Word(4, 13)) == "var=value"
    requires NoDollar(c, 0, |c|)
    requires c[4..7] == "var"
    requires c[7] == '='
    ensures c[4..7] == "var"
    ensures FamilySpans(c, Stage) == []
    ensures FamilySpans(c, Variable) == [Span(VariableDeclaration, 4, 7)]
  {
    var ins := Instruction("ARG", Word(0, 3), [Word(4, 13)]);
    NoStages(c, ins);
    Declaration(c, ins, "var");
  }

  /** `ARG var=value` declares the variable `var` at [4, 7). */
  lemma ArgValueLine(c: string)
    requires c == Spaced(["ARG", "var=value"])
    ensures NoLineBreak(c) && c[4..7] == "var"
    ensures FamilySpans(c, Stage) == []
    ensures FamilySpans(c, Variable) == [Span(VariableDeclaration, 4, 7)]
  {
    ArgValueParsed(c);
    ArgValueText(c);
    ArgValueSpans(c);
  }

  lemma EnvValueTokens()
    ensures forall i :: 0 <= i < 2 ==> IsToken(["ENV", "var=value"][i])
    ensures forall i :: 0 <= i < 3 ==> 'A' <= "ENV"[i] <= 'Z'
    ensures forall i, k :: 0 <= i < 2 && 0 <= k < |["ENV", "var=value"][i]| ==> !IsLineBreak(["ENV", "var=value"][i][k])
    ensures forall i, k :: 0 <= i < 2 && 0 <= k < |["ENV", "var=value"][i]| ==> ["ENV", "var=value"][i][k] != '$'
  {
    assert IsToken("ENV");
    assert IsToken("var=value");
  }

  lemma EnvValueParsed(c: string)
    requires c == Spaced(["ENV", "var=value"])
    ensures ParseInstruction(c) == Some(Instruction("ENV", Word(0, 3), [Word(4, 13)]))
    ensures NoLineBreak(c) && |c| == 13
    ensures WordText(c, Word(4, 13)) == "var=value"
  {
    var ws := ["ENV", "var=value"];
    EnvValueTokens();
    EnvValueLayout();
    ParsedLine(c, ws, "", [Word(0, 3), Word(4, 13)]);
  }

  lemma EnvValueLayout()
    ensures Layout(["ENV", "var=value"], 0) == [Word(0, 3), Word(4, 13)]
  {
    assert Layout(["var=value"], 4) == [Word(4, 13)];
  }

  lemma EnvValueText(c: string)
    requires c == Spaced(["ENV", "var=value"])
    ensures NoDollar(c, 0, |c|)
    ensures c[4..7] == "var"
    ensures c[7] == '='
  {
    EnvValueParsed(c);
    EnvValueTokens();
    SpacedNoDollar(c, ["ENV", "var=value"], "");
    assert c[4..7] == WordText(c, Word(4, 13))[..3];
    assert c[7] == WordText(c, Word(4, 13))[3];
  }

  lemma EnvValueSpans(c: string)
    requires ParseInstruction(c) == Some(Instruction("ENV", Word(0, 3), [Word(4, 13)]))
    requires NoLineBreak(c) && |c| == 13
    requires WordText(c, Word(4, 13)) == "var=value"
    requires NoDollar(c, 0, |c|)
    requires c[4..7] == "var"
    requires c[7] == '='
    ensures c[4..7] == "var"
    ensures FamilySpans(c, Stage) == []
    ensures FamilySpans(c, Variable) == [Span(VariableDeclaration, 4, 7)]
  {
    var ins := Instruction("ENV", Word(0, 3), [Word(4, 13)]);
    NoStages(c, ins);
    Declaration(c, ins, "var");
  }

  /** `ENV var=value` declares the variable `var` at [4, 7). */
  lemma EnvValueLine(c: string)
    requires c == Spaced(["ENV", "var=value"])
    ensures NoLineBreak(c) && c[4..7] == "var"
    ensures FamilySpans(c, Stage) == []
    ensures FamilySpans(c, Variable) == [Span(VariableDeclaration, 4, 7)]
  {
    EnvValueParsed(c);
    EnvValueText(c);
    EnvValueSpans(c);
  }

  lemma EnvSpaceValueTokens()
    ensures forall i :: 0 <= i < 3 ==> IsToken(["ENV", "var", "value"][i])
    ensures forall i :: 0 <= i < 3 ==> 'A' <= "ENV"[i] <= 'Z'
    ensures forall i, k :: 0 <= i < 3 && 0 <= k < |["ENV", "var", "value"][i]| ==> !IsLineBreak(["ENV", "var", "value"][i][k])
    ensures forall i, k :: 0 <= i < 3 && 0 <= k < |["ENV", "var", "value"][i]| ==> ["ENV", "var", "value"][i][k] != '$'
  {
    assert IsToken("ENV");
    assert IsToken("var");
    assert IsToken("value");
  }

  lemma EnvSpaceValueParsed(c: string)
    requires c == Spaced(["ENV", "var", "value"])
    ensures ParseInstruction(c) == Some(Instruction("ENV", Word(0, 3), [Word(4, 7), Word(8, 13)]))
    ensures NoLineBreak(c) && |c| == 13
    ensures WordText(c, Word(4, 7)) == "var"
    ensures WordText(c, Word(8, 13)) == "value"
  {
    var ws := ["ENV", "var", "value"];
    EnvSpaceValueTokens();
    EnvSpaceValueLayout();
    ParsedLine(c, ws, "", [Word(0, 3), Word(4, 7), Word(8, 13)]);
  }

  lemma EnvSpaceValueLayout()
    ensures Layout(["ENV", "var", "value"], 0) == [Word(0, 3), Word(4, 7), Word(8, 13)]
  {
    assert Layout(["value"], 8) == [Word(8, 13)];
    assert Layout(["var", "value"], 4) == [Word(4, 7), Word(8, 13)];
  }

  lemma EnvSpaceValueText(c: string)
    requires c == Spaced(["ENV", "var", "value"])
    ensures NoDollar(c, 0, |c|)
    ensures c[4..7] == "var"
  {
    EnvSpaceValueTokens();
    SpacedNoDollar(c, ["ENV", "var", "value"], "");
  }

  lemma EnvSpaceValueSpans(c: string)
    requires ParseInstruction(c) == Some(Instruction("ENV", Word(0, 3), [Word(4, 7), Word(8, 13)]))
    requires NoLineBreak(c) && |c| == 13
    requires WordText(c, Word(4, 7)) == "var"
    requires WordText(c, Word(8, 13)) == "value"
    requires NoDollar(c, 0, |c|)
    requires c[4..7] == "var"
    ensures c[4..7] == "var"
    ensures FamilySpans(c, Stage) == []
    ensures FamilySpans(c, Variable) == [Span(VariableDeclaration, 4, 7)]
  {
    var ins := Instruction("ENV", Word(0, 3), [Word(4, 7), Word(8, 13)]);
    NoStages(c, ins);
    Declaration(c, ins, "var");
  }

  /** `ENV var value` declares the variable `var` at [4, 7). */
  lemma EnvSpaceValueLine(c: string)
    requires c == Spaced(["ENV", "var", "value"])
    ensures NoLineBreak(c) && c[4..7] == "var"
    ensures FamilySpans(c, Stage) == []
    ensures FamilySpans(c, Variable) == [Span(VariableDeclaration, 4, 7)]
  {
    EnvSpaceValueParsed(c);
    EnvSpaceValueText(c);
    EnvSpaceValueSpans(c);
  }

  lemma ArgBareTokens()
    ensures forall i :: 0 <= i < 2 ==> IsToken(["ARG", "var"][i])
    ensures forall i :: 0 <= i < 3 ==> 'A' <= "ARG"[i] <= 'Z'
    ensures forall i, k :: 0 <= i < 2 && 0 <= k < |["ARG", "var"][i]| ==> !IsLineBreak(["ARG", "var"][i][k])
    ensures forall i, k :: 0 <= i < 2 && 0 <= k < |["ARG", "var"][i]| ==> ["ARG", "var"][i][k] != '$'
  {
    assert IsToken("ARG");
    assert IsToken("var");
  }

  lemma ArgBareParsed(c: string)
    requires c == Spaced(["ARG", "var"])
    ensures ParseInstruction(c) == Some(Instruction("ARG", Word(0, 3), [Word(4, 7)]))
    ensures NoLineBreak(c) && |c| == 7
    ensures WordText(c, Word(4, 7)) == "var"
  {
    var ws := ["ARG", "var"];
    ArgBareTokens();
    ArgBareLayout();
    ParsedLine(c, ws, "", [Word(0, 3), Word(4, 7)]);
  }

  lemma ArgBareLayout()
    ensures Layout(["ARG", "var"], 0) == [Word(0, 3), Word(4, 7)]
  {
    assert Layout(["var"], 4) == [Word(4, 7)];
  }

  lemma ArgBareText(c: string)
    requires c == Spaced(["ARG", "var"])
    ensures NoDollar(c, 0, |c|)
    ensures c[4..7] == "var"
  {
    ArgBareTokens();
    SpacedNoDollar(c, ["ARG", "var"], "");
  }

  lemma ArgBareSpans(c: string)
    requires ParseInstruction(c) == Some(Instruction("ARG", Word(0, 3), [Word(4, 7)]))
    requires NoLineBreak(c) && |c| == 7
    requires WordText(c, Word(4, 7)) == "var"
    requires NoDollar(c, 0, |c|)
    requires c[4..7] == "var"
    ensures c[4..7] == "var"
    ensures FamilySpans(c, Stage) == []
    ensures FamilySpans(c, Variable) == [Span(VariableDeclaration, 4, 7)]
  {
    var ins := Instruction("ARG", Word(0, 3), [Word(4, 7)]);
    NoStages(c, ins);
    Declaration(c, ins, "var");
  }

  /** `ARG var` declares the variable `var` at [4, 7). */
  lemma ArgBareLine(c: string)
    requires c == Spaced(["ARG", "var"])
    ensures NoLineBreak(c) && c[4..7] == "var"
    ensures FamilySpans(c, Stage) == []
    ensures FamilySpans(c, Variable) == [Span(VariableDeclaration, 4, 7)]
  {
    ArgBareParsed(c);
    ArgBareText(c);
    ArgBareSpans(c);
  }

  lemma EnvBareTokens()
    ensures forall i :: 0 <= i < 2 ==> IsToken(["ENV", "var"][i])
    ensures forall i :: 0 <= i < 3 ==> 'A' <= "ENV"[i] <= 'Z'
    ensures forall i, k :: 0 <= i < 2 && 0 <= k < |["ENV", "var"][i]| ==> !IsLineBreak(["ENV", "var"][i][k])
    ensures forall i, k :: 0 <= i < 2 && 0 <= k < |["ENV", "var"][i]| ==> ["ENV", "var"][i][k] != '$'
  {
    assert IsToken("ENV");
    assert IsToken("var");
  }

  lemma EnvBareParsed(c: string)
    requires c == Spaced(["ENV", "var"])
    ensures ParseInstruction(c) == Some(Instruction("ENV", Word(0, 3), [Word(4, 7)]))
    ensures NoLineBreak(c) && |c| == 7
    ensures WordText(c, Word(4, 7)) == "var"
  {
    var ws := ["ENV", "var"];
    EnvBareTokens();
    EnvBareLayout();
    ParsedLine(c, ws, "", [Word(0, 3), Word(4, 7)]);
  }

  lemma EnvBareLayout()
    ensures Layout(["ENV", "var"], 0) == [Word(0, 3), Word(4, 7)]
  {
    assert Layout(["var"], 4) == [Word(4, 7)];
  }

  lemma EnvBareText(c: string)
    requires c == Spaced(["ENV", "var"])
    ensures NoDollar(c, 0, |c|)
    ensures c[4..7] == "var"
  {
    EnvBareTokens();
    SpacedNoDollar(c, ["ENV", "var"], "");
  }

  lemma EnvBareSpans(c: string)
    requires ParseInstruction(c) == Some(Instruction("ENV", Word(0, 3), [Word(4, 7)]))
    requires NoLineBreak(c) && |c| == 7
    requires WordText(c, Word(4, 7)) == "var"
    requires NoDollar(c, 0, |c|)
    requires c[4..7] == "var"
    ensures c[4..7] == "var"
    ensures FamilySpans(c, Stage) == []
    ensures FamilySpans(c, Variable) == [Span(VariableDeclaration, 4, 7)]
  {
    var ins := Instruction("ENV", Word(0, 3), [Word(4, 7)]);
    NoStages(c, ins);
    Declaration(c, ins, "var");
  }

  /** `ENV var` declares the variable `var` at [4, 7). */
  lemma EnvBareLine(c: string)
    requires c == Spaced(["ENV", "var"])
    ensures NoLineBreak(c) && c[4..7] == "var"
    ensures FamilySpans(c, Stage) == []
    ensures FamilySpans(c, Variable) == [Span(VariableDeclaration, 4, 7)]
  {
    EnvBareParsed(c);
    EnvBareText(c);
    EnvBareSpans(c);
  }

  lemma StopsignalBracedTokens()
    ensures forall i :: 0 <= i < 2 ==> IsToken(["STOPSIGNAL", "${var}"][i])
    ensures forall i :: 0 <= i < 10 ==> 'A' <= "STOPSIGNAL"[i] <= 'Z'
    ensures forall i, k :: 0 <= i < 2 && 0 <= k < |["STOPSIGNAL", "${var}"][i]| ==> !IsLineBreak(["STOPSIGNAL", "${var}"][i][k])
  {
    assert IsToken("STOPSIGNAL");
    assert IsToken("${var}");
  }

  lemma StopsignalBracedParsed(c: string)
    requires c == Spaced(["STOPSIGNAL", "${var}"])
    ensures ParseInstruction(c) == Some(Instruction("STOPSIGNAL", Word(0, 10), [Word(11, 17)]))
    ensures NoLineBreak(c) && |c| == 17
    ensures WordText(c, Word(11, 17)) == "${var}"
  {
    var ws := ["STOPSIGNAL", "${var}"];
    StopsignalBracedTokens();
    StopsignalBracedLayout();
    ParsedLine(c, ws, "", [Word(0, 10), Word(11, 17)]);
  }

  lemma StopsignalBracedLayout()
    ensures Layout(["STOPSIGNAL", "${var}"], 0) == [Word(0, 10), Word(11, 17)]
  {
    assert Layout(["${var}"], 11) == [Word(11, 17)];
  }

  lemma StopsignalBracedText(c: string)
    requires c == Spaced(["STOPSIGNAL", "${var}"])
    ensures c[11..|c|] == "${var}"
  {
    assert c[11..|c|] == WordText(c, Word(11, 17));
  }

  lemma StopsignalBracedSpans(c: string)
    requires ParseInstruction(c) == Some(Instruction("STOPSIGNAL", Word(0, 10), [Word(11, 17)]))
    requires NoLineBreak(c) && |c| == 17
    requires WordText(c, Word(11, 17)) == "${var}"
    requires c[11..|c|] == "${var}"
    ensures c[13..16] == "var"
    ensures FamilySpans(c, Stage) == []
    ensures FamilySpans(c, Variable) == [Span(VariableReference, 13, 16)]
  {
    var ins := Instruction("STOPSIGNAL", Word(0, 10), [Word(11, 17)]);
    NoStages(c, ins);
    BracedReference(c, ins, 11, "var");
  }

  /** `STOPSIGNAL ${var}` refers to `var` at [13, 16). */
  lemma StopsignalBracedLine(c: string)
    requires c == Spaced(["STOPSIGNAL", "${var}"])
    ensures NoLineBreak(c) && c[13..16] == "var"
    ensures FamilySpans(c, Stage) == []
    ensures FamilySpans(c, Variable) == [Span(VariableReference, 13, 16)]
  {
    StopsignalBracedParsed(c);
    StopsignalBracedText(c);
    StopsignalBracedSpans(c);
  }

  lemma UserBracedTokens()
    ensures forall i :: 0 <= i < 2 ==> IsToken(["USER", "${var}"][i])
    ensures forall i :: 0 <= i < 4 ==> 'A' <= "USER"[i] <= 'Z'
    ensures forall i, k :: 0 <= i < 2 && 0 <= k < |["USER", "${var}"][i]| ==> !IsLineBreak(["USER", "${var}"][i][k])
  {
    assert IsToken("USER");
    assert IsToken("${var}");
  }

  lemma UserBracedParsed(c: string)
    requires c == Spaced(["USER", "${var}"])
    ensures ParseInstruction(c) == Some(Instruction("USER", Word(0, 4), [Word(5, 11)]))
    ensures NoLineBreak(c) && |c| == 11
    ensures WordText(c, Word(5, 11)) == "${var}"
  {
    var ws := ["USER", "${var}"];
    UserBracedTokens();
    UserBracedLayout();
    ParsedLine(c, ws, "", [Word(0, 4), Word(5, 11)]);
  }

  lemma UserBracedLayout()
    ensures Layout(["USER", "${var}"], 0) == [Word(0, 4), Word(5, 11)]
  {
    assert Layout(["${var}"], 5) == [Word(5, 11)];
  }

  lemma UserBracedText(c: string)
    requires c == Spaced(["USER", "${var}"])
    ensures c[5..|c|] == "${var}"
  {
    assert c[5..|c|] == WordText(c, Word(5, 11));
  }

  lemma UserBracedSpans(c: string)
    requires ParseInstruction(c) == Some(Instruction("USER", Word(0, 4), [Word(5, 11)]))
    requires NoLineBreak(c) && |c| == 11
    requires WordText(c, Word(5, 11)) == "${var}"
    requires c[5..|c|] == "${var}"
    ensures c[7..10] == "var"
    ensures FamilySpans(c, Stage) == []
    ensures FamilySpans(c, Variable) == [Span(VariableReference, 7, 10)]
  {
    var ins := Instruction("USER", Word(0, 4), [Word(5, 11)]);
    NoStages(c, ins);
    BracedReference(c, ins, 5, "var");
  }

  /** `USER ${var}` refers to `var` at [7, 10). */
  lemma UserBracedLine(c: string)
    requires c == Spaced(["USER", "${var}"])
    ensures NoLineBreak(c) && c[7..10] == "var"
    ensures FamilySpans(c, Stage) == []
    ensures FamilySpans(c, Variable) == [Span(VariableReference, 7, 10)]
  {
    UserBracedParsed(c);
    UserBracedText(c);
    UserBracedSpans(c);
  }

  lemma WorkdirBracedTokens()
    ensures forall i :: 0 <= i < 2 ==> IsToken(["WORKDIR", "${var}"][i])
    ensures forall i :: 0 <= i < 7 ==> 'A' <= "WORKDIR"[i] <= 'Z'
    ensures forall i, k :: 0 <= i < 2 && 0 <= k < |["WORKDIR", "${var}"][i]| ==> !IsLineBreak(["WORKDIR", "${var}"][i][k])
  {
    assert IsToken("WORKDIR");
    assert IsToken("${var}");
  }

  lemma WorkdirBracedParsed(c: string)
    requires c == Spaced(["WORKDIR", "${var}"])
    ensures ParseInstruction(c) == Some(Instruction("WORKDIR", Word(0, 7), [Word(8, 14)]))
    ensures NoLineBreak(c) && |c| == 14
    ensures WordText(c, Word(8, 14)) == "${var}"
  {
    var ws := ["WORKDIR", "${var}"];
    WorkdirBracedTokens();
    WorkdirBracedLayout();
    ParsedLine(c, ws, "", [Word(0, 7), Word(8, 14)]);
  }

  lemma WorkdirBracedLayout()
    ensures Layout(["WORKDIR", "${var}"], 0) == [Word(0, 7), Word(8, 14)]
  {
    assert Layout(["${var}"], 8) == [Word(8, 14)];
  }

  lemma WorkdirBracedText(c: string)
    requires c == Spaced(["WORKDIR", "${var}"])
    ensures c[8..|c|] == "${var}"
  {
    assert c[8..|c|] == WordText(c, Word(8, 14));
  }

  lemma WorkdirBracedSpans(c: string)
    requires ParseInstruction(c) == Some(Instruction("WORKDIR", Word(0, 7), [Word(8, 14)]))
    requires NoLineBreak(c) && |c| == 14
    requires WordText(c, Word(8, 14)) == "${var}"
    requires c[8..|c|] == "${var}"
    ensures c[10..13] == "var"
    ensures FamilySpans(c, Stage) == []
    ensures FamilySpans(c, Variable) == [Span(VariableReference, 10, 13)]
  {
    var ins := Instruction("WORKDIR", Word(0, 7), [Word(8, 14)]);
    NoStages(c, ins);
    BracedReference(c, ins, 8, "var");
  }

  /** `WORKDIR ${var}` refers to `var` at [10, 13). */
  lemma WorkdirBracedLine(c: string)
    requires c == Spaced(["WORKDIR", "${var}"])
    ensures NoLineBreak(c) && c[10..13] == "var"
    ensures FamilySpans(c, Stage) == []
    ensures FamilySpans(c, Variable) == [Span(VariableReference, 10, 13)]
  {
    WorkdirBracedParsed(c);
    WorkdirBracedText(c);
    WorkdirBracedSpans(c);
  }

  lemma StopsignalBareTokens()
    ensures forall i :: 0 <= i < 2 ==> IsToken(["STOPSIGNAL", "$var"][i])
    ensures forall i :: 0 <= i < 10 ==> 'A' <= "STOPSIGNAL"[i] <= 'Z'
    ensures forall i, k :: 0 <= i < 2 && 0 <= k < |["STOPSIGNAL", "$var"][i]| ==> !IsLineBreak(["STOPSIGNAL", "$var"][i][k])
  {
    assert IsToken("STOPSIGNAL");
    assert IsToken("$var");
  }

  lemma StopsignalBareParsed(c: string)
    requires c == Spaced(["STOPSIGNAL", "$var"])
    ensures ParseInstruction(c) == Some(Instruction("STOPSIGNAL", Word(0, 10), [Word(11, 15)]))
    ensures NoLineBreak(c) && |c| == 15
    ensures WordText(c, Word(11, 15)) == "$var"
  {
    var ws := ["STOPSIGNAL", "$var"];
    StopsignalBareTokens();
    StopsignalBareLayout();
    ParsedLine(c, ws, "", [Word(0, 10), Word(11, 15)]);
  }

  lemma StopsignalBareLayout()
    ensures Layout(["STOPSIGNAL", "$var"], 0) == [Word(0, 10), Word(11, 15)]
  {
    assert Layout(["$var"], 11) == [Word(11, 15)];
  }

  lemma StopsignalBareText(c: string)
    requires c == Spaced(["STOPSIGNAL", "$var"])
    ensures c[11..|c|] == "$var"
  {
    assert c[11..|c|] == WordText(c, Word(11, 15));
  }

  lemma StopsignalBareSpans(c: string)
    requires ParseInstruction(c) == Some(Instruction("STOPSIGNAL", Word(0, 10), [Word(11, 15)]))
    requires NoLineBreak(c) && |c| == 15
    requires WordText(c, Word(11, 15)) == "$var"
    requires c[11..|c|] == "$var"
    ensures c[12..15] == "var"
    ensures FamilySpans(c, Stage) == []
    ensures FamilySpans(c, Variable) == [Span(VariableReference, 12, 15)]
  {
    var ins := Instruction("STOPSIGNAL", Word(0, 10), [Word(11, 15)]);
    NoStages(c, ins);
    assert c[11..15] == c[11..|c|];
    BareReference(c, ins, 11, "var");
  }

  /** `STOPSIGNAL $var` refers to `var` at [12, 15). */
  lemma StopsignalBareLine(c: string)
    requires c == Spaced(["STOPSIGNAL", "$var"])
    ensures NoLineBreak(c) && c[12..15] == "var"
    ensures FamilySpans(c, Stage) == []
    ensures FamilySpans(c, Variable) == [Span(VariableReference, 12, 15)]
  {
    StopsignalBareParsed(c);
    StopsignalBareText(c);
    StopsignalBareSpans(c);
  }

  lemma UserBareTokens()
    ensures forall i :: 0 <= i < 2 ==> IsToken(["USER", "$var"][i])
    ensures forall i :: 0 <= i < 4 ==> 'A' <= "USER"[i] <= 'Z'
    ensures forall i, k :: 0 <= i < 2 && 0 <= k < |["USER", "$var"][i]| ==> !IsLineBreak(["USER", "$var"][i][k])
  {
    assert IsToken("USER");
    assert IsToken("$var");
  }

  lemma UserBareParsed(c: string)
    requires c == Spaced(["USER", "$var"])
    ensures ParseInstruction(c) == Some(Instruction("USER", Word(0, 4), [Word(5, 9)]))
    ensures NoLineBreak(c) && |c| == 9
    ensures WordText(c, Word(5, 9)) == "$var"
  {
    var ws := ["USER", "$var"];
    UserBareTokens();
    UserBareLayout();
    ParsedLine(c, ws, "", [Word(0, 4), Word(5, 9)]);
  }

  lemma UserBareLayout()
    ensures Layout(["USER", "$var"], 0) == [Word(0, 4), Word(5, 9)]
  {
    assert Layout(["$var"], 5) == [Word(5, 9)];
  }

  lemma UserBareText(c: string)
    requires c == Spaced(["USER", "$var"])
    ensures c[5..|c|] == "$var"
  {
    assert c[5..|c|] == WordText(c, Word(5, 9));
  }

  lemma UserBareSpans(c: string)
    requires ParseInstruction(c) == Some(Instruction("USER", Word(0, 4), [Word(5, 9)]))
    requires NoLineBreak(c) && |c| == 9
    requires WordText(c, Word(5, 9)) == "$var"
    requires c[5..|c|] == "$var"
    ensures c[6..9] == "var"
    ensures FamilySpans(c, Stage) == []
    ensures FamilySpans(c, Variable) == [Span(VariableReference, 6, 9)]
  {
    var ins := Instruction("USER", Word(0, 4), [Word(5, 9)]);
    NoStages(c, ins);
    assert c[5..9] == c[5..|c|];
    BareReference(c, ins, 5, "var");
  }

  /** `USER $var` refers to `var` at [6, 9). */
  lemma UserBareLine(c: string)
    requires c == Spaced(["USER", "$var"])
    ensures NoLineBreak(c) && c[6..9] == "var"
    ensures FamilySpans(c, Stage) == []
    ensures FamilySpans(c, Variable) == [Span(VariableReference, 6, 9)]
  {
    UserBareParsed(c);
    UserBareText(c);
    UserBareSpans(c);
  }

  lemma WorkdirBareTokens()
    ensures forall i :: 0 <= i < 2 ==> IsToken(["WORKDIR", "$var"][i])
    ensures forall i :: 0 <= i < 7 ==> 'A' <= "WORKDIR"[i] <= 'Z'
    ensures forall i, k :: 0 <= i < 2 && 0 <= k < |["WORKDIR", "$var"][i]| ==> !IsLineBreak(["WORKDIR", "$var"][i][k])
  {
    assert IsToken("WORKDIR");
    assert IsToken("$var");
  }

  lemma WorkdirBareParsed(c: string)
    requires c == Spaced(["WORKDIR", "$var"])
    ensures ParseInstruction(c) == Some(Instruction("WORKDIR", Word(0, 7), [Word(8, 12)]))
    ensures NoLineBreak(c) && |c| == 12
    ensures WordText(c, Word(8, 12)) == "$var"
  {
    var ws := ["WORKDIR", "$var"];
    WorkdirBareTokens();
    WorkdirBareLayout();
    ParsedLine(c, ws, "", [Word(0, 7), Word(8, 12)]);
  }

  lemma WorkdirBareLayout()
    ensures Layout(["WORKDIR", "$var"], 0) == [Word(0, 7), Word(8, 12)]
  {
    assert Layout(["$var"], 8) == [Word(8, 12)];
  }

  lemma WorkdirBareText(c: string)
    requires c == Spaced(["WORKDIR", "$var"])
    ensures c[8..|c|] == "$var"
  {
    assert c[8..|c|] == WordText(c, Word(8, 12));
  }

  lemma WorkdirBareSpans(c: string)
    requires ParseInstruction(c) == Some(Instruction("WORKDIR", Word(0, 7), [Word(8, 12)]))
    requires NoLineBreak(c) && |c| == 12
    requires WordText(c, Word(8, 12)) == "$var"
    requires c[8..|c|] == "$var"
    ensures c[9..12] == "var"
    ensures FamilySpans(c, Stage) == []
    ensures FamilySpans(c, Variable) == [Span(VariableReference, 9, 12)]
  {
    var ins := Instruction("WORKDIR", Word(0, 7), [Word(8, 12)]);
    NoStages(c, ins);
    assert c[8..12] == c[8..|c|];
    BareReference(c, ins, 8, "var");
  }

  /** `WORKDIR $var` refers to `var` at [9, 12). */
  lemma WorkdirBareLine(c: string)
    requires c == Spaced(["WORKDIR", "$var"])
    ensures NoLineBreak(c) && c[9..12] == "var"
    ensures FamilySpans(c, Stage) == []
    ensures FamilySpans(c, Variable) == [Span(VariableReference, 9, 12)]
  {
    WorkdirBareParsed(c);
    WorkdirBareText(c);
    WorkdirBareSpans(c);
  }

  lemma RunDoubleQuotedTokens()
    ensures forall i :: 0 <= i < 3 ==> IsToken(["RUN", "echo", "\"$var\""][i])
    ensures forall i :: 0 <= i < 3 ==> 'A' <= "RUN"[i] <= 'Z'
    ensures forall i, k :: 0 <= i < 3 && 0 <= k < |["RUN", "echo", "\"$var\""][i]| ==> !IsLineBreak(["RUN", "echo", "\"$var\""][i][k])
  {
    assert IsToken("RUN");
    assert IsToken("echo");
    assert IsToken("\"$var\"");
  }

  lemma RunDoubleQuotedParsed(c: string)
    requires c == Spaced(["RUN", "echo", "\"$var\""])
    ensures ParseInstruction(c) == Some(Instruction("RUN", Word(0, 3), [Word(4, 8), Word(9, 15)]))
    ensures NoLineBreak(c) && |c| == 15
    ensures WordText(c, Word(4, 8)) == "echo"
    ensures WordText(c, Word(9, 15)) == "\"$var\""
  {
    var ws := ["RUN", "echo", "\"$var\""];
    RunDoubleQuotedTokens();
    RunDoubleQuotedLayout();
    ParsedLine(c, ws, "", [Word(0, 3), Word(4, 8), Word(9, 15)]);
  }

  lemma RunDoubleQuotedLayout()
    ensures Layout(["RUN", "echo", "\"$var\""], 0) == [Word(0, 3), Word(4, 8), Word(9, 15)]
  {
    assert Layout(["\"$var\""], 9) == [Word(9, 15)];
    assert Layout(["echo", "\"$var\""], 4) == [Word(4, 8), Word(9, 15)];
  }

  lemma RunDoubleQuotedText(c: string)
    requires c == Spaced(["RUN", "echo", "\"$var\""])
    ensures NoDollar(c, 4, 10) && c[10..14] == "$var"
    ensures !IsNameChar(c[14]) && NoDollar(c, 14, |c|)
  {
    RunDoubleQuotedParsed(c);
    assert IsWord(c, Word(9, 15));
    assert c[4..8] == "echo";
    forall j | 4 <= j < 8 ensures c[j] != '$' {
      assert c[j] == c[4..8][j - 4];
    }
    assert c[9] == WordText(c, Word(9, 15))[0];
    assert c[14] == WordText(c, Word(9, 15))[5];
    assert c[10..14] == WordText(c, Word(9, 15))[1..5];
  }

  lemma RunDoubleQuotedSpans(c: string)
    requires ParseInstruction(c) == Some(Instruction("RUN", Word(0, 3), [Word(4, 8), Word(9, 15)]))
    requires NoLineBreak(c) && |c| == 15
    requires WordText(c, Word(4, 8)) == "echo"
    requires WordText(c, Word(9, 15)) == "\"$var\""
    requires NoDollar(c, 4, 10) && c[10..14] == "$var"
    requires !IsNameChar(c[14]) && NoDollar(c, 14, |c|)
    ensures c[11..14] == "var"
    ensures FamilySpans(c, Stage) == []
    ensures FamilySpans(c, Variable) == [Span(VariableReference, 11, 14)]
  {
    var ins := Instruction("RUN", Word(0, 3), [Word(4, 8), Word(9, 15)]);
    NoStages(c, ins);
    BareReference(c, ins, 10, "var");
  }

  /** `RUN echo "$var"` refers to `var` at [11, 14): quotes do not hide a reference. */
  lemma RunDoubleQuotedLine(c: string)
    requires c == Spaced(["RUN", "echo", "\"$var\""])
    ensures NoLineBreak(c) && c[11..14] == "var"
    ensures FamilySpans(c, Stage) == []
    ensures FamilySpans(c, Variable) == [Span(VariableReference, 11, 14)]
  {
    RunDoubleQuotedParsed(c);
    RunDoubleQuotedText(c);
    RunDoubleQuotedSpans(c);
  }

  lemma RunSingleQuotedTokens()
    ensures forall i :: 0 <= i < 3 ==> IsToken(["RUN", "echo", "'$var'"][i])
    ensures forall i :: 0 <= i < 3 ==> 'A' <= "RUN"[i] <= 'Z'
    ensures forall i, k :: 0 <= i < 3 && 0 <= k < |["RUN", "echo", "'$var'"][i]| ==> !IsLineBreak(["RUN", "echo", "'$var'"][i][k])
  {
    assert IsToken("RUN");
    assert IsToken("echo");
    assert IsToken("'$var'");
  }

  lemma RunSingleQuotedParsed(c: string)
    requires c == Spaced(["RUN", "echo", "'$var'"])
    ensures ParseInstruction(c) == Some(Instruction("RUN", Word(0, 3), [Word(4, 8), Word(9, 15)]))
    ensures NoLineBreak(c) && |c| == 15
    ensures WordText(c, Word(4, 8)) == "echo"
    ensures WordText(c, Word(9, 15)) == "'$var'"
  {
    var ws := ["RUN", "echo", "'$var'"];
    RunSingleQuotedTokens();
    RunSingleQuotedLayout();
    ParsedLine(c, ws, "", [Word(0, 3), Word(4, 8), Word(9, 15)]);
  }

  lemma RunSingleQuotedLayout()
    ensures Layout(["RUN", "echo", "'$var'"], 0) == [Word(0, 3), Word(4, 8), Word(9, 15)]
  {
    assert Layout(["'$var'"], 9) == [Word(9, 15)];
    assert Layout(["echo", "'$var'"], 4) == [Word(4, 8), Word(9, 15)];
  }

  lemma RunSingleQuotedText(c: string)
    requires c == Spaced(["RUN", "echo", "'$var'"])
    ensures NoDollar(c, 4, 10) && c[10..14] == "$var"
    ensures !IsNameChar(c[14]) && NoDollar(c, 14, |c|)
  {
    RunSingleQuotedParsed(c);
    assert IsWord(c, Word(9, 15));
    assert c[4..8] == "echo";
    forall j | 4 <= j < 8 ensures c[j] != '$' {
      assert c[j] == c[4..8][j - 4];
    }
    assert c[9] == WordText(c, Word(9, 15))[0];
    assert c[14] == WordText(c, Word(9, 15))[5];
    assert c[10..14] == WordText(c, Word(9, 15))[1..5];
  }

  lemma RunSingleQuotedSpans(c: string)
    requires ParseInstruction(c) == Some(Instruction("RUN", Word(0, 3), [Word(4, 8), Word(9, 15)]))
    requires NoLineBreak(c) && |c| == 15
    requires WordText(c, Word(4, 8)) == "echo"
    requires WordText(c, Word(9, 15)) == "'$var'"
    requires NoDollar(c, 4, 10) && c[10..14] == "$var"
    requires !IsNameChar(c[14]) && NoDollar(c, 14, |c|)
    ensures c[11..14] == "var"
    ensures FamilySpans(c, Stage) == []
    ensures FamilySpans(c, Variable) == [Span(VariableReference, 11, 14)]
  {
    var ins := Instruction("RUN", Word(0, 3), [Word(4, 8), Word(9, 15)]);
    NoStages(c, ins);
    BareReference(c, ins, 10, "var");
  }

  /** `RUN echo '$var'` refers to `var` at [11, 14): quotes do not hide a reference. */
  lemma RunSingleQuotedLine(c: string)
    requires c == Spaced(["RUN", "echo", "'$var'"])
    ensures NoLineBreak(c) && c[11..14] == "var"
    ensures FamilySpans(c, Stage) == []
    ensures FamilySpans(c, Variable) == [Span(VariableReference, 11, 14)]
  {
    RunSingleQuotedParsed(c);
    RunSingleQuotedText(c);
    RunSingleQuotedSpans(c);
  }
}
