/** The instruction tokenizer: reads one physical line as a keyword followed
    by blank-separated argument words, with the column of every word. */
module Instructions {

  import opened Protocol

  /** Spaces and tabs separate words; line breaks never occur inside a line. */
  predicate IsBlank(ch: char) { ch == ' ' || ch == '\t' }

  /** The first non-blank column at or after `i` (or |c|). */
  function SkipBlanks(c: string, i: nat): (j: nat)
    requires i <= |c|
    ensures i <= j <= |c|
    ensures forall k :: i <= k < j ==> IsBlank(c[k])
    ensures j == |c| || !IsBlank(c[j])
    decreases |c| - i
  {
    if i == |c| || !IsBlank(c[i]) then i else SkipBlanks(c, i + 1)
  }

  /** The end of the run of non-blank characters starting at `i`. */
  function WordEnd(c: string, i: nat): (j: nat)
    requires i <= |c|
    ensures i <= j <= |c|
    ensures forall k :: i <= k < j ==> !IsBlank(c[k])
    ensures j == |c| || IsBlank(c[j])
    decreases |c| - i
  {
    if i == |c| || IsBlank(c[i]) then i else WordEnd(c, i + 1)
  }

  /** A word is the column range [start, end) of a maximal non-blank run. */
  datatype Word = Word(start: nat, end: nat)

  predicate IsWord(c: string, w: Word)
  {
    && w.start < w.end <= |c|
    && (forall k :: w.start <= k < w.end ==> !IsBlank(c[k]))
    && (w.start == 0 || IsBlank(c[w.start - 1]))
    && (w.end == |c| || IsBlank(c[w.end]))
  }

  function WordText(c: string, w: Word): string
    requires w.start <= w.end <= |c|
  {
    c[w.start..w.end]
  }

  /** The words of `c` from column `i` on, left to right. */
  function Words(c: string, i: nat): (ws: seq<Word>)
    requires i <= |c|
    requires i == 0 || i == |c| || IsBlank(c[i - 1]) || IsBlank(c[i])
    ensures forall j :: 0 <= j < |ws| ==> IsWord(c, ws[j]) && i <= ws[j].start
    ensures forall j :: 0 <= j < |ws| - 1 ==> ws[j].end < ws[j + 1].start
    decreases |c| - i
  {
    var s := SkipBlanks(c, i);
    if s == |c| then []
    else
      var e := WordEnd(c, s);
      [Word(s, e)] + Words(c, e)
  }

  /** The word that holds a non-blank column `k` at or after `i`. */
  lemma {:induction false} WordAt(c: string, i: nat, k: nat) returns (j: nat)
    requires i <= k < |c| && !IsBlank(c[k])
    requires i == 0 || IsBlank(c[i - 1]) || IsBlank(c[i])
    ensures j < |Words(c, i)| && Words(c, i)[j].start <= k < Words(c, i)[j].end
    decreases |c| - i
  {
    var s, e := FirstWord(c, i, k);
    var rest := Words(c, e);
    assert Words(c, i) == [Word(s, e)] + rest;
    if k < e {
      j := 0;
    } else {
      var j' := WordAt(c, e, k);
      assert j' < |rest| && rest[j'].start <= k < rest[j'].end;
      j := j' + 1;
      assert Words(c, i)[j] == rest[j'];
    }
  }

  /** The first word from `i` on, when a non-blank column `k` follows `i`. */
  lemma FirstWord(c: string, i: nat, k: nat) returns (s: nat, e: nat)
    requires i <= k < |c| && !IsBlank(c[k])
    requires i == 0 || IsBlank(c[i - 1]) || IsBlank(c[i])
    ensures i <= s <= k < |c| && s < e <= |c|
    ensures e == |c| || IsBlank(c[e])
    ensures Words(c, i) == [Word(s, e)] + Words(c, e)
  {
    s := SkipBlanks(c, i);
    e := WordEnd(c, s);
  }

  /** Every non-blank column from `i` on lies in one of the words, and no
      blank column does. */
  lemma WordsCover(c: string, i: nat, k: nat)
    requires i <= k < |c|
    requires i == 0 || IsBlank(c[i - 1]) || IsBlank(c[i])
    ensures !IsBlank(c[k]) <==> exists j :: 0 <= j < |Words(c, i)| && Words(c, i)[j].start <= k < Words(c, i)[j].end
  {
    if !IsBlank(c[k]) {
      var j := WordAt(c, i, k);
    }
  }

  function UpperChar(ch: char): char
  {
    if 'a' <= ch <= 'z' then (ch as int - 32) as char else ch
  }

  /** ASCII upper-casing, for case-insensitive keyword and `AS` matching. */
  function Upper(s: string): (u: string)
    ensures |u| == |s|
    ensures forall i :: 0 <= i < |s| ==> u[i] == UpperChar(s[i])
  {
    if s == [] then [] else [UpperChar(s[0])] + Upper(s[1..])
  }

  /** The instruction keywords of the build-file language. */
  const Keywords: set<string> := {
    "ADD", "ARG", "CMD", "COPY", "ENTRYPOINT", "ENV", "EXPOSE", "FROM", "HEALTHCHECK",
    "LABEL", "MAINTAINER", "ONBUILD", "RUN", "SHELL", "STOPSIGNAL", "USER", "VOLUME", "WORKDIR"
  }

  /** One instruction line: its upper-cased keyword, the keyword's word and
      the argument words that follow it. */
  datatype Instruction = Instruction(keyword: string, keywordWord: Word, args: seq<Word>)

  /** A line whose first non-blank character is `#` is a comment. */
  predicate IsComment(c: string)
  {
    var s := SkipBlanks(c, 0);
    s < |c| && c[s] == '#'
  }

  predicate IsBlankLine(c: string)
  {
    SkipBlanks(c, 0) == |c|
  }

  /** What a parsed instruction line looks like: the keyword is the first
      word, upper-cased, and the arguments are the words after it, in order. */
  predicate IsInstructionOf(c: string, ins: Instruction)
  {
    && IsWord(c, ins.keywordWord)
    && ins.keyword == Upper(WordText(c, ins.keywordWord))
    && (forall j :: 0 <= j < ins.keywordWord.start ==> IsBlank(c[j]))
    && (forall j :: 0 <= j < |ins.args| ==> IsWord(c, ins.args[j]) && ins.keywordWord.end < ins.args[j].start)
    && (forall j :: 0 <= j < |ins.args| - 1 ==> ins.args[j].end < ins.args[j + 1].start)
  }

  function ParseInstruction(c: string): (r: Option<Instruction>)
    ensures r.None? <==> IsBlankLine(c) || IsComment(c)
    ensures r.Some? ==> IsInstructionOf(c, r.value)
    ensures r.Some? ==> r.value.args == Words(c, r.value.keywordWord.end)
  {
    var s := SkipBlanks(c, 0);
    if s == |c| || c[s] == '#' then None
    else
      var e := WordEnd(c, s);
      var ws := Words(c, e);
      assert forall j :: 0 <= j < |ws| ==> e < ws[j].start by {
        forall j | 0 <= j < |ws| ensures e < ws[j].start {
          assert e <= ws[j].start < |c|;
          assert IsBlank(c[e]) && !IsBlank(c[ws[j].start]);
        }
      }
      Some(Instruction(Upper(c[s..e]), Word(s, e), ws))
  }

  // -----------------------------------------------------------------------
  // Stepping lemmas: the tokenizer's result on a line, one word at a time.

  lemma SkipBlanksAt(c: string, i: nat, k: nat)
    requires i <= k <= |c| && (k == |c| || !IsBlank(c[k]))
    requires forall j :: i <= j < k ==> IsBlank(c[j])
    ensures SkipBlanks(c, i) == k
  {
  }

  lemma WordEndAt(c: string, i: nat, k: nat)
    requires i <= k <= |c| && (k == |c| || IsBlank(c[k]))
    requires forall j :: i <= j < k ==> !IsBlank(c[j])
    ensures WordEnd(c, i) == k
  {
  }

  /** The next word after column `i` is [s, e). */
  lemma WordsCons(c: string, i: nat, s: nat, e: nat)
    requires i <= s < e <= |c|
    requires i == 0 || i == |c| || IsBlank(c[i - 1]) || IsBlank(c[i])
    requires forall j :: i <= j < s ==> IsBlank(c[j])
    requires forall j :: s <= j < e ==> !IsBlank(c[j])
    requires e == |c| || IsBlank(c[e])
    ensures Words(c, i) == [Word(s, e)] + Words(c, e)
  {
    SkipBlanksAt(c, i, s);
    WordEndAt(c, s, e);
  }

  /** No word follows column `i`. */
  lemma WordsNil(c: string, i: nat)
    requires i <= |c|
    requires i == 0 || i == |c| || IsBlank(c[i - 1]) || IsBlank(c[i])
    requires forall j :: i <= j < |c| ==> IsBlank(c[j])
    ensures Words(c, i) == []
  {
    SkipBlanksAt(c, i, |c|);
  }

  /** A line whose keyword starts at column 0 and ends at column `e`. */
  lemma ParseInstructionAt(c: string, e: nat)
    requires 0 < e <= |c| && c[0] != '#' && (e == |c| || IsBlank(c[e]))
    requires forall j :: 0 <= j < e ==> !IsBlank(c[j])
    ensures ParseInstruction(c) == Some(Instruction(Upper(c[..e]), Word(0, e), Words(c, e)))
  {
    SkipBlanksAt(c, 0, 0);
    WordEndAt(c, 0, e);
  }

  /** Once past a blank the next words are the same. */
  lemma WordsSkip(c: string, i: nat)
    requires i < |c| && IsBlank(c[i])
    ensures Words(c, i) == Words(c, i + 1)
  {
  }

  // -----------------------------------------------------------------------
  // Lines built from tokens: the tokenizer gives back the tokens' columns.

  /** Tokens joined by single spaces. */
  function Spaced(ws: seq<string>): string
  {
    if |ws| == 0 then "" else if |ws| == 1 then ws[0] else ws[0] + " " + Spaced(ws[1..])
  }

  /** A character other than the space that no token holds is nowhere in the spaced line. */
  lemma {:induction false} SpacedAvoids(ws: seq<string>, ch: char)
    requires ch != ' '
    requires forall i, k :: 0 <= i < |ws| && 0 <= k < |ws[i]| ==> ws[i][k] != ch
    ensures forall j :: 0 <= j < |Spaced(ws)| ==> Spaced(ws)[j] != ch
  {
    if |ws| >= 2 {
      SpacedAvoids(ws[1..], ch);
      assert Spaced(ws) == ws[0] + " " + Spaced(ws[1..]);
      forall j | 0 <= j < |Spaced(ws)| ensures Spaced(ws)[j] != ch {
        if j < |ws[0]| {
          assert Spaced(ws)[j] == ws[0][j];
        } else if j > |ws[0]| {
          assert Spaced(ws)[j] == Spaced(ws[1..])[j - |ws[0]| - 1];
        }
      }
    } else if |ws| == 1 {
      forall j | 0 <= j < |Spaced(ws)| ensures Spaced(ws)[j] != ch {
        assert Spaced(ws)[j] == ws[0][j];
      }
    }
  }

  predicate IsToken(w: string) { |w| > 0 && forall k :: 0 <= k < |w| ==> !IsBlank(w[k]) }

  predicate AllBlank(s: string) { forall k :: 0 <= k < |s| ==> IsBlank(s[k]) }

  /** The columns of the tokens `ws` laid out from column `p`, one blank apart. */
  function Layout(ws: seq<string>, p: nat): (l: seq<Word>)
    ensures |l| == |ws|
  {
    if ws == [] then [] else [Word(p, p + |ws[0]|)] + Layout(ws[1..], p + |ws[0]| + 1)
  }

  /** The last laid-out token ends where the spaced line ends. */
  lemma {:induction false} LayoutEnd(ws: seq<string>, p: nat)
    requires |ws| >= 1
    ensures Layout(ws, p)[|ws| - 1].end == p + |Spaced(ws)|
    decreases |ws|
  {
    if |ws| >= 2 {
      LayoutEnd(ws[1..], p + |ws[0]| + 1);
      assert Layout(ws, p)[|ws| - 1] == Layout(ws[1..], p + |ws[0]| + 1)[|ws| - 2];
    }
  }

  /** The line holds the spaced tokens `ws` at columns [p, q), followed only by blanks. */
  predicate HoldsSpaced(c: string, p: nat, ws: seq<string>)
  {
    && p + |Spaced(ws)| <= |c|
    && c[p..p + |Spaced(ws)|] == Spaced(ws)
    && AllBlank(c[p + |Spaced(ws)|..])
  }

  /** Peeling the first token off a line of spaced tokens. */
  lemma HoldsSpacedFirst(c: string, p: nat, ws: seq<string>)
    requires HoldsSpaced(c, p, ws) && |ws| >= 1
    ensures var e := p + |ws[0]|;
      && e <= |c| && c[p..e] == ws[0]
      && (|ws| == 1 ==> AllBlank(c[e..]))
      && (|ws| >= 2 ==> e < |c| && c[e] == ' ' && HoldsSpaced(c, e + 1, ws[1..]))
  {
    var e := p + |ws[0]|;
    var sp := Spaced(ws);
    var q := p + |sp|;
    assert c[p..q] == sp;
    if |ws| >= 2 {
      var rest := Spaced(ws[1..]);
      assert sp == ws[0] + " " + rest;
      assert c[p..e] == c[p..q][..|ws[0]|];
      assert c[e] == c[p..q][|ws[0]|];
      assert c[e + 1..q] == c[p..q][|ws[0]| + 1..];
      assert e + 1 + |rest| == q;
    } else {
      assert sp == ws[0];
    }
  }

  lemma TokenAt(c: string, p: nat, e: nat)
    requires p <= e <= |c| && IsToken(c[p..e])
    ensures p < e && forall j :: p <= j < e ==> !IsBlank(c[j])
  {
    forall j | p <= j < e ensures !IsBlank(c[j]) {
      assert c[p..e][j - p] == c[j];
    }
  }

  lemma BlankTail(c: string, e: nat)
    requires e <= |c| && AllBlank(c[e..])
    ensures forall j :: e <= j < |c| ==> IsBlank(c[j])
  {
    forall j | e <= j < |c| ensures IsBlank(c[j]) {
      assert c[e..][j - e] == c[j];
    }
  }

  /** A word [p, e) followed by a blank. */
  lemma WordsStep(c: string, p: nat, e: nat)
    requires p < e < |c| && (p == 0 || IsBlank(c[p - 1])) && IsBlank(c[e])
    requires forall j :: p <= j < e ==> !IsBlank(c[j])
    ensures Words(c, p) == [Word(p, e)] + Words(c, e + 1)
  {
    WordsCons(c, p, p, e);
    WordsSkip(c, e);
  }

  /** A last word [p, e) followed only by blanks. */
  lemma WordsLast(c: string, p: nat, e: nat)
    requires p < e <= |c| && (p == 0 || IsBlank(c[p - 1]))
    requires forall j :: p <= j < e ==> !IsBlank(c[j])
    requires forall j :: e <= j < |c| ==> IsBlank(c[j])
    ensures Words(c, p) == [Word(p, e)]
  {
    WordsCons(c, p, p, e);
    WordsNil(c, e);
  }

  /** Splitting spaced tokens into words gives back the tokens' columns. */
  lemma {:induction false} WordsOfSpaced(c: string, p: nat, ws: seq<string>)
    requires HoldsSpaced(c, p, ws) && (p == 0 || IsBlank(c[p - 1]))
    requires forall i :: 0 <= i < |ws| ==> IsToken(ws[i])
    ensures Words(c, p) == Layout(ws, p)
    decreases |ws|
  {
    if |ws| == 0 {
      assert p + |Spaced(ws)| == p;
      BlankTail(c, p);
      WordsNil(c, p);
    } else {
      var e := p + |ws[0]|;
      assert IsToken(ws[0]);
      HoldsSpacedFirst(c, p, ws);
      TokenAt(c, p, e);
      if |ws| == 1 {
        BlankTail(c, e);
        WordsLast(c, p, e);
      } else {
        WordsStep(c, p, e);
        WordsOfSpaced(c, e + 1, ws[1..]);
      }
    }
  }

  /** The text of each laid-out word is its token. */
  lemma {:induction false} LayoutText(c: string, p: nat, ws: seq<string>)
    requires HoldsSpaced(c, p, ws)
    ensures forall i :: 0 <= i < |ws| ==>
      Layout(ws, p)[i].start <= Layout(ws, p)[i].end <= |c| && WordText(c, Layout(ws, p)[i]) == ws[i]
    decreases |ws|
  {
    if |ws| >= 1 {
      var e := p + |ws[0]|;
      HoldsSpacedFirst(c, p, ws);
      var l := Layout(ws, p);
      if |ws| >= 2 {
        LayoutText(c, e + 1, ws[1..]);
        var tl := Layout(ws[1..], e + 1);
        assert l == [Word(p, e)] + tl;
        forall i | 1 <= i < |ws| ensures l[i].start <= l[i].end <= |c| && WordText(c, l[i]) == ws[i] {
          assert l[i] == tl[i - 1];
          assert ws[1..][i - 1] == ws[i];
        }
      }
    }
  }

  /** An instruction line made of spaced tokens, possibly with trailing blanks. */
  lemma ParseSpaced(c: string, ws: seq<string>)
    requires HoldsSpaced(c, 0, ws)
    requires |ws| >= 1 && (forall i :: 0 <= i < |ws| ==> IsToken(ws[i]))
    requires |ws[0]| > 0 && ws[0][0] != '#'
    ensures ParseInstruction(c) == Some(Instruction(Upper(ws[0]), Word(0, |ws[0]|), Layout(ws[1..], |ws[0]| + 1)))
  {
    var e := |ws[0]|;
    assert IsToken(ws[0]);
    HoldsSpacedFirst(c, 0, ws);
    TokenAt(c, 0, e);
    if |ws| == 1 {
      BlankTail(c, e);
      WordsNil(c, e);
    } else {
      WordsSkip(c, e);
      WordsOfSpaced(c, e + 1, ws[1..]);
    }
    ParseInstructionAt(c, e);
    assert c[..e] == ws[0];
  }

  /** A parsed line of spaced tokens, with the text of each argument word. */
  lemma ParseSpacedText(c: string, ws: seq<string>)
    requires HoldsSpaced(c, 0, ws)
    requires |ws| >= 1 && (forall i :: 0 <= i < |ws| ==> IsToken(ws[i]))
    requires |ws[0]| > 0 && ws[0][0] != '#'
    ensures ParseInstruction(c) == Some(Instruction(Upper(ws[0]), Word(0, |ws[0]|), Layout(ws[1..], |ws[0]| + 1)))
    ensures var args := Layout(ws[1..], |ws[0]| + 1);
      forall i :: 0 <= i < |args| ==> args[i].start <= args[i].end <= |c| && WordText(c, args[i]) == ws[1..][i]
  {
    ParseSpaced(c, ws);
    LayoutText(c, 0, ws);
    var tl := Layout(ws[1..], |ws[0]| + 1);
    assert Layout(ws, 0) == [Word(0, |ws[0]|)] + tl;
    forall i | 0 <= i < |tl| ensures tl[i].start <= tl[i].end <= |c| && WordText(c, tl[i]) == ws[1..][i] {
      assert Layout(ws, 0)[i + 1] == tl[i];
    }
  }
}
