# Dockerfile rename and directive symbols, modelled in Dafny

This project models two operations of a Dockerfile language server. Both work on
the document text:

- `DockerRename.rename(document, position, newName)` renames the stage or variable
  under the cursor. It returns one text edit per occurrence of that symbol
  anywhere in the document, in document order.
- `DockerSymbols.parseSymbolInformation(document, uri)` reports the parser
  directives (`#key=value` lines before the first instruction) as symbols
  whose range is the key.

Both are pure: they read a document snapshot and build a fresh result. The model
is therefore made of datatypes, functions and lemmas, in these modules:

- `Protocol` (protocol.dfy): positions, ranges, text edits and symbol
  information, as plain datatypes in place of the language-server library types.
- `Text` (text.dfy): line splitting where `\r`, `\n` and `\r\n` each end exactly
  one line. Its inverse `Render` is proved to be one.
- `Instructions` (instructions.dfy): the tokenizer of one line. It skips comments
  and blank lines, splits the words on blanks, and upper-cases the keyword.
- `Classifier` (classifier.dfy): the symbol spans each instruction yields.
  - The stage family: `FROM x AS name` declares a stage; `COPY --from=name`
    references it.
  - The variable family: `ARG`/`ENV name[=value]` or `ENV name value` declares a
    variable; `$name` and `${name}` reference it.
  - Each span covers the name characters only.
- `Rename` (rename.dfy): classification of every line, the symbol under the
  cursor, its equivalence group (same family, identical name) and the edits.
- `DocumentSymbols` (symbols.dfy): directive detection over the leading block,
  and the symbols. It has two versions: the corrected one and the one the tests
  assert (see Findings).
- `ScenarioLines`, `RenameExamples`, `DocumentSymbolsExamples`: the concrete
  documents of the test suites, with their asserted edits and symbols proved.

The implementation sources `src/dockerRename.ts` and `src/dockerSymbols.ts` are
not part of this model. The behaviour is taken from the two test suites. Where
the tests leave a choice open, the model makes its own:

- A cursor position selects a symbol when `start <= character < end` (half-open
  span).
- Stage names are recognised only when they hold no `$`.
- Variable names are runs of letters, digits and `_`.
- Together these keep a stage span, a variable declaration and a `$` reference
  from overlapping on a line, so at most one symbol lies under any cursor.
  "## Left out" lists the inputs where the two rules change the result.
- Name matching is exact and case-sensitive. Keywords are matched after ASCII
  upper-casing.

## Model

| member | source | states |
|---|---|---|
| Rename.Rename | test/dockerRename.test.ts:16-26 | rename returns no edit exactly when no symbol of the document contains the cursor. Otherwise one edit contains the cursor. Every edit carries `newName` verbatim on a single-line range, and the edits are strictly ascending in document order |
| Rename.RenameAtMember | test/dockerRename.test.ts:108-139 | at any position inside any symbol, rename returns the edits of that symbol's whole group (its family and name) |
| Rename.RenameSymmetric | test/dockerRename.test.ts:38-51 | renaming from any position inside any returned edit gives back the identical edit list (same members, same order) |
| Rename.RenameExact | test/dockerRename.test.ts:68-78 | a symbol of the cursor symbol's family is edited if and only if it bears exactly the same name, so `bootstrap2` never joins `bootstrap` |
| Rename.GroupExact | test/dockerRename.test.ts:68-78 | the edits of a group reach a symbol of the family if and only if that symbol has the group's name |
| Rename.SymbolAtUnique | test/dockerRename.test.ts:89-104 | two symbols of a document that both contain one position are the same symbol, so the cursor selects at most one |
| Rename.SymbolSpansName | test/dockerRename.test.ts:31-51 | every symbol's range is a single-line span whose text is its name, excluding the blank before it, the `--from=` or the `$`/`${` that introduces it. It is a symbol span of its line by the word-level rules of Classifier.SpansExact: the `AS` name of a `FROM`, the first `--from=` value of a `COPY`, the `ARG`/`ENV` name or a reference |
| Rename.GroupFacts | test/dockerRename.test.ts:113-117 | a group is ascending in document order, and each member has a single-line range of the group's family |
| Rename.FamilyComplete | test/dockerRename.test.ts:172-181 | every span the classifier finds on any line appears as a symbol of its family, so no occurrence is missed |
| Rename.FamilyMember | test/dockerRename.test.ts:80-85 | every symbol of a family is a classified span of that family on its own line. That span is a symbol span by the word-level rules of Classifier.SpansExact, so on a `COPY` line a stage symbol is only the first `--from=` value and never a positional path |
| Rename.SymbolComplete | test/dockerRename.test.ts:31-66 | conversely, every symbol span of every line (every `FROM x AS n`, every first `COPY --from=n`, every `ARG`/`ENV` name, every `$n` or `${n}` in the arguments) is a symbol of the document |
| Rename.CollectAscending | test/dockerRename.test.ts:175-181 | the symbols collected line by line are strictly ascending and lie on or after the first collected line |
| Rename.EditsFollowSymbols | test/dockerRename.test.ts:20-26 | edits keep the order and the single-line ranges of the symbols they replace |
| Text.RenderSplitLines | test/dockerSymbols.test.ts:99-133 | rendering the split lines with their terminators gives back the text exactly |
| Text.SplitLinesRender | test/dockerSymbols.test.ts:99-133 | splitting the rendering of a well-formed line sequence gives back that sequence |
| Text.SplitLinesWellFormed | test/dockerSymbols.test.ts:99-133 | every split has break-free contents and exactly one final line without a terminator, and a CR is never followed by an empty LF line |
| Text.LineCount | test/dockerSymbols.test.ts:99-133 | a text with n line breaks, a CRLF pair counting once, has n + 1 lines |
| Text.LinesAfterBreak | test/dockerSymbols.test.ts:99-133 | one leading `\r`, `\n` or `\r\n` adds exactly one empty line before the lines of the rest |
| Text.LinesJoin | test/dockerRename.test.ts:38-51 | the lines of break-free contents joined by `\n` are those contents |
| Instructions.ParseInstruction | test/dockerRename.test.ts:31-36 | a line is no instruction exactly when it is blank or a comment. Otherwise the keyword is the upper-cased first word, and the arguments are exactly the words after it (`Words`) with their columns |
| Instructions.WordsCover | test/dockerRename.test.ts:89-97 | a column lies inside a word if and only if its character is not blank |
| Instructions.LayoutText | test/dockerRename.test.ts:31-36 | on a line of blank-separated tokens, each word's columns hold exactly its token |
| Classifier.References | test/dockerRename.test.ts:172-181 | every reference span found holds a maximal name after its `$` or `${`, and the references are strictly ascending and separated |
| Classifier.ReferencesExact | test/dockerRename.test.ts:172-284 | the scan from column `i` finds a span if and only if it is a `$name` or `${name}` reference whose `$` lies at or after `i`, quoted or not |
| Classifier.ReferencesAscending | test/dockerRename.test.ts:229-239 | the references found on a line are in ascending order |
| Classifier.StageSpansDelimited | test/dockerRename.test.ts:31-66 | a line yields at most one stage span. It holds no `$` or blank, and is either blank-delimited (a declaration) or right after `--from=` (a reference) |
| Classifier.VariableSpansDelimited | test/dockerRename.test.ts:108-117 | variable spans are delimited (a declaration is a run of name characters after a blank, before `=`, a blank or the line end; a reference is a reference) and are ascending |
| Classifier.SpansExact | test/dockerRename.test.ts:31-290 | a span is classified on a line if and only if the line's words make it a symbol: the third argument of `FROM` after `AS` in any case; the value of the first `--from=` among the leading `--` flags of `COPY`; the first argument of `ARG`/`ENV` up to its end or `=`; or a reference whose `$` lies in the arguments of a known instruction |
| Classifier.FromFlagSpansExact | test/dockerRename.test.ts:38-66 | the `--from=` scan finds exactly the value of the first `--from=` among the `--` flags, when non-empty and free of `$` |
| Classifier.VariableDeclarationExact | test/dockerRename.test.ts:288-290 | an `ARG`/`ENV` line declares exactly the leading name run of its first argument, ending at the argument's end or at `=`, when it is non-empty |
| Classifier.SpansDisjoint | test/dockerRename.test.ts:108-117 | two different spans of a line, of either family, do not overlap |
| Classifier.SpanAtColumnUnique | test/dockerRename.test.ts:89-97 | two spans of a line that contain the same column are the same span |
| DocumentSymbols.DirectiveAtComplete | test/dockerSymbols.test.ts:48-97 | whatever columns hold a directive key (after optional blanks, `#` and blanks, before blanks and `=`), exactly that key and those columns are found |
| DocumentSymbols.DirectiveAt | test/dockerSymbols.test.ts:34-46 | a found directive sits on a comment line, and its columns hold a key whose text is its name |
| DocumentSymbols.DirectivesExact | test/dockerSymbols.test.ts:34-46 | a directive is reported for a line if and only if the line declares it and no instruction occurs before it |
| DocumentSymbols.DirectivesOrdered | test/dockerSymbols.test.ts:34-46 | directives are reported in strictly ascending line order |
| DocumentSymbols.ParseSymbolInformation | test/dockerSymbols.test.ts:28-45 | each symbol is a Property with no container, carries the passed uri, and its single-line range holds exactly the directive key it is named after |
| DocumentSymbols.ParseSymbolInformationComplete | test/dockerSymbols.test.ts:34-46 | every directive key of the leading block is reported |
| DocumentSymbols.ParseSymbolInformationLeading | test/dockerSymbols.test.ts:34-46 | every reported symbol lies before the first instruction |
| DocumentSymbols.ParseSymbolInformationNone | test/dockerSymbols.test.ts:26-30 | a document without a directive line before its first instruction has no symbols |
| DocumentSymbols.ParseSymbolInformationShift | test/dockerSymbols.test.ts:99-133 | one leading line break of any style keeps the same symbols, each moved down exactly one line with its columns unchanged |
| DocumentSymbols.ParseSymbolInformationAsWritten | test/dockerSymbols.test.ts:45 | the as-written extractor yields the same symbols with each range's end one column to the left |
| DocumentSymbols.AsWrittenRangeShort | test/dockerSymbols.test.ts:45 | the as-written range covers the key without its last character |
| DocumentSymbolsExamples.EmptyFile | test/dockerSymbols.test.ts:26-30 | an empty document has no symbols |
| DocumentSymbolsExamples.EscapeDirective | test/dockerSymbols.test.ts:34-46 | "#escape=`" yields one `escape` symbol. As written its range is (0,1)-(0,6); corrected it is (0,1)-(0,7) |
| DocumentSymbolsExamples.SpaceAfterHash | test/dockerSymbols.test.ts:48-59 | a space after `#` is skipped: as written (0,2)-(0,7) |
| DocumentSymbolsExamples.TabAfterHash | test/dockerSymbols.test.ts:61-71 | a tab after `#` is skipped: as written (0,2)-(0,7) |
| DocumentSymbolsExamples.LeadingSpace | test/dockerSymbols.test.ts:74-85 | a space before `#` is skipped: as written (0,2)-(0,7) |
| DocumentSymbolsExamples.LeadingTab | test/dockerSymbols.test.ts:87-97 | a tab before `#` is skipped: as written (0,2)-(0,7) |
| DocumentSymbolsExamples.EscapeAfterBreak | test/dockerSymbols.test.ts:99-133 | after one `\r`, `\n` or `\r\n` the directive is on line 1 at columns measured from that line's start |
| DocumentSymbolsExamples.LeadingLineBreaks | test/dockerSymbols.test.ts:99-133 | "\r#escape=`", "\n#escape=`" and "\r\n#escape=`" each give (1,1)-(1,6) as written |
| DocumentSymbolsExamples.AsWrittenRangeMissesLastCharacter | test/dockerSymbols.test.ts:34-45 | on a line holding the `escape` key, the as-written range covers "escap" only |
| RenameExamples.RenameStageAlone | test/dockerRename.test.ts:31-36 | `FROM node AS bootstrap` renamed at (0,17) gives the single edit (0,13)-(0,22) |
| RenameExamples.RenameStageCopy | test/dockerRename.test.ts:38-51 | at every position of the document, rename gives the two edits (0,13)-(0,22) and (2,12)-(2,21) inside either span, and no edit elsewhere |
| RenameExamples.RenameStageCopyIncomplete | test/dockerRename.test.ts:53-66 | the same holds when `--from=bootstrap` has no path arguments |
| RenameExamples.RenameStageMismatch | test/dockerRename.test.ts:68-78 | with `--from=bootstrap2`, the alias and the reference each rename alone, as (0,13)-(0,22) and (2,12)-(2,22) |
| RenameExamples.RenameStageCopySource | test/dockerRename.test.ts:80-85 | a positional `COPY bootstrap` is no symbol: renaming the alias gives one edit, and renaming at (1,10) gives none |
| RenameExamples.RenameStageInvalidPosition | test/dockerRename.test.ts:89-97 | a cursor in the trailing blanks after the alias, or on the path after the `--from` value, gives no edit |
| RenameExamples.DeclarationLines | test/dockerRename.test.ts:288-290 | `ARG var=value`, `ENV var=value`, `ENV var value`, `ARG var` and `ENV var` each declare `var` at columns [4,7) |
| RenameExamples.RenameBraced | test/dockerRename.test.ts:110-170 | with any of those declarations and `${var}` in `STOPSIGNAL`, `USER` and `WORKDIR`, every position inside any of the four spans gives the same four ascending edits |
| RenameExamples.RenameBracedCursors | test/dockerRename.test.ts:112-138 | the four cursors the braced tests use each give those four edits |
| RenameExamples.RenameBare | test/dockerRename.test.ts:172-284 | with `$var` unquoted, in double quotes and in single quotes, every position inside any of the six spans gives the same six ascending edits |
| RenameExamples.RenameBareCursors | test/dockerRename.test.ts:174-226 | the six cursors the bare tests use each give those six edits |
| RenameExamples.RenameVariableDocument | test/dockerRename.test.ts:108-284 | on a document whose only variable symbols all name `var`, any position inside any of them renames every one of them in line order |
| RenameExamples.RenameWholeFamily | test/dockerRename.test.ts:108-284 | when every symbol of a family shares one name, rename returns an edit for each of them |
| RenameExamples.RenameUndeclaredBraced | test/dockerRename.test.ts:292-312 | without a declaration, the three `${var}` references still group among themselves |
| RenameExamples.RenameUndeclaredBare | test/dockerRename.test.ts:314-333 | without a declaration, the three `$var` references still group among themselves |

## Left out

- Line continuation with the escape character, and the effect of a custom
  `escape` directive on tokenizing. No test exercises either, so every physical
  line is read on its own (and the comment skipper treats every `#` line as a
  comment).
- Lowercase keywords beyond ASCII upper-casing, and per-stage variable scoping.
  Variables are grouped document-wide, as the tests show.
- UTF-16 column subtleties: a document is a sequence of characters.
- Stage names holding `$` are not symbols: `FROM node AS $x` declares no stage
  (its `$x` becomes a variable reference at [14,15)), and `COPY --from=$s`
  references none. This rule is what keeps stage spans and reference spans
  from overlapping.
- Variable declarations need a name of letters, digits and `_`: `ARG my-var=1`
  declares nothing, although the ARG form takes any name up to `=`.
- VariableSpansDelimited: states only the delimiting shape of each span; which
  words of an `ARG`/`ENV` line are declared is stated by Classifier.SpansExact
  and Classifier.VariableDeclarationExact.
- StageSpansDelimited: states only the delimiting shape of each span; that a
  declaration is the `AS` name of a `FROM` and a reference the first `--from=`
  value of a `COPY` is stated by Classifier.SpansExact.
- The language-server library types, the test harness and the unused
  `child_process` import. The types are replaced by the `Protocol` datatypes.
- Idempotent re-resolution after applying the edits. It would need a model of
  applying text edits, which neither operation performs.
- The scenario lemmas rename to "renamed" only, as the tests do. The general
  lemmas in `Rename` hold for any new name.
- The argument grammars of the other instructions (`ADD`, `CMD`, `LABEL` and
  the rest of the instruction set). Their `$name` and `${name}` references are
  found like any other, and a line with an unknown keyword yields no symbol.

## Findings

| source | as written | input that shows it | evidently intended | confidence | as-written member | corrected member |
|---|---|---|---|---|---|---|
| test/dockerSymbols.test.ts:45 | the directive symbol's range ends at the key's last column (the same holds at lines 59, 71, 85, 97, 109, 121 and 133) | "#escape=`": the key `escape` occupies columns [1,7), but the range ends at character 6 | language-server ranges are end-exclusive, so the range should end at 7 and cover the whole key | medium, not executed | DocumentSymbols.ParseSymbolInformationAsWritten, with DocumentSymbolsExamples.AsWrittenRangeMissesLastCharacter | DocumentSymbols.ParseSymbolInformation |

The tests assert ends one column short of the end-exclusive key span, while the
rename tests use end-exclusive ranges throughout (for example, `bootstrap` at
[13,22) on test/dockerRename.test.ts:35). Both versions are modelled. The scenario
lemmas state both: the as-written result matches each test's assertion, and the
corrected one covers the key.
