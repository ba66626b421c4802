# Pascal IDE core logic in Dafny

This project models the sequential logic inside a small Windows IDE for
Pascal. The rest of the IDE is GUI and process glue around it.

- **Autocompletion** (`AutoCompletionPrediction.cpp`):
  - the word list that the editor text, the language keywords and the code
    helper's words are split into;
  - word frequencies;
  - the dynamic-programming Levenshtein distance;
  - the ranking of suggestions (prefix matches first, then smaller edit
    distance, then higher frequency, at most ten, never the typed word);
  - the backward scan for the word under the cursor;
  - replacing that word with a suggestion;
  - the automatic `end;` after `begin`.
- **Compiler output and text utilities** (`PascalCompiler.cpp`,
  `CodeHelperInterface.cpp`, `StringHelper.h`):
  - the error-line classifier;
  - the in-place placeholder replace-all;
  - the `.exe` path derivation;
  - the compiler's captured error list;
  - `toUri`;
  - the code helper's result list;
  - the string-literal escaper.
- **The form designer's element model** (`imgui_canvas.h`,
  `imgui_canvas.cpp`):
  - clip and element-type names;
  - control points and elements with their selection, hover and visibility
    state and colours;
  - the `applyClip` tests;
  - selection-gated and clamped moves;
  - the per-type attribute tables and placeholder names;
  - the hit mask.
- **The project explorer's tree** (`FileTree.cpp`): a `DirectoryNode` tree
  built from a listing of the file system, with the directories of every
  node first.

Each module follows one source file or one part of it:

| module | file | what it holds |
|---|---|---|
| `Wrappers` | `wrappers.dfy` | `Option` |
| `Text` | `text.dfy` | `std::string::find`, `rfind` and `std::to_string` as specified functions |
| `Tokenizer` | `tokenizer.dfy` | the words that `LoadWords` produces |
| `EditDistance` | `editdistance.dfy` | the Levenshtein distance |
| `Ranking` | `ranking.dfy` | word frequencies and suggestion ranking |
| `AutoCompletion` | `autocompletion.dfy` | the typed word, the editor operations, and the `AutoCompletionPrediction` class |
| `Placeholder` | `placeholder.dfy` | `ReplacePlaceholder`, identical in two source files |
| `StringHelper` | `stringhelper.dfy` | `SanitizeStringLiteral` |
| `PascalCompiler` | `compiler.dfy` | `IsErrorLine`, the `.exe` path, and the compiler's error list |
| `CodeHelper` | `codehelper.dfy` | `toUri` and the `CodeHelperInterface` class |
| `Canvas` | `canvas.dfy` | the form designer's elements |
| `FileTree` | `filetree.dfy` | the directory tree |

Operations that change state in the source are methods:
- Methods that update fields are methods of a class: `AutoCompletionPrediction`, `Compiler`, `CodeHelperInterface`, `CtrlPoint` and `Element`.
- Methods with loops carry their invariants: the tokenizer, the frequency count, the `dp` table, the ranking, the replace-all, the escaper, the word scans, the control-point moves, the mask fill and the tree construction.

Each method is proved against a specification function or predicate. The properties the source promises are proved about that specification as lemmas.

Some behaviour is kept as written, because that is what the code does:
- `ApplyPredictedWord` places the cursor at `startColumn + |predictedWord| + 1`, one past the inserted word, clamped to the end of the line.
- Two things in `predifineElement` are kept verbatim:
  - the button attribute is named `FoubleBuffered`;
  - the placeholder number is `rand() % 10000 + 1`.
- In `SanitizeStringLiteral`, a double quote is emitted as a single `"`; only backslashes are doubled.
- `AutoCompletionPrediction::PredictWords` ranks against `m_currentTypedWord`, which only `ApplyPredictedWord` updates.
- `stringToElementType` has its body commented out, so it always fails.
- `IsErrorLine`'s `.pas(` check can never succeed where its first check failed.

Several inputs are parameters:
- the editor's text, its cursor and the language keywords;
- the file system listing;
- the results of processes and pipes;
- `rand()`;
- the JSON parser;
- an element's `isInside`.

## Model

| member | source | states |
|---|---|---|
| Text.Find | PascalCompiler.cpp:123-125 | `find(p, from)` gives the first occurrence at or after `from`, or none when there is none at or after `from` |
| Text.FindAtZero | PascalCompiler.cpp:153 | `find(p) == 0` holds exactly when `p` is a prefix |
| Text.LastIndexOf | PascalCompiler.cpp:106 | `rfind(c)` gives the last position holding `c`, and none exactly when `c` does not occur |
| Text.DecimalString | imgui_canvas.cpp:116 | `std::to_string` of a natural number is a non-empty digit string, starting with `0` only for zero |
| Text.DecimalRoundTrip | imgui_canvas.cpp:116 | reading the decimal string back gives the number |
| Tokenizer.RunLength | AutoCompletionPrediction.cpp:83-86 | the run of word characters at the front is maximal: it stops at the first non-word character |
| Tokenizer.Words | AutoCompletionPrediction.cpp:80-103 | every token is non-empty and made only of ASCII letters, digits and `_` |
| Tokenizer.PendingStep | AutoCompletionPrediction.cpp:83-94 | one step of the character loop: a word character extends the pending word; any other character flushes it |
| Tokenizer.PendingEnd | AutoCompletionPrediction.cpp:100-103 | a trailing run is emitted after the loop and is not lost |
| Tokenizer.SplitWords | AutoCompletionPrediction.cpp:80-103 | the character loop yields exactly the maximal word-character runs of the text, in order |
| Tokenizer.UnlistedMembers | AutoCompletionPrediction.cpp:75-77 | the appended helper words are exactly those not among the keywords, in order, both directions |
| Tokenizer.LoadWords | AutoCompletionPrediction.cpp:64-106 | the result is the word list of the editor text, then `" "`+keyword for each keyword, then `" "`+word for each unlisted helper word |
| Tokenizer.JoinedStep | AutoCompletionPrediction.cpp:71-72 | appending `" " + keyword` extends the joined keyword text by one entry |
| Tokenizer.UnlistedStep | AutoCompletionPrediction.cpp:75-77 | appending a helper word extends the joined text only when it is not a keyword |
| Tokenizer.RunLengthSeparated | AutoCompletionPrediction.cpp:83-94 | a run never crosses a non-word character |
| Tokenizer.WordsSeparated | AutoCompletionPrediction.cpp:80-103 | a non-word character splits the text into independently tokenized halves |
| Tokenizer.WordsOfWord | AutoCompletionPrediction.cpp:80-103 | a word on its own tokenizes to itself |
| Tokenizer.WordsJoined | AutoCompletionPrediction.cpp:71-77 | appending space-separated words adds exactly those words as tokens |
| Tokenizer.LoadWordsOfWords | AutoCompletionPrediction.cpp:64-106 | when keywords and helper words are words, the result is the editor text's words, then the keywords, then the unlisted helper words |
| Tokenizer.WordChars | AutoCompletionPrediction.cpp:83-86 | the word characters of a text, in order |
| Tokenizer.WordCharsAppend | AutoCompletionPrediction.cpp:80-103 | the word characters of a concatenation are the concatenation of the word characters |
| Tokenizer.WordCharsOfRun | AutoCompletionPrediction.cpp:83-86 | a run of word characters keeps all of them |
| Tokenizer.WordsCoverWordChars | AutoCompletionPrediction.cpp:80-103 | the tokens, concatenated, are exactly the text's word characters: nothing dropped, nothing added |
| EditDistance.Min3 | AutoCompletionPrediction.cpp:152 | the minimum of three candidates is one of them and no larger than any |
| EditDistance.Distance | AutoCompletionPrediction.cpp:139-140 | the distance to the empty string is the other string's length |
| EditDistance.DSymmetric | AutoCompletionPrediction.cpp:150-154 | the recurrence is symmetric in its two strings at every cell |
| EditDistance.DistanceSymmetric | AutoCompletionPrediction.cpp:133-158 | `LevenshteinDistance(a, b) == LevenshteinDistance(b, a)` |
| EditDistance.DBounds | AutoCompletionPrediction.cpp:139-154 | every cell lies between the length difference and the larger prefix length |
| EditDistance.DistanceBounds | AutoCompletionPrediction.cpp:133-158 | the distance lies between `abs(\|a\|-\|b\|)` and `max(\|a\|, \|b\|)` |
| EditDistance.DZero | AutoCompletionPrediction.cpp:139-154 | a cell is zero exactly when the two prefixes are equal |
| EditDistance.DistanceZero | AutoCompletionPrediction.cpp:133-158 | the distance is zero exactly when the strings are equal |
| EditDistance.LevenshteinDistance | AutoCompletionPrediction.cpp:133-158 | the nested loops over the `dp` table compute the distance |
| EditDistance.FillRow | AutoCompletionPrediction.cpp:144-154 | one pass of the inner loop fills row `i` with the distances of `a[..i]` to every prefix of `b`, keeping the rows above and the first column below |
| Ranking.FrequenciesCount | AutoCompletionPrediction.cpp:161-171 | the keys are exactly the words that occur, and each maps to its number of occurrences |
| Ranking.FrequenciesStep | AutoCompletionPrediction.cpp:165-168 | one loop step increments the word's count, starting at 1 for a new word |
| Ranking.CalculateWordFrequencies | AutoCompletionPrediction.cpp:161-171 | the loop builds the frequency map of the words |
| Ranking.TotalRemove | AutoCompletionPrediction.cpp:161-171 | the sum of a map's counts splits off any one key |
| Ranking.FrequenciesTotal | AutoCompletionPrediction.cpp:161-171 | the counts sum to the number of words |
| Ranking.LessOrder | AutoCompletionPrediction.cpp:196-214 | the comparator is asymmetric, and not-before is transitive |
| Ranking.NotBefore | AutoCompletionPrediction.cpp:196-214 | if `y` is not ranked before `x`: a prefix match `y` makes `x` one too; on equal prefix status `x` is no farther; on equal distance `x` is no rarer |
| Ranking.Insert | AutoCompletionPrediction.cpp:196-214 | inserting into a ranked list keeps it ranked and adds exactly one element |
| Ranking.Sort | AutoCompletionPrediction.cpp:196-214 | `std::sort` with the comparator: the result is ranked and a permutation of the input |
| Ranking.CountTwo | AutoCompletionPrediction.cpp:180-190 | a value at two positions occurs at least twice |
| Ranking.CountOne | AutoCompletionPrediction.cpp:180-190 | a list without repeats holds each value at most once |
| Ranking.CollectedPermutation | AutoCompletionPrediction.cpp:196-214 | sorting keeps every collected candidate: one per key other than the typed word, with its score, and no word twice |
| Ranking.TopOfSorted | AutoCompletionPrediction.cpp:217-221 | the first words of the ranked list are distinct frequency keys other than the typed word, in rank order, and outrank every word left out |
| Ranking.CollectStep | AutoCompletionPrediction.cpp:180-190 | one iteration of the collection loop skips the typed word and otherwise adds that word's candidate |
| Ranking.CollectAdd | AutoCompletionPrediction.cpp:184-189 | appending the scored candidate of a word not yet visited keeps the collection exact: scored, distinct, covering every visited word |
| Ranking.SeenGrows | AutoCompletionPrediction.cpp:180-190 | visiting a word other than the typed word adds exactly one to the words collected |
| Ranking.CollectMatches | AutoCompletionPrediction.cpp:180-190 | one candidate per key other than the typed word, with its Levenshtein distance, prefix status and frequency |
| Ranking.FirstWords | AutoCompletionPrediction.cpp:217-221 | the first `n` candidates' words, in order |
| Ranking.GetSuggestions | AutoCompletionPrediction.cpp:174-224 | the suggestions number `min(10, keys other than the typed word)`, are distinct keys, never the typed word, are ranked, and outrank every key left out |
| AutoCompletion.TrailingWord | AutoCompletionPrediction.cpp:117-127 | the longest suffix without a delimiter: no delimiter inside, and a delimiter just before it when it is not the whole text |
| AutoCompletion.TrailingWordUnique | AutoCompletionPrediction.cpp:117-127 | any delimiter-free suffix that starts the text or follows a delimiter is that word |
| AutoCompletion.GetCurrentTypedWord | AutoCompletionPrediction.cpp:108-130 | the backward scan from the clamped column returns the trailing word before it, and nothing for a column at or below zero |
| AutoCompletion.WordStart | AutoCompletionPrediction.cpp:33-38 | the scan stops where the typed word before the cursor begins |
| AutoCompletion.LineStart | AutoCompletionPrediction.cpp:29-30 | the current line begins at or before the cursor |
| AutoCompletion.LineStartBounds | AutoCompletionPrediction.cpp:29-30 | the current line begins after the last newline before the cursor, or at the start of the text |
| AutoCompletion.LineEnd | AutoCompletionPrediction.cpp:29-30 | the current line ends at or after the cursor and within the text |
| AutoCompletion.LineEndBounds | AutoCompletionPrediction.cpp:29-30 | the current line ends at the next newline or at the end of the text |
| AutoCompletion.CursorOnLine | AutoCompletionPrediction.cpp:29-33 | the cursor's column lies on its line, and the line lies within the text |
| AutoCompletion.PlaceCursor | AutoCompletionPrediction.cpp:52-57 | the new cursor is the requested column on the line, clamped to the line's end |
| AutoCompletion.SelectionEnd | AutoCompletionPrediction.cpp:41-48 | `Delete` after `SetSelection(from, to)` stops at `to` exactly when something is selected or the cursor is at the end of the text; otherwise it takes the one character after the cursor |
| AutoCompletion.DeleteThenInsert | AutoCompletionPrediction.cpp:41-50 | deleting the selection and then inserting at its start replaces the selection |
| AutoCompletion.SuggestionsFromLoadedWords | AutoCompletionPrediction.cpp:10-19 | every suggestion is a word of the editor text, a keyword or a helper word |
| AutoCompletion.AutoCompletionPrediction.constructor | AutoCompletionPrediction.h:23-24 | no typed word and no helper words yet |
| AutoCompletion.AutoCompletionPrediction.PredictWords | AutoCompletionPrediction.cpp:10-19 | stores the helper words and returns the top suggestions for the stored typed word over the frequencies of the loaded words |
| AutoCompletion.AutoCompletionPrediction.CheckForAutoAddition | AutoCompletionPrediction.cpp:226-235 | `"begin"` inserts `"\nend;"` at the cursor and leaves the cursor where it was; any other word changes nothing |
| AutoCompletion.AutoCompletionPrediction.ApplyPredictedWord | AutoCompletionPrediction.cpp:21-61 | stores the typed word, replaces it before the cursor with the prediction (an empty typed word leaves an empty selection, so `Delete` also removes the character after the cursor), places the cursor one past it on the same line (clamped), then applies the `begin` rule |
| AutoCompletion.ReplacedByLayout | AutoCompletionPrediction.cpp:33-60 | selecting from the word's start column to the cursor, deleting, inserting and placing the cursor yields the text with the typed word replaced |
| Placeholder.OccursInSuffix | PascalCompiler.cpp:588 | an occurrence in a suffix is an occurrence in the whole text, shifted |
| Placeholder.ReplaceAllSkip | PascalCompiler.cpp:588 | a prefix without occurrences is copied unchanged |
| Placeholder.ReplaceAllAbsent | PascalCompiler.cpp:588 | with no occurrence the text is unchanged |
| Placeholder.ReplaceAllSelf | PascalCompiler.cpp:585-593 | replacing a placeholder by itself changes nothing |
| Placeholder.ReplaceAllLength | PascalCompiler.cpp:585-593 | the length changes by `(\|value\| - \|placeholder\|)` per occurrence |
| Placeholder.ReplaceFirst | PascalCompiler.cpp:588-591 | the replace-all from a position is the text up to the first occurrence, then the value, then the replace-all after it |
| Placeholder.ReplaceStep | PascalCompiler.cpp:588-591 | one `replace` followed by `pos += value.length()` never rescans the inserted value |
| Placeholder.ReplacePlaceholder | CodeHelperInterface.cpp:195-203 | the in-place loop (identical at PascalCompiler.cpp:585-593) yields the left-to-right non-overlapping replace-all, and leaves the source unchanged without an occurrence |
| StringHelper.Escape | StringHelper.h:9-20 | a backslash becomes two backslashes; every other character, `"` included, is copied as one character |
| StringHelper.SanitizedAppend | StringHelper.h:7-21 | escaping distributes over concatenation |
| StringHelper.SanitizedLength | StringHelper.h:7-21 | the output is longer than the input by the number of backslashes |
| StringHelper.SanitizedNoBackslash | StringHelper.h:7-21 | a string without backslashes is returned unchanged |
| StringHelper.CollapseSanitized | StringHelper.h:13-16 | collapsing each doubled backslash recovers the input |
| StringHelper.SanitizeStringLiteral | StringHelper.h:4-23 | the loop appends each character's escape, in order |
| PascalCompiler.FileLineColumnFormatIff | PascalCompiler.cpp:123-136 | the first check succeeds exactly when a `(` is followed by a `)` and later by a `:` |
| PascalCompiler.FileLineFormatSubsumed | PascalCompiler.cpp:138-151 | the `.pas(` check never succeeds where the first check failed |
| PascalCompiler.IsErrorLineIff | PascalCompiler.cpp:119-161 | a line is an error line exactly when it has `(`, `)`, `:` in order or starts with `Fatal:` or `Error:` |
| PascalCompiler.ExePath | PascalCompiler.cpp:106-107 | everything from the last `.` is replaced by `.exe`; a path without `.` is the `replace` failure |
| PascalCompiler.ExePathOfSource | PascalCompiler.cpp:86-87 | `base.ext` becomes `base.exe` for an extension without dots, whatever dots `base` holds |
| PascalCompiler.ExePathIdempotent | PascalCompiler.cpp:86-87 | deriving the executable path twice changes nothing more |
| PascalCompiler.Compiler.constructor | PascalCompiler.cpp:10-12 | the error list starts empty |
| PascalCompiler.Compiler.CompilePascalToExe | PascalCompiler.cpp:18-100 | an empty path returns before the error list is cleared; otherwise the list becomes the captured output, and the result follows the pipe, the exit code and `autoRun` |
| PascalCompiler.Compiler.GetErrors | PascalCompiler.cpp:580-583 | returns the stored error list |
| PascalCompiler.RunCompiledExe | PascalCompiler.cpp:102-117 | the program started is the derived `.exe` path, and there is none exactly when the path has no `.` |
| CodeHelper.ReplaceChar | CodeHelperInterface.cpp:130 | `std::replace` keeps the length and swaps exactly the matching characters |
| CodeHelper.ToUri | CodeHelperInterface.cpp:127-132 | the URI is `file:///` followed by the path with every `\` turned into `/`, and holds no backslash |
| CodeHelper.ToUriGeneric | CodeHelperInterface.cpp:127-132 | a path without backslashes is only prefixed |
| CodeHelper.ToUriSeparatorsOnly | CodeHelperInterface.cpp:127-132 | two paths give the same URI exactly when they differ only in which separator they use |
| CodeHelper.CodeHelperInterface.constructor | CodeHelperInterface.h:28-33 | no results, the temp file counts as saved, and the URI is `file:///` plus the temp path |
| CodeHelper.CodeHelperInterface.PredictWords | CodeHelperInterface.cpp:21-125 | an empty or `" "` URI returns before `results.clear()`, leaving the results; otherwise the results are cleared and refilled from the helper's sanitized output, or the parse fails; stated as the predicate `Predicted` |
| CodeHelper.CodeHelperInterface.UpdateLastInput | CodeHelperInterface.cpp:15-19 | predicts only when the temp file was saved, and then the outcome and the new results are those `Predicted` gives for the helper's reply; otherwise the results are kept |
| CodeHelper.PredictedDetermined | CodeHelperInterface.cpp:21-125 | the outcome and new results of a prediction are determined by the URI, the old results, whether the helper started and its reply |
| CodeHelper.PredictedKeepsResults | CodeHelperInterface.cpp:21-125 | results survive exactly the calls that return before asking the helper; a reply without `{` or one the parser rejects leaves no results |
| CodeHelper.CodeHelperInterface.GetResults | CodeHelperInterface.h:19 | returns the stored results |
| Canvas.ClipToString | imgui_canvas.cpp:17-21 | the label of a clip is `In` or `Out` |
| Canvas.StringToClip | imgui_canvas.cpp:23-33 | succeeds exactly for `In` and `Out`, yielding the clip with that label; otherwise the clip is left as it was |
| Canvas.ClipRoundTrip | imgui_canvas.cpp:17-33 | every clip survives the trip through its label |
| Canvas.ElementTypeToString | imgui_canvas.cpp:35-51 | values from `COUNT` up, and only those, give `Unknown`; the six types give `T`-names |
| Canvas.ElementTypeNamesDistinct | imgui_canvas.cpp:37-44 | the six type names are pairwise different |
| Canvas.StringToElementType | imgui_canvas.cpp:53-63 | always reports failure and never writes its output |
| Canvas.ElementTypeNoRoundTrip | imgui_canvas.cpp:53-63 | no type name can be read back |
| Canvas.ClampScalar | imgui_canvas.cpp:293 | `ImClamp` stays within a non-empty range and leaves values inside it unchanged |
| Canvas.MakeAttribute | imgui_canvas.h:63-68 | the three-argument constructor stores name and value; the type defaults to `String`; there are no answers |
| Canvas.AnswerListAttribute | imgui_canvas.h:70-85 | the variadic constructor gives `PredefinedAnswerList` with the extra arguments as answers, in order |
| Canvas.ButtonAttributes | imgui_canvas.cpp:115-149 | 33 attributes, the eighth being `Caption` with the element's name |
| Canvas.LabelAttributes | imgui_canvas.cpp:151-185 | 33 attributes, the seventh being `Caption` with the element's name |
| Canvas.EditAttributes | imgui_canvas.cpp:187-225 | 37 attributes |
| Canvas.PredefinedAttributes | imgui_canvas.cpp:113-238 | 33 attributes for buttons and labels, 37 for edits, none for every other type |
| Canvas.NamePrefix | imgui_canvas.cpp:116-234 | each type's placeholder prefix is its type name without the leading `T` |
| Canvas.PlaceholderName | imgui_canvas.cpp:111-116 | a placeholder name is the prefix and then a number in 1..10000 without leading zeros that reads back as `rand() % 10000 + 1` |
| Canvas.ApplyClip | imgui_canvas.h:308-311 | a two-argument test never holds on the boundary |
| Canvas.ApplyClip4 | imgui_canvas.h:312-315 | an `Out` test needs both pairs off the boundary, an `In` test one |
| Canvas.ApplyClipComplement | imgui_canvas.h:308-311 | off the boundary, `In` and `Out` give opposite answers |
| Canvas.ApplyClip4Complement | imgui_canvas.h:312-315 | off both boundaries, `In` and `Out` give opposite answers |
| Canvas.CtrlPoint.constructor | imgui_canvas.h:102-106 | a new point is unselected, unhovered and white, with handle size 4 |
| Canvas.CtrlPoint.SetSelected | imgui_canvas.h:108-112 | sets the flag, with red when selected and white otherwise; position and hover are kept |
| Canvas.CtrlPoint.SetHovered | imgui_canvas.h:126-130 | sets the flag, with yellow when hovered and white otherwise; position and selection are kept |
| Canvas.CtrlPoint.Move | imgui_canvas.h:145-149 | adds the delta coordinate by coordinate and changes nothing else |
| Canvas.CtrlPoint.MoveTo | imgui_canvas.h:150-153 | sets the position exactly and changes nothing else |
| Canvas.Element.constructor | imgui_canvas.cpp:81-87 | one fresh control point per given point, in order; the centre and every control point white, of size `HANDLE_4`, unselected and unhovered; the element visible, unselected, white; then the name and attributes `predifineElement` sets on an empty name |
| Canvas.Element.NewCtrlPoints | imgui_canvas.cpp:83-84 | one new, distinct, unselected and unhovered control point per given position, in order, each white and of size `HANDLE_4` |
| Canvas.Element.WithParameters | imgui_canvas.cpp:65-79 | two fresh control points: one right of the centre by the first parameter, one below it by the second; the centre and both points white, of size `HANDLE_4`, unselected and unhovered; then the name and attributes `predifineElement` sets on an empty name |
| Canvas.Element.SetSelected | imgui_canvas.h:176-180 | sets the flag and the red/white colour, and nothing else |
| Canvas.Element.SetHovered | imgui_canvas.h:194-198 | sets the flag and the yellow/white colour, and nothing else |
| Canvas.Element.SetVisible | imgui_canvas.h:208-211 | sets visibility, true by default, and nothing else |
| Canvas.Element.PredifineElement | imgui_canvas.cpp:107-239 | the attributes are replaced by the type's table; known types get the placeholder name, other values keep the old name |
| Canvas.Element.Predefined | imgui_canvas.cpp:107-239 | the body of `predifineElement` on values: the attribute list is the type's table for the resulting name; known types get their prefix and `rand() % 10000 + 1`, other values keep the given name |
| Canvas.Element.MoveCenter | imgui_canvas.cpp:277-285 | an unselected element does not move; a selected one moves its centre and every control point by the delta; sizes, flags and colours are kept |
| Canvas.Element.MoveCenterClamped | imgui_canvas.cpp:288-302 | an unselected element does not move; a selected one moves its centre and clamps it to the canvas, and every control point moves by the distance the centre actually travelled; sizes, flags and colours are kept |
| Canvas.Element.MovePoints | imgui_canvas.cpp:283-284 | the loop moves every control point by the delta and keeps its size, flags and colour |
| Canvas.ClampedMoveKeepsShape | imgui_canvas.cpp:288-302 | the clamped centre lies on the canvas, and each control point keeps its offset from the centre |
| Canvas.Cell | imgui_canvas.cpp:779 | cell `x + W*y` of a `W` by `H` canvas lies inside the `W*H` buffer |
| Canvas.CellBound | imgui_canvas.cpp:779 | cell indices stay below `W*H` |
| Canvas.CellInjective | imgui_canvas.cpp:779 | different canvas points have different cells |
| Canvas.CoveredIff | imgui_canvas.cpp:780-785 | the OR over the shapes holds exactly when some visible shape contains the point |
| Canvas.UpdateMask | imgui_canvas.cpp:773-788 | every cell ends as 1 when some visible shape contains its point and as 0 otherwise; memory past the canvas is untouched |
| Canvas.FillCell | imgui_canvas.cpp:779-785 | one cell is reset to 0 and OR-ed with each visible shape's test; no other cell changes |
| FileTree.FileName | FileTree.cpp:45 | `filename()` is the part after the last separator: a suffix without separators |
| FileTree.FileNameOfChild | FileTree.cpp:44-45 | the name under which an entry is listed is what `filename()` recovers from its path |
| FileTree.Kind | FileTree.cpp:52-53 | the nodes of one kind, all directories or all files |
| FileTree.KindsSplit | FileTree.cpp:52-53 | the directories and the files together are the nodes again, as a multiset |
| FileTree.DirectoriesToFrontSorts | FileTree.cpp:52-53 | moving directories to the front permutes the nodes and leaves no file before a directory |
| FileTree.MoveDirectoriesToFront | FileTree.cpp:52-53 | the children are permuted so that no file precedes a directory |
| FileTree.BuildAll | FileTree.cpp:41-50 | one tree per listing entry |
| FileTree.BuildAllStep | FileTree.cpp:41-50 | handling one more entry appends that entry's tree |
| FileTree.BuildAllAt | FileTree.cpp:41-50 | the `i`-th tree built is the tree of the `i`-th entry |
| FileTree.DirectoryChildren | FileTree.cpp:39-54 | a directory's children are the trees of its entries, directories moved first |
| FileTree.ChildFromEntry | FileTree.cpp:41-50 | every child of a directory's node is the tree of one of its entries |
| FileTree.EntryGivesChild | FileTree.cpp:41-50 | every entry's tree is a child of the directory's node |
| FileTree.ChildrenCorrespond | FileTree.cpp:39-54 | a directory has one child per listing entry: as many children as entries, each the tree of an entry, each entry's tree among them, directories first |
| FileTree.BuildKeepsEntry | FileTree.cpp:43-46 | every node takes its path, name and kind from its entry; a file has no children |
| FileTree.BuildSorted | FileTree.cpp:39-54 | the whole tree, at every depth, lists directories before files |
| FileTree.ListingStep | FileTree.cpp:41-50 | one loop iteration appends the tree of the next entry |
| FileTree.RecursivelyAddDirectoryNodes | FileTree.cpp:39-54 | the node keeps its paths and kind; its children are the old ones plus one tree per entry, directories moved first |
| FileTree.AddChildNode | FileTree.cpp:43-49 | a child is the tree of its entry: path, name and kind from the entry, recursed into only for a directory |
| FileTree.CreateDirectryNodeTreeFromPath | FileTree.cpp:56-65 | the root's node is the tree of the root entry; a root that is not a directory has no children |

## Left out

- The desktop shell, window code, dialogs, textures, themes and the file logger: UI, OpenGL and native calls with no logic of their own.
- The `TextEditor` widget is not part of this model. The editor is its whole text plus a cursor offset. The line is the text between newlines, and the column is a character index, so tabs are not expanded. Selection, `Delete`, `InsertText` and `SetCursorPosition` act on that text: `Delete` removes the selection, or with nothing selected the character after the cursor (a newline there joins the next line).
- AutoCompletion.AutoCompletionPrediction.PredictWords: the keyword set is a sequence in the set's iteration order. The `m_pTextEditor` pointer is not kept; the editor's text is passed in.
- Ranking.Sort: `std::sort` is not stable, and candidates that tie under the comparator may come out in any order. The model sorts by insertion. The suggestion contract (`IsTopSuggestions`) holds for every order `std::sort` may produce.
- Ranking.CollectMatches: the `unordered_map` is iterated in an unspecified order, which the model picks by choice.
- AutoCompletion.WordStart: it requires the column to be within the line. The source reads `lineText[startColumn - 1]` without clamping, and a column past the end is undefined behaviour.
- PascalCompiler.Compiler.CompilePascalToExe: `GenerateFpcConfig`, `std::filesystem::absolute`, `_popen`, the reads from the pipe and `CreateProcessA` are I/O. The absolute path, whether the pipe opened, the captured chunks and the exit code are parameters.
- `GetErrorInLine` builds a regular expression it never runs. `GenerateFormFiles` writes files with rounded floats. `IsCompiledProgramRunning` and `StopCompiledProgram` query and stop a process. All are I/O or unused.
- CodeHelper.CodeHelperInterface.PredictWords: the helper process, the pipes and the JSON library are external. The helper's output and whether the helper started are parameters, and the JSON parser is a function parameter. `SaveTmpFile` and `GenerateConfig` write files; whether the save succeeded is a parameter of `UpdateLastInput`. On the `NoJsonObject` and `ParseError` outcomes the source throws (`substr(npos)`, the JSON parser) and nothing catches it, so the program ends there; the model returns the outcome with the results as they were at the throw, already cleared.
- Tokenizer.Words: text is a sequence of characters, while the source's `std::string` holds bytes. A non-ASCII character counts as one position and is never a word character; in the source it is several bytes, `std::isalnum` on a negative `char` is undefined behaviour, and `length()` counts bytes. Lengths, columns, edit distances and `toUri` positions therefore agree with the source on ASCII text only.
- Floating point: positions, sizes and deltas are reals, so `float` rounding is not modelled.
- The trigonometry and drawing parts of the canvas are left out: `isInside`, `MoveCtrlPoint`, `getAngle`, `getRadius`, `toString`, `DrawElements`, `DrawCanvas`, `AddCircle` and `AddRectangle`. `isInside` is a function parameter of `UpdateMask`.
- Canvas.UpdateMask: the canvas width and height are natural numbers, so the `(int)` truncation of a fractional `canvasSize.x * y` is not modelled.
- The element's default and copy constructors, its assignment operator, the `uint8_t` `nextIndex` counter, the getters, the `select`/`deselect`/`hover` shorthands and the per-index control-point setters are left out. They are direct field copies or one-line calls to the setters modelled here.
- `FileTree::Render` and `addOnCharTypedCallback` are UI and callback plumbing.
- FileTree.MoveDirectoriesToFront: keeps the listing order inside the directories and inside the files. `std::sort` is not stable and may order each group differently; directories first and the permutation, the properties proved, hold for every such order.
- FileTree: the listing is a finite tree. Errors that `directory_iterator` throws and cycles through links are outside the model.
- FileTree.FileName: Windows drive prefixes such as `C:` are not treated as a root name.
