/**
 * The `AutoCompletionPrediction` class of AutoCompletionPrediction.cpp:
 * finding the word before the cursor, predicting completions for it, and
 * replacing it with the chosen completion.
 *
 * The editor is reduced to what these members use: its text and the cursor,
 * as an offset into the text. Its current line and column are derived from
 * the offset.
 */
module AutoCompletion {
  import Tokenizer
  import Ranking

  /** `m_delimiters`. */
  predicate IsDelimiter(c: char)
  {
    c == ' ' || c == '(' || c == ')' || c == '[' || c == ']' || c == '{' || c == '}'
    || c == ';' || c == ',' || c == '\t' || c == '='
  }

  /** The longest suffix of `s` that holds no delimiter. */
  function TrailingWord(s: string): (w: string)
    ensures |w| <= |s| && w == s[|s| - |w|..]
    ensures forall i :: 0 <= i < |w| ==> !IsDelimiter(w[i])
    ensures |w| < |s| ==> IsDelimiter(s[|s| - |w| - 1])
  {
    if s == [] || IsDelimiter(s[|s| - 1]) then []
    else
      var init := s[..|s| - 1];
      var w := TrailingWord(init);
      assert init[|init| - |w|..] + [s[|s| - 1]] == s[|s| - |w| - 1..];
      w + [s[|s| - 1]]
  }

  /** The suffix starting at `k` is the trailing word exactly when it is delimiter-free and a delimiter (or the start) precedes it. */
  lemma TrailingWordUnique(s: string, k: nat)
    requires k <= |s|
    requires forall i :: k <= i < |s| ==> !IsDelimiter(s[i])
    requires k > 0 ==> IsDelimiter(s[k - 1])
    ensures TrailingWord(s) == s[k..]
  {
  }

  /** `GetCurrentTypedWord`: the column is clamped to the line; a column at or before the start gives "". */
  function TypedWord(line: string, column: int): string
  {
    var c := if column > |line| then |line| else column;
    if c <= 0 then [] else TrailingWord(line[..c])
  }

  method GetCurrentTypedWord(line: string, column: int) returns (word: string)
    ensures word == TypedWord(line, column)
    ensures |word| <= |line| && forall i :: 0 <= i < |word| ==> !IsDelimiter(word[i])
  {
    var cursor := column;
    if cursor > |line| {
      cursor := |line|;
    }
    word := "";
    var i := cursor - 1;
    while i >= 0
      invariant -1 <= i < cursor || (cursor <= 0 && i == cursor - 1)
      invariant cursor > 0 ==> word == line[i + 1..cursor]
      invariant cursor <= 0 ==> word == ""
      invariant forall k :: 0 <= k < |word| ==> !IsDelimiter(word[k])
    {
      var ch := line[i];
      if IsDelimiter(ch) {
        break;
      }
      assert line[i..cursor] == [ch] + line[i + 1..cursor];
      word := [ch] + word;
      i := i - 1;
    }
    if cursor > 0 {
      TrailingWordUnique(line[..cursor], i + 1);
    }
  }

  /**
   * The loop of `ApplyPredictedWord` that walks back from the cursor to the
   * start of the typed word. It reads `lineText[startColumn - 1]` without a
   * bound check, so the column must lie on the line.
   */
  method WordStart(line: string, column: int) returns (start: int)
    requires 0 <= column <= |line|
    ensures 0 <= start <= column
    ensures line[start..column] == TypedWord(line, column)
  {
    start := column;
    while start > 0 && !IsDelimiter(line[start - 1])
      invariant 0 <= start <= column
      invariant forall i :: start <= i < column ==> !IsDelimiter(line[i])
    {
      start := start - 1;
    }
    if column > 0 {
      TrailingWordUnique(line[..column], start);
    }
  }

  /** The editor's text and its cursor as an offset into it. */
  datatype Editor = Editor(text: string, cursor: nat)

  predicate ValidEditor(e: Editor)
  {
    e.cursor <= |e.text|
  }

  /** Start of the line holding offset `pos`. */
  function LineStart(text: string, pos: nat): (s: nat)
    requires pos <= |text|
    ensures s <= pos
  {
    if pos == 0 || text[pos - 1] == '\n' then pos else LineStart(text, pos - 1)
  }

  /** End of the line holding offset `pos` (its newline, or the end of the text). */
  function LineEnd(text: string, pos: nat): (e: nat)
    requires pos <= |text|
    ensures pos <= e <= |text|
    decreases |text| - pos
  {
    if pos == |text| || text[pos] == '\n' then pos else LineEnd(text, pos + 1)
  }

  /** The line begins just after a newline (or at the start of the text) and holds no newline up to `pos`. */
  lemma {:induction false} LineStartBounds(text: string, pos: nat)
    requires pos <= |text|
    ensures var s := LineStart(text, pos);
      && (s > 0 ==> text[s - 1] == '\n')
      && forall i :: s <= i < pos ==> text[i] != '\n'
  {
    if pos > 0 && text[pos - 1] != '\n' {
      LineStartBounds(text, pos - 1);
    }
  }

  /** The line ends at a newline (or at the end of the text) and holds no newline from `pos` on. */
  lemma {:induction false} LineEndBounds(text: string, pos: nat)
    requires pos <= |text|
    ensures var e := LineEnd(text, pos);
      && (e < |text| ==> text[e] == '\n')
      && forall i :: pos <= i < e ==> text[i] != '\n'
    decreases |text| - pos
  {
    if pos < |text| && text[pos] != '\n' {
      LineEndBounds(text, pos + 1);
    }
  }

  /** `GetCurrentLineText`. */
  function CurrentLine(e: Editor): string
    requires ValidEditor(e)
  {
    e.text[LineStart(e.text, e.cursor)..LineEnd(e.text, e.cursor)]
  }

  /** `GetCursorPosition().mColumn`. */
  function Column(e: Editor): nat
    requires ValidEditor(e)
  {
    e.cursor - LineStart(e.text, e.cursor)
  }

  /** `SetCursorPosition` on the line starting at `lineStart`; the editor keeps the column within the line. */
  function PlaceCursor(text: string, lineStart: nat, column: nat): (pos: nat)
    requires lineStart <= |text|
    ensures lineStart <= pos <= LineEnd(text, lineStart)
    ensures pos == lineStart + column || pos == LineEnd(text, lineStart)
  {
    var end := LineEnd(text, lineStart);
    if lineStart + column <= end then lineStart + column else end
  }

  /**
   * Where the widget's `Delete` stops after `SetSelection(from, to)`: at `to`
   * when something is selected; with an empty selection it removes the
   * character after the cursor (a newline joins the next line), and nothing
   * at the end of the text.
   */
  function SelectionEnd(text: string, from: nat, to: nat): (end: nat)
    requires from <= to <= |text|
    ensures to <= end <= |text|
    ensures end == to <==> from < to || to == |text|
    ensures end <= to + 1
  {
    if from == to && to < |text| then to + 1 else to
  }

  lemma DeleteThenInsert(text: string, at: nat, cursor: nat, w: string)
    requires at <= cursor <= |text|
    ensures var deleted := text[..at] + text[cursor..];
      deleted[..at] + w + deleted[at..] == text[..at] + w + text[cursor..]
  {
    var deleted := text[..at] + text[cursor..];
    assert deleted[..at] == text[..at];
    assert deleted[at..] == text[cursor..];
  }

  /** Every suggestion is a word of the editor text, a keyword or a word from the code helper. */
  lemma SuggestionsFromLoadedWords(editorText: string, keywords: seq<string>, helperWords: seq<string>,
                                   typed: string, suggestions: seq<string>)
    requires forall k :: 0 <= k < |keywords| ==> Tokenizer.IsWord(keywords[k])
    requires forall k :: 0 <= k < |helperWords| ==> Tokenizer.IsWord(helperWords[k])
    requires Ranking.IsTopSuggestions(typed,
      Ranking.Frequencies(Tokenizer.Words(Tokenizer.LoadedText(editorText, keywords, helperWords))),
      suggestions)
    ensures forall k :: 0 <= k < |suggestions| ==>
      suggestions[k] in Tokenizer.Words(editorText) || suggestions[k] in keywords || suggestions[k] in helperWords
  {
    var words := Tokenizer.Words(Tokenizer.LoadedText(editorText, keywords, helperWords));
    Ranking.FrequenciesCount(words);
    Tokenizer.LoadWordsOfWords(editorText, keywords, helperWords);
    Tokenizer.UnlistedMembers(helperWords, keywords);
    forall k | 0 <= k < |suggestions|
      ensures suggestions[k] in Tokenizer.Words(editorText) || suggestions[k] in keywords || suggestions[k] in helperWords
    {
      assert suggestions[k] in words;
    }
  }

  class AutoCompletionPrediction {
    /** `m_currentTypedWord`: set by `ApplyPredictedWord`, read by `PredictWords`. */
    var currentTypedWord: string
    /** `m_cInterfaceWords`. */
    var interfaceWords: seq<string>

    constructor ()
      ensures currentTypedWord == "" && interfaceWords == []
    {
      currentTypedWord := "";
      interfaceWords := [];
    }

    /**
     * `PredictWords`: the loaded words are counted and ranked against the
     * word stored by the last `ApplyPredictedWord`. `keywords` is the
     * language definition's keyword set in the order it yields them.
     */
    method PredictWords(editorText: string, keywords: seq<string>, helperWords: seq<string>)
      returns (suggestions: seq<string>)
      modifies this
      ensures interfaceWords == helperWords && currentTypedWord == old(currentTypedWord)
      ensures Ranking.IsTopSuggestions(currentTypedWord,
        Ranking.Frequencies(Tokenizer.Words(Tokenizer.LoadedText(editorText, keywords, helperWords))),
        suggestions)
    {
      interfaceWords := helperWords;
      var words := Tokenizer.LoadWords(editorText, keywords, interfaceWords);
      var frequencies := Ranking.CalculateWordFrequencies(words);
      suggestions := Ranking.GetSuggestions(currentTypedWord, frequencies);
    }

    /** `CheckForAutoAddition`: after `begin`, `\nend;` goes in at the cursor, which stays put. */
    method CheckForAutoAddition(predictedWord: string, e: Editor) returns (r: Editor)
      requires ValidEditor(e)
      ensures ValidEditor(r) && r.cursor == e.cursor
      ensures predictedWord == "begin" ==> r.text == e.text[..e.cursor] + "\nend;" + e.text[e.cursor..]
      ensures predictedWord != "begin" ==> r == e
    {
      if predictedWord == "begin" {
        var cursorPos := e.cursor;
        var text := e.text[..cursorPos] + "\nend;" + e.text[cursorPos..];
        r := Editor(text, cursorPos);
      } else {
        r := e;
      }
    }

    /**
     * `ApplyPredictedWord`: the word before the cursor is selected, deleted
     * and replaced by `predictedWord`; the cursor is put one column past the
     * inserted word, then `CheckForAutoAddition` runs.
     */
    method ApplyPredictedWord(predictedWord: string, e: Editor) returns (r: Editor)
      requires ValidEditor(e)
      modifies this
      ensures interfaceWords == old(interfaceWords)
      ensures currentTypedWord == TypedWord(CurrentLine(e), Column(e))
      ensures ValidEditor(r)
      ensures Replaced(predictedWord, e, currentTypedWord, r)
    {
      var line := CurrentLine(e);
      var cursorColumn := Column(e);
      var lineStart := LineStart(e.text, e.cursor);
      CursorOnLine(e);
      var typed := GetCurrentTypedWord(line, cursorColumn);
      currentTypedWord := typed;
      var startColumn := WordStart(line, cursorColumn);
      // SetSelection from the word start to the cursor, then Delete.
      var at := lineStart + startColumn;
      var deleted := e.text[..at] + e.text[SelectionEnd(e.text, at, e.cursor)..];
      // InsertText at the cursor, which Delete left at the word start.
      var text := deleted[..at] + predictedWord + deleted[at..];
      // SetCursorPosition on the same line, one column past the word.
      var cursor := PlaceCursor(text, lineStart, startColumn + |predictedWord| + 1);
      r := CheckForAutoAddition(predictedWord, Editor(text, cursor));
      ReplacedByLayout(predictedWord, e, typed, startColumn, r);
    }
  }

  /** The cursor's column lies on its line, and the line lies in the text. */
  lemma CursorOnLine(e: Editor)
    requires ValidEditor(e)
    ensures LineStart(e.text, e.cursor) + Column(e) == e.cursor
    ensures Column(e) <= |CurrentLine(e)|
    ensures LineStart(e.text, e.cursor) + |CurrentLine(e)| <= |e.text|
  {
  }

  /**
   * What `ApplyPredictedWord` leaves behind, given the typed word `typed`
   * before the cursor: `typed` replaced by `w` (when `typed` is empty, the
   * character after the cursor goes too, as `Delete` does with nothing
   * selected), the cursor one column past `w` (clamped to the line), and
   * `\nend;` inserted there after `begin`.
   */
  ghost predicate Replaced(w: string, e: Editor, typed: string, r: Editor)
    requires ValidEditor(e)
  {
    var start := e.cursor - |typed|;
    var lineStart := LineStart(e.text, e.cursor);
    && lineStart <= start
    && var replaced := e.text[..start] + w + e.text[SelectionEnd(e.text, start, e.cursor)..];
    && r.cursor == PlaceCursor(replaced, lineStart, start - lineStart + |w| + 1)
    && (w == "begin" ==> r.text == replaced[..r.cursor] + "\nend;" + replaced[r.cursor..])
    && (w != "begin" ==> r.text == replaced)
  }

  /** The steps of `ApplyPredictedWord`, from the word's start column on the line to the final editor. */
  lemma ReplacedByLayout(w: string, e: Editor, typed: string, startColumn: int, r: Editor)
    requires ValidEditor(e)
    requires 0 <= startColumn <= Column(e) <= |CurrentLine(e)|
    requires CurrentLine(e)[startColumn..Column(e)] == typed
    requires
      var lineStart := LineStart(e.text, e.cursor);
      var at := lineStart + startColumn;
      var deleted := e.text[..at] + e.text[SelectionEnd(e.text, at, e.cursor)..];
      var text := deleted[..at] + w + deleted[at..];
      var cursor := PlaceCursor(text, lineStart, startColumn + |w| + 1);
      && r.cursor == cursor
      && (w == "begin" ==> r.text == text[..cursor] + "\nend;" + text[cursor..])
      && (w != "begin" ==> r.text == text)
    ensures Replaced(w, e, typed, r)
  {
    CursorOnLine(e);
    var lineStart := LineStart(e.text, e.cursor);
    var at := lineStart + startColumn;
    assert |typed| == Column(e) - startColumn;
    assert at == e.cursor - |typed|;
    var end := SelectionEnd(e.text, at, e.cursor);
    DeleteThenInsert(e.text, at, end, w);
    var deleted := e.text[..at] + e.text[end..];
    assert deleted[..at] + w + deleted[at..] == e.text[..e.cursor - |typed|] + w + e.text[end..];
  }
}
