/**
 * `LoadWords` of AutoCompletionPrediction.cpp: the editor text, followed by
 * the language's keywords and the code helper's words, cut into maximal runs
 * of word characters.
 */
module Tokenizer {

  /** `std::isalnum(ch) || ch == '_'` in the "C" locale. */
  predicate IsWordChar(c: char) {
    ('a' <= c <= 'z') || ('A' <= c <= 'Z') || ('0' <= c <= '9') || c == '_'
  }

  /** A non-empty string of word characters only. */
  predicate IsWord(w: string) {
    w != [] && forall i :: 0 <= i < |w| ==> IsWordChar(w[i])
  }

  /** Length of the run of word characters that starts `s`. */
  function RunLength(s: string): (n: nat)
    ensures n <= |s|
    ensures forall i :: 0 <= i < n ==> IsWordChar(s[i])
    ensures n < |s| ==> !IsWordChar(s[n])
  {
    if s == [] || !IsWordChar(s[0]) then 0 else 1 + RunLength(s[1..])
  }

  /** Reference definition: the maximal runs of word characters of `s`, left to right. */
  function Words(s: string): (ws: seq<string>)
    ensures forall k :: 0 <= k < |ws| ==> IsWord(ws[k])
    decreases |s|
  {
    if s == [] then []
    else if !IsWordChar(s[0]) then Words(s[1..])
    else
      var n := RunLength(s);
      [s[..n]] + Words(s[n..])
  }

  /** The words still to come when `word` has been read and `rest` has not. */
  function Pending(word: string, rest: string): seq<string>
  {
    if word == [] then Words(rest)
    else
      var n := RunLength(rest);
      [word + rest[..n]] + Words(rest[n..])
  }

  lemma PendingStep(word: string, rest: string)
    requires rest != []
    ensures IsWordChar(rest[0]) ==> Pending(word, rest) == Pending(word + [rest[0]], rest[1..])
    ensures !IsWordChar(rest[0]) ==>
      Pending(word, rest) == (if word == [] then [] else [word]) + Pending([], rest[1..])
  {
    var c := rest[0];
    var n := RunLength(rest);
    if IsWordChar(c) {
      var m := RunLength(rest[1..]);
      assert n == 1 + m;
      assert [c] + rest[1..][..m] == rest[..n];
      assert rest[1..][m..] == rest[n..];
      assert Pending(word + [c], rest[1..]) == [word + [c] + rest[1..][..m]] + Words(rest[n..]);
      if word == [] {
        assert Pending(word, rest) == Words(rest) == [rest[..n]] + Words(rest[n..]);
        assert word + [c] + rest[1..][..m] == rest[..n];
      } else {
        assert word + [c] + rest[1..][..m] == word + rest[..n];
      }
    } else {
      assert n == 0;
      assert word + rest[..n] == word;
      assert rest[n..] == rest;
      assert Words(rest) == Words(rest[1..]);
    }
  }

  lemma PendingEnd(word: string)
    ensures Pending(word, []) == (if word == [] then [] else [word])
  {
    if word != [] {
      var e: string := [];
      assert RunLength(e) == 0;
      assert word + e[..0] == word;
      assert e[0..] == e;
    }
  }

  /** The character loop of `LoadWords`. */
  method SplitWords(text: string) returns (words: seq<string>)
    ensures words == Words(text)
  {
    words := [];
    var word := "";
    for i := 0 to |text|
      invariant words + Pending(word, text[i..]) == Words(text)
    {
      var ch := text[i];
      PendingStep(word, text[i..]);
      assert text[i..][1..] == text[i + 1..];
      if IsWordChar(ch) {
        word := word + [ch];
      } else if word != [] {
        words := words + [word];
        word := "";
      }
    }
    assert text[|text|..] == [];
    PendingEnd(word);
    if word != [] {
      words := words + [word];
    }
  }

  /** `" " + w` appended for each `w` of `ws` in turn. */
  function Joined(ws: seq<string>): string
  {
    if ws == [] then "" else Joined(ws[..|ws| - 1]) + " " + ws[|ws| - 1]
  }

  /** The code helper's words that are not keywords, in their order. */
  function Unlisted(helperWords: seq<string>, keywords: seq<string>): seq<string>
  {
    if helperWords == [] then []
    else
      var w := helperWords[|helperWords| - 1];
      Unlisted(helperWords[..|helperWords| - 1], keywords) + (if w in keywords then [] else [w])
  }

  /** Exactly the helper's words that are not keywords are kept. */
  lemma {:induction false} UnlistedMembers(helperWords: seq<string>, keywords: seq<string>)
    ensures forall k :: 0 <= k < |Unlisted(helperWords, keywords)| ==>
      Unlisted(helperWords, keywords)[k] in helperWords && Unlisted(helperWords, keywords)[k] !in keywords
    ensures forall k :: 0 <= k < |helperWords| && helperWords[k] !in keywords ==>
      helperWords[k] in Unlisted(helperWords, keywords)
    decreases |helperWords|
  {
    if helperWords != [] {
      var init := helperWords[..|helperWords| - 1];
      UnlistedMembers(init, keywords);
      assert helperWords == init + [helperWords[|helperWords| - 1]];
    }
  }

  /** The text `LoadWords` splits: the editor's, then the keywords, then the helper's other words. */
  function LoadedText(editorText: string, keywords: seq<string>, helperWords: seq<string>): string
  {
    editorText + Joined(keywords) + Joined(Unlisted(helperWords, keywords))
  }

  /**
   * `LoadWords`. `keywords` is the language definition's keyword set in the
   * order the set yields it; `helperWords` is `m_cInterfaceWords`.
   */
  method LoadWords(editorText: string, keywords: seq<string>, helperWords: seq<string>)
    returns (words: seq<string>)
    ensures words == Words(LoadedText(editorText, keywords, helperWords))
  {
    var text := editorText;
    for k := 0 to |keywords|
      invariant text == editorText + Joined(keywords[..k])
    {
      JoinedStep(editorText, keywords, k);
      text := text + (" " + keywords[k]);
    }
    assert keywords[..|keywords|] == keywords;
    ghost var prefix := text;
    for k := 0 to |helperWords|
      invariant text == prefix + Joined(Unlisted(helperWords[..k], keywords))
    {
      UnlistedStep(prefix, helperWords, keywords, k);
      if helperWords[k] !in keywords {
        text := text + (" " + helperWords[k]);
      }
    }
    assert helperWords[..|helperWords|] == helperWords;
    words := SplitWords(text);
  }

  lemma JoinedStep(a: string, ws: seq<string>, k: nat)
    requires k < |ws|
    ensures a + Joined(ws[..k + 1]) == a + Joined(ws[..k]) + (" " + ws[k])
  {
    assert ws[..k + 1][..k] == ws[..k];
    assert Joined(ws[..k + 1]) == Joined(ws[..k]) + " " + ws[k];
  }

  lemma UnlistedStep(a: string, helperWords: seq<string>, keywords: seq<string>, k: nat)
    requires k < |helperWords|
    ensures a + Joined(Unlisted(helperWords[..k + 1], keywords))
         == a + Joined(Unlisted(helperWords[..k], keywords))
            + (if helperWords[k] in keywords then "" else " " + helperWords[k])
  {
    var hs := helperWords[..k + 1];
    assert hs[..|hs| - 1] == helperWords[..k];
    var u := Unlisted(helperWords[..k], keywords);
    var w := helperWords[k];
    if w !in keywords {
      var v := u + [w];
      assert Unlisted(hs, keywords) == v;
      assert v[..|v| - 1] == u;
      assert Joined(v) == Joined(u) + " " + w;
      assert a + Joined(v) == a + Joined(u) + (" " + w);
    } else {
      assert Unlisted(hs, keywords) == u;
      assert Joined(u) + "" == Joined(u);
    }
  }

  lemma {:induction false} RunLengthSeparated(a: string, c: char, b: string)
    requires !IsWordChar(c)
    ensures RunLength(a + [c] + b) == RunLength(a)
    decreases |a|
  {
    var s := a + [c] + b;
    if a != [] && IsWordChar(a[0]) {
      assert s[1..] == a[1..] + [c] + b;
      RunLengthSeparated(a[1..], c, b);
    }
  }

  /** A non-word character splits the text: the words on each side are kept apart. */
  lemma {:induction false} WordsSeparated(a: string, c: char, b: string)
    requires !IsWordChar(c)
    ensures Words(a + [c] + b) == Words(a) + Words(b)
    decreases |a|
  {
    var s := a + [c] + b;
    if a == [] {
      assert s[1..] == b;
    } else if !IsWordChar(a[0]) {
      assert s[1..] == a[1..] + [c] + b;
      WordsSeparated(a[1..], c, b);
    } else {
      var n := RunLength(s);
      RunLengthSeparated(a, c, b);
      assert s[..n] == a[..n];
      assert s[n..] == a[n..] + [c] + b;
      WordsSeparated(a[n..], c, b);
    }
  }

  /** A word on its own is one token. */
  lemma WordsOfWord(w: string)
    requires IsWord(w)
    ensures Words(w) == [w]
  {
    var n := RunLength(w);
    assert n == |w|;
    assert w[..n] == w;
    assert w[n..] == [];
  }

  /** Words appended with a leading blank come out as tokens of their own, in order. */
  lemma {:induction false} WordsJoined(a: string, ws: seq<string>)
    requires forall k :: 0 <= k < |ws| ==> IsWord(ws[k])
    ensures Words(a + Joined(ws)) == Words(a) + ws
    decreases |ws|
  {
    if ws == [] {
      assert a + Joined(ws) == a;
    } else {
      var init, last := ws[..|ws| - 1], ws[|ws| - 1];
      assert a + Joined(ws) == (a + Joined(init)) + [' '] + last;
      WordsSeparated(a + Joined(init), ' ', last);
      WordsJoined(a, init);
      WordsOfWord(last);
      assert init + [last] == ws;
    }
  }

  /**
   * When every keyword and helper word is itself a word, `LoadWords` yields
   * the editor's words, then the keywords, then the helper's non-keywords.
   */
  lemma LoadWordsOfWords(editorText: string, keywords: seq<string>, helperWords: seq<string>)
    requires forall k :: 0 <= k < |keywords| ==> IsWord(keywords[k])
    requires forall k :: 0 <= k < |helperWords| ==> IsWord(helperWords[k])
    ensures Words(LoadedText(editorText, keywords, helperWords))
         == Words(editorText) + keywords + Unlisted(helperWords, keywords)
  {
    var u := Unlisted(helperWords, keywords);
    UnlistedMembers(helperWords, keywords);
    forall k | 0 <= k < |u|
      ensures IsWord(u[k])
    {
      assert u[k] in helperWords;
    }
    WordsJoined(editorText, keywords);
    WordsJoined(editorText + Joined(keywords), u);
  }

  /** The word characters of `s`, in order. */
  function WordChars(s: string): (r: string)
    ensures forall i :: 0 <= i < |r| ==> IsWordChar(r[i])
  {
    if s == [] then []
    else (if IsWordChar(s[0]) then [s[0]] else []) + WordChars(s[1..])
  }

  /** Concatenation of a sequence of strings. */
  function Concat(ws: seq<string>): string
  {
    if ws == [] then [] else ws[0] + Concat(ws[1..])
  }

  lemma {:induction false} WordCharsAppend(a: string, b: string)
    ensures WordChars(a + b) == WordChars(a) + WordChars(b)
    decreases |a|
  {
    if a != [] {
      assert (a + b)[1..] == a[1..] + b;
      WordCharsAppend(a[1..], b);
    } else {
      assert a + b == b;
    }
  }

  lemma {:induction false} WordCharsOfRun(s: string)
    requires forall i :: 0 <= i < |s| ==> IsWordChar(s[i])
    ensures WordChars(s) == s
    decreases |s|
  {
    if s != [] {
      WordCharsOfRun(s[1..]);
      assert [s[0]] + s[1..] == s;
    }
  }

  /** The tokens, read together, are exactly the word characters of the text: nothing is lost or added. */
  lemma {:induction false} WordsCoverWordChars(s: string)
    ensures Concat(Words(s)) == WordChars(s)
    decreases |s|
  {
    if s == [] {
    } else if !IsWordChar(s[0]) {
      WordsCoverWordChars(s[1..]);
    } else {
      var n := RunLength(s);
      var ws := Words(s);
      assert ws == [s[..n]] + Words(s[n..]);
      assert ws[1..] == Words(s[n..]);
      WordsCoverWordChars(s[n..]);
      WordCharsAppend(s[..n], s[n..]);
      WordCharsOfRun(s[..n]);
      assert s[..n] + s[n..] == s;
    }
  }
}
