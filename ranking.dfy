/**
 * `CalculateWordFrequencies` and `GetSuggestions` of
 * AutoCompletionPrediction.cpp: counting the loaded words, and ranking the
 * counted words against the word being typed.
 */
module Ranking {
  import opened Wrappers
  import opened Text
  import EditDistance

  /** Reference definition: the counts after adding the words one at a time. */
  function Frequencies(words: seq<string>): map<string, int>
    decreases |words|
  {
    if words == [] then map[]
    else
      var m := Frequencies(words[..|words| - 1]);
      var w := words[|words| - 1];
      m[w := (if w in m then m[w] else 0) + 1]
  }

  /** Each distinct word is a key, counting its occurrences; nothing else is a key. */
  lemma {:induction false} FrequenciesCount(words: seq<string>)
    ensures forall w :: w in Frequencies(words) <==> w in words
    ensures forall w :: w in Frequencies(words) ==>
      Frequencies(words)[w] == multiset(words)[w] && Frequencies(words)[w] >= 1
    decreases |words|
  {
    if words != [] {
      var init, w := words[..|words| - 1], words[|words| - 1];
      assert words == init + [w];
      FrequenciesCount(init);
    }
  }

  /** `CalculateWordFrequencies`: `++wordFrequencies[word]` for each word. */
  method CalculateWordFrequencies(words: seq<string>) returns (m: map<string, int>)
    ensures m == Frequencies(words)
  {
    m := map[];
    for i := 0 to |words|
      invariant m == Frequencies(words[..i])
    {
      FrequenciesStep(words, i);
      var w := words[i];
      m := m[w := (if w in m then m[w] else 0) + 1];
    }
    assert words[..|words|] == words;
  }

  lemma FrequenciesStep(words: seq<string>, i: nat)
    requires i < |words|
    ensures var m := Frequencies(words[..i]);
      Frequencies(words[..i + 1]) == m[words[i] := (if words[i] in m then m[words[i]] else 0) + 1]
  {
    assert words[..i + 1][..i] == words[..i];
  }

  /** Sum of the values of a map. */
  ghost function Total(m: map<string, int>): int
    decreases m.Keys
  {
    if m == map[] then 0
    else
      var k :| k in m;
      m[k] + Total(m - {k})
  }

  lemma {:induction false} TotalRemove(m: map<string, int>, k: string)
    requires k in m
    ensures Total(m) == m[k] + Total(m - {k})
    decreases m.Keys
  {
    var j :| j in m && Total(m) == m[j] + Total(m - {j});
    if j != k {
      var mj, mk := m - {j}, m - {k};
      TotalRemove(mj, k);
      TotalRemove(mk, j);
      assert mj - {k} == mk - {j};
    }
  }

  /** The counts add up to the number of words. */
  lemma {:induction false} FrequenciesTotal(words: seq<string>)
    ensures Total(Frequencies(words)) == |words|
    decreases |words|
  {
    if words != [] {
      var init, w := words[..|words| - 1], words[|words| - 1];
      var m := Frequencies(init);
      var m' := Frequencies(words);
      FrequenciesTotal(init);
      TotalRemove(m', w);
      assert m' - {w} == m - {w};
      if w in m {
        TotalRemove(m, w);
      } else {
        assert m - {w} == m;
      }
    }
  }

  /** One entry of `matchingWords`, with the frequency the comparator looks up by word. */
  datatype Candidate = Candidate(word: string, distance: int, isPrefixMatch: bool, frequency: int)

  /** The comparator given to `std::sort`: prefix matches, then closer, then more frequent. */
  predicate Less(x: Candidate, y: Candidate)
  {
    if x.isPrefixMatch != y.isPrefixMatch then x.isPrefixMatch
    else if x.distance != y.distance then x.distance < y.distance
    else x.frequency > y.frequency
  }

  /** `Less` is a strict weak order: asymmetric, and "not after" is transitive. */
  lemma LessOrder(x: Candidate, y: Candidate, z: Candidate)
    ensures Less(x, y) ==> !Less(y, x)
    ensures !Less(y, x) && !Less(z, y) ==> !Less(z, x)
  {
  }

  /** What "`y` is not ranked before `x`" means, priority by priority. */
  lemma NotBefore(x: Candidate, y: Candidate)
    requires !Less(y, x)
    ensures y.isPrefixMatch ==> x.isPrefixMatch
    ensures x.isPrefixMatch == y.isPrefixMatch ==> x.distance <= y.distance
    ensures x.isPrefixMatch == y.isPrefixMatch && x.distance == y.distance ==> x.frequency >= y.frequency
  {
  }

  /** No element is ranked strictly before an earlier one. */
  predicate Sorted(s: seq<Candidate>)
  {
    forall i, j :: 0 <= i < j < |s| ==> !Less(s[j], s[i])
  }

  /** Putting in front of a sorted list an element no entry ranks before keeps it sorted. */
  lemma SortedCons(x: Candidate, s: seq<Candidate>)
    requires Sorted(s)
    requires forall j :: 0 <= j < |s| ==> !Less(s[j], x)
    ensures Sorted([x] + s)
  {
    var r := [x] + s;
    assert forall i :: 0 < i < |r| ==> r[i] == s[i - 1];
  }

  /** An element the head of a sorted list does not rank before is not ranked after by any entry. */
  lemma BeforeAll(x: Candidate, s: seq<Candidate>)
    requires Sorted(s) && s != [] && !Less(s[0], x)
    ensures forall j :: 0 <= j < |s| ==> !Less(s[j], x)
  {
    forall j | 0 <= j < |s|
      ensures !Less(s[j], x)
    {
      LessOrder(x, s[0], s[j]);
    }
  }

  /** Nothing in the tail, nor the inserted element, ranks before the head it follows. */
  lemma AfterHead(x: Candidate, s: seq<Candidate>, t: seq<Candidate>)
    requires Sorted(s) && s != [] && Less(s[0], x)
    requires multiset(t) == multiset(s[1..]) + multiset{x}
    ensures forall j :: 0 <= j < |t| ==> !Less(t[j], s[0])
  {
    forall j | 0 <= j < |t|
      ensures !Less(t[j], s[0])
    {
      assert t[j] in multiset(t);
      if t[j] != x {
        assert t[j] in s[1..];
      } else {
        LessOrder(s[0], x, x);
      }
    }
  }

  function Insert(x: Candidate, s: seq<Candidate>): (r: seq<Candidate>)
    requires Sorted(s)
    ensures Sorted(r)
    ensures multiset(r) == multiset(s) + multiset{x}
  {
    if s == [] then [x]
    else if !Less(s[0], x) then
      BeforeAll(x, s);
      SortedCons(x, s);
      [x] + s
    else
      var t := Insert(x, s[1..]);
      AfterHead(x, s, t);
      SortedCons(s[0], t);
      assert s == [s[0]] + s[1..];
      [s[0]] + t
  }

  /** Sorting by `Less` (`std::sort`, which promises exactly this: sorted and a permutation). */
  function Sort(s: seq<Candidate>): (r: seq<Candidate>)
    ensures Sorted(r)
    ensures multiset(r) == multiset(s)
  {
    if s == [] then []
    else
      assert s == [s[0]] + s[1..];
      Insert(s[0], Sort(s[1..]))
  }

  /** `word.find(inputText) == 0`. */
  predicate IsPrefix(p: string, w: string)
  {
    |p| <= |w| && w[..|p|] == p
  }

  /** The entry `GetSuggestions` makes for word `w`. */
  function Score(inputText: string, freq: map<string, int>, w: string): Candidate
    requires w in freq
  {
    Candidate(w, EditDistance.Distance(inputText, w), IsPrefix(inputText, w), freq[w])
  }

  /** `cs` holds one scored entry for each word of `freq` except `inputText`, and nothing else. */
  ghost predicate Collected(inputText: string, freq: map<string, int>, cs: seq<Candidate>)
  {
    && (forall i :: 0 <= i < |cs| ==>
          cs[i].word in freq && cs[i].word != inputText && cs[i] == Score(inputText, freq, cs[i].word))
    && (forall i, j :: 0 <= i < j < |cs| ==> cs[i].word != cs[j].word)
    && (forall w :: w in freq && w != inputText ==> Score(inputText, freq, w) in cs)
  }

  lemma CountTwo(s: seq<Candidate>, i: nat, j: nat)
    requires i < j < |s| && s[i] == s[j]
    ensures multiset(s)[s[i]] >= 2
  {
    var x := s[i];
    assert s == s[..i] + [x] + s[i + 1..j] + [x] + s[j + 1..];
  }

  lemma {:induction false} CountOne(s: seq<Candidate>)
    requires forall i, j :: 0 <= i < j < |s| ==> s[i] != s[j]
    ensures forall x :: multiset(s)[x] <= 1
  {
    if s != [] {
      var init, last := s[..|s| - 1], s[|s| - 1];
      CountOne(init);
      assert s == init + [last];
      assert last !in init;
    }
  }

  /** Reordering a collection keeps it a collection of the same size. */
  lemma CollectedPermutation(inputText: string, freq: map<string, int>, s: seq<Candidate>, t: seq<Candidate>)
    requires Collected(inputText, freq, s)
    requires multiset(s) == multiset(t)
    ensures Collected(inputText, freq, t)
    ensures |t| == |s|
  {
    assert |multiset(t)| == |t| && |multiset(s)| == |s|;
    forall i | 0 <= i < |t|
      ensures t[i].word in freq && t[i].word != inputText && t[i] == Score(inputText, freq, t[i].word)
    {
      assert t[i] in multiset(s);
      var j :| 0 <= j < |s| && s[j] == t[i];
    }
    forall i, j | 0 <= i < j < |t|
      ensures t[i].word != t[j].word
    {
      if t[i].word == t[j].word {
        CountTwo(t, i, j);
        CountOne(s);
        assert false;
      }
    }
    forall w | w in freq && w != inputText
      ensures Score(inputText, freq, w) in t
    {
      assert Score(inputText, freq, w) in multiset(s);
    }
  }

  /** The first `n` entries of a sorted collection are the best `n` words. */
  lemma TopOfSorted(inputText: string, freq: map<string, int>, s: seq<Candidate>, top: seq<string>)
    requires Collected(inputText, freq, s) && Sorted(s)
    requires |top| <= |s|
    requires forall k :: 0 <= k < |top| ==> top[k] == s[k].word
    ensures forall k :: 0 <= k < |top| ==> top[k] in freq && top[k] != inputText
    ensures forall k, l :: 0 <= k < l < |top| ==> top[k] != top[l]
    ensures forall k, l :: 0 <= k < l < |top| ==>
      !Less(Score(inputText, freq, top[l]), Score(inputText, freq, top[k]))
    ensures forall w, k :: w in freq && w != inputText && w !in top && 0 <= k < |top| ==>
      !Less(Score(inputText, freq, w), Score(inputText, freq, top[k]))
  {
    forall w, k | w in freq && w != inputText && w !in top && 0 <= k < |top|
      ensures !Less(Score(inputText, freq, w), Score(inputText, freq, top[k]))
    {
      var l :| 0 <= l < |s| && s[l] == Score(inputText, freq, w);
      assert |top| <= l;
    }
  }

  function Min(x: int, y: int): int { if x <= y then x else y }

  /** `cs` is collected from the words of `freq` no longer in `rest`. */
  ghost predicate CollectedSoFar(inputText: string, freq: map<string, int>, rest: set<string>, cs: seq<Candidate>)
  {
    && rest <= freq.Keys
    && (forall i :: 0 <= i < |cs| ==>
          cs[i].word in freq && cs[i].word !in rest && cs[i].word != inputText
          && cs[i] == Score(inputText, freq, cs[i].word))
    && (forall i, j :: 0 <= i < j < |cs| ==> cs[i].word != cs[j].word)
    && (forall w :: w in freq && w !in rest && w != inputText ==> Score(inputText, freq, w) in cs)
    && |cs| == |freq.Keys - rest - {inputText}|
  }

  /** One round of the first loop of `GetSuggestions` keeps `CollectedSoFar`. */
  lemma CollectStep(inputText: string, freq: map<string, int>, rest: set<string>, cs: seq<Candidate>, word: string)
    requires CollectedSoFar(inputText, freq, rest, cs) && word in rest
    ensures word != inputText ==>
      CollectedSoFar(inputText, freq, rest - {word}, cs + [Score(inputText, freq, word)])
    ensures word == inputText ==> CollectedSoFar(inputText, freq, rest - {word}, cs)
  {
    if word != inputText {
      CollectAdd(inputText, freq, rest, cs, word);
    } else {
      assert freq.Keys - (rest - {word}) - {inputText} == freq.Keys - rest - {inputText};
    }
  }

  /** Taking a word other than `inputText` out of `rest` adds exactly that word to the words seen. */
  lemma SeenGrows(inputText: string, freq: map<string, int>, rest: set<string>, word: string)
    requires rest <= freq.Keys && word in rest && word != inputText
    ensures |freq.Keys - (rest - {word}) - {inputText}| == |freq.Keys - rest - {inputText}| + 1
  {
    var seen := freq.Keys - rest - {inputText};
    assert freq.Keys - (rest - {word}) - {inputText} == seen + {word};
    assert word !in seen;
  }

  /** Scoring a word still in `rest` and appending it keeps `CollectedSoFar`. */
  lemma CollectAdd(inputText: string, freq: map<string, int>, rest: set<string>, cs: seq<Candidate>, word: string)
    requires CollectedSoFar(inputText, freq, rest, cs) && word in rest && word != inputText
    ensures CollectedSoFar(inputText, freq, rest - {word}, cs + [Score(inputText, freq, word)])
  {
    AddScored(inputText, freq, rest, cs, word);
    AddDistinct(inputText, freq, rest, cs, word);
    AddCovers(inputText, freq, rest, cs, word);
    SeenGrows(inputText, freq, rest, word);
  }

  lemma AddScored(inputText: string, freq: map<string, int>, rest: set<string>, cs: seq<Candidate>, word: string)
    requires CollectedSoFar(inputText, freq, rest, cs) && word in rest && word != inputText
    ensures var cs' := cs + [Score(inputText, freq, word)];
      forall i :: 0 <= i < |cs'| ==>
        cs'[i].word in freq && cs'[i].word !in rest - {word} && cs'[i].word != inputText
        && cs'[i] == Score(inputText, freq, cs'[i].word)
  {
    var cs' := cs + [Score(inputText, freq, word)];
    assert forall i :: 0 <= i < |cs| ==> cs'[i] == cs[i];
  }

  lemma AddDistinct(inputText: string, freq: map<string, int>, rest: set<string>, cs: seq<Candidate>, word: string)
    requires CollectedSoFar(inputText, freq, rest, cs) && word in rest && word != inputText
    ensures var cs' := cs + [Score(inputText, freq, word)];
      forall i, j :: 0 <= i < j < |cs'| ==> cs'[i].word != cs'[j].word
  {
    var cs' := cs + [Score(inputText, freq, word)];
    assert forall i :: 0 <= i < |cs| ==> cs'[i] == cs[i];
    assert cs'[|cs|].word == word;
  }

  lemma AddCovers(inputText: string, freq: map<string, int>, rest: set<string>, cs: seq<Candidate>, word: string)
    requires CollectedSoFar(inputText, freq, rest, cs) && word in rest && word != inputText
    ensures var cs' := cs + [Score(inputText, freq, word)];
      forall w :: w in freq && w !in rest - {word} && w != inputText ==> Score(inputText, freq, w) in cs'
  {
    var cs' := cs + [Score(inputText, freq, word)];
    assert cs'[|cs|] == Score(inputText, freq, word);
    forall w | w in freq && w !in rest - {word} && w != inputText
      ensures Score(inputText, freq, w) in cs'
    {
      if w != word {
        assert Score(inputText, freq, w) in cs;
      }
    }
  }

  /** The first loop of `GetSuggestions`: one scored entry per word other than `inputText`. */
  method CollectMatches(inputText: string, freq: map<string, int>) returns (matching: seq<Candidate>)
    ensures Collected(inputText, freq, matching)
    ensures |matching| == |freq.Keys - {inputText}|
  {
    matching := [];
    var rest := freq.Keys;
    while rest != {}
      invariant CollectedSoFar(inputText, freq, rest, matching)
      decreases rest
    {
      var word :| word in rest;
      CollectStep(inputText, freq, rest, matching, word);
      rest := rest - {word};
      if word != inputText {
        var distance := EditDistance.LevenshteinDistance(inputText, word);
        var found := Find(word, inputText, 0);
        FindAtZero(word, inputText);
        matching := matching + [Candidate(word, distance, found == Some(0), freq[word])];
      }
    }
    assert freq.Keys - rest == freq.Keys;
  }

  /** The last loop of `GetSuggestions`: the words of the first `n` entries. */
  method FirstWords(sorted: seq<Candidate>, n: nat) returns (top: seq<string>)
    requires n <= |sorted|
    ensures |top| == n
    ensures forall k :: 0 <= k < n ==> top[k] == sorted[k].word
  {
    top := [];
    for i := 0 to n
      invariant |top| == i
      invariant forall k :: 0 <= k < i ==> top[k] == sorted[k].word
    {
      top := top + [sorted[i].word];
    }
  }

  /**
   * `top` is a best-first list of the (at most ten) best words of `freq`
   * other than `inputText`: no repeats, ranked by `Less`, and no word left
   * out ranks before any word taken.
   */
  ghost predicate IsTopSuggestions(inputText: string, freq: map<string, int>, top: seq<string>)
  {
    && |top| == Min(10, |freq.Keys - {inputText}|)
    && (forall k :: 0 <= k < |top| ==> top[k] in freq && top[k] != inputText)
    && (forall k, l :: 0 <= k < l < |top| ==> top[k] != top[l])
    && (forall k, l :: 0 <= k < l < |top| ==>
          !Less(Score(inputText, freq, top[l]), Score(inputText, freq, top[k])))
    && (forall w, k :: w in freq && w != inputText && w !in top && 0 <= k < |top| ==>
          !Less(Score(inputText, freq, w), Score(inputText, freq, top[k])))
  }

  /**
   * `GetSuggestions`: every word of `freq` other than `inputText`, ranked by
   * `Less`, cut to the first ten. The map is visited in an unspecified order.
   */
  method GetSuggestions(inputText: string, freq: map<string, int>) returns (top: seq<string>)
    ensures IsTopSuggestions(inputText, freq, top)
  {
    var matching := CollectMatches(inputText, freq);
    var sorted := Sort(matching);
    CollectedPermutation(inputText, freq, matching, sorted);
    top := FirstWords(sorted, Min(10, |sorted|));
    TopOfSorted(inputText, freq, sorted, top);
  }
}
