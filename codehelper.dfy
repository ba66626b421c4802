/**
 * The logic of CodeHelperInterface.cpp that does not talk to the helper
 * process: `toUri`, and what `PredictWords` does to `results` on each of
 * its paths. `ReplacePlaceholder`, identical in this file, is
 * `Placeholder.ReplacePlaceholder`.
 */
module CodeHelper {
  import opened Wrappers
  import opened Text
  import StringHelper

  /** `std::replace(begin, end, from, to)` over a whole string. */
  function ReplaceChar(s: string, from: char, to: char): (r: string)
    ensures |r| == |s|
    ensures forall i :: 0 <= i < |s| ==> r[i] == (if s[i] == from then to else s[i])
  {
    if s == [] then [] else [if s[0] == from then to else s[0]] + ReplaceChar(s[1..], from, to)
  }

  /** `toUri`: `file:///` followed by the path with every `\` turned into `/`. */
  function ToUri(filePath: string): (uri: string)
    ensures |uri| == 8 + |filePath| && uri[..8] == "file:///"
    ensures '\\' !in uri
    ensures forall i :: 0 <= i < |filePath| ==>
      uri[8 + i] == (if filePath[i] == '\\' then '/' else filePath[i])
  {
    var uri := ReplaceChar("file:///" + filePath, '\\', '/');
    assert forall i :: 0 <= i < |filePath| ==> ("file:///" + filePath)[8 + i] == filePath[i];
    assert forall c :: c in uri ==> exists i :: 0 <= i < |uri| && uri[i] == c;
    uri
  }

  /** A path already written with forward slashes only gains the scheme. */
  lemma ToUriGeneric(filePath: string)
    requires '\\' !in filePath
    ensures ToUri(filePath) == "file:///" + filePath
  {
    var uri := ToUri(filePath);
    assert uri[8..] == filePath;
    assert uri == uri[..8] + uri[8..];
  }

  /** Two paths give the same URI exactly when they agree once `\` is read as `/`. */
  lemma ToUriSeparatorsOnly(p: string, q: string)
    ensures ToUri(p) == ToUri(q) <==> ReplaceChar(p, '\\', '/') == ReplaceChar(q, '\\', '/')
  {
    var up, uq := ToUri(p), ToUri(q);
    var np, nq := ReplaceChar(p, '\\', '/'), ReplaceChar(q, '\\', '/');
    assert up[8..] == np;
    assert uq[8..] == nq;
    if np == nq {
      assert up == up[..8] + up[8..];
      assert uq == uq[..8] + uq[8..];
    }
  }

  /**
   * How a call to `PredictWords` ends. The last two are exceptions nothing
   * catches; `results` is then what it was when the exception was thrown.
   */
  datatype PredictOutcome =
    | UriEmpty          // the temp-file URI was empty or " ": returned at once
    | HelperNotStarted  // `CreateProcessA` failed: returned
    | Completed         // the reply was read (possibly empty) and parsed
    | NoJsonObject      // no `{` in the reply: `substr(npos)` throws, uncaught, ending the program
    | ParseError        // the JSON library throws, uncaught, ending the program

  /**
   * How one `PredictWords` call with URI `uri` ends and what it leaves in
   * `results` (`before` on entry, `after` on return).
   */
  ghost predicate Predicted(uri: string, before: seq<string>, helperStarted: bool, output: string,
                            parse: string -> Option<seq<string>>, outcome: PredictOutcome, after: seq<string>)
  {
    var json := StringHelper.Sanitized(output);
    if uri == "" || uri == " " then outcome == UriEmpty && after == before
    else if !helperStarted then outcome == HelperNotStarted && after == before
    else if output == "" then outcome == Completed && after == []
    else if Find(json, "{", 0).None? then outcome == NoJsonObject && after == []
    else
      var parsed := parse(json[Find(json, "{", 0).value..]);
      if parsed.None? then outcome == ParseError && after == []
      else outcome == Completed && after == parsed.value
  }

  /** A call's outcome and new results are determined by the URI, the old results and the helper's reply. */
  lemma PredictedDetermined(uri: string, before: seq<string>, helperStarted: bool, output: string,
                            parse: string -> Option<seq<string>>,
                            o1: PredictOutcome, r1: seq<string>, o2: PredictOutcome, r2: seq<string>)
    requires Predicted(uri, before, helperStarted, output, parse, o1, r1)
    requires Predicted(uri, before, helperStarted, output, parse, o2, r2)
    ensures o1 == o2 && r1 == r2
  {
  }

  /** Results survive exactly the calls that end before the helper is asked; the others clear or replace them. */
  lemma PredictedKeepsResults(uri: string, before: seq<string>, helperStarted: bool, output: string,
                              parse: string -> Option<seq<string>>, outcome: PredictOutcome, after: seq<string>)
    requires Predicted(uri, before, helperStarted, output, parse, outcome, after)
    ensures outcome == UriEmpty || outcome == HelperNotStarted <==> uri == "" || uri == " " || !helperStarted
    ensures outcome == UriEmpty || outcome == HelperNotStarted ==> after == before
    ensures outcome == NoJsonObject || outcome == ParseError ==> after == []
  {
  }

  class CodeHelperInterface {
    /** `results`: the completions of the last successful request. */
    var results: seq<string>
    /** `m_tmpFilePathUri`. */
    var tmpFileUri: string
    /** `m_tmpFileSaved`. */
    var tmpFileSaved: bool

    /** `genericTmpPath` is the temp file's path as `generic_string` writes it. */
    constructor (genericTmpPath: string)
      ensures results == [] && tmpFileSaved
      ensures tmpFileUri == "file:///" + genericTmpPath
    {
      results := [];
      tmpFileUri := "file:///" + genericTmpPath;
      tmpFileSaved := true;
    }

    /**
     * `PredictWords`. Whether the helper started, what it wrote and what the
     * JSON library makes of the reply (the `result` of every completion, or
     * `None` where it throws) arrive as parameters.
     */
    method PredictWords(helperStarted: bool, output: string, parse: string -> Option<seq<string>>)
      returns (outcome: PredictOutcome)
      modifies this
      ensures tmpFileUri == old(tmpFileUri) && tmpFileSaved == old(tmpFileSaved)
      ensures Predicted(tmpFileUri, old(results), helperStarted, output, parse, outcome, results)
    {
      if tmpFileUri == "" || tmpFileUri == " " {
        return UriEmpty;
      }
      if !helperStarted {
        return HelperNotStarted;
      }
      results := [];
      outcome := Completed;
      if output != "" {
        var json := StringHelper.SanitizeStringLiteral(output);
        var jsonStart := Find(json, "{", 0);
        if jsonStart.None? {
          return NoJsonObject;
        }
        var parsed := parse(json[jsonStart.value..]);
        if parsed.None? {
          return ParseError;
        }
        results := parsed.value;
      }
    }

    /**
     * `UpdateLastInput`: `SaveTmpFile` marks the file as saved and reports
     * whether it could be opened; only then is a prediction requested.
     */
    method UpdateLastInput(saved: bool, helperStarted: bool, output: string, parse: string -> Option<seq<string>>)
      returns (outcome: Option<PredictOutcome>)
      modifies this
      ensures tmpFileSaved && tmpFileUri == old(tmpFileUri)
      ensures !saved ==> outcome == None && results == old(results)
      ensures saved ==> outcome.Some? && Predicted(tmpFileUri, old(results), helperStarted, output, parse, outcome.value, results)
    {
      tmpFileSaved := true;
      if saved {
        var o := PredictWords(helperStarted, output, parse);
        outcome := Some(o);
      } else {
        outcome := None;
      }
    }

    /** `GetResults`. */
    method GetResults() returns (r: seq<string>)
      ensures r == results
    {
      r := results;
    }
  }
}
