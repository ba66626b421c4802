/**
 * The text logic of PascalCompiler.cpp: recognising compiler error lines,
 * deriving the executable's path from the source path, and the compiler's
 * list of captured output lines.
 */
module PascalCompiler {
  import opened Wrappers
  import opened Text

  /** `s.find(p, pos)` where `pos` may itself be `npos`: searching from `npos` finds nothing. */
  function FindAfter(s: string, p: string, pos: Option<nat>): Option<nat> {
    match pos
    case None => None
    case Some(i) => Find(s, p, i)
  }

  /** Format 1, `file(line,col) Type: Message`: a `(`, then a `)`, then a `:`. */
  predicate FileLineColumnFormat(line: string) {
    var parenStart := Find(line, "(", 0);
    var parenEnd := FindAfter(line, ")", parenStart);
    var colon := FindAfter(line, ":", parenEnd);
    parenStart.Some? && parenEnd.Some? && colon.Some?
  }

  /** Format 2, `file.pas(line) Type: Message`, searched from the first `.pas(`. */
  predicate FileLineFormat(line: string) {
    var dot := Find(line, ".pas(", 0);
    dot.Some? &&
      var paren := Find(line, "(", dot.value);
      var endParen := FindAfter(line, ")", paren);
      var colon := FindAfter(line, ":", endParen);
      paren.Some? && endParen.Some? && colon.Some?
  }

  /** Format 3, a global message: the line starts with `Fatal:` or `Error:`. */
  predicate GlobalFormat(line: string) {
    Find(line, "Fatal:", 0) == Some(0) || Find(line, "Error:", 0) == Some(0)
  }

  /** `PascalCompiler::IsErrorLine`, the three checks in the order the source makes them. */
  predicate IsErrorLine(line: string) {
    FileLineColumnFormat(line) || FileLineFormat(line) || GlobalFormat(line)
  }

  /** Some `(` is followed, later, by a `)` and later still by a `:`. */
  ghost predicate HasParenThenColon(line: string) {
    exists i, j, k :: 0 <= i < j < k < |line| && line[i] == '(' && line[j] == ')' && line[k] == ':'
  }

  predicate StartsWith(s: string, p: string) {
    |p| <= |s| && s[..|p|] == p
  }

  /** The first-match chain of `find` calls succeeds exactly when the three characters occur in order. */
  lemma FileLineColumnFormatIff(line: string)
    ensures FileLineColumnFormat(line) <==> HasParenThenColon(line)
  {
    var parenStart := Find(line, "(", 0);
    var parenEnd := FindAfter(line, ")", parenStart);
    var colon := FindAfter(line, ":", parenEnd);
    if FileLineColumnFormat(line) {
      var i, j, k := parenStart.value, parenEnd.value, colon.value;
      OccursAtChar(line, '(', i);
      OccursAtChar(line, ')', j);
      OccursAtChar(line, ':', k);
      assert line[i] == '(' && line[j] == ')' && line[k] == ':';
      assert i < j < k < |line|;
    }
    if HasParenThenColon(line) {
      var i, j, k :| 0 <= i < j < k < |line| && line[i] == '(' && line[j] == ')' && line[k] == ':';
      OccursAtChar(line, '(', i);
      assert parenStart.Some? && parenStart.value <= i;
      OccursAtChar(line, ')', j);
      assert parenEnd.Some? && parenEnd.value <= j;
      OccursAtChar(line, ':', k);
      assert colon.Some?;
    }
  }

  /** The `.pas(` check can never succeed where the first check failed. */
  lemma FileLineFormatSubsumed(line: string)
    ensures FileLineFormat(line) ==> FileLineColumnFormat(line)
  {
    if FileLineFormat(line) {
      var dot := Find(line, ".pas(", 0).value;
      var paren := Find(line, "(", dot);
      var endParen := FindAfter(line, ")", paren);
      var colon := FindAfter(line, ":", endParen);
      var i, j, k := paren.value, endParen.value, colon.value;
      OccursAtChar(line, '(', i);
      OccursAtChar(line, ')', j);
      OccursAtChar(line, ':', k);
      assert line[i] == '(' && line[j] == ')' && line[k] == ':';
      FileLineColumnFormatIff(line);
    }
  }

  /** What `IsErrorLine` accepts, stated without `find`: both directions. */
  lemma IsErrorLineIff(line: string)
    ensures IsErrorLine(line) <==>
      HasParenThenColon(line) || StartsWith(line, "Fatal:") || StartsWith(line, "Error:")
  {
    FileLineColumnFormatIff(line);
    FileLineFormatSubsumed(line);
    FindAtZero(line, "Fatal:");
    FindAtZero(line, "Error:");
  }

  /**
   * The executable next to a source file: everything from the last `.`
   * onward becomes `.exe`. With no `.`, `rfind` gives `npos` and `replace`
   * throws `std::out_of_range`; that is `None` here.
   */
  function ExePath(path: string): (r: Option<string>)
    ensures r.None? <==> '.' !in path
    ensures r.Some? ==> |r.value| >= 4 && r.value[|r.value| - 4..] == ".exe"
    ensures r.Some? ==> var d := |r.value| - 4;
      d < |path| && path[d] == '.' && r.value[..d] == path[..d] &&
      forall i :: d < i < |path| ==> path[i] != '.'
  {
    match LastIndexOf(path, '.')
    case None => None
    case Some(d) =>
      var r := path[..d] + ".exe";
      assert r[..d] == path[..d] && r[d..] == ".exe";
      Some(r)
  }

  /** Only the last extension is replaced, whatever dots come before it. */
  lemma ExePathOfSource(base: string, ext: string)
    requires '.' !in ext
    ensures ExePath(base + "." + ext) == Some(base + ".exe")
  {
    var path := base + "." + ext;
    assert path[|base|] == '.';
    var r := ExePath(path);
    var d := |r.value| - 4;
    assert path[..d] == base;
  }

  /** The derived path is its own executable path. */
  lemma ExePathIdempotent(path: string)
    requires ExePath(path).Some?
    ensures ExePath(ExePath(path).value) == ExePath(path)
  {
    var e := ExePath(path).value;
    var d := |e| - 4;
    assert e == e[..d] + "." + "exe";
    ExePathOfSource(e[..d], "exe");
  }

  /** Where the source's `compilePascalToExe` ends up. */
  datatype CompileResult =
    | EmptyPath                      // returned false before doing anything
    | PipeFailed                     // `_popen` failed: returned false
    | CompileFailed(exitCode: int)   // the compiler exited non-zero: returned false
    | Compiled(launched: Option<string>)  // returned true; the executable started, if asked
    | NoExtension                    // `replace` at `npos` threw

  /** The value `compilePascalToExe` returns, when it returns. */
  predicate Succeeded(r: CompileResult) {
    r.Compiled?
  }

  class Compiler {
    /** `m_errors`: the compiler's captured output, one `fgets` chunk per entry. */
    var errors: seq<string>

    constructor ()
      ensures errors == []
    {
      errors := [];
    }

    /**
     * `compilePascalToExe(pascalFile, autoRun)`. The absolute path, whether
     * the pipe opened, the chunks read from it and the exit status are the
     * process's business and arrive as parameters.
     */
    method CompilePascalToExe(pascalFile: string, autoRun: bool, absolutePath: string,
                              pipeOpened: bool, output: seq<string>, exitCode: int)
      returns (r: CompileResult)
      modifies this
      ensures pascalFile == "" ==> r == EmptyPath && errors == old(errors)
      ensures pascalFile != "" ==> errors == (if pipeOpened then output else [])
      ensures pascalFile != "" && !pipeOpened ==> r == PipeFailed
      ensures pascalFile != "" && pipeOpened && exitCode != 0 ==> r == CompileFailed(exitCode)
      ensures pascalFile != "" && pipeOpened && exitCode == 0 && !autoRun ==> r == Compiled(None)
      ensures pascalFile != "" && pipeOpened && exitCode == 0 && autoRun ==>
        r == (match ExePath(absolutePath) case None => NoExtension case Some(exe) => Compiled(Some(exe)))
    {
      if pascalFile == "" {
        return EmptyPath;
      }
      errors := [];
      if !pipeOpened {
        return PipeFailed;
      }
      for i := 0 to |output|
        invariant errors == output[..i]
      {
        errors := errors + [output[i]];
        assert output[..i + 1] == output[..i] + [output[i]];
      }
      assert output[..|output|] == output;
      if exitCode != 0 {
        return CompileFailed(exitCode);
      }
      if !autoRun {
        return Compiled(None);
      }
      match ExePath(absolutePath)
      case None => r := NoExtension;
      case Some(exe) => r := Compiled(Some(exe));
    }

    /** `GetErrors`. */
    method GetErrors() returns (e: seq<string>)
      ensures e == errors
    {
      e := errors;
    }
  }

  /** `runCompiledExe`: the path it hands to `CreateProcessA`; `None` where `replace` throws. */
  method RunCompiledExe(absolutePath: string) returns (exe: Option<string>)
    ensures exe.None? <==> '.' !in absolutePath
    ensures exe.Some? ==> exe == ExePath(absolutePath)
  {
    exe := ExePath(absolutePath);
  }
}
