/**
 * `SanitizeStringLiteral` from StringHelper.h: every backslash is doubled;
 * a double quote is appended as the one-character literal `"\""`, that is,
 * as itself; everything else is copied.
 */
module StringHelper {

  /** What the loop appends for one input character. */
  function Escape(c: char): (r: string)
    ensures r == (if c == '\\' then "\\\\" else [c])
  {
    if c == '"' then "\"" else if c == '\\' then "\\\\" else [c]
  }

  /** The whole mapping, character by character, in order. */
  function Sanitized(s: string): string {
    if s == [] then [] else Escape(s[0]) + Sanitized(s[1..])
  }

  function CountBackslashes(s: string): nat {
    if s == [] then 0 else (if s[0] == '\\' then 1 else 0) + CountBackslashes(s[1..])
  }

  /** Undoes the doubling: each `\\` pair becomes one `\`. */
  function Collapse(t: string): string
    decreases |t|
  {
    if |t| >= 2 && t[0] == '\\' && t[1] == '\\' then "\\" + Collapse(t[2..])
    else if t == [] then []
    else [t[0]] + Collapse(t[1..])
  }

  /** The mapping works on pieces: sanitizing a concatenation concatenates. */
  lemma {:induction false} SanitizedAppend(a: string, b: string)
    ensures Sanitized(a + b) == Sanitized(a) + Sanitized(b)
  {
    if a != [] {
      assert (a + b)[1..] == a[1..] + b;
      SanitizedAppend(a[1..], b);
    } else {
      assert a + b == b;
    }
  }

  /** The output is the input plus one extra character per backslash. */
  lemma {:induction false} SanitizedLength(s: string)
    ensures |Sanitized(s)| == |s| + CountBackslashes(s)
  {
    if s != [] {
      SanitizedLength(s[1..]);
    }
  }

  /** A string without backslashes (quotes included) is returned unchanged. */
  lemma {:induction false} SanitizedNoBackslash(s: string)
    requires '\\' !in s
    ensures Sanitized(s) == s
  {
    if s != [] {
      assert s[0] in s;
      assert forall c :: c in s[1..] ==> c in s;
      SanitizedNoBackslash(s[1..]);
      assert s == [s[0]] + s[1..];
    }
  }

  /** Collapsing each `\\` of the output recovers the input. */
  lemma {:induction false} CollapseSanitized(s: string)
    ensures Collapse(Sanitized(s)) == s
  {
    if s != [] {
      CollapseSanitized(s[1..]);
      var rest := Sanitized(s[1..]);
      if s[0] == '\\' {
        assert Sanitized(s) == "\\\\" + rest;
        assert (("\\\\" + rest)[2..]) == rest;
      } else {
        assert Sanitized(s) == [s[0]] + rest;
        assert ([s[0]] + rest)[1..] == rest;
      }
      assert s == [s[0]] + s[1..];
    }
  }

  /** The loop of StringHelper.h, appending to `result` one character at a time. */
  method SanitizeStringLiteral(str: string) returns (result: string)
    ensures result == Sanitized(str)
  {
    result := "";
    for i := 0 to |str|
      invariant result == Sanitized(str[..i])
    {
      var c := str[i];
      if c == '"' {
        result := result + "\"";
      } else if c == '\\' {
        result := result + "\\\\";
      } else {
        result := result + [c];
      }
      assert str[..i + 1] == str[..i] + [c];
      SanitizedAppend(str[..i], [c]);
    }
    assert str[..|str|] == str;
  }
}
