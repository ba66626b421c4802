/**
 * `ReplacePlaceholder(source, placeholder, value)`, which PascalCompiler.cpp
 * and CodeHelperInterface.cpp each define with the same body: a left-to-right
 * scan that replaces every occurrence of the placeholder in place and resumes
 * the search just after the inserted value.
 */
module Placeholder {
  import opened Wrappers
  import opened Text

  /**
   * The standard non-overlapping, left-to-right replace-all of `p` by `v`.
   * Only the original text is searched: a replacement is never rescanned.
   */
  function ReplaceAll(s: string, p: string, v: string): string
    requires |p| > 0
    decreases |s|
  {
    if OccursAt(s, p, 0) then v + ReplaceAll(s[|p|..], p, v)
    else if s == [] then []
    else [s[0]] + ReplaceAll(s[1..], p, v)
  }

  /** Number of occurrences that `ReplaceAll` replaces. */
  function Occurrences(s: string, p: string): nat
    requires |p| > 0
    decreases |s|
  {
    if OccursAt(s, p, 0) then 1 + Occurrences(s[|p|..], p)
    else if s == [] then 0
    else Occurrences(s[1..], p)
  }

  lemma OccursInSuffix(s: string, p: string, k: nat, i: nat)
    requires k <= |s|
    ensures OccursAt(s[k..], p, i) <==> OccursAt(s, p, k + i)
  {
    if k + i + |p| <= |s| {
      assert s[k..][i..i + |p|] == s[k + i..k + i + |p|];
    }
  }

  /** A stretch with no occurrence starting in it is copied unchanged. */
  lemma {:induction false} ReplaceAllSkip(s: string, p: string, v: string, k: nat)
    requires |p| > 0 && k <= |s|
    requires forall i :: 0 <= i < k ==> !OccursAt(s, p, i)
    ensures ReplaceAll(s, p, v) == s[..k] + ReplaceAll(s[k..], p, v)
  {
    if k > 0 {
      var t := s[1..];
      assert !OccursAt(s, p, 0);
      assert ReplaceAll(s, p, v) == [s[0]] + ReplaceAll(t, p, v);
      forall i | 0 <= i < k - 1
        ensures !OccursAt(t, p, i)
      {
        OccursInSuffix(s, p, 1, i);
      }
      ReplaceAllSkip(t, p, v, k - 1);
      assert t[k - 1..] == s[k..];
      assert s[..k] == [s[0]] + t[..k - 1];
    }
  }

  /** Text in which the placeholder does not occur comes back unchanged. */
  lemma ReplaceAllAbsent(s: string, p: string, v: string)
    requires |p| > 0
    requires forall i :: !OccursAt(s, p, i)
    ensures ReplaceAll(s, p, v) == s
  {
    ReplaceAllSkip(s, p, v, |s|);
    assert s[|s|..] == [];
  }

  /** Replacing the placeholder by itself is the identity. */
  lemma {:induction false} ReplaceAllSelf(s: string, p: string)
    requires |p| > 0
    ensures ReplaceAll(s, p, p) == s
    decreases |s|
  {
    if OccursAt(s, p, 0) {
      ReplaceAllSelf(s[|p|..], p);
      assert s == p + s[|p|..];
    } else if s != [] {
      ReplaceAllSelf(s[1..], p);
      assert s == [s[0]] + s[1..];
    }
  }

  /** Each replacement changes the length by `|v| - |p|`. */
  lemma {:induction false} ReplaceAllLength(s: string, p: string, v: string)
    requires |p| > 0
    ensures |ReplaceAll(s, p, v)| == |s| + Occurrences(s, p) * (|v| - |p|)
    decreases |s|
  {
    if OccursAt(s, p, 0) {
      var t := s[|p|..];
      ReplaceAllLength(t, p, v);
      assert Occurrences(s, p) == Occurrences(t, p) + 1;
      assert |ReplaceAll(s, p, v)| == |v| + |ReplaceAll(t, p, v)|;
      MulSucc(Occurrences(t, p), |v| - |p|);
    } else if s != [] {
      ReplaceAllLength(s[1..], p, v);
    }
  }

  lemma MulSucc(c: nat, d: int)
    ensures (c + 1) * d == c * d + d
  {
  }

  /** Replace-all of the rest, when its first occurrence is at `q`. */
  lemma ReplaceFirst(r: string, p: string, v: string, pos: nat, q: nat)
    requires |p| > 0 && pos <= q
    requires OccursAt(r, p, q)
    requires forall i :: pos <= i < q ==> !OccursAt(r, p, i)
    ensures ReplaceAll(r[pos..], p, v) == r[pos..q] + v + ReplaceAll(r[q + |p|..], p, v)
  {
    var rest := r[pos..];
    forall i | 0 <= i < q - pos
      ensures !OccursAt(rest, p, i)
    {
      OccursInSuffix(r, p, pos, i);
    }
    ReplaceAllSkip(rest, p, v, q - pos);
    assert rest[q - pos..] == r[q..];
    assert rest[..q - pos] == r[pos..q];
    OccursInSuffix(r, p, q, 0);
    assert r[q..][|p|..] == r[q + |p|..];
  }

  /**
   * One round of the loop: everything before `pos` is final output, the
   * first occurrence at or after `pos` is at `q`; replacing it and moving
   * past the value keeps "output so far + replace-all of the rest" fixed.
   */
  lemma ReplaceStep(r: string, p: string, v: string, pos: nat, q: nat)
    requires |p| > 0 && pos <= q
    requires OccursAt(r, p, q)
    requires forall i :: pos <= i < q ==> !OccursAt(r, p, i)
    ensures var next := r[..q] + v + r[q + |p|..];
      next[..q + |v|] + ReplaceAll(next[q + |v|..], p, v) == r[..pos] + ReplaceAll(r[pos..], p, v)
  {
    var next := r[..q] + v + r[q + |p|..];
    var tail := ReplaceAll(r[q + |p|..], p, v);
    assert next[..q + |v|] == r[..q] + v;
    assert next[q + |v|..] == r[q + |p|..];
    calc {
      r[..pos] + ReplaceAll(r[pos..], p, v);
      { ReplaceFirst(r, p, v, pos, q); }
      r[..pos] + (r[pos..q] + v + tail);
      { assert r[..q] == r[..pos] + r[pos..q]; }
      r[..q] + v + tail;
    }
  }

  /**
   * `ReplacePlaceholder` as written: `source` is rewritten in place, `pos`
   * moves past each inserted value. The source loops forever on an empty
   * placeholder (`find("")` always succeeds), hence the precondition.
   */
  method ReplacePlaceholder(source: string, placeholder: string, value: string) returns (result: string)
    requires |placeholder| > 0
    ensures result == ReplaceAll(source, placeholder, value)
    ensures Find(source, placeholder, 0).None? ==> result == source
  {
    result := source;
    var pos: nat := 0;
    var found := Find(result, placeholder, pos);
    while found.Some?
      invariant pos <= |result|
      invariant found == Find(result, placeholder, pos)
      invariant result[..pos] + ReplaceAll(result[pos..], placeholder, value) == ReplaceAll(source, placeholder, value)
      decreases |result| - pos
    {
      var q := found.value;
      ReplaceStep(result, placeholder, value, pos, q);
      result := result[..q] + value + result[q + |placeholder|..];
      pos := q + |value|;
      found := Find(result, placeholder, pos);
    }
    forall i ensures !OccursAt(result[pos..], placeholder, i) {
      OccursInSuffix(result, placeholder, pos, i);
    }
    ReplaceAllAbsent(result[pos..], placeholder, value);
    assert result[..pos] + result[pos..] == result;
    if Find(source, placeholder, 0).None? {
      ReplaceAllAbsent(source, placeholder, value);
    }
  }
}
