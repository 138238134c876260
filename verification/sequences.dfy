/**
 * The few JavaScript array and string operations the store relies on,
 * stated over Dafny sequences: findIndex, filter, slice(0, n), reverse and
 * String.prototype.includes.
 */
module Sequences {
  import opened Wrappers

  /** Array.prototype.findIndex: the first index whose element satisfies f (None for -1). */
  function FindIndex<T>(s: seq<T>, f: T -> bool): (r: Option<nat>)
    ensures r.Some? ==> r.value < |s| && f(s[r.value])
    ensures r.Some? ==> forall i :: 0 <= i < r.value ==> !f(s[i])
    ensures r.None? <==> forall i :: 0 <= i < |s| ==> !f(s[i])
  {
    if s == [] then None
    else if f(s[0]) then Some(0)
    else match FindIndex(s[1..], f)
      case None => None
      case Some(k) => Some(k + 1)
  }

  /** a is obtained from b by deleting elements, keeping the order of the rest. */
  ghost predicate IsSubseq<T>(a: seq<T>, b: seq<T>)
    decreases |b|
  {
    if b == [] then a == []
    else (a != [] && a[0] == b[0] && IsSubseq(a[1..], b[1..])) || IsSubseq(a, b[1..])
  }

  /**
   * Array.prototype.filter: the elements satisfying f, in their original
   * order, each kept as many times as it occurs.
   */
  function Filter<T(!new)>(s: seq<T>, f: T -> bool): (r: seq<T>)
    ensures |r| <= |s|
    ensures forall k :: 0 <= k < |r| ==> r[k] in s && f(r[k])
    ensures forall i :: 0 <= i < |s| && f(s[i]) ==> s[i] in r
    ensures forall x :: multiset(r)[x] == if f(x) then multiset(s)[x] else 0
    ensures IsSubseq(r, s)
  {
    if s == [] then []
    else
      assert s == [s[0]] + s[1..];
      if f(s[0]) then [s[0]] + Filter(s[1..], f)
      else Filter(s[1..], f)
  }

  lemma {:induction false} SubseqMembers<T>(a: seq<T>, b: seq<T>)
    requires IsSubseq(a, b)
    ensures forall k :: 0 <= k < |a| ==> a[k] in b
    decreases |b|
  {
    if b != [] {
      if a != [] && a[0] == b[0] && IsSubseq(a[1..], b[1..]) {
        SubseqMembers(a[1..], b[1..]);
        assert forall k :: 1 <= k < |a| ==> a[k] == a[1..][k - 1];
      } else {
        SubseqMembers(a, b[1..]);
      }
    }
  }

  lemma {:induction false} EmptySubseq<T>(b: seq<T>)
    ensures IsSubseq([], b)
    decreases |b|
  {
    if b != [] {
      EmptySubseq(b[1..]);
    }
  }

  lemma {:induction false} SubseqReflexive<T>(s: seq<T>)
    ensures IsSubseq(s, s)
    decreases |s|
  {
    if s != [] {
      SubseqReflexive(s[1..]);
    }
  }

  /** Filtering an already filtered sequence keeps a subsequence of the original. */
  lemma {:induction false} SubseqTransitive<T>(a: seq<T>, b: seq<T>, c: seq<T>)
    requires IsSubseq(a, b) && IsSubseq(b, c)
    ensures IsSubseq(a, c)
    decreases |c|
  {
    if c == [] {
    } else if b == [] {
      assert a == [];
      EmptySubseq(c);
    } else if IsSubseq(b, c[1..]) {
      SubseqTransitive(a, b, c[1..]);
    } else {
      assert b[0] == c[0] && IsSubseq(b[1..], c[1..]);
      if a != [] && a[0] == b[0] && IsSubseq(a[1..], b[1..]) {
        SubseqTransitive(a[1..], b[1..], c[1..]);
      } else {
        SubseqTransitive(a, b[1..], c[1..]);
      }
    }
  }

  /** Where Array.prototype.slice(0, end) stops on an array of length len. */
  function SliceEnd(len: nat, end: int): (e: nat)
    ensures e <= len
  {
    if end < 0 then (if len + end < 0 then 0 else len + end)
    else if end < len then end
    else len
  }

  /** Array.prototype.reverse, on a copy. */
  function Reverse<T>(s: seq<T>): (r: seq<T>)
    ensures |r| == |s|
    ensures forall k :: 0 <= k < |s| ==> r[k] == s[|s| - 1 - k]
  {
    if s == [] then [] else [s[|s| - 1]] + Reverse(s[..|s| - 1])
  }

  /** String.prototype.includes: sub occurs in s at some position. */
  predicate Contains(s: string, sub: string)
    decreases |s|
  {
    sub <= s || (s != [] && Contains(s[1..], sub))
  }
}
