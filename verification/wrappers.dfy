/** Option and Result values standing for Python's `None` and for raised exceptions,
    plus the two pieces of Python value semantics the pipeline leans on: the truthiness
    of an optional integer cap and the prefix slice `xs[:n]`. */
module Wrappers {

  datatype Option<+T> = None | Some(value: T)

  /** `Failure(msg)` stands for an exception whose `str(e)` is `msg`. */
  datatype Result<+T> = Success(value: T) | Failure(error: string)

  /** `if max_files:` — a cap is in force when it is present and non-zero. */
  predicate Truthy(cap: Option<int>) {
    cap.Some? && cap.value != 0
  }

  /** Length of Python's `xs[:n]` for a sequence of length `len`. */
  function SliceLength(len: nat, n: int): (r: nat)
    ensures r <= len
    ensures n >= 0 ==> r == if n < len then n else len
    ensures n < 0 ==> r == if len + n > 0 then len + n else 0
  {
    if n >= 0 then (if n < len then n else len)
    else if len + n > 0 then len + n else 0
  }

  /** Python's prefix slice `xs[:n]`, including negative `n` (drop the last `-n`). */
  function Take<T>(xs: seq<T>, n: int): (r: seq<T>)
    ensures r <= xs
    ensures |r| == SliceLength(|xs|, n)
  {
    xs[..SliceLength(|xs|, n)]
  }

  /** How many of `n` items a loop takes when it tests `if cap and count >= cap: break`
      before each item: all without a cap, `min(m, n)` for a positive cap `m`, and none for
      a negative one. */
  function BreakLimit(cap: Option<int>, n: nat): (r: nat)
    ensures r <= n
  {
    if !Truthy(cap) then n
    else if cap.value > 0 then (if cap.value < n then cap.value else n)
    else 0
  }

  /** Where such a loop stops — the end of its input, or a count that reached the cap — the
      items it took are the first `BreakLimit` ones. */
  lemma BreakLimitPrefix<T>(taken: seq<T>, all: seq<T>, cap: Option<int>, atEnd: bool)
    requires taken <= all
    requires Truthy(cap) ==> if cap.value > 0 then |taken| <= cap.value else taken == []
    requires atEnd ==> taken == all
    requires atEnd || (Truthy(cap) && |taken| >= cap.value)
    ensures taken == all[..BreakLimit(cap, |all|)]
  {
  }

  /** Sum of a sequence of counts. */
  function Sum(xs: seq<int>): int {
    if |xs| == 0 then 0 else xs[0] + Sum(xs[1..])
  }

  lemma SumAppend(xs: seq<int>, ys: seq<int>)
    ensures Sum(xs + ys) == Sum(xs) + Sum(ys)
  {
    if |xs| == 0 {
      assert xs + ys == ys;
    } else {
      assert (xs + ys)[1..] == xs[1..] + ys;
      SumAppend(xs[1..], ys);
    }
  }

  /** The concatenation of a sequence of sequences, as `extend` builds it in a loop. */
  function Concat<T>(xss: seq<seq<T>>): seq<T> {
    if |xss| == 0 then [] else Concat(xss[..|xss| - 1]) + xss[|xss| - 1]
  }

  lemma ConcatSnoc<T>(xss: seq<seq<T>>, xs: seq<T>)
    ensures Concat(xss + [xs]) == Concat(xss) + xs
  {
    assert (xss + [xs])[..|xss|] == xss;
  }

  /** Every element of a concatenation comes from one of the parts. */
  lemma {:induction false} ConcatMember<T>(xss: seq<seq<T>>, x: T)
    requires x in Concat(xss)
    ensures exists i :: 0 <= i < |xss| && x in xss[i]
  {
    var init := xss[..|xss| - 1];
    if x in Concat(init) {
      ConcatMember(init, x);
      var i :| 0 <= i < |init| && x in init[i];
      assert xss[i] == init[i];
    } else {
      assert x in xss[|xss| - 1];
    }
  }

  /** The length of a concatenation is the sum of the lengths of its parts. */
  lemma {:induction false} ConcatLength<T>(xss: seq<seq<T>>)
    ensures |Concat(xss)| == Sum(seq(|xss|, i requires 0 <= i < |xss| => |xss[i]|))
  {
    var lens := seq(|xss|, i requires 0 <= i < |xss| => |xss[i]|);
    if |xss| > 0 {
      var init := xss[..|xss| - 1];
      ConcatLength(init);
      var initLens := seq(|init|, i requires 0 <= i < |init| => |init[i]|);
      assert lens == initLens + [|xss[|xss| - 1]|];
      SumAppend(initLens, [|xss[|xss| - 1]|]);
      assert Sum([|xss[|xss| - 1]|]) == |xss[|xss| - 1]|;
    }
  }
}
