/**
 pkg/nat/tools.go: drawing distinct random ports. The random source is any infinite sequence of
 non-negative numbers; termination needs only that no residue is avoided for ever.
 */
module Sampling {
  import opened Basics

  ghost predicate Hits(source: nat -> nat, span: nat, from: nat, residue: nat)
    requires 0 < span
  {
    exists j: nat :: from <= j && source(j) % span == residue
  }

  /** From every point on, every residue still comes up. */
  ghost predicate Fair(source: nat -> nat, span: nat) {
    0 < span ==> forall from: nat, residue: nat | residue < span :: Hits(source, span, from, residue)
  }

  /** The number drawn at step `i`. */
  function Draw(source: nat -> nat, lo: int, span: nat, i: nat): (x: int)
    requires 0 < span
    ensures lo <= x < lo + span
  {
    source(i) % span + lo
  }

  /** The first `n` draws without repetitions, in the order of their first appearance. */
  function FirstAppearances(source: nat -> nat, lo: int, span: nat, n: nat): seq<int>
    requires 0 < span
  {
    if n == 0 then []
    else
      var before, x := FirstAppearances(source, lo, span, n - 1), Draw(source, lo, span, n - 1);
      if x in before then before else before + [x]
  }

  function Interval(lo: int, n: nat): (all: set<int>)
    ensures |all| == n
    ensures forall x :: x in all <==> lo <= x < lo + n
  {
    if n == 0 then {} else Interval(lo, n - 1) + {lo + n - 1}
  }

  lemma SubsetSize<T>(a: set<T>, b: set<T>)
    requires a <= b
    ensures |a| <= |b|
  {
    assert b == a + (b - a);
  }

  lemma {:induction false} DistinctSize(s: seq<int>)
    requires Distinct(s)
    ensures |set x | x in s| == |s|
  {
    if s != [] {
      var rest := s[1..];
      DistinctSize(rest);
      assert s[0] !in rest;
      assert (set x | x in s) == (set x | x in rest) + {s[0]};
    }
  }

  /** Pigeonhole: fewer values than places leave a place free. */
  lemma FreshValue(taken: seq<int>, lo: int, span: nat) returns (x: int)
    requires Distinct(taken) && |taken| < span
    requires forall y <- taken :: lo <= y < lo + span
    ensures lo <= x < lo + span && x !in taken
  {
    var all, used := Interval(lo, span), set x | x in taken;
    DistinctSize(taken);
    if all <= used {
      SubsetSize(all, used);
    }
    x :| x in all && x !in used;
  }

  /** A later draw that is not taken yet. */
  lemma FreshDraw(source: nat -> nat, taken: seq<int>, lo: int, span: nat, from: nat) returns (j: nat)
    requires Fair(source, span)
    requires Distinct(taken) && |taken| < span
    requires forall y <- taken :: lo <= y < lo + span
    ensures from <= j && Draw(source, lo, span, j) !in taken
  {
    var x := FreshValue(taken, lo, span);
    assert Hits(source, span, from, x - lo);
    j :| from <= j && source(j) % span == x - lo;
  }

  /** `NoRepeatRandInts`: exactly as many values as were asked for and exist, all different, all in
      the half-open interval between the bounds in either order, in the order of being drawn. */
  method NoRepeatRandInts(start: int, end: int, count: int, source: nat -> nat)
    returns (result: seq<int>, ghost draws: nat)
    requires Fair(source, Max(start, end) - Min(start, end))
    ensures |result| == Max(0, Min(count, Max(start, end) - Min(start, end)))
    ensures Distinct(result)
    ensures forall x <- result :: Min(start, end) <= x < Max(start, end)
    ensures start != end ==>
              result == FirstAppearances(source, Min(start, end), Max(start, end) - Min(start, end), draws)
  {
    hide Fair, Draw;
    var lo, hi := start, end;
    if lo > hi {
      lo, hi := hi, lo;
    }
    var wanted := count;
    if wanted > hi - lo {
      wanted := hi - lo;
    }
    result, draws := [], 0;
    var memory: map<int, bool> := map[];
    var i := 0;
    ghost var target: nat := 0;
    if 0 < wanted {
      target := FreshDraw(source, result, lo, hi - lo, 0);
    }
    while |result| < wanted
      invariant |result| <= Max(0, wanted) && Distinct(result)
      invariant forall x <- result :: lo <= x < hi
      invariant memory.Keys == set x | x in result
      invariant forall x <- memory :: memory[x]
      invariant |result| < wanted ==> i <= target && Draw(source, lo, hi - lo, target) !in result
      invariant draws == i && (lo < hi ==> result == FirstAppearances(source, lo, hi - lo, i))
      decreases wanted - |result|, target - i
    {
      var x := Draw(source, lo, hi - lo, i);
      i, draws := i + 1, draws + 1;
      if x in memory && memory[x] {
        continue;
      }
      memory := memory[x := true];
      result := result + [x];
      if |result| < wanted {
        target := FreshDraw(source, result, lo, hi - lo, i);
      }
    }
  }

  /** `RandomOne` for a given draw. */
  function RandomOne<T>(container: seq<T>, draw: nat): (x: T)
    requires container != []
    ensures x in container
  {
    container[draw % |container|]
  }

  /** Every element can be picked. */
  lemma EveryElementCanBePicked<T>(container: seq<T>, k: nat)
    requires k < |container|
    ensures RandomOne(container, k) == container[k]
  {
    SmallRemainder(k, |container|);
  }

  lemma SmallRemainder(k: nat, n: nat)
    requires k < n
    ensures k % n == k
  {
  }
}
