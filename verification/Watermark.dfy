/**
 The contiguous watermark: completions arrive in any order and with repeats, and
 the watermark is the end of the longest unbroken run from 1.
 */
module Watermark {

  /** n is the largest number such that 1..n are all marked. */
  ghost predicate IsWatermark(marked: set<nat>, n: nat) {
    (forall x :: 1 <= x <= n ==> x in marked) && n + 1 !in marked
  }

  lemma WatermarkIsLargest(marked: set<nat>, n: nat, m: nat)
    requires IsWatermark(marked, n)
    ensures m <= n <==> forall x :: 1 <= x <= m ==> x in marked
  {
  }

  /** More marks never lower the watermark. */
  lemma WatermarkGrows(marked: set<nat>, n: nat, more: set<nat>, m: nat)
    requires IsWatermark(marked, n) && IsWatermark(more, m) && marked <= more
    ensures n <= m
  {
    WatermarkIsLargest(more, m, n);
  }

  class ContigWatermark {
    var waiting: set<nat>
    var value: nat
    ghost var marked: set<nat>

    /** What has been marked is waiting in the set or already below the watermark. */
    ghost predicate Valid()
      reads this
    {
      && waiting <= marked
      && (forall x :: 1 <= x <= value ==> x in marked)
      && (forall x :: x in marked ==> x in waiting || 1 <= x <= value)
      && value + 1 !in waiting
    }

    constructor ()
      ensures Valid() && marked == {} && value == 0 && IsWatermark(marked, value)
    {
      waiting, value, marked := {}, 0, {};
    }

    lemma WatermarkHolds()
      requires Valid()
      ensures IsWatermark(marked, value)
    {
    }

    method Mark(seqs: seq<nat>)
      requires Valid()
      modifies this
      ensures Valid() && marked == old(marked) + (set x | x in seqs)
      ensures IsWatermark(marked, value) && old(value) <= value
    {
      WatermarkHolds();
      AddAll(seqs);
      ghost var all := old(marked) + set x | x in seqs;
      marked := all;
      Advance();
      WatermarkGrows(old(marked), old(value), marked, value);
    }

    /** The first loop of mark. */
    method AddAll(seqs: seq<nat>)
      modifies this`waiting
      ensures waiting == old(waiting) + (set x | x in seqs)
    {
      var i := 0;
      while i < |seqs|
        invariant i <= |seqs|
        invariant waiting == old(waiting) + set x | x in seqs[..i]
      {
        assert seqs[..i + 1] == seqs[..i] + [seqs[i]];
        waiting := waiting + {seqs[i]};
        i := i + 1;
      }
      assert seqs[..|seqs|] == seqs;
    }

    /** The second loop of mark: the prefix grows while its successor is waiting. */
    method Advance()
      requires waiting <= marked && (forall x :: 1 <= x <= value ==> x in marked)
               && (forall x :: x in marked ==> x in waiting || 1 <= x <= value)
      modifies this`waiting, this`value
      ensures Valid() && IsWatermark(marked, value)
    {
      var v := value;
      while v + 1 in waiting
        invariant waiting <= marked
        invariant forall x :: 1 <= x <= v ==> x in marked
        invariant forall x :: x in marked ==> x in waiting || 1 <= x <= v
        decreases |waiting|
      {
        waiting := waiting - {v + 1};
        v := v + 1;
      }
      value := v;
    }

    method Get() returns (n: nat)
      ensures n == value
    {
      n := value;
    }
  }
}
