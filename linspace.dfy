/**
 * The two grid iterators of linspace.rs. Both are stateful: `Next` advances an
 * index. The values an iterator will still yield are given by the pure
 * functions `LinspaceValues` and `FloatrangeValues`, which the lemmas below
 * characterise.
 */
module Grids {
  import opened Numerics

  /** The step `linspace` stores. The source divides by `len - 1`; for `len == 1`
    * that is a division by zero (NaN in the source), modelled as a zero step. */
  function LinspaceStep(start: real, stop: real, len: nat): real {
    if len == 1 then 0.0 else (stop - start) / (len as real - 1.0)
  }

  /** The values `linspace(start, stop, len)` yields, in order. */
  function LinspaceValues(start: real, stop: real, len: nat): (vs: seq<real>)
    ensures |vs| == len
  {
    seq(len, k => start + LinspaceStep(start, stop, len) * k as real)
  }

  /** The `len` that `floatrange` stores: `((stop - start) / step) as usize`. */
  function FloatrangeLen(start: real, stop: real, step: real): nat
    requires step != 0.0
  {
    AsUsize((stop - start) / step)
  }

  /** The values `floatrange(start, stop, step)` yields: `len + 1` of them. */
  function FloatrangeValues(start: real, stop: real, step: real): (vs: seq<real>)
    requires step != 0.0
    ensures |vs| == FloatrangeLen(start, stop, step) + 1
  {
    seq(FloatrangeLen(start, stop, step) + 1, k => start + step * k as real)
  }

  /** The values `start + step * k` for `from <= k < to`: what is left of either iterator. */
  function Span(start: real, step: real, from: nat, to: nat): (vs: seq<real>)
    ensures |vs| == if from < to then to - from else 0
    ensures forall k :: 0 <= k < |vs| ==> vs[k] == start + step * (from + k) as real
  {
    if from < to then seq(to - from, k => start + step * (from + k) as real) else []
  }

  /** Taking one value off the front of a span. */
  lemma SpanStep(start: real, step: real, from: nat, to: nat)
    requires from < to
    ensures Span(start, step, from, to) == [start + step * from as real] + Span(start, step, from + 1, to)
  {
    var a := Span(start, step, from, to);
    var b := [start + step * from as real] + Span(start, step, from + 1, to);
    assert |a| == |b|;
    forall k | 0 <= k < |a|
      ensures a[k] == b[k]
    {
      if 0 < k {
        assert b[k] == Span(start, step, from + 1, to)[k - 1];
        assert from + 1 + (k - 1) == from + k;
      }
    }
  }

  /** `Linspace`: `len` evenly spaced values from `start` to `stop` inclusive. */
  class Linspace {
    var index: nat
    const len: nat
    const start: real
    const step: real

    /** `linspace(start, stop, len)`. */
    constructor (start: real, stop: real, len: nat)
      ensures this.start == start && this.len == len
      ensures step == LinspaceStep(start, stop, len)
      ensures index == 0 && Valid()
      ensures Remaining() == LinspaceValues(start, stop, len)
    {
      this.start := start;
      this.len := len;
      this.step := LinspaceStep(start, stop, len);
      index := 0;
      assert Span(start, LinspaceStep(start, stop, len), 0, len) == LinspaceValues(start, stop, len);
    }

    /** The index never passes the count. */
    ghost predicate Valid()
      reads this
    {
      index <= len
    }

    /** The values the iterator has yet to yield. */
    function Remaining(): (vs: seq<real>)
      reads this
    {
      Span(start, step, index, len)
    }

    /** `Iterator::next`: the value at `index`, then advance; `None` once `len` values are out. */
    method Next() returns (r: Option<real>)
      requires Valid()
      modifies this
      ensures Valid()
      ensures old(index) < len ==> r == Some(start + step * (old(index) as real)) && index == old(index) + 1
      ensures len <= old(index) ==> r == None && index == old(index)
      ensures r == (if old(Remaining()) == [] then None else Some(old(Remaining())[0]))
      ensures Remaining() == if old(Remaining()) == [] then [] else old(Remaining())[1..]
    {
      if index >= len {
        r := None;
      } else {
        SpanStep(start, step, index, len);
        r := Some(start + step * index as real);
        index := index + 1;
        assert r.value == start + step * (old(index) as real);
      }
    }

    /** `ExactSizeIterator::len`: the total count, regardless of how many were taken. */
    function Len(): (n: nat)
      requires Valid()
      reads this
      ensures n == index + |Remaining()|
    {
      len
    }

    /** `Iterator::count`/`collect`: drains the iterator. */
    method Drain() returns (vs: seq<real>)
      requires Valid()
      modifies this
      ensures Valid()
      ensures vs == old(Remaining())
      ensures Remaining() == []
    {
      vs := [];
      while true
        invariant Valid()
        invariant vs + Remaining() == old(Remaining())
        decreases |Remaining()|
      {
        ghost var rest := Remaining();
        var r := Next();
        if r.None? {
          assert vs == vs + rest;
          break;
        }
        assert (vs + [r.value]) + rest[1..] == vs + rest;
        vs := vs + [r.value];
      }
    }
  }

  /** `Floatrange`: values from `start` in steps of `step`, `len + 1` of them. */
  class Floatrange {
    var index: nat
    const len: nat
    const start: real
    const step: real

    /** `floatrange(start, stop, step)`. */
    constructor (start: real, stop: real, step: real)
      requires step != 0.0
      ensures this.start == start && this.step == step
      ensures len == FloatrangeLen(start, stop, step)
      ensures index == 0
      ensures Remaining() == FloatrangeValues(start, stop, step)
    {
      this.start := start;
      this.step := step;
      len := FloatrangeLen(start, stop, step);
      index := 0;
      assert Span(start, step, 0, FloatrangeLen(start, stop, step) + 1) == FloatrangeValues(start, stop, step);
    }

    /** The values the iterator has yet to yield: indices `index ..= len`. */
    function Remaining(): (vs: seq<real>)
      reads this
    {
      Span(start, step, index, len + 1)
    }

    /** `Iterator::next`: yields while `index <= len`, so one value more than `len`. */
    method Next() returns (r: Option<real>)
      modifies this
      ensures old(index) <= len ==> r == Some(start + step * (old(index) as real)) && index == old(index) + 1
      ensures len < old(index) ==> r == None && index == old(index)
      ensures r == (if old(Remaining()) == [] then None else Some(old(Remaining())[0]))
      ensures Remaining() == if old(Remaining()) == [] then [] else old(Remaining())[1..]
    {
      if index > len {
        r := None;
      } else {
        SpanStep(start, step, index, len + 1);
        r := Some(start + step * index as real);
        index := index + 1;
        assert r.value == start + step * (old(index) as real);
      }
    }

    /** `ExactSizeIterator::len`: reports `len`, one less than the number of values `Next` yields. */
    function Len(): (n: nat)
      reads this
      ensures index == 0 ==> n + 1 == |Remaining()|
    {
      len
    }

    /** `Iterator::count`/`collect`: drains the iterator. */
    method Drain() returns (vs: seq<real>)
      modifies this
      ensures vs == old(Remaining())
      ensures Remaining() == []
    {
      vs := [];
      while true
        invariant vs + Remaining() == old(Remaining())
        decreases |Remaining()|
      {
        ghost var rest := Remaining();
        var r := Next();
        if r.None? {
          assert vs == vs + rest;
          break;
        }
        assert (vs + [r.value]) + rest[1..] == vs + rest;
        vs := vs + [r.value];
      }
    }
  }

  /** `linspace` yields exactly `len` values, the k-th being `start + k*(stop-start)/(len-1)`;
    * the first is `start`, and for `len >= 2` the last is exactly `stop`. */
  lemma LinspaceEndpoints(start: real, stop: real, len: nat)
    ensures var vs := LinspaceValues(start, stop, len);
      && |vs| == len
      && (len == 0 ==> vs == [])
      && (1 <= len ==> vs[0] == start)
      && (2 <= len ==> vs[len - 1] == stop)
      && (2 <= len ==> forall k :: 0 <= k < len ==> vs[k] == start + k as real * (stop - start) / (len as real - 1.0))
  {
    var vs := LinspaceValues(start, stop, len);
    if 2 <= len {
      var d := len as real - 1.0;
      var step := (stop - start) / d;
      assert step * d == stop - start;
      assert vs[len - 1] == start + step * d;
      forall k | 0 <= k < len
        ensures vs[k] == start + k as real * (stop - start) / d
      {
        assert step * k as real == k as real * (stop - start) / d;
      }
    }
  }

  /** `floatrange` yields `trunc((stop - start)/step) + 1` values, clamped so that at least
    * `start` is yielded even when `stop` lies behind `start`; consecutive values differ
    * by exactly `step`. */
  lemma FloatrangeShape(start: real, stop: real, step: real)
    requires step != 0.0
    ensures var vs := FloatrangeValues(start, stop, step);
      && 1 <= |vs|
      && vs[0] == start
      && ((stop - start) / step < 1.0 ==> vs == [start])
      && (forall k :: 0 <= k < |vs| - 1 ==> vs[k + 1] - vs[k] == step)
  {
  }

  /** No value of `floatrange` lies past `stop` in the step direction, and the next one
    * would. */
  lemma FloatrangeStaysWithin(start: real, stop: real, step: real)
    requires step != 0.0
    requires 0.0 <= (stop - start) / step
    ensures var vs := FloatrangeValues(start, stop, step); var n := |vs| - 1;
      && (0.0 < step ==> vs[n] <= stop < vs[n] + step)
      && (step < 0.0 ==> stop <= vs[n] && vs[n] + step < stop)
  {
    var n := FloatrangeLen(start, stop, step);
    var vs := FloatrangeValues(start, stop, step);
    var q := (stop - start) / step;
    assert n as real <= q < n as real + 1.0;
    assert stop - start == q * step;
    assert vs[n] == start + step * n as real;
    ShortOfStop(stop, step, vs[n], q - n as real);
  }

  /** A value a fraction `0 <= f < 1` of a step before `stop` lies on this side of
    * `stop`, and one more step passes it. */
  lemma ShortOfStop(stop: real, step: real, last: real, f: real)
    requires 0.0 <= f < 1.0
    requires last == stop - f * step
    ensures 0.0 < step ==> last <= stop < last + step
    ensures step < 0.0 ==> stop <= last && last + step < stop
  {
    FractionOfStep(f, step);
  }

  /** A fraction `0 <= f < 1` of a step lies on the step's side of zero and short of it. */
  lemma FractionOfStep(f: real, step: real)
    requires 0.0 <= f < 1.0
    ensures 0.0 < step ==> 0.0 <= f * step < step
    ensures step < 0.0 ==> step < f * step <= 0.0
  {
    assert step - f * step == (1.0 - f) * step;
  }

  /** When `stop - start` is an exact multiple `k` of `step`, the last value is `stop`. */
  lemma FloatrangeExactMultiple(start: real, stop: real, step: real, k: nat)
    requires step != 0.0 && stop - start == k as real * step
    ensures var vs := FloatrangeValues(start, stop, step);
      |vs| == k + 1 && vs[k] == stop
  {
    assert (stop - start) / step == k as real;
  }

  /** The test cases of linspace.rs. */
  lemma GridExamples()
    ensures |LinspaceValues(0.0, 10.0, 10)| == 10
    ensures LinspaceValues(0.0, 10.0, 0) == []
    ensures |LinspaceValues(0.0, 0.0, 100)| == 100
    ensures LinspaceValues(0.0, 10.0, 10)[0] == 0.0 && LinspaceValues(0.0, 10.0, 10)[9] == 10.0
    ensures LinspaceValues(0.0, 2.0, 3) == [0.0, 1.0, 2.0]
    ensures |FloatrangeValues(0.0, 10.0, 1.0)| == 11
    ensures FloatrangeValues(0.0, 10.0, 1.0)[0] == 0.0 && FloatrangeValues(0.0, 10.0, 1.0)[10] == 10.0
    ensures |FloatrangeValues(0.0, 10.0, 11.0)| == 1
    ensures |FloatrangeValues(0.0, 0.0, 10.0)| == 1
    ensures FloatrangeValues(0.0, 2.0, 1.0) == [0.0, 1.0, 2.0]
  {
    LinspaceEndpoints(0.0, 10.0, 10);
    FloatrangeExactMultiple(0.0, 10.0, 1.0, 10);
    FloatrangeExactMultiple(0.0, 2.0, 1.0, 2);
    assert LinspaceValues(0.0, 2.0, 3) == [0.0, 1.0, 2.0];
    assert FloatrangeValues(0.0, 2.0, 1.0) == [0.0, 1.0, 2.0];
  }

  /** The mismatch the source carries: for a fresh `Floatrange`, `Len()` is one less than
    * the number of values `Next` produces (11 values, `Len()` 10, for `floatrange(0, 10, 1)`). */
  method FloatrangeLenMismatch() returns (reported: nat, yielded: nat)
    ensures reported == 10 && yielded == 11
  {
    var it := new Floatrange(0.0, 10.0, 1.0);
    FloatrangeExactMultiple(0.0, 10.0, 1.0, 10);
    reported := it.Len();
    var vs := it.Drain();
    yielded := |vs|;
  }
}
