/** The Rust range iterators the move generator feeds to its ray scan,
    as finite sequences of integers: `lo..hi`, `.rev()` and `.step_by(n)`. */
module Ranges {

  /** start, start + step, ..., count elements. */
  function Arith(start: int, step: int, count: nat): (r: seq<int>)
    ensures |r| == count
    ensures forall k :: 0 <= k < count ==> r[k] == start + step * k
  {
    seq(count, k => start + step * k)
  }

  /** `lo..hi`: lo, lo + 1, ..., hi - 1 (empty when hi <= lo). */
  function Range(lo: int, hi: int): seq<int> {
    Arith(lo, 1, if lo < hi then hi - lo else 0)
  }

  /** `.rev()` */
  function Rev(s: seq<int>): (r: seq<int>)
    ensures |r| == |s| && forall k :: 0 <= k < |s| ==> r[k] == s[|s| - 1 - k]
  {
    seq(|s|, k requires 0 <= k < |s| => s[|s| - 1 - k])
  }

  /** `.step_by(n)`: the first element, then every n-th one after it. */
  function StepBy(s: seq<int>, n: nat): seq<int>
    requires n > 0
    decreases |s|
  {
    if s == [] then [] else [s[0]] + StepBy(s[if n < |s| then n else |s|..], n)
  }

  /** Stepping through an arithmetic sequence gives the arithmetic sequence
      with an n-times larger step `d` and ceil(count / n) = `m` elements. */
  lemma {:induction false} StepByArith(start: int, step: int, count: nat, n: nat, d: int, m: nat)
    requires n > 0 && d == step * n
    requires count == 0 ==> m == 0
    requires count > 0 ==> (m - 1) * n < count <= m * n
    ensures StepBy(Arith(start, step, count), n) == Arith(start, d, m)
    decreases count
  {
    var s := Arith(start, step, count);
    if count == 0 {
      assert s == [];
    } else if count <= n {
      assert s[count..] == [];
    } else {
      ArithDrop(start, step, count, n);
      assert (m - 2) * n == (m - 1) * n - n;
      StepByArith(start + d, step, count - n, n, d, m - 1);
      ArithCons(start, d, m);
    }
  }

  /** Dropping the first n elements of an arithmetic sequence starts it n
      steps later. */
  lemma ArithDrop(start: int, step: int, count: nat, n: nat)
    requires n <= count
    ensures Arith(start, step, count)[n..] == Arith(start + step * n, step, count - n)
  {
    var s, tail := Arith(start, step, count), Arith(start + step * n, step, count - n);
    forall k | 0 <= k < count - n ensures s[n..][k] == tail[k] {
      Distribute(step, n, k);
    }
  }

  /** An arithmetic sequence is its start followed by the sequence from the
      next element. */
  lemma ArithCons(start: int, d: int, m: nat)
    requires m > 0
    ensures Arith(start, d, m) == [start] + Arith(start + d, d, m - 1)
  {
    var whole, rest := Arith(start, d, m), Arith(start + d, d, m - 1);
    forall k | 0 <= k < m ensures whole[k] == ([start] + rest)[k] {
      if k > 0 {
        assert d * k == d + d * (k - 1);
      }
    }
  }

  lemma Distribute(a: int, b: int, c: int)
    ensures a * (b + c) == a * b + a * c
  {}

  /** Reversing an arithmetic sequence walks it back from its last element. */
  lemma RevArith(start: int, step: int, count: nat)
    ensures Rev(Arith(start, step, count)) == Arith(start + step * (count - 1), -step, count)
  {
    var a, b := Rev(Arith(start, step, count)), Arith(start + step * (count - 1), -step, count);
    forall k | 0 <= k < count ensures a[k] == b[k] {
      assert step * (count - 1 - k) == step * (count - 1) - step * k;
    }
  }
}
