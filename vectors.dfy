/**
 * Three-component vectors, as the host's MVector, over exact reals, and the
 * arithmetic mean that the center point node computes from them.
 */
module Vectors {

  datatype Vec3 = Vec3(x: real, y: real, z: real)

  /** The accumulator's starting value, (0, 0, 0). */
  const Zero: Vec3 := Vec3(0.0, 0.0, 0.0)

  /** The three coordinate axes, for stating facts one component at a time. */
  datatype Axis = X | Y | Z

  function Coord(v: Vec3, a: Axis): real
  {
    match a
    case X => v.x
    case Y => v.y
    case Z => v.z
  }

  /** Componentwise addition, the vector `+=`. */
  function Add(a: Vec3, b: Vec3): Vec3
  {
    Vec3(a.x + b.x, a.y + b.y, a.z + b.z)
  }

  /** Every component multiplied by `k`. */
  function Scale(v: Vec3, k: real): Vec3
  {
    Vec3(v.x * k, v.y * k, v.z * k)
  }

  /** Every component divided by `k`, the vector `/` by a scalar. */
  function Div(v: Vec3, k: real): Vec3
    requires k != 0.0
  {
    Vec3(v.x / k, v.y / k, v.z / k)
  }

  /**
   * The sum of the vectors of `s`, accumulated in list order starting from
   * Zero: the last element is added to the sum of all the others.
   */
  function Sum(s: seq<Vec3>): Vec3
  {
    if s == [] then Zero else Add(Sum(s[..|s| - 1]), s[|s| - 1])
  }

  /** The plain sum of one coordinate over `s`, taken front to back. */
  function Total(s: seq<Vec3>, a: Axis): real
  {
    if s == [] then 0.0 else Coord(s[0], a) + Total(s[1..], a)
  }

  /**
   * The arithmetic mean of a non-empty list of vectors. Multiplying it back
   * by the number of vectors gives their sum.
   */
  function Mean(s: seq<Vec3>): (m: Vec3)
    requires |s| > 0
    ensures Scale(m, |s| as real) == Sum(s)
  {
    Div(Sum(s), |s| as real)
  }

  /** Summing a concatenation is adding the sums of its parts. */
  lemma {:induction false} SumAppend(a: seq<Vec3>, b: seq<Vec3>)
    ensures Sum(a + b) == Add(Sum(a), Sum(b))
  {
    if b == [] {
      assert a + b == a;
    } else {
      var n := |b| - 1;
      assert (a + b)[..|a + b| - 1] == a + b[..n];
      assert (a + b)[|a + b| - 1] == b[n];
      SumAppend(a, b[..n]);
    }
  }

  /** Each coordinate of Sum(s) is the plain sum of that coordinate over `s`. */
  lemma {:induction false} SumIsComponentwise(s: seq<Vec3>, a: Axis)
    ensures Coord(Sum(s), a) == Total(s, a)
  {
    if s != [] {
      assert s == [s[0]] + s[1..];
      SumAppend([s[0]], s[1..]);
      assert [s[0]][..0] == [];
      SumIsComponentwise(s[1..], a);
    }
  }

  /** Each coordinate of the mean is that coordinate's total divided by the count. */
  lemma MeanIsComponentwise(s: seq<Vec3>, a: Axis)
    requires |s| > 0
    ensures Coord(Mean(s), a) == Total(s, a) / (|s| as real)
  {
    SumIsComponentwise(s, a);
  }

  /** A one-element list sums to its element. */
  lemma SumOfSingleton(v: Vec3)
    ensures Sum([v]) == v
  {
  }

  /** Taking one element out of a list and adding it back gives the same sum. */
  lemma SumRemove(b: seq<Vec3>, i: nat)
    requires i < |b|
    ensures Sum(b) == Add(Sum(b[..i] + b[i + 1..]), b[i])
  {
    var front, v, back := b[..i], b[i], b[i + 1..];
    assert b == front + ([v] + back);
    SumAppend(front, [v] + back);
    SumAppend([v], back);
    SumOfSingleton(v);
    SumAppend(front, back);
    var f, k := Sum(front), Sum(back);
    assert Sum(b) == Add(f, Add(v, k));
    assert Sum(front + back) == Add(f, k);
  }

  /** Reordering the vectors does not change their sum. */
  lemma {:induction false} SumPermutation(a: seq<Vec3>, b: seq<Vec3>)
    requires multiset(a) == multiset(b)
    ensures Sum(a) == Sum(b)
    decreases |a|
  {
    if a == [] {
      assert |b| == |multiset(b)| == 0;
    } else {
      var n := |a| - 1;
      var v := a[n];
      assert a == a[..n] + [v];
      assert v in multiset(b);
      var i :| 0 <= i < |b| && b[i] == v;
      var rest := b[..i] + b[i + 1..];
      assert b == b[..i] + [v] + b[i + 1..];
      assert multiset(rest) == multiset(b) - multiset{v};
      assert multiset(a[..n]) == multiset(a) - multiset{v};
      SumPermutation(a[..n], rest);
      SumRemove(b, i);
    }
  }

  /** The mean of one vector is that vector. */
  lemma MeanOfSingleton(v: Vec3)
    ensures Mean([v]) == v
  {
    SumOfSingleton(v);
  }

  /** Reordering the vectors does not change their mean. */
  lemma MeanPermutation(a: seq<Vec3>, b: seq<Vec3>)
    requires |a| > 0
    requires multiset(a) == multiset(b)
    ensures |b| == |a| && Mean(a) == Mean(b)
  {
    assert |a| == |multiset(a)| == |multiset(b)| == |b|;
    SumPermutation(a, b);
  }

  /** The mean is the one vector that, multiplied by the count, gives the sum. */
  lemma MeanIsUnique(s: seq<Vec3>, c: Vec3)
    requires |s| > 0
    ensures Scale(c, |s| as real) == Sum(s) <==> c == Mean(s)
  {
    var n, m := |s| as real, Sum(s);
    DivideBothSides(c.x, m.x, n);
    DivideBothSides(c.y, m.y, n);
    DivideBothSides(c.z, m.z, n);
  }

  lemma DivideBothSides(p: real, q: real, n: real)
    requires n != 0.0
    ensures p * n == q <==> p == q / n
  {
    if p * n == q {
      assert q / n == (p * n) / n;
    }
  }
}
