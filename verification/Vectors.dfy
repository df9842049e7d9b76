/** Sums and distances of real vectors. */
module Vectors {

  function Total(v: seq<real>): real {
    if v == [] then 0.0 else Total(v[..|v| - 1]) + v[|v| - 1]
  }

  function Abs(x: real): (y: real)
    ensures y >= 0.0 && y >= x && y >= -x && (y == x || y == -x)
  {
    if x < 0.0 then -x else x
  }

  function Gaps(a: seq<real>, b: seq<real>): (c: seq<real>)
    requires |a| == |b|
    ensures |c| == |a| && forall i | 0 <= i < |a| :: c[i] == Abs(a[i] - b[i])
  {
    seq(|a|, i requires 0 <= i < |a| => Abs(a[i] - b[i]))
  }

  /** The L1 distance. */
  function Distance(a: seq<real>, b: seq<real>): real
    requires |a| == |b|
  {
    Total(Gaps(a, b))
  }

  predicate NonNegative(v: seq<real>) {
    forall i | 0 <= i < |v| :: v[i] >= 0.0
  }

  /** Changing one entry changes the total by as much. */
  lemma {:induction false} TotalUpdate(a: seq<real>, t: nat, delta: real)
    requires t < |a|
    ensures Total(a[t := a[t] + delta]) == Total(a) + delta
    decreases |a|
  {
    var b, n := a[t := a[t] + delta], |a| - 1;
    if t < n {
      assert b[..n] == a[..n][t := a[..n][t] + delta];
      TotalUpdate(a[..n], t, delta);
    } else {
      assert b[..n] == a[..n];
    }
  }

  lemma {:induction false} TotalMonotone(a: seq<real>, b: seq<real>)
    requires |a| == |b| && forall i | 0 <= i < |a| :: a[i] <= b[i]
    ensures Total(a) <= Total(b)
    decreases |a|
  {
    if a != [] { TotalMonotone(a[..|a| - 1], b[..|b| - 1]); }
  }

  lemma {:induction false} TotalScale(a: seq<real>, x: real, b: seq<real>)
    requires |a| == |b| && forall i | 0 <= i < |a| :: b[i] == x * a[i]
    ensures Total(b) == x * Total(a)
    decreases |a|
  {
    if a != [] { TotalScale(a[..|a| - 1], x, b[..|b| - 1]); }
  }

  lemma {:induction false} TotalSum(a: seq<real>, b: seq<real>, c: seq<real>)
    requires |a| == |b| == |c| && forall i | 0 <= i < |a| :: c[i] == a[i] + b[i]
    ensures Total(c) == Total(a) + Total(b)
    decreases |a|
  {
    if a != [] { TotalSum(a[..|a| - 1], b[..|b| - 1], c[..|c| - 1]); }
  }

  lemma {:induction false} TotalZero(a: seq<real>)
    requires forall i | 0 <= i < |a| :: a[i] == 0.0
    ensures Total(a) == 0.0
    decreases |a|
  {
    if a != [] { TotalZero(a[..|a| - 1]); }
  }

  lemma TotalNonNegative(a: seq<real>)
    requires NonNegative(a)
    ensures Total(a) >= 0.0
  {
  }


  /** Distance is at most the two masses together. */
  lemma DistanceBound(a: seq<real>, b: seq<real>)
    requires |a| == |b| && NonNegative(a) && NonNegative(b)
    ensures Distance(a, b) <= Total(a) + Total(b)
  {
    var c := seq(|a|, i requires 0 <= i < |a| => a[i] + b[i]);
    TotalSum(a, b, c);
    TotalMonotone(Gaps(a, b), c);
  }

  lemma DistanceTriangle(a: seq<real>, b: seq<real>, c: seq<real>)
    requires |a| == |b| == |c|
    ensures Distance(a, c) <= Distance(a, b) + Distance(b, c)
  {
    var via := seq(|a|, i requires 0 <= i < |a| => Abs(a[i] - b[i]) + Abs(b[i] - c[i]));
    TotalSum(Gaps(a, b), Gaps(b, c), via);
    TotalMonotone(Gaps(a, c), via);
  }

  /** No distance, no difference. */
  lemma {:induction false} DistanceZero(a: seq<real>, b: seq<real>)
    requires |a| == |b| && Distance(a, b) <= 0.0
    ensures a == b
    decreases |a|
  {
    if a != [] {
      var n := |a| - 1;
      assert Gaps(a, b)[..n] == Gaps(a[..n], b[..n]);
      TotalNonNegative(Gaps(a[..n], b[..n]));
      DistanceZero(a[..n], b[..n]);
      assert a == a[..n] + [a[n]] && b == b[..n] + [b[n]];
    }
  }

  /** 0.85, 0.7225, ... */
  function Power(x: real, k: nat): real {
    if k == 0 then 1.0 else x * Power(x, k - 1)
  }
}
