/** What several of the models use: optional values, the lesser of two numbers, copies, products. */
module Common {

  datatype Option<+T> = None | Some(value: T)

  function Min(a: nat, b: nat): nat { if a < b then a else b }

  function Repeat<A>(a: A, n: nat): (r: seq<A>)
    ensures |r| == n && forall i | 0 <= i < n :: r[i] == a
  {
    seq(n, _ => a)
  }

  lemma MulMonotone(a: nat, b: nat, c: nat, d: nat)
    requires a <= b && c <= d
    ensures a * c <= b * d
  {
    assert a * c <= b * c by { assert b * c == a * c + (b - a) * c; }
    assert b * c <= b * d by { assert b * d == b * c + b * (d - c); }
  }
}
