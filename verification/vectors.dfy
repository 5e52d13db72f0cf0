/** Vector helpers shared by the recursion: inner products, zero vectors and
    the index flip that stands in for multiplication by the reversal matrix J
    (equation (12) of Vos, "A Fast Implementation of Burg's Method"). */
module Vectors {

  /** Inner product of the first n entries, accumulated left to right as the
      source's loops do: u[0]·v[0] + … + u[n-1]·v[n-1]. */
  function Dot(u: seq<real>, v: seq<real>, n: nat): real
    requires n <= |u| && n <= |v|
  {
    if n == 0 then 0.0 else Dot(u, v, n - 1) + u[n - 1] * v[n - 1]
  }

  function Zeros(n: nat): (z: seq<real>)
    ensures |z| == n
    ensures forall j :: 0 <= j < n ==> z[j] == 0.0
  {
    seq(n, _ => 0.0)
  }

  /** `JinversOrder`: the flipped index max − index, which stays in 0..max. */
  function JinversOrder(index: int, max: int): (r: int)
    requires 0 <= index <= max
    ensures 0 <= r <= max
  {
    max - index
  }

  /** Flipping twice gives the index back. */
  lemma JinversOrderInvolution(index: int, max: int)
    requires 0 <= index <= max
    ensures JinversOrder(JinversOrder(index, max), max) == index
  {
  }

  /** J·v[0..max]: the first max+1 entries of v in reverse order. */
  function Flip(v: seq<real>, max: nat): (w: seq<real>)
    requires max < |v|
    ensures |w| == max + 1
  {
    seq(max + 1, j requires 0 <= j <= max => v[JinversOrder(j, max)])
  }

  /** A sum of products each of which is zero is zero. */
  lemma {:induction false} DotOfZeroProducts(u: seq<real>, v: seq<real>, n: nat)
    requires n <= |u| && n <= |v|
    requires forall j :: 0 <= j < n ==> u[j] == 0.0 || v[j] == 0.0
    ensures Dot(u, v, n) == 0.0
  {
    if n > 0 {
      DotOfZeroProducts(u, v, n - 1);
    }
  }
}
