/** `xs.slice(0, n)` on lists. */
module Lists {

  function Min(a: nat, b: nat): nat { if a <= b then a else b }

  /** The first `n` elements (all of them when there are fewer), in order. */
  function Take<T>(xs: seq<T>, n: nat): (r: seq<T>)
    ensures |r| == Min(|xs|, n)
    ensures r <= xs
    ensures |xs| <= n ==> r == xs
  {
    if |xs| <= n then xs else xs[..n]
  }

  /** Taking a shorter prefix of a prefix is taking the shorter prefix. */
  lemma TakeTake<T>(xs: seq<T>, m: nat, n: nat)
    requires m <= n
    ensures Take(Take(xs, n), m) == Take(xs, m)
  {
  }
}
