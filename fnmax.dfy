/** `fnmax` (theconv.c): the extreme of a run of values under a sign. It is
    called with `fact` +1 for a maximum and -1 for a minimum, to find the
    corners of a transformed sprite's bounding box. The variadic arguments
    are a sequence here; the C `double` is a `real`, without rounding. */
module Extremes {

  /** How many variadic values `fnmax(q, …)` reads: `--q > 0` holds `q - 1`
      times for a positive `q`. */
  function Reads(q: int): (n: nat)
    ensures q >= 1 ==> n == q - 1
    ensures q <= 1 ==> n == 0
  {
    if q > 1 then q - 1 else 0
  }

  /** The running extreme over `xs` starting from `m`: a value replaces the
      current one only when it is strictly greater after scaling by `fact`. */
  function Best(fact: real, m: real, xs: seq<real>): real
    decreases |xs|
  {
    if xs == [] then m
    else Best(fact, if xs[0] * fact > m * fact then xs[0] else m, xs[1..])
  }

  /** `fnmax`: the extreme of `max` and the first `q - 1` values of `args`. */
  method FnMax(q: int, fact: real, max: real, args: seq<real>) returns (r: real)
    requires q - 1 <= |args|
    ensures r == Best(fact, max, args[..Reads(q)])
  {
    var n := Reads(q);
    var k := q - 1;
    var i := 0;
    r := max;
    while k > 0
      invariant 0 <= i <= n && k == q - 1 - i
      invariant Best(fact, r, args[i..n]) == Best(fact, max, args[..n])
    {
      var test := args[i];
      assert args[i..n][1..] == args[i + 1..n];
      if test * fact > r * fact {
        r := test;
      }
      i := i + 1;
      k := k - 1;
    }
    assert args[i..n] == [];
  }

  /** The extreme is the start value or one of the values, and no value
      scales above it. */
  lemma {:induction false} BestBounds(fact: real, m: real, xs: seq<real>)
    ensures Best(fact, m, xs) == m || Best(fact, m, xs) in xs
    ensures m * fact <= Best(fact, m, xs) * fact
    ensures forall x :: x in xs ==> x * fact <= Best(fact, m, xs) * fact
    decreases |xs|
  {
    if xs != [] {
      var m' := if xs[0] * fact > m * fact then xs[0] else m;
      BestBounds(fact, m', xs[1..]);
      forall x | x in xs
        ensures x * fact <= Best(fact, m, xs) * fact
      {
        if x != xs[0] {
          assert x in xs[1..];
        }
      }
    }
  }

  /** Ties keep the earlier value: the extreme is the start value unless some
      value scales strictly above it, and otherwise the first value that
      reaches the extreme's scaled size, every value before it scaling
      strictly below. */
  lemma {:induction false} BestFirst(fact: real, m: real, xs: seq<real>)
    ensures Best(fact, m, xs) * fact == m * fact ==> Best(fact, m, xs) == m
    ensures Best(fact, m, xs) != m ==>
      exists k :: 0 <= k < |xs| && xs[k] == Best(fact, m, xs)
                  && m * fact < xs[k] * fact
                  && forall j :: 0 <= j < k ==> xs[j] * fact < xs[k] * fact
    decreases |xs|
  {
    if xs != [] {
      var r := Best(fact, m, xs);
      if xs[0] * fact > m * fact {
        BestFirst(fact, xs[0], xs[1..]);
        BestBounds(fact, xs[0], xs[1..]);
        if r != m {
          if r == xs[0] {
            assert 0 <= 0 < |xs| && xs[0] == r;
          } else {
            var k :| 0 <= k < |xs[1..]| && xs[1..][k] == r && xs[0] * fact < xs[1..][k] * fact
                     && forall j :: 0 <= j < k ==> xs[1..][j] * fact < xs[1..][k] * fact;
            forall j | 0 <= j < k + 1
              ensures xs[j] * fact < xs[k + 1] * fact
            {
              if j > 0 {
                assert xs[j] == xs[1..][j - 1];
              }
            }
            assert xs[k + 1] == r;
          }
        }
      } else {
        BestFirst(fact, m, xs[1..]);
        if r != m {
          var k :| 0 <= k < |xs[1..]| && xs[1..][k] == r && m * fact < xs[1..][k] * fact
                   && forall j :: 0 <= j < k ==> xs[1..][j] * fact < xs[1..][k] * fact;
          forall j | 0 <= j < k + 1
            ensures xs[j] * fact < xs[k + 1] * fact
          {
            if j > 0 {
              assert xs[j] == xs[1..][j - 1];
            }
          }
          assert xs[k + 1] == r;
        }
      }
    }
  }

  /** With a zero factor nothing compares greater and the start value stays. */
  lemma {:induction false} BestZero(m: real, xs: seq<real>)
    ensures Best(0.0, m, xs) == m
    decreases |xs|
  {
    if xs != [] {
      BestZero(m, xs[1..]);
    }
  }

  /** The minimum (`fact` -1) never exceeds the maximum (`fact` +1) of the
      same values, so the bounding box `fnmax` computes is never inverted. */
  lemma MinNotAboveMax(m: real, xs: seq<real>)
    ensures Best(-1.0, m, xs) <= Best(1.0, m, xs)
  {
    BestBounds(-1.0, m, xs);
    BestBounds(1.0, m, xs);
  }
}
