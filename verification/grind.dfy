/** The Park-Miller generator of grind, by Schrage's method. */
module Grind {
  const M: int := 0x7fff_ffff        // 2^31 - 1
  const A: int := 16807              // 7^5
  const Q: int := 127773             // M / A
  const R: int := 2836               // M % A
  const A_INVERSE: int := 1407677000 // A * A_INVERSE == 1 modulo M

  /** x' = A * x mod M, the recurrence that the comment in the source states. */
  function Step(x: int): int { (A * x) % M }

  function StepBack(y: int): int { (A_INVERSE * y) % M }

  lemma ModIs(x: int, q: int, r: int)
    requires x == q * M + r && 0 <= r < M
    ensures x % M == r
  {
  }

  /** Schrage: splitting x by Q gives A * x mod M with small intermediates. */
  lemma Schrage(x: int)
    requires 1 <= x < M
    ensures var hi, lo := x / Q, x % Q;
            && 0 <= A * lo < 0x8000_0000 && 0 <= R * hi < 0x8000_0000
            && -M < A * lo - R * hi < M
            && Step(x) == if A * lo - R * hi < 0 then A * lo - R * hi + M else A * lo - R * hi
  {
    var hi, lo := x / Q, x % Q;
    assert M == A * Q + R;
    assert x == hi * Q + lo;
    assert A * x == hi * M + (A * lo - R * hi);
    if A * lo - R * hi < 0 {
      assert A * x == (hi - 1) * M + (A * lo - R * hi + M);
      ModIs(A * x, hi - 1, A * lo - R * hi + M);
    } else {
      ModIs(A * x, hi, A * lo - R * hi);
    }
  }

  lemma MulMod(a: int, x: int)
    ensures (a * (x % M)) % M == (a * x) % M
  {
    var q := x / M;
    assert x == q * M + x % M;
    assert a * x == (a * q) * M + a * (x % M);
    var y := a * (x % M);
    assert a * x == (a * q + y / M) * M + y % M;
    ModIs(a * x, a * q + y / M, y % M);
  }

  lemma Inverse(x: int)
    requires 0 <= x < M
    ensures (A_INVERSE * (A * x)) % M == x && (A * (A_INVERSE * x)) % M == x
  {
    assert A * A_INVERSE == 11017 * M + 1;
    assert A_INVERSE * (A * x) == (11017 * x) * M + x;
    ModIs(A_INVERSE * (A * x), 11017 * x, x);
  }

  /** Step is a permutation of 1..M-1, with StepBack as its inverse. */
  lemma StepPermutes(x: int)
    requires 1 <= x < M
    ensures 1 <= Step(x) < M && StepBack(Step(x)) == x
    ensures 1 <= StepBack(x) < M && Step(StepBack(x)) == x
  {
    MulMod(A_INVERSE, A * x);
    MulMod(A, A_INVERSE * x);
    Inverse(x);
  }

  /** do_rand.  The state and the result are A * (ctx mod (M - 1) + 1) mod M, less one. */
  method DoRand(ctx: nat) returns (x: int)
    ensures x == Step(ctx % (M - 1) + 1) - 1
    ensures 0 <= x <= 0x7fff_fffd
    ensures ctx < M - 1 ==> ctx == StepBack(x + 1) - 1
  {
    x := ctx % 0x7fff_fffe + 1;
    ghost var start := x;
    Schrage(start);
    StepPermutes(start);
    var hi := x / 127773;
    var lo := x % 127773;
    x := 16807 * lo - 2836 * hi;
    if x < 0 {
      x := x + 0x7fff_ffff;
    }
    assert x == Step(start);
    x := x - 1;
  }

  function Next(ctx: int): int { Step(ctx + 1) - 1 }

  function Iterate(ctx: int, n: nat): int
  {
    if n == 0 then ctx else Next(Iterate(ctx, n - 1))
  }

  /** A stream never runs two seeds together and never leaves the range. */
  lemma {:induction false} StreamsStayApart(a: int, b: int, n: nat)
    requires 0 <= a < M - 1 && 0 <= b < M - 1
    ensures 0 <= Iterate(a, n) < M - 1 && 0 <= Iterate(b, n) < M - 1
    ensures Iterate(a, n) == Iterate(b, n) ==> a == b
  {
    if n > 0 {
      StreamsStayApart(a, b, n - 1);
      StepPermutes(Iterate(a, n - 1) + 1);
      StepPermutes(Iterate(b, n - 1) + 1);
    }
  }
}
