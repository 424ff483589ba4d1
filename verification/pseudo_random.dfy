/** The linear congruential generator of stochastic.py: a single integer state,
    advanced by `state := (state * 17 + 43) % 100`, each advance returning the
    new state. The generator is a value; advancing it yields the next value. */
module PseudoRandom {

  const Multiplier: int := 17
  const Increment: int := 43
  const Modulus: int := 100
  /** The seed a product's generator starts from. */
  const DefaultSeed: int := 7

  /** Python's `a // m` for a positive modulus: the quotient rounded towards
      minus infinity (Dafny's Euclidean `/` agrees with it when m > 0). */
  function FloorDiv(a: int, m: int): (q: int)
    requires m > 0
    ensures q * m <= a < q * m + m
  {
    a / m
  }

  /** Python's `a % m` for a positive modulus: what remains after floor division,
      so the remainder is non-negative even for a negative `a`. */
  function FloorMod(a: int, m: int): (r: int)
    requires m > 0
    ensures 0 <= r < m
    ensures a == FloorDiv(a, m) * m + r
  {
    a - FloorDiv(a, m) * m
  }

  /** One transition of the recurrence, from any integer state. */
  function Step(s: int): (r: int)
    ensures 0 <= r < Modulus
    ensures s * Multiplier + Increment == FloorDiv(s * Multiplier + Increment, Modulus) * Modulus + r
  {
    FloorMod(s * Multiplier + Increment, Modulus)
  }

  datatype Generator = Generator(state: int)

  /** `next()`: advance the state once and return the new state. */
  function Next(g: Generator): (r: (Generator, int))
    ensures r.0.state == r.1
    ensures 0 <= r.1 < Modulus
    ensures r.1 == Step(g.state)
  {
    var s := Step(g.state);
    (Generator(s), s)
  }

  /** The values returned by n successive `next()` calls, and the generator afterwards. */
  datatype Stream = Stream(draws: seq<int>, after: Generator)

  function NextN(g: Generator, n: nat): (r: Stream)
    ensures |r.draws| == n
    ensures forall i :: 0 <= i < n ==> 0 <= r.draws[i] < Modulus
    ensures n > 0 ==> r.after.state == r.draws[n - 1]
  {
    if n == 0 then Stream([], g)
    else
      var prev := NextN(g, n - 1);
      var (h, x) := Next(prev.after);
      Stream(prev.draws + [x], h)
  }

  /** The state after k transitions from s: a reference definition of the sequence. */
  function Iterate(s: int, k: nat): int
  {
    if k == 0 then s else Step(Iterate(s, k - 1))
  }

  /** Determinism: the i-th draw is a function of the starting state and i alone,
      and so is the state the generator is left in. */
  lemma {:induction false} NextNIterates(g: Generator, n: nat)
    ensures forall i :: 0 <= i < n ==> NextN(g, n).draws[i] == Iterate(g.state, i + 1)
    ensures NextN(g, n).after.state == Iterate(g.state, n)
  {
    if n > 0 {
      NextNIterates(g, n - 1);
    }
  }

  /** Generators with equal states produce the same n draws and end in equal
      states. This holds by construction: a generator is nothing but its state. */
  lemma SameStateSameDraws(g1: Generator, g2: Generator, n: nat)
    requires g1.state == g2.state
    ensures NextN(g1, n).draws == NextN(g2, n).draws
    ensures NextN(g1, n).after.state == NextN(g2, n).after.state
  {
  }

  lemma {:induction false} IterateAdd(s: int, m: nat, k: nat)
    ensures Iterate(Iterate(s, m), k) == Iterate(s, m + k)
  {
    if k > 0 {
      IterateAdd(s, m, k - 1);
    }
  }

  /** Drawing m values and then n more from where the generator stopped is the
      same as drawing m + n values at once. */
  lemma {:induction false} ResumeWhereStopped(g: Generator, m: nat, n: nat)
    ensures NextN(g, m + n).draws == NextN(g, m).draws + NextN(NextN(g, m).after, n).draws
    ensures NextN(g, m + n).after == NextN(NextN(g, m).after, n).after
  {
    var whole := NextN(g, m + n);
    var first := NextN(g, m);
    var second := NextN(first.after, n);
    NextNIterates(g, m + n);
    NextNIterates(g, m);
    NextNIterates(first.after, n);
    forall i | 0 <= i < m + n
      ensures whole.draws[i] == (first.draws + second.draws)[i]
    {
      if i >= m {
        IterateAdd(g.state, m, i - m + 1);
      }
    }
    IterateAdd(g.state, m, n);
  }

  /** From the default seed 7 the first draws are 62, 97, 92. */
  lemma DefaultSeedDraws()
    ensures NextN(Generator(DefaultSeed), 3).draws == [62, 97, 92]
  {
    var g := Generator(DefaultSeed);
    assert Step(7) == 62 && Step(62) == 97 && Step(97) == 92;
    assert NextN(g, 1) == Stream([62], Generator(62));
    assert NextN(g, 2) == Stream([62, 97], Generator(97));
  }

  /** A negative state still yields a draw in [0, 100): -10 * 17 + 43 = -127 gives 73, not -27. */
  lemma NegativeStateDraw()
    ensures Next(Generator(-10)).1 == 73
  {
  }
}
