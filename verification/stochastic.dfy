/** The rule-based simulation of stochastic.py: a product whose daily demand is
    one below, at, or one above its mean depending on the next draw of its own
    generator, and the day loop that applies that demand to stock. */
module Stochastic {
  import opened Ledger
  import opened PseudoRandom

  /** Draws below this give one unit less than the mean. */
  const LowThreshold: int := 20
  /** Draws at or above this give one unit more than the mean. */
  const HighThreshold: int := 70

  /** The demand rule for one draw. It is not clamped: a mean of 1 or less can give 0 or less. */
  function RuleDemand(draw: int, mean: int): (d: int)
    ensures mean - 1 <= d <= mean + 1
    ensures d == mean - 1 <==> draw < LowThreshold
    ensures d == mean <==> LowThreshold <= draw < HighThreshold
    ensures d == mean + 1 <==> HighThreshold <= draw
  {
    if draw < LowThreshold then mean - 1
    else if draw < HighThreshold then mean
    else mean + 1
  }

  /** A larger draw never gives a smaller demand. */
  lemma RuleDemandMonotone(a: int, b: int, mean: int)
    requires a <= b
    ensures RuleDemand(a, mean) <= RuleDemand(b, mean)
  {
  }

  /** Worked values for a mean of 3, the threshold boundaries, and a mean of 1
      where the lowest band yields a demand of 0. */
  lemma RuleDemandExamples()
    ensures RuleDemand(15, 3) == 2 && RuleDemand(50, 3) == 3 && RuleDemand(85, 3) == 4
    ensures RuleDemand(19, 3) == 2 && RuleDemand(20, 3) == 3
    ensures RuleDemand(69, 3) == 3 && RuleDemand(70, 3) == 4
    ensures RuleDemand(0, 1) == 0
  {
  }

  /** A product of stochastic.py; each product owns its generator. */
  datatype Product = Product(name: string, stock: int, meanDemand: int, leadTime: int, rng: Generator)

  /** A new product: its generator starts from the default seed. */
  function Create(name: string, initialStock: int, meanDemand: int, leadTime: int): (p: Product)
    ensures p.name == name && p.stock == initialStock
    ensures p.meanDemand == meanDemand && p.leadTime == leadTime
    ensures p.rng.state == DefaultSeed
  {
    Product(name, initialStock, meanDemand, leadTime, Generator(DefaultSeed))
  }

  /** `generate_stochastic_demand`: one `next()` and the demand rule applied to it. */
  function GenerateDemand(p: Product): (r: (Product, int))
    ensures r.0 == p.(rng := Next(p.rng).0)
    ensures r.1 == RuleDemand(r.0.rng.state, p.meanDemand)
  {
    var (g, rn) := Next(p.rng);
    (p.(rng := g), RuleDemand(rn, p.meanDemand))
  }

  /** `update_inventory`: generate one day's demand, take it from stock, return it.
      The generator moves exactly one step; name, mean and lead time are kept. */
  function UpdateInventory(p: Product): (r: (Product, int))
    ensures r.0 == p.(stock := p.stock - r.1, rng := Next(p.rng).0)
    ensures r.1 == RuleDemand(Next(p.rng).1, p.meanDemand)
  {
    var (q, demand) := GenerateDemand(p);
    (q.(stock := q.stock - demand), demand)
  }

  /** The final product and the list of daily demands of a run. */
  datatype Report = Report(product: Product, demands: seq<int>)

  /** The day loop: `update_inventory` called once per day for `days` days,
      each demand appended to the list. A non-positive `days` runs no day. */
  function Simulate(p: Product, days: int): (r: Report)
    ensures |r.demands| == if days > 0 then days else 0
    ensures r.product.stock == p.stock - Sum(r.demands)
    ensures r.product.name == p.name && r.product.meanDemand == p.meanDemand
    ensures r.product.leadTime == p.leadTime
    decreases days
  {
    if days <= 0 then Report(p, [])
    else
      var prev := Simulate(p, days - 1);
      var (q, d) := UpdateInventory(prev.product);
      assert (prev.demands + [d])[..|prev.demands|] == prev.demands;
      Report(q, prev.demands + [d])
  }

  /** One more day appends one demand to the list of the shorter run. */
  lemma SimulateSnoc(p: Product, days: int)
    requires days > 0
    ensures Simulate(p, days).demands[..days - 1] == Simulate(p, days - 1).demands
  {
    var prev := Simulate(p, days - 1);
    var d := UpdateInventory(prev.product).1;
    assert Simulate(p, days).demands == prev.demands + [d];
  }

  /** The demand of day i is the rule applied to the i-th draw of the product's
      generator, and after the run the generator has advanced exactly once per day. */
  lemma {:induction false} SimulateFollowsDraws(p: Product, days: nat)
    ensures Simulate(p, days).product.rng == NextN(p.rng, days).after
    ensures forall i :: 0 <= i < days ==>
      Simulate(p, days).demands[i] == RuleDemand(NextN(p.rng, days).draws[i], p.meanDemand)
  {
    if days > 0 {
      SimulateFollowsDraws(p, days - 1);
      SimulateSnoc(p, days);
    }
  }

  /** Every prefix of a run is the shorter run: stopping after k days gives
      the first k demands of the longer run. */
  lemma {:induction false} SimulatePrefix(p: Product, k: int, days: int)
    requires 0 <= k <= days
    ensures Simulate(p, k).demands == Simulate(p, days).demands[..k]
    decreases days - k
  {
    var a := Simulate(p, days).demands;
    assert |a| == days;
    if k == days {
      assert a[..k] == a;
    } else {
      var b := Simulate(p, days - 1).demands;
      SimulatePrefix(p, k, days - 1);
      SimulateSnoc(p, days);
      PrefixOfPrefix(a, b, k);
    }
  }

  /** A prefix of a prefix is a prefix of the longer sequence. */
  lemma PrefixOfPrefix(a: seq<int>, b: seq<int>, k: int)
    requires 0 <= k <= |b| < |a|
    requires a[..|b|] == b
    ensures a[..k] == b[..k]
  {
  }

  /** The stock shown on day k (1-based) is level k - 1 of the demand list. */
  lemma DailyStock(p: Product, days: int, k: int)
    requires 1 <= k <= days
    ensures Simulate(p, k).product.stock == Levels(p.stock, Simulate(p, days).demands)[k - 1]
  {
    var ds := Simulate(p, days).demands;
    SimulatePrefix(p, k, days);
    LevelsClosedForm(p.stock, ds);
  }

  /** Product 1 of the catalogue ("Gaming Laptop", stock 50, mean 3, lead time 5)
      over three days: demands 3, 4, 4 and stock levels 47, 43, 39. */
  lemma GoldenRun()
    ensures Simulate(Create("Gaming Laptop", 50, 3, 5), 3).demands == [3, 4, 4]
    ensures Levels(50, Simulate(Create("Gaming Laptop", 50, 3, 5), 3).demands) == [47, 43, 39]
    ensures Simulate(Create("Gaming Laptop", 50, 3, 5), 3).product.stock == 39
  {
    var p := Create("Gaming Laptop", 50, 3, 5);
    DefaultSeedDraws();
    SimulateFollowsDraws(p, 3);
    var r := Simulate(p, 3);
    assert r.demands[0] == RuleDemand(62, 3);
    assert r.demands[1] == RuleDemand(97, 3);
    assert r.demands[2] == RuleDemand(92, 3);
    assert r.demands == [3, 4, 4];
    LevelsClosedForm(50, r.demands);
  }
}
