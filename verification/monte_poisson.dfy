/** The products of monte_poisson.py: stock plus a history of the stock level at
    the end of every day. The base product takes its daily demand from a Poisson
    sample, the Monte Carlo product from the demand table; both samples are
    inputs here (the outputs of `np.random.poisson` and `random.randint`). */
module MontePoisson {
  import opened Wrappers
  import opened Ledger
  import MonteCarlo

  datatype Product = Product(name: string, stock: int, meanDemand: int, leadTime: int, history: seq<int>)

  /** A new product: the initial stock and an empty history. */
  function Create(name: string, initialStock: int, meanDemand: int, leadTime: int): (p: Product)
    ensures p.name == name && p.stock == initialStock
    ensures p.meanDemand == meanDemand && p.leadTime == leadTime
    ensures p.history == []
  {
    Product(name, initialStock, meanDemand, leadTime, [])
  }

  /** The body of `update_inventory` once the demand is known: take it from
      stock and append the new stock to the history. Earlier entries, the name,
      the mean and the lead time are kept. */
  function Apply(p: Product, demand: int): (q: Product)
    ensures q.stock == p.stock - demand
    ensures |q.history| == |p.history| + 1
    ensures q.history[..|p.history|] == p.history
    ensures q.history[|p.history|] == q.stock
    ensures q.name == p.name && q.meanDemand == p.meanDemand && q.leadTime == p.leadTime
  {
    var q := p.(stock := p.stock - demand);
    q.(history := p.history + [q.stock])
  }

  /** `StochasticProduct.update_inventory`: the demand is the Poisson sample,
      a non-negative count, so the stock never rises. */
  function PoissonUpdate(p: Product, sample: nat): (r: (Product, int))
    ensures r.1 == sample
    ensures r.0 == Apply(p, sample)
    ensures r.0.stock <= p.stock
  {
    (Apply(p, sample), sample)
  }

  /** `MonteCarloProduct.update_inventory`: the demand is the table lookup of
      the draw. For a draw outside 0..99 the lookup yields nothing and the
      subtraction fails, so there is no next state. */
  function MonteCarloUpdate(p: Product, draw: int): (r: Option<(Product, int)>)
    ensures r.Some? <==> MonteCarlo.MinDraw <= draw <= MonteCarlo.MaxDraw
    ensures r.Some? ==> 1 <= r.value.1 <= 5 && r.value.0 == Apply(p, r.value.1)
    ensures r.Some? ==> MonteCarlo.Demand(draw) == Some(r.value.1)
    ensures r.Some? ==> r.value.0.stock < p.stock
  {
    match MonteCarlo.Demand(draw)
    case None => None
    case Some(d) => Some((Apply(p, d), d))
  }

  /** The day loop once each day's demand is known: one `update_inventory` per demand, in order. */
  function Run(p: Product, demands: seq<int>): (q: Product)
    ensures q.stock == p.stock - Sum(demands)
    ensures q.history == p.history + Levels(p.stock, demands)
    ensures q.name == p.name && q.meanDemand == p.meanDemand && q.leadTime == p.leadTime
    decreases demands
  {
    if |demands| == 0 then p
    else
      SumCons(demands[0], demands[1..]);
      assert demands == [demands[0]] + demands[1..];
      Run(Apply(p, demands[0]), demands[1..])
  }

  /** The final product and the list of daily demands of a run. */
  datatype Report = Report(product: Product, demands: seq<int>)

  /** The loop for the base product: one Poisson sample per day, each becoming that day's demand. */
  function PoissonRun(p: Product, samples: seq<nat>): (r: Report)
    ensures r.demands == samples
    ensures r.product == Run(p, samples)
    decreases samples
  {
    if |samples| == 0 then Report(p, [])
    else
      var (q, d) := PoissonUpdate(p, samples[0]);
      var rest := PoissonRun(q, samples[1..]);
      assert samples == [samples[0]] + samples[1..];
      Report(rest.product, [d] + rest.demands)
  }

  /** The loop for the Monte Carlo product: one draw per day. It completes exactly
      when every draw is in 0..99, and then day i's demand is the table's demand
      for draw i. */
  function MonteCarloRun(p: Product, draws: seq<int>): (r: Option<Report>)
    ensures r.Some? <==> forall i :: 0 <= i < |draws| ==> MonteCarlo.MinDraw <= draws[i] <= MonteCarlo.MaxDraw
    ensures r.Some? ==> |r.value.demands| == |draws|
    ensures r.Some? ==> forall i :: 0 <= i < |draws| ==> MonteCarlo.Demand(draws[i]) == Some(r.value.demands[i])
    decreases draws
  {
    if |draws| == 0 then Some(Report(p, []))
    else
      match MonteCarloUpdate(p, draws[0])
      case None => None
      case Some((q, d)) =>
        match MonteCarloRun(q, draws[1..])
        case None => None
        case Some(rest) =>
          assert forall i :: 1 <= i < |draws| ==> draws[i] == draws[1..][i - 1];
          assert ([d] + rest.demands)[1..] == rest.demands;
          Some(Report(rest.product, [d] + rest.demands))
  }

  /** A completed Monte Carlo run leaves the product the day loop gives for its demands. */
  lemma {:induction false} MonteCarloRunIsRun(p: Product, draws: seq<int>)
    requires MonteCarloRun(p, draws).Some?
    ensures MonteCarloRun(p, draws).value.product == Run(p, MonteCarloRun(p, draws).value.demands)
    decreases draws
  {
    if |draws| > 0 {
      var (q, d) := MonteCarloUpdate(p, draws[0]).value;
      var rest := MonteCarloRun(q, draws[1..]).value;
      MonteCarloRunIsRun(q, draws[1..]);
      var ds := [d] + rest.demands;
      assert MonteCarloRun(p, draws).value == Report(rest.product, ds);
      assert ds[0] == d && ds[1..] == rest.demands;
      assert Run(p, ds) == Run(Apply(p, d), rest.demands);
    }
  }

  /** From a new product, after n days the history holds n levels, level i is the
      initial stock minus the demand of days 0..i, and the last level is the stock. */
  lemma FreshRunHistory(name: string, initialStock: int, meanDemand: int, leadTime: int, demands: seq<int>)
    ensures |Run(Create(name, initialStock, meanDemand, leadTime), demands).history| == |demands|
    ensures forall i :: 0 <= i < |demands| ==>
      Run(Create(name, initialStock, meanDemand, leadTime), demands).history[i] == initialStock - Sum(demands[..i + 1])
    ensures |demands| > 0 ==>
      Run(Create(name, initialStock, meanDemand, leadTime), demands).history[|demands| - 1]
        == Run(Create(name, initialStock, meanDemand, leadTime), demands).stock
  {
    LevelsClosedForm(initialStock, demands);
    if |demands| > 0 {
      LevelsLast(initialStock, demands);
    }
  }

  /** Under the Monte Carlo product every demand is at least 1, so the levels a
      run appends are strictly decreasing and all below the starting stock. */
  lemma MonteCarloHistoryDecreasing(p: Product, draws: seq<int>)
    requires MonteCarloRun(p, draws).Some?
    ensures var h := MonteCarloRun(p, draws).value.product.history;
      && |h| == |p.history| + |draws|
      && (forall k :: |p.history| <= k < |h| ==> h[k] < p.stock)
      && (forall i, j :: |p.history| <= i < j < |h| ==> h[j] < h[i])
  {
    var r := MonteCarloRun(p, draws).value;
    MonteCarloRunIsRun(p, draws);
    forall i | 0 <= i < |r.demands|
      ensures r.demands[i] >= 1
    {
      assert MonteCarlo.Demand(draws[i]) == Some(r.demands[i]);
    }
    LevelsDescend(p.stock, r.demands, 1);
  }

  /** Under the base product every demand is a non-negative sample, so the levels
      a run appends never increase and never exceed the starting stock. */
  lemma PoissonHistoryNonIncreasing(p: Product, samples: seq<nat>)
    ensures var h := PoissonRun(p, samples).product.history;
      && |h| == |p.history| + |samples|
      && (forall k :: |p.history| <= k < |h| ==> h[k] <= p.stock)
      && (forall i, j :: |p.history| <= i < j < |h| ==> h[j] <= h[i])
  {
    LevelsDescend(p.stock, samples, 0);
  }

  /** The Gaming Laptop (stock 50) with draws 9, 10, 45: demands 1, 2, 3 and history 49, 47, 44. */
  lemma MonteCarloRunExample()
    ensures MonteCarloRun(Create("Gaming Laptop", 50, 3, 5), [9, 10, 45]).Some?
    ensures MonteCarloRun(Create("Gaming Laptop", 50, 3, 5), [9, 10, 45]).value.demands == [1, 2, 3]
    ensures MonteCarloRun(Create("Gaming Laptop", 50, 3, 5), [9, 10, 45]).value.product.history == [49, 47, 44]
  {
    var p := Create("Gaming Laptop", 50, 3, 5);
    var draws := [9, 10, 45];
    MonteCarlo.DemandMatchesBands(draws[0]);
    MonteCarlo.DemandMatchesBands(draws[1]);
    MonteCarlo.DemandMatchesBands(draws[2]);
    assert forall i :: 0 <= i < |draws| ==> MonteCarlo.MinDraw <= draws[i] <= MonteCarlo.MaxDraw;
    var r := MonteCarloRun(p, draws).value;
    assert r.demands == [1, 2, 3] by {
      assert MonteCarlo.Demand(draws[0]) == Some(r.demands[0]);
      assert MonteCarlo.Demand(draws[1]) == Some(r.demands[1]);
      assert MonteCarlo.Demand(draws[2]) == Some(r.demands[2]);
    }
    MonteCarloRunIsRun(p, draws);
    assert Levels(50, [1, 2, 3]) == [49, 47, 44] by {
      assert [1, 2, 3][1..] == [2, 3] && [2, 3][1..] == [3] && [3][1..] == [];
    }
  }

  /** A draw of 100 on the second day stops the run: there is no final state. */
  lemma MonteCarloRunAborts()
    ensures MonteCarloRun(Create("Gaming Laptop", 50, 3, 5), [5, 100]).None?
  {
    var draws := [5, 100];
    assert !(MonteCarlo.MinDraw <= draws[1] <= MonteCarlo.MaxDraw);
  }
}
