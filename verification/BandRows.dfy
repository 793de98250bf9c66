/** The rows of the performance comparison: which metrics of which arms got worse. */
module BandRows {
  import opened Options
  import opened Band

  datatype Observation = Observation(revision: string, arm: string, metric: string, value: real)

  datatype Spread = Spread(samples: nat, mean: real, sd: real, rangeMin: real, rangeMax: real, revisions: nat)

  const LATENCY_METRICS: seq<string> := ["p50", "p90", "p99", "p999", "max"]
  const OTHER_METRICS: seq<string> := ["over250", "delivery"]

  // ---------------------------------------------------------------- the settled band

  predicate Contains(text: string, part: string) {
    part <= text || (text != "" && Contains(text[1..], part))
  }

  function SettledBand(metric: string, arm: string): real {
    var impaired := Contains(arm, "hostile") || Contains(arm, "lone");
    if metric in ["p50", "p90", "p99"] then (if impaired then 0.40 else 0.10)
    else if metric == "p999" then (if impaired then 0.50 else 0.20)
    else if metric == "max" then 0.50
    else 0.10
  }

  predicate LowerIsWorse(metric: string) {
    metric == "delivery"
  }

  // ---------------------------------------------------------------- the measured spread

  predicate Selected(o: Observation, arm: string, metric: string) {
    o.arm == arm && o.metric == metric
  }

  /** The archived readings of one metric of one arm. */
  function Series(observations: seq<Observation>, arm: string, metric: string): seq<real> {
    if observations == [] then []
    else
      var o := observations[|observations| - 1];
      Series(observations[..|observations| - 1], arm, metric) + if Selected(o, arm, metric) then [o.value] else []
  }

  function Revisions(observations: seq<Observation>, arm: string, metric: string): set<string> {
    set o | o in observations && Selected(o, arm, metric) :: o.revision
  }

  predicate Ascending(v: seq<real>) {
    forall i, j :: 0 <= i < j < |v| ==> v[i] <= v[j]
  }

  /** The two lists hold the same readings, so every statistic of them agrees. */
  ghost predicate SameReadings(w: seq<real>, v: seq<real>, m: real) {
    |w| == |v| && multiset(w) == multiset(v) && Sum(w) == Sum(v) && Spread2(w, m) == Spread2(v, m)
  }

  lemma SumAppended(v: seq<real>, x: real, m: real)
    ensures Sum(v + [x]) == Sum(v) + x && Spread2(v + [x], m) == Spread2(v, m) + Sq(x - m)
  {
    hide Sq;
    assert (v + [x])[..|v|] == v;
  }

  lemma SameElements(v: seq<real>, k: nat, x: real)
    requires k <= |v|
    ensures multiset(v[..k] + [x] + v[k..]) == multiset(v + [x])
  {
    assert v == v[..k] + v[k..];
  }

  lemma Inserted(v: seq<real>, k: nat, x: real, m: real)
    requires k <= |v|
    ensures SameReadings(v[..k] + [x] + v[k..], v + [x], m)
  {
    hide Sum, Spread2, Sq;
    var w := v[..k] + [x] + v[k..];
    SameElements(v, k, x);
    SumAppended(v, x, m);
    assert w[..k] + w[k + 1..] == v;
    SumWithout(w, k, m);
  }

  lemma SameReadingsExtend(w: seq<real>, v: seq<real>, x: real, m: real)
    requires SameReadings(w, v, m)
    ensures SameReadings(w + [x], v + [x], m)
  {
    assert (v + [x])[..|v|] == v && (w + [x])[..|w|] == w;
  }

  lemma AscendingInsert(v: seq<real>, k: nat, x: real)
    requires Ascending(v) && k <= |v| && (k > 0 ==> v[k - 1] <= x) && (k < |v| ==> x <= v[k])
    ensures Ascending(v[..k] + [x] + v[k..])
  {}

  /** Puts one more reading into a sorted list. */
  method Insert(v: seq<real>, x: real, ghost m: real) returns (w: seq<real>)
    requires Ascending(v)
    ensures Ascending(w) && SameReadings(w, v + [x], m)
  {
    var k := |v|;
    while k > 0 && x < v[k - 1]
      invariant 0 <= k <= |v|
      invariant k < |v| ==> x <= v[k]
    {
      k := k - 1;
    }
    w := v[..k] + [x] + v[k..];
    hide SameReadings;
    AscendingInsert(v, k, x);
    Inserted(v, k, x, m);
  }

  /** Selects the readings of one metric of one arm, sorted, and the revisions they come from. */
  method Collect(observations: seq<Observation>, arm: string, metric: string, ghost m: real)
    returns (values: seq<real>, revisions: set<string>)
    ensures Ascending(values) && SameReadings(values, Series(observations, arm, metric), m)
    ensures revisions == Revisions(observations, arm, metric)
  {
    hide SameReadings, Ascending, Revisions, Series;
    values, revisions := [], {};
    NothingYet(arm, metric, m);
    var i := 0;
    assert observations[..0] == [];
    while i < |observations|
      invariant 0 <= i <= |observations|
      invariant Ascending(values) && SameReadings(values, Series(observations[..i], arm, metric), m)
      invariant revisions == Revisions(observations[..i], arm, metric)
    {
      var o := observations[i];
      ghost var was := observations[..i];
      assert observations[..i + 1] == was + [o];
      ghost var v := Series(was, arm, metric);
      RevisionsGrow(was, o, arm, metric);
      SeriesGrows(was, o, arm, metric);
      if Selected(o, arm, metric) {
        ghost var before := values;
        values := Insert(values, o.value, m);
        SameReadingsExtend(before, v, o.value, m);
        SameReadingsChain(values, before + [o.value], v + [o.value], m);
        revisions := revisions + {o.revision};
      } else {
        assert revisions + {} == revisions;
      }
      i := i + 1;
    }
    assert observations[..|observations|] == observations;
  }

  lemma NothingYet(arm: string, metric: string, m: real)
    ensures Ascending([]) && SameReadings([], Series([], arm, metric), m) && Revisions([], arm, metric) == {}
  {}

  lemma SeriesGrows(was: seq<Observation>, o: Observation, arm: string, metric: string)
    ensures Series(was + [o], arm, metric) ==
            if Selected(o, arm, metric) then Series(was, arm, metric) + [o.value] else Series(was, arm, metric)
  {
    assert (was + [o])[..|was|] == was;
    assert Series(was, arm, metric) + [] == Series(was, arm, metric);
  }

  lemma SameReadingsChain(u: seq<real>, w: seq<real>, v: seq<real>, m: real)
    requires SameReadings(u, w, m) && SameReadings(w, v, m)
    ensures SameReadings(u, v, m)
  {}

  /**
   The statistics of the archived readings, when there are at least eight. `root` is the square root
   that the source takes of the variance.
   */
  method MeasuredSpread(observations: seq<Observation>, arm: string, metric: string, root: real)
    returns (spread: Option<Spread>, available: nat)
    requires var v := Series(observations, arm, metric); |v| >= MIN_SPREAD_SAMPLES ==> IsRoot(root, Variance(v))
    ensures var v := Series(observations, arm, metric);
            && available == |v|
            && (spread.Some? <==> |v| >= 8)
            && (spread.Some? ==>
                  && spread.value.mean == Mean(v) && spread.value.sd == root && spread.value.samples == |v|
                  && spread.value.rangeMin in v && spread.value.rangeMax in v
                  && (forall x :: x in v ==> spread.value.rangeMin <= x <= spread.value.rangeMax)
                  && spread.value.revisions == |Revisions(observations, arm, metric)|)
  {
    hide Revisions, Sum, Spread2, Sq;
    ghost var all := Series(observations, arm, metric);
    var values, revisions := Collect(observations, arm, metric, if all == [] then 0.0 else Mean(all));
    available := |values|;
    if available < MIN_SPREAD_SAMPLES { return None, available; }
    var total := Total(values);
    var mean := total / |values| as real;
    assert mean == Mean(all);
    var squares := Squares(values, mean);
    var variance := squares / (|values| as real - 1.0);
    assert IsRoot(root, variance);
    RangeIs(values, all);
    spread := Some(Spread(|values|, mean, root, values[0], values[|values| - 1], |revisions|));
  }

  lemma RevisionsGrow(was: seq<Observation>, o: Observation, arm: string, metric: string)
    ensures Revisions(was + [o], arm, metric) ==
            Revisions(was, arm, metric) + if Selected(o, arm, metric) then {o.revision} else {}
  {
    var now := was + [o];
    assert o in now;
    forall r | r in Revisions(was, arm, metric) ensures r in Revisions(now, arm, metric) {
      var p :| p in was && Selected(p, arm, metric) && p.revision == r;
      assert p in now;
    }
  }

  lemma RangeIs(values: seq<real>, all: seq<real>)
    requires Ascending(values) && multiset(values) == multiset(all) && values != []
    ensures values[0] in all && values[|values| - 1] in all
    ensures forall x :: x in all ==> values[0] <= x <= values[|values| - 1]
  {
    assert values[0] in multiset(all) && values[|values| - 1] in multiset(all);
    forall x | x in all ensures values[0] <= x <= values[|values| - 1] {
      assert x in multiset(values);
      var k :| 0 <= k < |values| && values[k] == x;
    }
  }

  method Total(v: seq<real>) returns (r: real)
    ensures r == Sum(v)
  {
    r := 0.0;
    for i := 0 to |v|
      invariant r == Sum(v[..i])
    {
      assert v[..i + 1][..i] == v[..i];
      r := r + v[i];
    }
    assert v[..|v|] == v;
  }

  method Squares(v: seq<real>, t: real) returns (r: real)
    ensures r == Spread2(v, t)
  {
    r := 0.0;
    for i := 0 to |v|
      invariant r == Spread2(v[..i], t)
    {
      assert v[..i + 1][..i] == v[..i];
      r := r + Sq(v[i] - t);
    }
    assert v[..|v|] == v;
  }

  // ---------------------------------------------------------------- the verdict

  function Settled(metric: string, arm: string, previous: real): real {
    if LowerIsWorse(metric) then previous * (1.0 - SettledBand(metric, arm))
    else previous * (1.0 + SettledBand(metric, arm))
  }

  /** The measured prediction bound, when the archive holds enough readings `v`. */
  function Measured(metric: string, v: seq<real>, sd: real): Option<real> {
    if |v| < MIN_SPREAD_SAMPLES then None
    else Some(if LowerIsWorse(metric) then Mean(v) - SPREAD_SIGMA * sd else Mean(v) + SPREAD_SIGMA * sd)
  }

  /** The bound a worse value must cross: the wider of the two halves. */
  function Bound(metric: string, settled: real, measured: Option<real>): real {
    match measured
    case None => settled
    case Some(x) =>
      if LowerIsWorse(metric) then (if x < settled then x else settled) else (if x > settled then x else settled)
  }

  function Floor(metric: string): real {
    if metric in LATENCY_METRICS then MINIMUM_DELTA_MS else 0.0
  }

  predicate Crosses(metric: string, prior: real, latest: real, bound: real) {
    if LowerIsWorse(metric) then latest < prior && latest < bound && prior - latest > Floor(metric)
    else latest > prior && latest > bound && latest - prior > Floor(metric)
  }

  predicate Worse(metric: string, arm: string, prior: real, latest: real, v: seq<real>, sd: real) {
    Crosses(metric, prior, latest, Bound(metric, Settled(metric, arm, prior), Measured(metric, v, sd)))
  }

  /** The candidate is at least as good as an archived reading. */
  predicate AsGoodAs(metric: string, latest: real, reading: real) {
    if LowerIsWorse(metric) then latest >= reading else latest <= reading
  }

  /**
   With eight to seventeen archived readings, a candidate at least as good as one of them is never
   marked worse, whatever the previous run was: no slower for a latency, no smaller for delivery.
   */
  lemma ArchivedValueIsNotWorse(metric: string, arm: string, prior: real, latest: real, v: seq<real>, sd: real, i: nat)
    requires 8 <= |v| <= 17 && IsRoot(sd, Variance(v))
    requires i < |v| && AsGoodAs(metric, latest, v[i])
    ensures !Worse(metric, arm, prior, latest, v, sd)
  {
    FewNeverExceed(v, i);
    ExceedsIsFourSigma(v[i], Mean(v), Variance(v), sd);
    FallsShortIsFourSigma(v[i], Mean(v), Variance(v), sd);
    hide Mean, Variance, Exceeds, FallsShort, SettledBand;
  }

  // ---------------------------------------------------------------- without an archive

  /** Percent by which a metric may exceed, or a delivery fall below, the baseline. */
  function Percent(metric: string, impaired: bool): real {
    if metric == "max" then 50.0
    else if metric == "p999" then (if impaired then 50.0 else 20.0)
    else if metric == "p50" || metric == "p90" || metric == "p99" then (if impaired then 40.0 else 10.0)
    else 10.0
  }

  predicate Impaired(arm: string) {
    || (exists i :: 0 <= i <= |arm| && "hostile" <= arm[i..])
    || (exists i :: 0 <= i <= |arm| && "lone" <= arm[i..])
  }

  lemma {:induction false} ContainsExactly(text: string, part: string)
    ensures Contains(text, part) <==> exists i :: 0 <= i <= |text| && part <= text[i..]
  {
    assert text[0..] == text;
    if text != "" {
      ContainsExactly(text[1..], part);
      if Contains(text[1..], part) {
        var i :| 0 <= i <= |text[1..]| && part <= text[1..][i..];
        assert text[i + 1..] == text[1..][i..];
      }
      if exists i :: 0 <= i <= |text| && part <= text[i..] && i > 0 {
        var i :| 0 <= i <= |text| && part <= text[i..] && i > 0;
        assert text[i..] == text[1..][i - 1..];
      }
    }
  }

  /**
   The largest value that is not worse: the percentage above the baseline, and for a latency at
   least five milliseconds.
   */
  function LargestAccepted(metric: string, arm: string, prior: real): real {
    var (scaled, raised) := (prior * (100.0 + Percent(metric, Impaired(arm))) / 100.0,
                             if metric in LATENCY_METRICS then prior + 5.0 else prior);
    if scaled > raised then scaled else raised
  }

  /** Without an archive the verdict is exactly that; a delivery is worse below nine tenths of the baseline's. */
  lemma SettledExactly(metric: string, arm: string, prior: real, latest: real, sd: real)
    requires metric in METRICS && prior >= 0.0
    ensures metric != "delivery" ==>
              (Worse(metric, arm, prior, latest, [], sd) <==> latest > LargestAccepted(metric, arm, prior))
    ensures metric == "delivery" ==> (Worse(metric, arm, prior, latest, [], sd) <==> latest < prior * 0.9)
  {
    ContainsExactly(arm, "hostile");
    ContainsExactly(arm, "lone");
    hide Contains;
    assert METRICS == ["p50", "p90", "p99", "p999", "max", "over250", "delivery"];
    assert SettledBand(metric, arm) == Percent(metric, Impaired(arm)) / 100.0;
    hide Impaired;
    assert prior * (100.0 + Percent(metric, Impaired(arm))) / 100.0 == prior * (1.0 + SettledBand(metric, arm));
  }

  /** With fewer than eight readings the archive decides nothing, so a value seen before can be marked worse. */
  lemma FewReadingsDecideNothing(metric: string, arm: string, prior: real, latest: real, v: seq<real>, sd: real)
    requires |v| < 8
    ensures Worse(metric, arm, prior, latest, v, sd) <==> Worse(metric, arm, prior, latest, [], sd)
    ensures Worse("p50", arm, 0.0, 10.0, v, sd) && Worse("delivery", arm, 10.0, 0.0, v, sd)
  {
    hide Contains;
    assert Settled("p50", arm, 0.0) == 0.0;
  }

  /** With eighteen or more readings that fails: an archived outlier is marked worse when it comes again. */
  lemma ArchivedOutlierIsWorse(n: nat, sd: real)
    requires n >= 18 && IsRoot(sd, Variance(Outlier(n)))
    ensures Outlier(n)[n - 1] == n as real && Worse("p50", "clean", 0.0, n as real, Outlier(n), sd)
  {
    OutlierExceeds(n);
    ExceedsIsFourSigma(n as real, Mean(Outlier(n)), Variance(Outlier(n)), sd);
    hide Mean, Variance;
  }

  /** So is an archived dip of the delivery. */
  lemma ArchivedDipIsWorse(n: nat, sd: real)
    requires n >= 18 && IsRoot(sd, Variance(Dip(n)))
    ensures Dip(n)[n - 1] == 0.0 && Worse("delivery", "clean", n as real, 0.0, Dip(n), sd)
  {
    DipFallsShort(n);
    FallsShortIsFourSigma(0.0, Mean(Dip(n)), Variance(Dip(n)), sd);
    hide Mean, Variance;
  }

  /** The measured half only widens the band: what is worse with it is worse without it. */
  lemma MeasuredOnlyWidens(metric: string, arm: string, prior: real, latest: real, v: seq<real>, sd: real)
    requires Worse(metric, arm, prior, latest, v, sd)
    ensures Worse(metric, arm, prior, latest, [], sd)
  {
    hide Mean, SettledBand;
  }

  // ---------------------------------------------------------------- the rows

  type Metrics = map<string, real>

  datatype Row = Row(arm: string, metric: string, baseline: Option<real>, candidate: Option<real>, worse: bool,
                     missing: bool)

  datatype Arm = Arm(name: string, metrics: Metrics)

  function Get(m: Metrics, k: string): Option<real> {
    if k in m then Some(m[k]) else None
  }

  /** The row of one metric, if either run has it. */
  function RowOf(arm: string, base: Metrics, cand: Metrics, metric: string, v: seq<real>, sd: real): Option<Row> {
    match (Get(base, metric), Get(cand, metric))
    case (None, None) => None
    case (Some(prior), Some(latest)) =>
      Some(Row(arm, metric, Some(prior), Some(latest), Worse(metric, arm, prior, latest, v, sd), false))
    case (o, c) => Some(Row(arm, metric, o, c, true, true))
  }

  const METRICS: seq<string> := LATENCY_METRICS + OTHER_METRICS

  /** The rows of an arm's first `n` metrics. */
  function ArmRows(arm: string, base: Metrics, cand: Metrics, observations: seq<Observation>,
                   root: (string, string) -> real, n: nat): seq<Row>
    requires n <= |METRICS|
  {
    if n == 0 then []
    else
      var metric := METRICS[n - 1];
      var row := RowOf(arm, base, cand, metric, Series(observations, arm, metric), root(arm, metric));
      ArmRows(arm, base, cand, observations, root, n - 1) + (if row.Some? then [row.value] else [])
  }

  /** The rows of one arm of the baseline: one row that says so when the candidate lacks the arm. */
  function Block(arm: Arm, candidate: map<string, Metrics>, observations: seq<Observation>,
                 root: (string, string) -> real): seq<Row>
  {
    if arm.name !in candidate then [Row(arm.name, "*", None, None, true, true)]
    else ArmRows(arm.name, arm.metrics, candidate[arm.name], observations, root, |METRICS|)
  }

  function Rows(baseline: seq<Arm>, candidate: map<string, Metrics>, observations: seq<Observation>,
                root: (string, string) -> real): seq<Row>
  {
    if baseline == [] then []
    else
      Rows(baseline[..|baseline| - 1], candidate, observations, root)
      + Block(baseline[|baseline| - 1], candidate, observations, root)
  }

  ghost predicate Roots(observations: seq<Observation>, root: (string, string) -> real) {
    forall arm, metric :: |Series(observations, arm, metric)| >= MIN_SPREAD_SAMPLES ==>
                            IsRoot(root(arm, metric), Variance(Series(observations, arm, metric)))
  }

  // ---------------------------------------------------------------- what the rows say

  /** A metric's place in the report. */
  function Rank(metric: string): nat {
    if metric == "p50" then 0 else if metric == "p90" then 1 else if metric == "p99" then 2
    else if metric == "p999" then 3 else if metric == "max" then 4
    else if metric == "over250" then 5 else if metric == "delivery" then 6 else 7
  }

  lemma Ranks(n: nat)
    requires n < |METRICS|
    ensures Rank(METRICS[n]) == n
  {
    assert METRICS == ["p50", "p90", "p99", "p999", "max", "over250", "delivery"];
  }

  lemma RankFinds(metric: string)
    requires metric in METRICS
    ensures Rank(metric) < |METRICS| && METRICS[Rank(metric)] == metric
  {
    var n :| 0 <= n < |METRICS| && METRICS[n] == metric;
    Ranks(n);
  }

  /**
   The row of a metric that at least one run has: both values as the runs have them, missing exactly
   when one run lacks it, and worse exactly when it is missing or crosses its band.
   */
  ghost predicate RowFits(r: Row, arm: string, base: Metrics, cand: Metrics, v: seq<real>, sd: real) {
    && r.arm == arm && r.metric in METRICS && (r.metric in base || r.metric in cand)
    && r.baseline == Get(base, r.metric) && r.candidate == Get(cand, r.metric)
    && (r.missing <==> (r.metric in base) != (r.metric in cand))
    && (r.worse <==> r.missing || Worse(r.metric, arm, base[r.metric], cand[r.metric], v, sd))
  }

  predicate Has(rows: seq<Row>, metric: string) {
    exists i :: 0 <= i < |rows| && rows[i].metric == metric
  }

  /** Every row is that of one of the first n metrics, and fits the two runs. */
  ghost predicate AllFit(rows: seq<Row>, arm: string, base: Metrics, cand: Metrics, observations: seq<Observation>,
                         root: (string, string) -> real, n: nat)
  {
    forall i :: 0 <= i < |rows| ==> Rank(rows[i].metric) < n && Fits(rows[i], arm, base, cand, observations, root)
  }

  ghost predicate Fits(r: Row, arm: string, base: Metrics, cand: Metrics, observations: seq<Observation>,
                       root: (string, string) -> real)
  {
    RowFits(r, arm, base, cand, Series(observations, arm, r.metric), root(arm, r.metric))
  }

  predicate Ordered(rows: seq<Row>) {
    forall i, j :: 0 <= i < j < |rows| ==> Rank(rows[i].metric) < Rank(rows[j].metric)
  }

  /** Each of the first n metrics that a run has is among the rows. */
  predicate Complete(rows: seq<Row>, base: Metrics, cand: Metrics, n: nat)
    requires n <= |METRICS|
  {
    forall k :: 0 <= k < n && (METRICS[k] in base || METRICS[k] in cand) ==> Has(rows, METRICS[k])
  }

  lemma RowOfFits(arm: string, base: Metrics, cand: Metrics, metric: string, v: seq<real>, sd: real)
    requires metric in METRICS
    ensures RowOf(arm, base, cand, metric, v, sd).Some? <==> metric in base || metric in cand
    ensures var o := RowOf(arm, base, cand, metric, v, sd);
            o.Some? ==> o.value.metric == metric && RowFits(o.value, arm, base, cand, v, sd)
  {
    hide Worse;
  }

  /** An arm's rows: in the report's order, each metric at most once, and one for each that a run has. */
  lemma {:induction false} ArmRowsExactly(arm: string, base: Metrics, cand: Metrics, observations: seq<Observation>,
                                          root: (string, string) -> real, n: nat)
    requires n <= |METRICS|
    ensures var rows := ArmRows(arm, base, cand, observations, root, n);
            && AllFit(rows, arm, base, cand, observations, root, n) && Ordered(rows) && Complete(rows, base, cand, n)
  {
    hide Fits, RowOf, Rank, AllFit, Ordered, Complete;
    if n > 0 {
      ArmRowsExactly(arm, base, cand, observations, root, n - 1);
      var metric := METRICS[n - 1];
      var was := ArmRows(arm, base, cand, observations, root, n - 1);
      var o := RowOf(arm, base, cand, metric, Series(observations, arm, metric), root(arm, metric));
      RowOfFits(arm, base, cand, metric, Series(observations, arm, metric), root(arm, metric));
      Ranks(n - 1);
      FitsIs(o, arm, base, cand, observations, root);
      NextRow(was, o, arm, base, cand, observations, root, n);
    } else {
      NoRows(arm, base, cand, observations, root);
    }
  }

  lemma FitsIs(o: Option<Row>, arm: string, base: Metrics, cand: Metrics, observations: seq<Observation>,
               root: (string, string) -> real)
    ensures o.Some? ==>
              var metric := o.value.metric;
              RowFits(o.value, arm, base, cand, Series(observations, arm, metric), root(arm, metric)) ==>
                Fits(o.value, arm, base, cand, observations, root)
  {
    hide RowFits;
  }

  lemma NoRows(arm: string, base: Metrics, cand: Metrics, observations: seq<Observation>,
               root: (string, string) -> real)
    ensures AllFit([], arm, base, cand, observations, root, 0) && Ordered([]) && Complete([], base, cand, 0)
  {
    hide Fits;
  }

  lemma NextRow(was: seq<Row>, o: Option<Row>, arm: string, base: Metrics, cand: Metrics,
                observations: seq<Observation>, root: (string, string) -> real, n: nat)
    requires 0 < n <= |METRICS| && Rank(METRICS[n - 1]) == n - 1
    requires AllFit(was, arm, base, cand, observations, root, n - 1) && Ordered(was) && Complete(was, base, cand, n - 1)
    requires o.Some? <==> METRICS[n - 1] in base || METRICS[n - 1] in cand
    requires o.Some? ==> o.value.metric == METRICS[n - 1] && Fits(o.value, arm, base, cand, observations, root)
    ensures var rows := was + (if o.Some? then [o.value] else []);
            && AllFit(rows, arm, base, cand, observations, root, n) && Ordered(rows) && Complete(rows, base, cand, n)
  {
    hide Fits, Rank;
    var rows := was + (if o.Some? then [o.value] else []);
    forall k | 0 <= k < n && (METRICS[k] in base || METRICS[k] in cand) ensures Has(rows, METRICS[k]) {
      if k < n - 1 {
        assert Has(was, METRICS[k]);
        var i :| 0 <= i < |was| && was[i].metric == METRICS[k];
        assert rows[i].metric == METRICS[k];
      } else {
        assert rows[|was|].metric == METRICS[k];
      }
    }
  }

  /** A row of the report. */
  ghost predicate Reported(r: Row, arm: Arm, candidate: map<string, Metrics>, observations: seq<Observation>,
                           root: (string, string) -> real)
  {
    if arm.name !in candidate then r == Row(arm.name, "*", None, None, true, true)
    else Fits(r, arm.name, arm.metrics, candidate[arm.name], observations, root)
  }

  lemma BlockExactly(arm: Arm, candidate: map<string, Metrics>, observations: seq<Observation>,
                     root: (string, string) -> real, r: Row)
    ensures r in Block(arm, candidate, observations, root) <==> Reported(r, arm, candidate, observations, root)
  {
    hide ArmRows, RowFits;
    if arm.name in candidate {
      ArmRowsHold(arm.name, arm.metrics, candidate[arm.name], observations, root, |METRICS|, r);
    }
  }

  lemma ArmRowsHold(arm: string, base: Metrics, cand: Metrics, observations: seq<Observation>,
                    root: (string, string) -> real, n: nat, r: Row)
    requires n == |METRICS|
    ensures r in ArmRows(arm, base, cand, observations, root, n) <==> Fits(r, arm, base, cand, observations, root)
  {
    hide ArmRows, Worse;
    var rows := ArmRows(arm, base, cand, observations, root, n);
    ArmRowsExactly(arm, base, cand, observations, root, n);
    if Fits(r, arm, base, cand, observations, root) {
      RankFinds(r.metric);
      assert Has(rows, METRICS[Rank(r.metric)]);
      var i :| 0 <= i < |rows| && rows[i].metric == r.metric;
      assert Fits(rows[i], arm, base, cand, observations, root);
      assert rows[i] == r;
    }
  }

  lemma {:induction false} RowsConcat(a: seq<Arm>, b: seq<Arm>, candidate: map<string, Metrics>,
                                      observations: seq<Observation>, root: (string, string) -> real)
    ensures Rows(a + b, candidate, observations, root) ==
            Rows(a, candidate, observations, root) + Rows(b, candidate, observations, root)
  {
    hide Block;
    if b == [] {
      assert a + b == a;
    } else {
      var (all, init) := (a + b, b[..|b| - 1]);
      RowsConcat(a, init, candidate, observations, root);
      assert all[..|all| - 1] == a + init && all[|all| - 1] == b[|b| - 1];
    }
  }

  /** The report holds exactly the rows of the baseline's arms. */
  lemma {:induction false} RowsExactly(baseline: seq<Arm>, candidate: map<string, Metrics>,
                                       observations: seq<Observation>, root: (string, string) -> real, r: Row)
    ensures r in Rows(baseline, candidate, observations, root) <==>
            exists arm :: arm in baseline && Reported(r, arm, candidate, observations, root)
  {
    hide Block, Reported;
    if baseline != [] {
      var (init, last) := (baseline[..|baseline| - 1], baseline[|baseline| - 1]);
      RowsExactly(init, candidate, observations, root, r);
      BlockExactly(last, candidate, observations, root, r);
      assert baseline == init + [last];
      assert forall arm :: arm in baseline <==> arm in init || arm == last;
    }
  }

  /**
   No row of the report rejects a value that the archive has already seen: with eight to seventeen
   readings of the row's metric, a candidate as good as one of them is not marked worse.
   */
  lemma ReportKeepsArchivedValues(baseline: seq<Arm>, candidate: map<string, Metrics>, observations: seq<Observation>,
                                  root: (string, string) -> real, r: Row, i: nat)
    requires Roots(observations, root) && r in Rows(baseline, candidate, observations, root) && !r.missing
    requires var v := Series(observations, r.arm, r.metric);
             && 8 <= |v| <= 17 && i < |v|
             && r.candidate.Some? && AsGoodAs(r.metric, r.candidate.value, v[i])
    ensures !r.worse
  {
    hide Rows, Worse;
    RowsExactly(baseline, candidate, observations, root, r);
    var arm :| arm in baseline && Reported(r, arm, candidate, observations, root);
    var v := Series(observations, r.arm, r.metric);
    ArchivedValueIsNotWorse(r.metric, arm.name, arm.metrics[r.metric], r.candidate.value, v, root(arm.name, r.metric),
                            i);
  }

  /** The two rows differ at most in their verdict, and the second is worse when the first is. */
  predicate NoBetter(r: Row, q: Row) {
    q == r.(worse := q.worse) && (r.worse ==> q.worse)
  }

  predicate AllNoBetter(rows: seq<Row>, others: seq<Row>) {
    |rows| == |others| && forall i :: 0 <= i < |rows| ==> NoBetter(rows[i], others[i])
  }

  lemma RowOfWidens(arm: string, base: Metrics, cand: Metrics, metric: string, v: seq<real>, sd: real)
    ensures var (o, q) := (RowOf(arm, base, cand, metric, v, sd), RowOf(arm, base, cand, metric, [], sd));
            (o.Some? <==> q.Some?) && (o.Some? ==> NoBetter(o.value, q.value))
  {
    if metric in base && metric in cand && Worse(metric, arm, base[metric], cand[metric], v, sd) {
      MeasuredOnlyWidens(metric, arm, base[metric], cand[metric], v, sd);
    }
    hide Worse;
  }

  lemma {:induction false} ArmRowsWiden(arm: string, base: Metrics, cand: Metrics, observations: seq<Observation>,
                                        root: (string, string) -> real, n: nat)
    requires n <= |METRICS|
    ensures AllNoBetter(ArmRows(arm, base, cand, observations, root, n), ArmRows(arm, base, cand, [], root, n))
  {
    hide RowOf, NoBetter;
    if n > 0 {
      ArmRowsWiden(arm, base, cand, observations, root, n - 1);
      var metric := METRICS[n - 1];
      RowOfWidens(arm, base, cand, metric, Series(observations, arm, metric), root(arm, metric));
    }
  }

  /** Row by row, the report over any archive rejects no more than the report without an archive. */
  lemma {:induction false} ArchiveOnlyWidens(baseline: seq<Arm>, candidate: map<string, Metrics>,
                                             observations: seq<Observation>, root: (string, string) -> real)
    ensures AllNoBetter(Rows(baseline, candidate, observations, root), Rows(baseline, candidate, [], root))
  {
    if baseline != [] {
      var last := baseline[|baseline| - 1];
      ArchiveOnlyWidens(baseline[..|baseline| - 1], candidate, observations, root);
      if last.name in candidate {
        ArmRowsWiden(last.name, last.metrics, candidate[last.name], observations, root, |METRICS|);
      }
      hide ArmRows;
    }
  }

  // ---------------------------------------------------------------- building them

  method MetricRows(baseline: seq<Arm>, candidate: map<string, Metrics>, observations: seq<Observation>,
                    root: (string, string) -> real) returns (rows: seq<Row>)
    requires Roots(observations, root)
    ensures rows == Rows(baseline, candidate, observations, root)
    ensures forall r :: r in rows <==> exists arm :: arm in baseline && Reported(r, arm, candidate, observations, root)
    ensures AllNoBetter(rows, Rows(baseline, candidate, [], root))
  {
    hide ArmRows, Reported, Roots;
    rows := [];
    for k := 0 to |baseline|
      invariant rows == Rows(baseline[..k], candidate, observations, root)
    {
      var arm := baseline[k];
      assert baseline[..k + 1][..k] == baseline[..k];
      if arm.name !in candidate {
        rows := rows + [Row(arm.name, "*", None, None, true, true)];
      } else {
        var cand := candidate[arm.name];
        var added := RowsOfArm(arm.name, arm.metrics, cand, observations, root);
        rows := rows + added;
      }
    }
    assert baseline[..|baseline|] == baseline;
    forall r ensures r in rows <==> exists arm :: arm in baseline && Reported(r, arm, candidate, observations, root) {
      RowsExactly(baseline, candidate, observations, root, r);
    }
    ArchiveOnlyWidens(baseline, candidate, observations, root);
  }

  method RowsOfArm(arm: string, base: Metrics, cand: Metrics, observations: seq<Observation>,
                   root: (string, string) -> real) returns (rows: seq<Row>)
    requires Roots(observations, root)
    ensures rows == ArmRows(arm, base, cand, observations, root, |METRICS|)
    ensures Ordered(rows)
    ensures forall metric :: metric in METRICS ==> (Has(rows, metric) <==> metric in base || metric in cand)
  {
    rows := [];
    for n := 0 to |METRICS|
      invariant rows == ArmRows(arm, base, cand, observations, root, n)
    {
      var metric := METRICS[n];
      var (prior, latest) := (Get(base, metric), Get(cand, metric));
      if prior.Some? && latest.Some? {
        var spread, available := MeasuredSpread(observations, arm, metric, root(arm, metric));
        var measured := if spread.None? then None
                        else if LowerIsWorse(metric) then Some(spread.value.mean - SPREAD_SIGMA * spread.value.sd)
                        else Some(spread.value.mean + SPREAD_SIGMA * spread.value.sd);
        var bound := Bound(metric, Settled(metric, arm, prior.value), measured);
        var worse := Crosses(metric, prior.value, latest.value, bound);
        rows := rows + [Row(arm, metric, prior, latest, worse, false)];
      } else if prior.Some? || latest.Some? {
        rows := rows + [Row(arm, metric, prior, latest, true, true)];
      }
    }
    RowsOfArmAre(arm, base, cand, observations, root);
  }

  lemma RowsOfArmAre(arm: string, base: Metrics, cand: Metrics, observations: seq<Observation>,
                     root: (string, string) -> real)
    ensures var rows := ArmRows(arm, base, cand, observations, root, |METRICS|);
            && Ordered(rows)
            && (forall metric :: metric in METRICS ==> (Has(rows, metric) <==> metric in base || metric in cand))
  {
    ArmRowsExactly(arm, base, cand, observations, root, |METRICS|);
    hide ArmRows, Rank;
    forall metric | metric in METRICS
      ensures Has(ArmRows(arm, base, cand, observations, root, |METRICS|), metric) <==> metric in base || metric in cand
    {
      RankFinds(metric);
    }
  }
}
