/**
 The migration margins. A path replaces the active one when it is enough faster and hardly more
 lossy, or enough less lossy and not much slower. Times and loss rates are exact reals.
 */
module PathScore {
  import opened Options

  const REOPT_RTT_MARGIN: real := 0.25
  const REOPT_LOSS_MARGIN: real := 0.10
  const REOPT_LOSS_TOLERANCE: real := 0.02

  datatype PathScore = PathScore(rtt: real, loss: real)

  datatype MigrationRule = Rtt | Loss | Stay

  /** The rule under which `s` replaces the active path `active`. */
  function BeatsByMargin(s: PathScore, active: PathScore): MigrationRule {
    if s.rtt <= active.rtt * (1.0 - REOPT_RTT_MARGIN) && s.loss <= active.loss + REOPT_LOSS_TOLERANCE then Rtt
    else if s.loss + REOPT_LOSS_MARGIN <= active.loss && s.rtt <= active.rtt * (1.0 + REOPT_RTT_MARGIN) then Loss
    else Stay
  }

  predicate Beats(s: PathScore, active: PathScore) {
    !BeatsByMargin(s, active).Stay?
  }

  /**
   The slowest round trip at which a path with this loss replaces the active one, if any does: five
   quarters of the active one's when it loses at least a tenth less, three quarters when it loses at
   most two hundredths more.
   */
  function SlowestWinner(active: PathScore, loss: real): Option<real> {
    if loss + 0.10 <= active.loss then Some(active.rtt * 1.25)
    else if loss <= active.loss + 0.02 then Some(active.rtt * 0.75)
    else None
  }

  /** A path replaces the active one exactly when it is no slower than that. */
  lemma BeatsExactly(s: PathScore, active: PathScore)
    requires active.rtt >= 0.0
    ensures Beats(s, active) <==> SlowestWinner(active, s.loss).Some? && s.rtt <= SlowestWinner(active, s.loss).value
    ensures BeatsByMargin(s, active).Rtt? <==> s.rtt <= active.rtt * 0.75 && s.loss <= active.loss + 0.02
  {
    assert active.rtt * 0.75 <= active.rtt * 1.25;
  }

  /** Whatever is at least as fast and loses no more than a winner wins too. */
  lemma BetterWinsToo(s: PathScore, better: PathScore, active: PathScore)
    requires active.rtt >= 0.0 && Beats(s, active) && better.rtt <= s.rtt && better.loss <= s.loss
    ensures Beats(better, active)
  {
    BeatsExactly(s, active);
    BeatsExactly(better, active);
  }

  /** A sequence of migrations: each path beats the one before it. */
  predicate Chain(c: seq<PathScore>) {
    forall i :: 0 < i < |c| ==> Beats(c[i], c[i - 1])
  }

  predicate Measured(c: seq<PathScore>) {
    forall i :: 0 <= i < |c| ==> c[i].rtt >= 0.0
  }

  /** How many migrations of a chain happened under `rule`. */
  function Count(c: seq<PathScore>, rule: MigrationRule): nat {
    if |c| <= 1 then 0
    else Count(c[..|c| - 1], rule) + if BeatsByMargin(c[|c| - 1], c[|c| - 2]) == rule then 1 else 0
  }

  // ---------------------------------------------------------------- powers

  function Pow(x: real, n: nat): real {
    if n == 0 then 1.0 else x * Pow(x, n - 1)
  }

  lemma {:induction false} PowPositive(x: real, n: nat)
    requires x > 0.0
    ensures Pow(x, n) > 0.0
  {
    if n > 0 { PowPositive(x, n - 1); }
  }

  lemma {:induction false} PowAdd(x: real, m: nat, n: nat)
    ensures Pow(x, m + n) == Pow(x, m) * Pow(x, n)
  {
    if m > 0 {
      PowAdd(x, m - 1, n);
      assert Pow(x, m + n) == x * (Pow(x, m - 1) * Pow(x, n));
    }
  }

  lemma {:induction false} PowBelowOne(x: real, n: nat)
    requires 0.0 < x < 1.0
    ensures Pow(x, n) <= 1.0
    ensures n > 0 ==> Pow(x, n) < 1.0
  {
    if n > 0 {
      PowBelowOne(x, n - 1);
      PowPositive(x, n - 1);
      var y := Pow(x, n - 1);
      assert x * y < 1.0 by { Below(x, y); }
    }
  }

  lemma Below(x: real, y: real)
    requires 0.0 < x < 1.0 && 0.0 < y <= 1.0
    ensures x * y < 1.0
  {
    assert (1.0 - x) * y > 0.0;
  }

  lemma Scale(a: real, b: real, k: real)
    requires a <= b && k >= 0.0
    ensures a * k <= b * k && k * a <= k * b
  {
    assert (b - a) * k >= 0.0;
  }

  lemma NonPositive(a: real, b: real)
    requires b > 0.0 && a * b <= 0.0
    ensures a <= 0.0
  {}

  /** What `p` migrations for speed and `q` for loss do to the round trip, at most. */
  function Shrink(p: nat, q: nat): real {
    Pow(0.75, p) * Pow(1.25, q)
  }

  lemma ShrinkPositive(p: nat, q: nat)
    ensures Shrink(p, q) > 0.0
  {
    PowPositive(0.75, p);
    PowPositive(1.25, q);
  }

  /** Five migrations for speed outweigh one for loss. */
  lemma ShrinkSix(p: nat, q: nat)
    requires p >= 5 && q >= 1
    ensures Shrink(p, q) <= 0.3 * Shrink(p - 5, q - 1)
  {
    PowAdd(0.75, 5, p - 5);
    assert Pow(0.75, 5) == 0.2373046875 by { PowFive(); }
    var (x, y) := (Pow(0.75, p - 5), Pow(1.25, q - 1));
    assert Shrink(p, q) == (0.2373046875 * x) * (1.25 * y);
    assert (0.2373046875 * x) * (1.25 * y) == 0.296630859375 * (x * y);
    ShrinkPositive(p - 5, q - 1);
  }

  lemma ShrinkFive(p: nat, q: nat)
    requires p >= 5
    ensures Shrink(p, q) <= 0.3 * Shrink(p - 5, q)
  {
    PowAdd(0.75, 5, p - 5);
    assert Pow(0.75, 5) == 0.2373046875 by { PowFive(); }
    var (x, y) := (Pow(0.75, p - 5), Pow(1.25, q));
    assert (0.2373046875 * x) * y == 0.2373046875 * (x * y);
    ShrinkPositive(p - 5, q);
  }

  lemma PowFive()
    ensures Pow(0.75, 5) == 0.2373046875
  {
    assert Pow(0.75, 1) == 0.75;
    assert Pow(0.75, 2) == 0.5625;
    assert Pow(0.75, 3) == 0.421875;
    assert Pow(0.75, 4) == 0.31640625;
  }

  /** With enough migrations for speed, the round trip shrinks by 0.3 for every five of them. */
  lemma {:induction false} ShrinkUnits(p: nat, q: nat)
    requires 5 * q <= p
    ensures Shrink(p, q) <= Pow(0.3, p / 5)
    decreases p
  {
    if q > 0 {
      ShrinkSix(p, q);
      ShrinkUnits(p - 5, q - 1);
      Scale(Shrink(p - 5, q - 1), Pow(0.3, (p - 5) / 5), 0.3);
      assert (p - 5) / 5 + 1 == p / 5;
    } else if p >= 5 {
      ShrinkFive(p, q);
      ShrinkUnits(p - 5, q);
      Scale(Shrink(p - 5, q), Pow(0.3, (p - 5) / 5), 0.3);
      assert (p - 5) / 5 + 1 == p / 5;
    } else {
      PowBelowOne(0.75, p);
      assert Pow(1.25, 0) == 1.0;
    }
  }

  // ---------------------------------------------------------------- chains

  /** The most the round trip can be after `p` migrations for speed and `q` for loss. */
  function Bound(r: real, p: nat, q: nat): real {
    r * Shrink(p, q)
  }

  lemma BoundStep(r: real, p: nat, q: nat)
    ensures Bound(r, p + 1, q) == 0.75 * Bound(r, p, q)
    ensures Bound(r, p, q + 1) == 1.25 * Bound(r, p, q)
  {
    var (x, y) := (Pow(0.75, p), Pow(1.25, q));
    assert r * ((0.75 * x) * y) == 0.75 * (r * (x * y));
    assert r * (x * (1.25 * y)) == 1.25 * (r * (x * y));
  }

  /** A chain's end, bounded by its start and by how many migrations of each kind lie between. */
  lemma {:induction false} ChainEnds(c: seq<PathScore>)
    requires |c| > 0 && Chain(c) && Measured(c)
    ensures Count(c, Rtt) + Count(c, Loss) == |c| - 1
    ensures c[|c| - 1].rtt <= Bound(c[0].rtt, Count(c, Rtt), Count(c, Loss))
    ensures c[|c| - 1].loss <=
              c[0].loss + REOPT_LOSS_TOLERANCE * Count(c, Rtt) as real - REOPT_LOSS_MARGIN * Count(c, Loss) as real
    decreases |c|
  {
    var n := |c| - 1;
    if n > 0 {
      hide Bound;
      var prior := c[..n];
      ChainEnds(prior);
      assert Beats(c[n], c[n - 1]);
      assert prior[|prior| - 1] == c[n - 1];
      BoundStep(c[0].rtt, Count(prior, Rtt), Count(prior, Loss));
    } else {
      assert Pow(0.75, 0) == 1.0 && Pow(1.25, 0) == 1.0;
    }
  }

  /**
   Migration cannot oscillate: a path lies on a cycle of migrations, of any length, exactly when
   its round trip is zero. In particular no cycle of positive round trips exists.
   */
  lemma NoCycle(s: PathScore)
    requires s.rtt >= 0.0
    ensures (exists c :: |c| >= 2 && Chain(c) && Measured(c) && c[0] == s && c[|c| - 1] == s) <==> s.rtt == 0.0
  {
    forall c | |c| >= 2 && Chain(c) && Measured(c) && c[0] == s && c[|c| - 1] == s
      ensures s.rtt == 0.0
    {
      CycleIsFlat(c);
    }
    if s.rtt == 0.0 {
      var c := [s, s];
      assert Chain(c) && Measured(c) && |c| >= 2 && c[0] == s && c[|c| - 1] == s;
    }
  }

  lemma CycleIsFlat(c: seq<PathScore>)
    requires |c| >= 2 && Chain(c) && Measured(c) && c[0] == c[|c| - 1]
    ensures c[0].rtt == 0.0
  {
    ChainEnds(c);
    var (p, q) := (Count(c, Rtt), Count(c, Loss));
    assert 5 * q <= p;
    assert p > 0;
    var x := Shrink(p, q);
    ShrinkBelowOne(p, q);
    NonPositive(c[0].rtt, 1.0 - x);
  }

  lemma ShrinkBelowOne(p: nat, q: nat)
    requires 5 * q <= p && p > 0
    ensures Shrink(p, q) < 1.0
  {
    if p >= 5 {
      ShrinkUnits(p, q);
      PowBelowOne(0.3, p / 5);
    } else {
      PowBelowOne(0.75, p);
      assert q == 0 && Pow(1.25, 0) == 1.0;
    }
  }

  // ---------------------------------------------------------------- the longest chain

  /** Ten times `hi`, shrunk `k` times by 0.3. */
  function Reach(hi: real, k: nat): real {
    10.0 * hi * Pow(0.3, k)
  }

  lemma ReachStep(hi: real, k: nat)
    ensures forall j :: 0 < j <= k + 1 ==> Reach(hi, j) == Reach(0.3 * hi, j - 1)
    ensures Reach(hi, 0) == 10.0 * hi
  {
    assert Pow(0.3, 0) == 1.0;
    forall j | 0 < j <= k + 1 ensures Reach(hi, j) == Reach(0.3 * hi, j - 1) {
      var x := Pow(0.3, j - 1);
      assert 10.0 * hi * (0.3 * x) == 10.0 * (0.3 * hi) * x;
    }
  }

  /** The least number of factors 0.3 that bring ten times `hi` below `lo`. */
  function Units(hi: real, lo: real): (k: nat)
    requires 0.0 < lo && 0.0 <= hi
    ensures Reach(hi, k) < lo
    ensures forall j :: 0 <= j < k ==> Reach(hi, j) >= lo
    decreases (100.0 * hi / lo).Floor
  {
    if 10.0 * hi < lo then
      assert Pow(0.3, 0) == 1.0;
      0
    else
      UnitsDecrease(hi, lo);
      var k := Units(0.3 * hi, lo);
      ReachStep(hi, k);
      k + 1
  }

  lemma UnitsDecrease(hi: real, lo: real)
    requires 0.0 < lo && lo <= 10.0 * hi
    ensures 0 <= (100.0 * (0.3 * hi) / lo).Floor < (100.0 * hi / lo).Floor
  {
    var r := hi / lo;
    assert r * lo == hi;
    assert r >= 0.1 by { NonPositive(0.1 - r, lo); }
    assert 100.0 * hi / lo == 100.0 * r;
    assert 100.0 * (0.3 * hi) / lo == 30.0 * r;
  }

  /** Ten migrations for loss cost less than a factor of ten. */
  lemma TenLosses(q: nat)
    requires q <= 10
    ensures Pow(1.25, q) <= 10.0
  {
    assert Pow(1.25, 1) == 1.25;
    assert Pow(1.25, 2) == 1.5625;
    assert Pow(1.25, 3) == 1.953125;
    assert Pow(1.25, 4) < 2.5;
    assert Pow(1.25, 5) < 3.125;
    assert Pow(1.25, 6) < 3.90625;
    assert Pow(1.25, 7) < 4.9;
    assert Pow(1.25, 8) < 6.125;
    assert Pow(1.25, 9) < 7.66;
    assert Pow(1.25, 10) < 9.58;
  }

  lemma ShrinkSmall(p: nat, q: nat)
    requires q <= 10
    ensures Shrink(p, q) <= 10.0 * Shrink(p, 0)
  {
    TenLosses(q);
    PowPositive(0.75, p);
    Scale(Pow(1.25, q), 10.0, Pow(0.75, p));
    assert Pow(1.25, 0) == 1.0;
  }

  lemma ShrinkSplit(p: nat, q: nat)
    requires q >= 10
    ensures Shrink(p, q) <= 10.0 * Shrink(p, q - 10)
  {
    TenLosses(10);
    PowAdd(1.25, 10, q - 10);
    ShrinkPositive(p, q - 10);
    var (x, y, z) := (Pow(0.75, p), Pow(1.25, 10), Pow(1.25, q - 10));
    assert x * (y * z) == y * (x * z);
    Scale(y, 10.0, x * z);
  }

  lemma ShrinkWithSlack(p: nat, q: nat)
    requires 5 * q <= p + 50
    ensures Shrink(p, q) <= 10.0 * Pow(0.3, p / 5)
  {
    hide Shrink, Pow;
    if q <= 10 {
      ShrinkSmall(p, q);
      ShrinkUnits(p, 0);
    } else {
      ShrinkSplit(p, q);
      ShrinkUnits(p, q - 10);
    }
  }

  lemma ReachDecreases(hi: real, m: nat, n: nat)
    requires m <= n && hi >= 0.0
    ensures Reach(hi, n) <= Reach(hi, m)
  {
    PowDecreases(m, n);
    Scale(Pow(0.3, n), Pow(0.3, m), 10.0 * hi);
  }

  lemma BoundAlgebra(r: real, hi: real, x: real, y: real)
    requires 0.0 <= r <= hi && 0.0 < x <= 10.0 * y
    ensures r * x <= 10.0 * hi * y
  {
    Scale(r, hi, x);
    Scale(x, 10.0 * y, hi);
    assert hi * (10.0 * y) == 10.0 * hi * y;
  }

  lemma BoundReaches(r: real, hi: real, p: nat, q: nat)
    requires 0.0 <= r <= hi && 5 * q <= p + 50
    ensures Bound(r, p, q) <= Reach(hi, p / 5)
  {
    ShrinkPositive(p, q);
    ShrinkWithSlack(p, q);
    hide Shrink, Pow;
    var (x, y) := (Shrink(p, q), Pow(0.3, p / 5));
    BoundAlgebra(r, hi, x, y);
  }

  lemma {:induction false} PowDecreases(m: nat, n: nat)
    requires m <= n
    ensures Pow(0.3, n) <= Pow(0.3, m)
  {
    PowAdd(0.3, m, n - m);
    PowBelowOne(0.3, n - m);
    PowPositive(0.3, m);
    Scale(Pow(0.3, n - m), 1.0, Pow(0.3, m));
  }

  /** Between round trips `lo` and `hi`, with loss rates, migrations are at most six per unit and eight more. */
  lemma ChainIsBounded(c: seq<PathScore>, lo: real, hi: real)
    requires Chain(c) && 0.0 < lo <= hi
    requires forall i :: 0 <= i < |c| ==> lo <= c[i].rtt <= hi && 0.0 <= c[i].loss <= 1.0
    ensures |c| <= 6 * Units(hi, lo) + 9
  {
    if |c| > 0 {
      ChainEnds(c);
      var (p, q, k) := (Count(c, Rtt), Count(c, Loss), Units(hi, lo));
      assert 5 * q <= p + 50;
      hide Bound, Reach;
      BoundReaches(c[0].rtt, hi, p, q);
      if k <= p / 5 {
        ReachDecreases(hi, k, p / 5);
        assert false;
      }
    }
  }
}
