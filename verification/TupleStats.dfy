/**
 What the explorer remembers of a path: smoothed round trip and loss, and whether the path
 answers. The object is proved to hold, at any time, functions of its whole probe history.
 */
module TupleStats {
  import opened Options
  import opened PathScore

  const PROBE_TIMEOUT: real := 1.5
  const DEAD_CONSECUTIVE_LOSSES: nat := 3
  const MIN_SAMPLES: nat := 3
  const EWMA_ALPHA: real := 0.3
  const U32_MAX: nat := 0xFFFF_FFFF

  /** One probe: the round trip it measured, or none when it was lost. */
  type Sample = Option<real>

  function SaturatingSucc(n: nat): nat {
    if n < U32_MAX then n + 1 else U32_MAX
  }

  function Smooth(prior: Option<real>, x: real): real {
    match prior
    case None => x
    case Some(y) => y * (1.0 - EWMA_ALPHA) + x * EWMA_ALPHA
  }

  // ---------------------------------------------------------------- what a history means

  function LossOf(h: seq<Sample>): Option<real> {
    if h == [] then None
    else Some(Smooth(LossOf(h[..|h| - 1]), if h[|h| - 1].Some? then 0.0 else 1.0))
  }

  function RttOf(h: seq<Sample>): Option<real> {
    if h == [] then None
    else if h[|h| - 1].None? then RttOf(h[..|h| - 1])
    else Some(Smooth(RttOf(h[..|h| - 1]), h[|h| - 1].value))
  }

  function Capped(n: nat): nat {
    if n < U32_MAX then n else U32_MAX
  }

  /** How many probes were lost since the last answer. */
  function Trailing(h: seq<Sample>): nat {
    if h == [] || h[|h| - 1].Some? then 0 else 1 + Trailing(h[..|h| - 1])
  }

  predicate Answered(h: seq<Sample>) {
    exists i :: 0 <= i < |h| && h[i].Some?
  }

  /** Every measured round trip lies between `lo` and `hi`. */
  predicate Within(h: seq<Sample>, lo: real, hi: real) {
    forall i :: 0 <= i < |h| && h[i].Some? ==> lo <= h[i].value <= hi
  }

  /** The loss rate of any history is a rate. */
  lemma {:induction false} LossIsRate(h: seq<Sample>)
    ensures LossOf(h).Some? <==> h != []
    ensures LossOf(h).Some? ==> 0.0 <= LossOf(h).value <= 1.0
  {
    if h != [] { LossIsRate(h[..|h| - 1]); }
  }

  /** The smoothed round trip stays within the range of the measured ones, and exists once one was measured. */
  lemma {:induction false} RttIsWithin(h: seq<Sample>, lo: real, hi: real)
    requires Within(h, lo, hi)
    ensures RttOf(h).Some? <==> Answered(h)
    ensures RttOf(h).Some? ==> lo <= RttOf(h).value <= hi
  {
    if h != [] {
      var prior := h[..|h| - 1];
      RttIsWithin(prior, lo, hi);
      if Answered(prior) {
        var i :| 0 <= i < |prior| && prior[i].Some?;
        assert h[i].Some?;
      }
      if Answered(h) && h[|h| - 1].None? {
        var i :| 0 <= i < |h| && h[i].Some?;
        assert prior[i].Some?;
      }
    }
  }

  // ---------------------------------------------------------------- how fast the past fades

  function Repeated(x: Sample, n: nat): seq<Sample> {
    seq(n, _ => x)
  }

  lemma OneMore(h: seq<Sample>, x: Sample, n: nat)
    requires n > 0
    ensures var all := h + Repeated(x, n);
            all[..|all| - 1] == h + Repeated(x, n - 1) && all[|all| - 1] == x
  {}

  /** What is left after `n` samples of `x`, when it was `y` before: each keeps seven tenths of the distance. */
  function Faded(y: real, x: real, n: nat): real {
    x + (y - x) * Pow(0.7, n)
  }

  lemma FadedStep(y: real, x: real, n: nat)
    requires n > 0
    ensures Faded(y, x, 0) == y
    ensures Smooth(Some(Faded(y, x, n - 1)), x) == Faded(y, x, n)
  {
    assert Pow(0.7, 0) == 1.0;
    var p := Pow(0.7, n - 1);
    assert (x + (y - x) * p) * 0.7 + x * 0.3 == x + (y - x) * (0.7 * p);
  }

  /**
   The first sample is taken whole; then a run of `n` losses, or of `n` answers, fades the loss rate
   at 0.7 to the n.
   */
  lemma {:induction false} LossFades(h: seq<Sample>, x: Sample, n: nat)
    ensures LossOf([x]) == Some(if x.Some? then 0.0 else 1.0)
    ensures h != [] ==>
              && LossOf(h).Some?
              && LossOf(h + Repeated(x, n)) == Some(Faded(LossOf(h).value, if x.Some? then 0.0 else 1.0, n))
  {
    assert [x][..0] == [];
    if h != [] {
      var bit := if x.Some? then 0.0 else 1.0;
      FadedStep(LossOf(h).value, bit, if n > 0 then n else 1);
      if n == 0 {
        assert h + Repeated(x, 0) == h;
      } else {
        LossFades(h, x, n - 1);
        OneMore(h, x, n);
        hide Smooth, Faded;
      }
    }
  }

  /** The first round trip is taken whole, losses leave it alone, and `n` equal ones fade the rest at 0.7 to the n. */
  lemma {:induction false} RttFades(h: seq<Sample>, x: Sample, n: nat)
    ensures RttOf([x]) == x
    ensures x.None? ==> RttOf(h + Repeated(x, n)) == RttOf(h)
    ensures x.Some? && RttOf(h).Some? ==> RttOf(h + Repeated(x, n)) == Some(Faded(RttOf(h).value, x.value, n))
    ensures x.Some? && RttOf(h).None? && n > 0 ==> RttOf(h + Repeated(x, n)) == x
  {
    assert [x][..0] == [];
    if n == 0 {
      assert h + Repeated(x, 0) == h;
      if x.Some? && RttOf(h).Some? { FadedStep(RttOf(h).value, x.value, 1); }
    } else {
      RttFades(h, x, n - 1);
      OneMore(h, x, n);
      if x.Some? && RttOf(h).Some? { FadedStep(RttOf(h).value, x.value, n); }
      if n == 1 { assert h + Repeated(x, 0) == h; }
      else if x.Some? { SmoothSame(x.value); }
      hide Smooth, Faded;
    }
  }

  lemma SmoothSame(x: real)
    ensures Smooth(Some(x), x) == x && Smooth(None, x) == x
  {}

  lemma {:induction false} TrailingThree(h: seq<Sample>)
    ensures Trailing(h) <= |h|
    ensures Trailing(h) >= 3 <==>
            |h| >= 3 && h[|h| - 1].None? && h[|h| - 2].None? && h[|h| - 3].None?
  {
    if h != [] {
      TrailingThree(h[..|h| - 1]);
      var a := h[..|h| - 1];
      if a != [] {
        var b := a[..|a| - 1];
        assert Trailing(a) == if a[|a| - 1].Some? then 0 else 1 + Trailing(b);
        if b != [] { assert Trailing(b) == if b[|b| - 1].Some? then 0 else 1 + Trailing(b[..|b| - 1]); }
      }
    }
  }

  // ---------------------------------------------------------------- the object

  datatype Probe = Probe(nonce: int, sentAt: real)

  /** What a tick learns about the outstanding probe. */
  function Learned(outstanding: Option<Probe>, echoes: seq<int>, now: real): seq<Sample> {
    if outstanding.None? then []
    else if outstanding.value.nonce in echoes then [Some(now - outstanding.value.sentAt)]
    else if now - outstanding.value.sentAt >= PROBE_TIMEOUT then [None]
    else []
  }

  class TupleStats {
    var rtt: Option<real>
    var loss: Option<real>
    var samples: nat
    var consecutiveLosses: nat
    var outstanding: Option<Probe>
    var nextProbeAt: real
    ghost var history: seq<Sample>

    ghost predicate Valid()
      reads this
    {
      && rtt == RttOf(history)
      && loss == LossOf(history)
      && samples == Capped(|history|)
      && consecutiveLosses == Capped(Trailing(history))
    }

    constructor (firstProbeAt: real)
      ensures Valid() && history == [] && outstanding.None? && nextProbeAt == firstProbeAt
    {
      rtt, loss, samples, consecutiveLosses, outstanding, nextProbeAt := None, None, 0, 0, None, firstProbeAt;
      history := [];
    }

    predicate Dead()
      reads this
    {
      consecutiveLosses >= DEAD_CONSECUTIVE_LOSSES
    }

    /**
     A path has a score exactly when it was probed three times, answered once, and did not lose its
     last three probes. The score's loss is a rate and its round trip lies among those measured.
     */
    method Score(ghost lo: real, ghost hi: real) returns (o: Option<PathScore>)
      requires Valid() && Within(history, lo, hi)
      ensures var n := |history|;
              o.Some? <==> n >= 3 && Answered(history)
                           && !(history[n - 1].None? && history[n - 2].None? && history[n - 3].None?)
      ensures o.Some? ==> 0.0 <= o.value.loss <= 1.0 && lo <= o.value.rtt <= hi
      ensures o.Some? ==> Some(o.value.rtt) == RttOf(history) && Some(o.value.loss) == LossOf(history)
    {
      LossIsRate(history);
      RttIsWithin(history, lo, hi);
      TrailingThree(history);
      if samples >= MIN_SAMPLES && rtt.Some? && !Dead() {
        o := Some(PathScore(rtt.value, if loss.Some? then loss.value else 0.0));
      } else {
        o := None;
      }
    }

    method Record(sample: Sample)
      requires Valid()
      modifies `rtt, `loss, `samples, `consecutiveLosses, `history
      ensures Valid() && history == old(history) + [sample]
    {
      samples := SaturatingSucc(samples);
      loss := Some(Smooth(loss, if sample.Some? then 0.0 else 1.0));
      match sample {
        case Some(x) =>
          consecutiveLosses := 0;
          rtt := Some(Smooth(rtt, x));
        case None => consecutiveLosses := SaturatingSucc(consecutiveLosses);
      }
      ghost var prior := history;
      history := history + [sample];
      assert history[..|history| - 1] == prior;
    }

    /**
     Reads the echoes, times the outstanding probe out, and sends the next one when it is due: at
     most one probe is outstanding, each is recorded once, and a failed send counts as a loss.
     */
    method Tick(echoes: seq<int>, now: real, nonce: int, sent: bool, interval: real, deadInterval: real)
      requires Valid()
      modifies this
      ensures Valid()
      ensures
        var learned := Learned(old(outstanding), echoes, now);
        var due := (old(outstanding).None? || learned != []) && now >= old(nextProbeAt);
        && history == old(history) + learned + (if due && !sent then [None] else [])
        && (outstanding ==
            if due then (if sent then Some(Probe(nonce, now)) else None)
            else if learned != [] then None else old(outstanding))
        && (old(outstanding).Some? ==>
              var p := old(outstanding).value;
              && (p.nonce in echoes <==> |learned| == 1 && learned[0] == Some(now - p.sentAt))
              && (p.nonce !in echoes && now - p.sentAt >= 1.5 <==> learned == [None])
              && (p.nonce !in echoes && now - p.sentAt < 1.5 <==> learned == []))
        && (!due ==> nextProbeAt == old(nextProbeAt))
        && (due ==> nextProbeAt == now + if Trailing(history) >= 3 then deadInterval else interval)
    {
      var i := 0;
      while i < |echoes|
        invariant 0 <= i <= |echoes| && Valid()
        invariant nextProbeAt == old(nextProbeAt)
        invariant old(outstanding).Some? && old(outstanding).value.nonce in echoes[..i] ==>
                    outstanding.None? && history == old(history) + [Some(now - old(outstanding).value.sentAt)]
        invariant !(old(outstanding).Some? && old(outstanding).value.nonce in echoes[..i]) ==>
                    outstanding == old(outstanding) && history == old(history)
      {
        assert echoes[..i + 1] == echoes[..i] + [echoes[i]];
        if outstanding.Some? && echoes[i] == outstanding.value.nonce {
          var sentAt := outstanding.value.sentAt;
          outstanding := None;
          Record(Some(now - sentAt));
        }
        i := i + 1;
      }
      assert echoes[..|echoes|] == echoes;
      if outstanding.Some? && now - outstanding.value.sentAt >= PROBE_TIMEOUT {
        outstanding := None;
        Record(None);
      }
      assert history == old(history) + Learned(old(outstanding), echoes, now);
      if outstanding.None? && now >= nextProbeAt {
        if sent { outstanding := Some(Probe(nonce, now)); } else { Record(None); }
        nextProbeAt := now + if Dead() then deadInterval else interval;
      }
    }
  }
}
