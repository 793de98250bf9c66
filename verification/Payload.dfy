/**
 The payload verifier: a stream of the bytes 0, 1, ..., 250, 0, 1, ... is checked chunk by chunk
 against a precomputed window, and a writer that repeats a fixed payload produces such a stream.
 */
module Payload {
  const PERIOD: nat := 251
  const VERIFY_CHUNK_BYTES: nat := 64 * 1024
  const WINDOW_LENGTH: nat := VERIFY_CHUNK_BYTES + PERIOD - 1

  type Bytes = seq<int>

  /** The byte of the pattern at an offset. */
  function Pattern(offset: nat): int {
    offset % PERIOD
  }

  /** The payload continues the pattern at offset `phase`. */
  predicate Matches(actual: Bytes, phase: nat) {
    forall i :: 0 <= i < |actual| ==> actual[i] == Pattern(phase + i)
  }

  /** The precomputed pattern. */
  method MakeWindow() returns (window: array<int>)
    ensures fresh(window) && window.Length == WINDOW_LENGTH && Matches(window[..], 0)
  {
    window := new int[WINDOW_LENGTH];
    var i := 0;
    while i < window.Length
      invariant 0 <= i <= window.Length
      invariant forall j :: 0 <= j < i ==> window[j] == Pattern(j)
    {
      window[i] := i % PERIOD;
      i := i + 1;
    }
  }

  lemma Shift(phase: nat, compared: nat, i: nat)
    ensures Pattern((phase + compared % PERIOD) % PERIOD + i) == Pattern(phase + compared + i)
    ensures (phase + compared % PERIOD) % PERIOD == (phase + compared) % PERIOD
  {
    var a := phase + compared % PERIOD;
    assert a % PERIOD + PERIOD * (a / PERIOD) == a;
    assert compared % PERIOD + PERIOD * (compared / PERIOD) == compared;
    var k := a / PERIOD + compared / PERIOD;
    assert phase + compared + i == a % PERIOD + i + PERIOD * k;
    AddPeriods(a % PERIOD + i, k);
    assert phase + compared == a % PERIOD + PERIOD * k;
    AddPeriods(a % PERIOD, k);
  }

  lemma {:induction false} AddPeriods(x: nat, k: nat)
    ensures (x + PERIOD * k) % PERIOD == x % PERIOD
  {
    if k > 0 {
      AddPeriods(x, k - 1);
      assert x + PERIOD * k == (x + PERIOD * (k - 1)) + PERIOD;
    }
  }

  class PayloadPatternVerifier {
    var phase: nat
    const window: array<int>

    ghost predicate Valid()
      reads this, window
    {
      phase < PERIOD && window.Length == WINDOW_LENGTH && Matches(window[..], 0)
    }

    constructor (w: array<int>)
      requires w.Length == WINDOW_LENGTH && Matches(w[..], 0)
      ensures Valid() && phase == 0 && window == w
    {
      phase, window := 0, w;
    }

    /** Accepts exactly the bytes that continue the pattern, and moves on only when it accepts them. */
    method Verify(actual: Bytes) returns (ok: bool)
      requires Valid()
      modifies `phase
      ensures Valid()
      ensures ok <==> Matches(actual, old(phase))
      ensures phase == if ok then (old(phase) + |actual|) % PERIOD else old(phase)
    {
      hide Matches, Pattern;
      var compared := 0;
      Nothing(actual, phase);
      while compared < |actual|
        invariant 0 <= compared <= |actual|
        invariant phase == old(phase) && Matches(actual[..compared], phase)
        decreases |actual| - compared
      {
        var left := |actual| - compared;
        var length := if left < VERIFY_CHUNK_BYTES then left else VERIFY_CHUNK_BYTES;
        var start := (phase + compared % PERIOD) % PERIOD;
        assert window[start..start + length] == window[..][start..start + length];
        Window(window[..], start, length, phase, compared);
        if actual[compared..compared + length] != window[start..start + length] {
          if Matches(actual, phase) {
            SameChunk(actual, compared, length, phase, window[start..start + length]);
            assert false;
          }
          return false;
        }
        Extends(actual, compared, length, phase);
        compared := compared + length;
      }
      assert actual[..compared] == actual;
      Shift(phase, |actual|, 0);
      phase := (phase + |actual| % PERIOD) % PERIOD;
      return true;
    }
  }

  /** The slice of the window compared against a chunk is the pattern the chunk should continue. */
  lemma Window(w: Bytes, start: nat, length: nat, phase: nat, compared: nat)
    requires Matches(w, 0) && start + length <= |w|
    requires start == (phase + compared % PERIOD) % PERIOD
    ensures Matches(w[start..start + length], phase + compared)
  {
    var slice := w[start..start + length];
    forall i | 0 <= i < length ensures slice[i] == Pattern(phase + compared + i) {
      assert slice[i] == w[start + i];
      Shift(phase, compared, i);
    }
  }

  lemma Nothing(actual: Bytes, phase: nat)
    ensures Matches(actual[..0], phase)
  {}

  lemma Extends(actual: Bytes, compared: nat, length: nat, phase: nat)
    requires compared + length <= |actual| && Matches(actual[..compared], phase)
    requires Matches(actual[compared..compared + length], phase + compared)
    ensures Matches(actual[..compared + length], phase)
  {
    var (head, tail, all) := (actual[..compared], actual[compared..compared + length], actual[..compared + length]);
    forall i | 0 <= i < compared + length ensures all[i] == Pattern(phase + i) {
      if i < compared { assert head[i] == all[i]; } else { assert tail[i - compared] == all[i]; }
    }
  }

  /** A matching payload agrees with the pattern on every chunk. */
  lemma SameChunk(actual: Bytes, compared: nat, length: nat, phase: nat, pattern: Bytes)
    requires compared + length <= |actual| && |pattern| == length
    requires Matches(actual, phase) && Matches(pattern, phase + compared)
    ensures actual[compared..compared + length] == pattern
  {
    var chunk := actual[compared..compared + length];
    forall i | 0 <= i < length ensures chunk[i] == pattern[i] { assert chunk[i] == actual[compared + i]; }
  }

  // ---------------------------------------------------------------- sequences of chunks

  function Concat(chunks: seq<Bytes>): Bytes {
    if chunks == [] then [] else chunks[0] + Concat(chunks[1..])
  }

  /** Every chunk is accepted in its turn. */
  predicate AllAccepted(chunks: seq<Bytes>, phase: nat) {
    chunks == [] || (Matches(chunks[0], phase) && AllAccepted(chunks[1..], (phase + |chunks[0]|) % PERIOD))
  }

  lemma SplitMatches(a: Bytes, b: Bytes, phase: nat)
    ensures Matches(a + b, phase) <==> Matches(a, phase) && Matches(b, (phase + |a|) % PERIOD)
  {
    var (all, next) := (a + b, (phase + |a|) % PERIOD);
    forall i | 0 <= i < |b| ensures Pattern(next + i) == Pattern(phase + |a| + i) && b[i] == all[|a| + i] {
      Shift(phase + |a|, 0, i);
    }
    if Matches(all, phase) {
      forall i | 0 <= i < |a| ensures a[i] == Pattern(phase + i) { assert all[i] == a[i]; }
      forall i | 0 <= i < |b| ensures b[i] == Pattern(next + i) { assert all[|a| + i] == b[i]; }
    }
  }

  /** Chunks are all accepted exactly when their concatenation is: the chunking does not matter. */
  lemma {:induction false} ChunkingIsIrrelevant(chunks: seq<Bytes>, phase: nat)
    ensures AllAccepted(chunks, phase) <==> Matches(Concat(chunks), phase)
  {
    if chunks != [] {
      ChunkingIsIrrelevant(chunks[1..], (phase + |chunks[0]|) % PERIOD);
      SplitMatches(chunks[0], Concat(chunks[1..]), phase);
    }
  }

  // ---------------------------------------------------------------- the saturating writer

  function ByteSinkPayload(chunkBytes: nat): (r: Bytes)
    ensures |r| == chunkBytes - chunkBytes % PERIOD && |r| % PERIOD == 0 && Matches(r, 0)
  {
    seq(chunkBytes - chunkBytes % PERIOD, i requires i >= 0 => Pattern(i))
  }

  /** The stream is a beginning of the payload repeated for ever; of an empty payload there is nothing to repeat. */
  predicate Repeats(stream: Bytes, payload: Bytes) {
    if payload == [] then stream == []
    else forall i :: 0 <= i < |stream| ==> stream[i] == payload[i % |payload|]
  }

  /**
   Writes the payload back to back; `commits` says how many bytes each write takes, none ending the
   run. Whatever the short writes, the stream is the payload repeated.
   */
  method Saturate(payload: Bytes, commits: seq<nat>) returns (stream: Bytes)
    ensures Repeats(stream, payload)
  {
    stream := [];
    var offset := 0;
    var k := 0;
    while k < |commits|
      invariant 0 <= k <= |commits|
      invariant if payload == [] then offset == 0 else offset == |stream| % |payload|
      invariant Repeats(stream, payload)
    {
      var room := |payload| - offset;
      var n := if commits[k] < room then commits[k] else room;
      if n == 0 { break; }
      Wraps(stream, payload, offset, n);
      stream := stream + payload[offset..offset + n];
      offset := (offset + n) % |payload|;
      k := k + 1;
    }
  }

  lemma Wraps(stream: Bytes, payload: Bytes, offset: nat, n: nat)
    requires payload != [] && Repeats(stream, payload) && offset == |stream| % |payload| && offset + n <= |payload|
    ensures Repeats(stream + payload[offset..offset + n], payload)
    ensures (|stream| + n) % |payload| == (offset + n) % |payload|
  {
    var (part, m) := (payload[offset..offset + n], |payload|);
    var all := stream + part;
    forall i | 0 <= i < |all| ensures all[i] == payload[i % m] {
      if i < |stream| {
        assert all[i] == stream[i];
      } else {
        assert all[i] == part[i - |stream|] == payload[offset + (i - |stream|)];
        Remainder(|stream|, i - |stream|, m);
      }
    }
    OffsetMoves(|stream|, m, n);
  }

  lemma OffsetMoves(x: nat, m: nat, n: nat)
    requires m > 0 && x % m + n <= m
    ensures (x + n) % m == (x % m + n) % m
  {
    if x % m + n < m {
      Remainder(x, n, m);
      Unique(x % m + n, m, 0, x % m + n);
    } else {
      var q := x / m;
      Distribute(m, q);
      Unique(x + n, m, q + 1, 0);
      Unique(m, m, 1, 0);
    }
  }

  lemma Distribute(m: int, q: int)
    ensures m * (q + 1) == m * q + m
  {}

  lemma Remainder(x: nat, j: nat, m: nat)
    requires m > 0 && x % m + j < m
    ensures (x + j) % m == x % m + j
  {
    Unique(x + j, m, x / m, x % m + j);
  }

  /** A remainder is the only one. */
  lemma Unique(x: nat, m: nat, q: nat, r: nat)
    requires m > 0 && x == m * q + r && r < m
    ensures x % m == r
  {
    var (p, s) := (x / m, x % m);
    assert x == m * p + s;
    Small(m, p - q, r - s);
  }

  lemma Small(m: int, k: int, d: int)
    requires -m < d < m && m * k == d
    ensures d == 0
  {
    Grows(m, k);
  }

  lemma Grows(m: int, k: int)
    requires m > 0
    ensures k >= 1 ==> m * k >= m
    ensures k <= -1 ==> m * k <= -m
  {}

  /**
   A repeated payload that itself matches the pattern matches it as a stream exactly when it is a
   whole number of periods long, or the stream never wraps.
   */
  lemma StreamMatches(stream: Bytes, payload: Bytes)
    requires Repeats(stream, payload) && Matches(payload, 0)
    ensures Matches(stream, 0) <==> |payload| % PERIOD == 0 || |stream| <= |payload|
  {
    if |payload| % PERIOD == 0 {
      forall i | 0 <= i < |stream| ensures stream[i] == Pattern(0 + i) {
        Aligned(i, |payload|);
      }
    } else if |stream| <= |payload| {
      forall i | 0 <= i < |stream| ensures stream[i] == Pattern(0 + i) {
        Unique(i, |payload|, 0, i);
      }
    } else {
      var m := |payload|;
      Unique(m, m, 1, 0);
      assert stream[m] == payload[0] == 0;
      assert Pattern(0 + m) != 0;
    }
  }

  lemma Aligned(i: nat, m: nat)
    requires m > 0 && m % PERIOD == 0
    ensures i % m % PERIOD == i % PERIOD
  {
    var (q, k) := (i / m, m / PERIOD);
    assert i == i % m + m * q;
    assert m == PERIOD * k;
    assert m * q == PERIOD * (k * q) by { Regroup(k, q); }
    AddPeriods(i % m, k * q);
  }

  lemma Regroup(k: nat, q: nat)
    ensures (PERIOD * k) * q == PERIOD * (k * q) && k * q >= 0
  {}

  /** What a saturating writer of an aligned payload sends is accepted under any read chunking. */
  lemma SaturationIsAccepted(chunks: seq<Bytes>, chunkBytes: nat)
    requires Repeats(Concat(chunks), ByteSinkPayload(chunkBytes))
    ensures AllAccepted(chunks, 0)
  {
    StreamMatches(Concat(chunks), ByteSinkPayload(chunkBytes));
    ChunkingIsIrrelevant(chunks, 0);
  }
}
