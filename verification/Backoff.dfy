// Retry delays of src/outbound.rs and src/inbound.rs. The jitter factor is an
// input; the source's f64 product is a real one here.
module Backoff {
  import opened Wrappers

  const TRANSIENT_BACKOFF_BASE_MS: int := 2_000
  const TRANSIENT_BACKOFF_MAX_MS: int := 30_000
  const INITIAL_BACKOFF_MS: int := 1_000
  const MAX_BACKOFF_MS: int := 60_000

  type Jitter = r: real | 0.8 <= r < 1.2 witness 1.0

  function Min(a: int, b: int): int {
    if a <= b then a else b
  }

  // 1u64 << n
  function Shl(n: nat): (p: nat)
    ensures p >= 1
  {
    if n == 0 then 1 else 2 * Shl(n - 1)
  }

  function SaturatingMul(a: nat, b: nat): nat {
    Min(a * b, U64_MAX)
  }

  function TransientBackoffMs(attempts: U32, jitter: Jitter): int {
    var exp := Min(SaturatingMul(TRANSIENT_BACKOFF_BASE_MS, Shl(Min(if attempts == 0 then 0 else attempts - 1, 5))),
                   TRANSIENT_BACKOFF_MAX_MS);
    (exp as real * jitter).Floor
  }

  // Whole seconds added to the clock: (backoff_ms / 1000) as i64.
  function RetryDelay(attempts: U32, jitter: Jitter): int {
    TransientBackoffMs(attempts, jitter) / 1000
  }

  function InboundBackoffMs(attempt: U32, jitter: Jitter): int {
    var base := Min(SaturatingMul(INITIAL_BACKOFF_MS, Shl(Min(attempt, 6))), MAX_BACKOFF_MS);
    (base as real * jitter).Floor
  }

  lemma ShlTable()
    ensures Shl(0) == 1 && Shl(1) == 2 && Shl(2) == 4 && Shl(3) == 8 && Shl(4) == 16 && Shl(5) == 32 && Shl(6) == 64
  {
    assert Shl(3) == 2 * Shl(2);
    assert Shl(5) == 2 * Shl(4);
  }

  lemma FloorBetween(r: real, lo: int, hi: int)
    requires lo as real <= r < hi as real
    ensures lo <= r.Floor < hi
  {
  }

  // The bands of the four delays that are ever scheduled, in whole seconds.
  lemma RetryDelayBands(jitter: Jitter)
    ensures 1 <= RetryDelay(1, jitter) <= 2
    ensures 3 <= RetryDelay(2, jitter) <= 4
    ensures 6 <= RetryDelay(3, jitter) <= 9
    ensures 12 <= RetryDelay(4, jitter) <= 19
  {
    ShlTable();
    FloorBetween(2000 as real * jitter, 1600, 2400);
    FloorBetween(4000 as real * jitter, 3200, 4800);
    FloorBetween(8000 as real * jitter, 6400, 9600);
    FloorBetween(16000 as real * jitter, 12800, 19200);
  }

  // The four delays themselves: 2, 4, 8 and 16 seconds times the jitter, in whole
  // milliseconds first and whole seconds then; from the fifth on it would be 30 s.
  lemma RetryDelayIs(jitter: Jitter, attempts: U32)
    ensures RetryDelay(1, jitter) == (2000.0 * jitter).Floor / 1000
    ensures RetryDelay(2, jitter) == (4000.0 * jitter).Floor / 1000
    ensures RetryDelay(3, jitter) == (8000.0 * jitter).Floor / 1000
    ensures RetryDelay(4, jitter) == (16000.0 * jitter).Floor / 1000
    ensures attempts >= 5 ==> RetryDelay(attempts, jitter) == (30000.0 * jitter).Floor / 1000
  {
    ShlTable();
    assert attempts == 5 ==> Min(attempts - 1, 5) == 4;
    assert attempts >= 6 ==> Min(attempts - 1, 5) == 5;
  }

  // The reconnect delays: 1, 2, 4, 8, 16 and 32 seconds and then 60, times the jitter.
  lemma InboundBackoffIs(jitter: Jitter, attempt: U32)
    ensures InboundBackoffMs(0, jitter) == (1000.0 * jitter).Floor
    ensures InboundBackoffMs(1, jitter) == (2000.0 * jitter).Floor
    ensures InboundBackoffMs(2, jitter) == (4000.0 * jitter).Floor
    ensures InboundBackoffMs(3, jitter) == (8000.0 * jitter).Floor
    ensures InboundBackoffMs(4, jitter) == (16000.0 * jitter).Floor
    ensures InboundBackoffMs(5, jitter) == (32000.0 * jitter).Floor
    ensures attempt >= 6 ==> InboundBackoffMs(attempt, jitter) == (60000.0 * jitter).Floor
  {
    ShlTable();
  }

  // A retry is never scheduled in the present, and every delay is longer than
  // any delay of the attempt before it, whatever the two jitters were.
  lemma RetryDelaysGrow(attempts: U32, jitter: Jitter, earlier: Jitter)
    requires 1 <= attempts <= 4
    ensures RetryDelay(attempts, jitter) > 0
    ensures attempts > 1 ==> RetryDelay(attempts, jitter) > RetryDelay(attempts - 1, earlier)
  {
    RetryDelayBands(jitter);
    RetryDelayBands(earlier);
  }

  // The reconnect delay: no multiplication saturates, it never drops below 0.8 s
  // and never reaches 72 s, and from the sixth failure on it is at least 48 s.
  lemma InboundBackoffBounds(attempt: U32, jitter: Jitter)
    ensures INITIAL_BACKOFF_MS * Shl(Min(attempt, 6)) <= U64_MAX
    ensures 800 <= InboundBackoffMs(attempt, jitter) < 72_000
    ensures attempt >= 6 ==> 48_000 <= InboundBackoffMs(attempt, jitter)
  {
    ShlTable();
    var n := Min(attempt, 6);
    assert n == 0 || n == 1 || n == 2 || n == 3 || n == 4 || n == 5 || n == 6;
    var base := Min(INITIAL_BACKOFF_MS * Shl(n), MAX_BACKOFF_MS);
    FloorBetween(base as real * jitter, 800, 72_000);
    if attempt >= 6 {
      FloorBetween(base as real * jitter, 48_000, 72_000);
    }
  }
}
