/**
 The shared bandwidth quota of a tunnel: one token bucket per tunnel id and direction, built from
 the first connection's quota, and the two half connections that charge it before they move bytes.
 The bucket is the one `governor` documents: it holds at most `burst` bytes, gains `bps` bytes per
 second, and grants a request when it holds as many bytes.
 */
module RateLimiter {
  import opened Common
  const U32: nat := 0x1_0000_0000
  const CHUNK: nat := 16384
  const JITTER_PERCENT: nat := 10
  const SECOND: nat := 1_000_000_000      // nanoseconds
  const RETRY: nat := 10_000_000          // ten milliseconds

  type U16 = x: nat | x < 0x1_0000

  function Clamp(x: nat, lo: nat, hi: nat): nat { Max(lo, Min(x, hi)) }

  // ----- the quota -----

  datatype Quota = Quota(bps: nat, burst: nat)

  const TWO_53: nat := 0x20_0000_0000_0000

  /** The double nearest to 1.2 is this over two to the power of 52. */
  const ONE_POINT_TWO: nat := 5404319552844595

  /** How far a number is scaled down to fit the 53 bits of a double. */
  function Exponent(q: nat): nat { if q < TWO_53 then 0 else 1 + Exponent(q / 2) }

  /** The nearest multiple of `u`, the even one of two. */
  function RoundedTo(q: nat, u: nat): nat
    requires u > 0
  {
    var n, r := q / u, q % u;
    if 2 * r < u || (2 * r == u && n % 2 == 0) then n * u else (n + 1) * u
  }

  /** The product of `m` MiB with 1.2 in doubles, rounded down; the factor `m` MiB is itself a double. */
  function TimesOnePointTwo(m: U16): nat {
    var q := m * ONE_POINT_TWO;
    RoundedTo(q, Pow2(Exponent(q))) / U32
  }

  lemma {:induction false} ExponentFits(q: nat, n: nat)
    requires q < TWO_53 * Pow2(n)
    ensures Exponent(q) <= n && q < TWO_53 * Pow2(Exponent(q))
  {
    if q >= TWO_53 {
      ExponentFits(q / 2, n - 1);
    }
  }

  lemma {:induction false} PowersMultiply(a: nat, b: nat)
    ensures Pow2(a) * Pow2(b) == Pow2(a + b)
  {
    if a > 0 {
      PowersMultiply(a - 1, b);
      Doubled(Pow2(a - 1), Pow2(b));
    }
  }

  lemma Doubled(x: nat, y: nat)
    ensures (2 * x) * y == 2 * (x * y)
  {
  }

  lemma {:induction false} PowersGrow(a: nat, b: nat)
    requires a <= b
    ensures Pow2(a) <= Pow2(b)
  {
    if a < b {
      PowersGrow(a, b - 1);
    }
  }

  lemma SomePowers()
    ensures Pow2(16) == 0x1_0000 && Pow2(32) == U32
  {
    assert Pow2(4) == 16;
    PowersMultiply(4, 4);
    PowersMultiply(8, 8);
    PowersMultiply(16, 16);
  }

  lemma RoundedIsClose(q: nat, u: nat)
    requires u > 0
    ensures 2 * q - u <= 2 * RoundedTo(q, u) <= 2 * q + u
  {
    var n := q / u;
    assert q == n * u + q % u;
    assert (n + 1) * u == n * u + u;
  }

  /** A number less than half a unit below a multiple is rounded up to it. */
  lemma RoundedUp(q: nat, u: nat, n: nat, d: nat)
    requires u > 0 && q + d == n * u && 2 * d < u
    ensures RoundedTo(q, u) == n * u
  {
    if d == 0 {
      Quotient(q, u, n, 0);
    } else {
      assert (n - 1) * u == n * u - u;
      Quotient(q, u, n - 1, u - d);
    }
  }

  lemma Quotient(q: nat, u: nat, n: int, r: nat)
    requires u > 0 && q == n * u + r && r < u
    ensures q / u == n && q % u == r
  {
    var k := q / u;
    assert q == k * u + q % u;
    if k < n {
      MultiplesApart(k, n, u);
    } else if k > n {
      MultiplesApart(n, k, u);
    }
  }

  lemma MultiplesApart(a: int, b: int, u: nat)
    requires a < b
    ensures a * u + u <= b * u
  {
    assert b * u - a * u - u == (b - a - 1) * u >= 0;
  }

  /** For every quota the product in doubles is 6/5 of the quota, rounded down: the rounding never shows. */
  lemma ProductIsExact(m: U16)
    ensures TimesOnePointTwo(m) == m * 1024 * 1024 * 6 / 5
  {
    hide Pow2;
    hide RoundedTo;
    var q := m * ONE_POINT_TWO;
    SomePowers();
    ExponentFits(q, 16);
    PowersGrow(Exponent(q), 16);
    PowersMultiply(32 - Exponent(q), Exponent(q));
    var u, v := Pow2(Exponent(q)), Pow2(32 - Exponent(q));
    var f, g := m * 6291456 / 5, m * 6291456 % 5;
    assert 5 * q == U32 * (5 * f + g) - m;
    if g > 0 {
      RoundedIsClose(q, u);
    } else {
      var d := m / 5;
      Regrouped(f, v, u);
      RoundedUp(q, u, f * v, d);
    }
  }

  lemma Regrouped(f: nat, v: nat, u: nat)
    ensures f * (v * u) == (f * v) * u
  {
  }

  /** `build_limiter`: the rate is truncated to 32 bits, the burst saturates there. */
  function BuildQuota(m: U16): Quota {
    Quota(Max(m * 1024 * 1024 % U32, 1), Max(Min(TimesOnePointTwo(m), U32 - 1), 1))
  }

  /** The burst is at most 6/5 of a second's worth, exactly for the quotas the truncation leaves large enough. */
  lemma BurstIsSixFifths(m: U16)
    ensures 5 * BuildQuota(m).burst <= 6 * BuildQuota(m).bps <==> m < 4096 || m % 4096 >= 3414
    ensures m < 4096 && m > 0 ==> BuildQuota(m).bps == m * 1024 * 1024
  {
    hide TimesOnePointTwo;
    ProductIsExact(m);
    var k, r := m / 4096, m % 4096;
    assert m * 1048576 == k * U32 + r * 1048576;
    assert (m * 1048576) % U32 == r * 1048576;
  }

  /**
   The quota of `m` MiB per second: the rate is that many bytes unless they need more than 32 bits, in
   which case their low 32 bits; the burst is 6/5 of them, at most 4294967295; neither is ever zero.
   */
  lemma QuotaExactly(m: U16)
    ensures BuildQuota(m).bps == (if m % 4096 == 0 then 1 else m % 4096 * 1048576)
    ensures BuildQuota(m).burst == (if m == 0 then 1 else if m >= 3414 then 4294967295 else m * 6291456 / 5)
  {
    hide TimesOnePointTwo;
    ProductIsExact(m);
    var k, r := m / 4096, m % 4096;
    assert m * 1048576 == k * U32 + r * 1048576;
    assert (m * 1048576) % U32 == r * 1048576;
  }

  /** The resolver caps quotas at 10; those are neither truncated nor saturated. */
  lemma CappedQuotaIsExact(m: U16)
    requires 1 <= m <= 10
    ensures BuildQuota(m).bps == m * 1048576 && BuildQuota(m).burst == m * 6291456 / 5
  {
    hide TimesOnePointTwo;
    ProductIsExact(m);
  }

  // ----- the chunk -----

  /** `jittered_chunk`: the base within ten percent either way. */
  function JitteredChunk(base: nat, roll: nat): nat {
    var b := Clamp(base, 1, CHUNK);
    var pct := 100 - JITTER_PERCENT + roll % (2 * JITTER_PERCENT + 1);
    Clamp(b * pct / 100, 1, CHUNK)
  }

  /** What a poll asks for, given the room in its buffer, which it truncates to 32 bits. */
  function ChunkOf(remaining: nat, roll: nat): nat {
    var r := remaining % U32;
    Min(JitteredChunk(Max(Min(r, CHUNK), 1), roll), r)
  }

  /**
   The chunk is empty exactly when the low 32 bits of the room are zero; otherwise it lies between
   nine tenths of the untampered chunk and the room, and is at most 16384.
   */
  lemma ChunkIsBounded(remaining: nat, roll: nat)
    ensures var n := ChunkOf(remaining, roll);
            && (n == 0 <==> remaining % U32 == 0)
            && n <= remaining && n <= remaining % U32 && n <= 16384
            && 10 * n + 9 >= 9 * Min(remaining % U32, CHUNK)
            && 10 * n <= Max(10, 11 * Min(remaining % U32, CHUNK))
  {
    var r := remaining % U32;
    var b := Min(r, CHUNK);
    JitterStaysClose(Max(b, 1), 90 + roll % 21);
    Remainder(remaining);
  }

  /**
   The jitter only shrinks: of the 21 rolls, each of the lower ten asks for a tenth less up to a
   hundredth less, and the other eleven for all of the room, up to 16384 bytes.
   */
  lemma JitterOnlyShrinks(remaining: nat, roll: nat)
    ensures var k, b := roll % 21, Min(remaining % U32, 16384);
            ChunkOf(remaining, roll) == if k < 10 && b > 1 then b * (90 + k) / 100 else b
  {
    var k, b := roll % 21, Min(remaining % U32, 16384);
    if b > 1 {
      if k < 10 {
        AtLeastOne(b, 90 + k);
      } else {
        AtLeastAll(b, 90 + k);
      }
    } else {
      assert Max(b, 1) * (90 + k) / 100 <= 1;
    }
  }

  lemma AtLeastOne(b: nat, pct: nat)
    requires b > 1 && 90 <= pct < 100
    ensures 1 <= b * pct / 100 <= b
  {
    assert 2 * 90 <= b * pct <= b * 100;
  }

  lemma AtLeastAll(b: nat, pct: nat)
    requires pct >= 100
    ensures b * pct / 100 >= b
  {
    assert b * pct >= b * 100;
  }

  lemma JitterStaysClose(b: nat, pct: nat)
    requires 90 <= pct <= 110
    ensures 9 * b <= 10 * (b * pct / 100) + 9 && 10 * (b * pct / 100) <= 11 * b
  {
    var p := b * pct;
    assert b * 90 <= p <= b * 110;
  }

  lemma Remainder(x: nat)
    ensures x % U32 <= x
  {
  }

  // ----- the bucket -----

  /** `level` counts byte-nanoseconds, a byte being `SECOND` of them, as of the time `at`. */
  datatype Bucket = Bucket(quota: Quota, level: nat, at: nat)

  function Full(q: Quota, now: nat): Bucket { Bucket(q, q.burst * SECOND, now) }

  function Level(b: Bucket, now: nat): nat
    requires b.at <= now
  {
    Min(b.quota.burst * SECOND, b.level + b.quota.bps * (now - b.at))
  }

  datatype Checked = Insufficient | NotUntil(wait: nat) | Granted

  /** Nanoseconds until the bucket holds what is missing. */
  function Wait(missing: nat, bps: nat): nat
    requires bps > 0
  {
    (missing + bps - 1) / bps
  }

  function Check(b: Bucket, n: nat, now: nat): (Checked, Bucket)
    requires b.at <= now && b.quota.bps > 0
  {
    if n > b.quota.burst then (Insufficient, b)
    else if n * SECOND <= Level(b, now) then
      (Granted, Bucket(b.quota, Level(b, now) - n * SECOND, now))
    else (NotUntil(Wait(n * SECOND - Level(b, now), b.quota.bps)), b)
  }

  predicate BucketOk(b: Bucket, now: nat) {
    b.at <= now && b.quota.bps > 0 && b.level <= b.quota.burst * SECOND
  }

  lemma Distributes(a: nat, x: nat, y: nat)
    ensures a * (x + y) == a * x + a * y
  {
  }

  /** Time adds at most the rate. */
  lemma LevelRises(b: Bucket, now: nat, dt: nat)
    requires BucketOk(b, now)
    ensures Level(b, now) <= Level(b, now + dt) <= Level(b, now) + b.quota.bps * dt
  {
    Distributes(b.quota.bps, now - b.at, dt);
    assert now + dt - b.at == (now - b.at) + dt;
  }

  lemma WaitCovers(missing: nat, bps: nat, w: nat)
    requires bps > 0
    ensures bps * w >= missing <==> w >= Wait(missing, bps)
  {
    var q := Wait(missing, bps);
    var r := (missing + bps - 1) % bps;
    assert missing + bps - 1 == bps * q + r;
    if w >= q {
      Distributes(bps, q, w - q);
    } else {
      Distributes(bps, w, q - 1 - w);
      Distributes(bps, q - 1, 1);
    }
  }

  /**
   The wait a refused request is told is exact: with nobody else charging, the bucket grants it
   that much later, and at no time before.
   */
  lemma WaitIsExact(b: Bucket, n: nat, now: nat, w: nat)
    requires BucketOk(b, now) && Check(b, n, now).0.NotUntil?
    ensures Check(b, n, now + w).0.Granted? <==> w >= Check(b, n, now).0.wait
  {
    var missing := n * SECOND - Level(b, now);
    WaitCovers(missing, b.quota.bps, w);
    Distributes(b.quota.bps, now - b.at, w);
    assert now + w - b.at == (now - b.at) + w;
    assert n * SECOND <= b.quota.burst * SECOND;
  }

  // ----- one poll of a half connection -----

  datatype Poll = Pending | Ready(moved: nat) | Panicked

  /** The sleep of a half connection, if it has one, ends at a time. */
  datatype Polled = Polled(sleep: Option<nat>, bucket: Option<Bucket>, poll: Poll, charged: nat)

  /**
   `poll_read` and `poll_write`: `room` is the room or the data in the buffer, `inner` what the
   wrapped stream would move, if it is ready.
   */
  function PollHalf(sleep: Option<nat>, bucket: Option<Bucket>, now: nat, room: nat, roll: nat,
          inner: Option<nat>): Polled
    requires bucket.Some? ==> BucketOk(bucket.value, now)
  {
    if sleep.Some? && now < sleep.value then Polled(sleep, bucket, Pending, 0)
    else
      var n := ChunkOf(room, roll);
      var answer := if inner.None? then Pending else Ready(Min(inner.value, n));
      if bucket.None? then Polled(None, bucket, answer, 0)
      else if n == 0 then Polled(None, bucket, Panicked, 0)
      else
        var (checked, b) := Check(bucket.value, n, now);
        match checked
        case Insufficient => Polled(Some(now + RETRY), Some(b), Pending, 0)
        case NotUntil(wait) => Polled(Some(now + wait), Some(b), Pending, 0)
        case Granted => Polled(None, Some(b), answer, n)
  }

  function MovedBy(p: Poll): nat { if p.Ready? then p.moved else 0 }

  /** A poll moves no more than it charged and pays what it charged out of the bucket. */
  lemma PollPays(sleep: Option<nat>, b: Bucket, now: nat, room: nat, roll: nat, inner: Option<nat>)
    requires BucketOk(b, now)
    ensures var p := PollHalf(sleep, Some(b), now, room, roll, inner);
            && MovedBy(p.poll) <= p.charged <= Min(room, CHUNK)
            && p.bucket.Some? && p.bucket.value.quota == b.quota && BucketOk(p.bucket.value, now)
            && Level(p.bucket.value, now) + p.charged * SECOND == Level(b, now)
  {
    hide ChunkOf;
    hide Level;
    var n := ChunkOf(room, roll);
    ChunkIsBounded(room, roll);
    LevelIsCapped(b, now);
    if n * SECOND <= Level(b, now) {
      LevelNow(b.quota, Level(b, now) - n * SECOND, now);
    }
  }

  lemma LevelIsCapped(b: Bucket, now: nat)
    requires b.at <= now
    ensures Level(b, now) <= b.quota.burst * SECOND
  {
  }

  lemma LevelNow(q: Quota, level: nat, now: nat)
    requires level <= q.burst * SECOND
    ensures Level(Bucket(q, level, now), now) == level
  {
  }

  /** The branch that finds the bucket too small for a chunk is dead exactly when the quota is not zero. */
  lemma ChunkFitsBurst(m: U16)
    ensures m > 0 <==> forall room, roll :: ChunkOf(room, roll) <= BuildQuota(m).burst
  {
    hide TimesOnePointTwo;
    ProductIsExact(m);
    if m > 0 {
      assert BuildQuota(m).burst >= CHUNK;
      forall room, roll
        ensures ChunkOf(room, roll) <= BuildQuota(m).burst
      {
        ChunkIsBounded(room, roll);
      }
    } else {
      assert ChunkOf(16384, 10) == 16384;
    }
  }

  /** The sleep, if any, is over. */
  predicate Awake(sleep: Option<nat>, now: nat) { sleep.None? || sleep.value <= now }

  /** The wrapped stream's answer: all that it has, or at least nine tenths of the room up to 16384 bytes. */
  ghost predicate AnswersLike(poll: Poll, inner: Option<nat>, room: nat) {
    match inner
    case None => poll.Pending?
    case Some(m) =>
      && poll.Ready? && poll.moved <= m && poll.moved <= Min(room % U32, 16384)
      && (poll.moved == m || 10 * poll.moved + 9 >= 9 * Min(room % U32, 16384))
  }

  /** A poll that is awake, has room and finds enough in the bucket answers as the wrapped stream does. */
  lemma PollMoves(sleep: Option<nat>, b: Bucket, now: nat, room: nat, roll: nat, inner: Option<nat>)
    requires BucketOk(b, now) && Awake(sleep, now) && room % U32 != 0
    requires Min(room % U32, 16384) * SECOND <= Level(b, now)
    ensures var p := PollHalf(sleep, Some(b), now, room, roll, inner);
            p.sleep == None && p.charged > 0 && AnswersLike(p.poll, inner, room)
  {
    hide ChunkOf;
    hide Level;
    ChunkIsBounded(room, roll);
    LevelIsCapped(b, now);
  }

  /** Without a limit every poll that is awake does. */
  lemma UnlimitedPollMoves(sleep: Option<nat>, now: nat, room: nat, roll: nat, inner: Option<nat>)
    requires Awake(sleep, now)
    ensures var p := PollHalf(sleep, None, now, room, roll, inner);
            p.sleep == None && p.bucket == None && p.charged == 0 && AnswersLike(p.poll, inner, room)
  {
    hide ChunkOf;
    ChunkIsBounded(room, roll);
  }

  /** A poll that is not awake does nothing. */
  lemma SleepingPollWaits(sleep: Option<nat>, bucket: Option<Bucket>, now: nat, room: nat, roll: nat,
          inner: Option<nat>)
    requires bucket.Some? ==> BucketOk(bucket.value, now)
    requires !Awake(sleep, now)
    ensures PollHalf(sleep, bucket, now, room, roll, inner) == Polled(sleep, bucket, Pending, 0)
  {
  }

  /**
   A poll that is refused charges nothing and sleeps exactly until the bucket holds the chunk it
   asked for, nobody else charging; ten milliseconds if the bucket can never hold that.
   */
  lemma RefusedPollSleeps(sleep: Option<nat>, b: Bucket, now: nat, room: nat, roll: nat, inner: Option<nat>, at: nat)
    requires BucketOk(b, now) && Awake(sleep, now) && room % U32 != 0 && now <= at
    requires ChunkOf(room, roll) * SECOND > Level(b, now)
    ensures var p := PollHalf(sleep, Some(b), now, room, roll, inner);
            && p.sleep.Some? && p.bucket == Some(b) && p.poll.Pending? && p.charged == 0
            && (ChunkOf(room, roll) <= b.quota.burst ==>
                  (ChunkOf(room, roll) * SECOND <= Level(b, at) <==> at >= p.sleep.value))
            && (ChunkOf(room, roll) > b.quota.burst ==>
                  ChunkOf(room, roll) * SECOND > Level(b, at) && p.sleep.value == now + 10 * SECOND / 1000)
  {
    hide ChunkOf;
    hide Level;
    var n := ChunkOf(room, roll);
    ChunkIsBounded(room, roll);
    LevelIsCapped(b, at);
    if n <= b.quota.burst {
      WaitIsExact(b, n, now, at - now);
    }
  }

  /** An empty bucket gains its rate and no more, up to the burst: when it holds `n` bytes. */
  lemma EmptyBucketFills(q: Quota, now: nat, wait: nat, n: nat)
    ensures n * SECOND <= Level(Bucket(q, 0, now), now + wait) <==> n <= q.burst && n * SECOND <= q.bps * wait
  {
    if n > q.burst {
      Distributes(SECOND, q.burst, n - q.burst);
    } else {
      Distributes(SECOND, n, q.burst - n);
    }
  }

  /** A poll panics exactly when it is limited, does not sleep, and the low 32 bits of its room are zero. */
  lemma PanicExactly(sleep: Option<nat>, bucket: Option<Bucket>, now: nat, room: nat, roll: nat, inner: Option<nat>)
    requires bucket.Some? ==> BucketOk(bucket.value, now)
    ensures PollHalf(sleep, bucket, now, room, roll, inner).poll.Panicked? <==>
            bucket.Some? && (sleep.None? || sleep.value <= now) && room % U32 == 0
  {
    ChunkIsBounded(room, roll);
  }
}
