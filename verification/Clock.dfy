/** siano-clock.h: a performance counter turned into seconds and nanoseconds by long division,
    one decimal digit at a time, in 64-bit unsigned arithmetic written out with its wrap-around. */
module Clock {
  const NANOS: nat := 1_000_000_000

  type u64 = x: int | 0 <= x < 0x1_0000_0000_0000_0000

  function Wrap(x: int): u64 {
    x % 0x1_0000_0000_0000_0000
  }

  /** The cast to a signed 64-bit time_t. */
  function Signed(x: u64): int {
    if x < 0x8000_0000_0000_0000 then x else x - 0x1_0000_0000_0000_0000
  }

  /** The instant in nanoseconds, which the conversion must split exactly. */
  function Instant(counter: u64, frequency: u64): nat
    requires frequency > 0
  {
    counter * NANOS / frequency
  }

  /** c * f by the tens and units of f, with the bounds that keep 64-bit arithmetic in range. */
  lemma Split(c: nat, f: nat)
    requires c <= 9
    ensures c * f == 10 * (c * (f / 10)) + c * (f % 10)
    ensures 0 <= c * (f / 10) <= 9 * (f / 10) && 0 <= c * (f % 10) <= 81
  {
    SplitParts(c, f / 10, f % 10);
    assert f == 10 * (f / 10) + f % 10;
  }

  lemma SplitParts(c: nat, q: nat, m: nat)
    requires c <= 9 && m <= 9
    ensures c * (10 * q + m) == 10 * (c * q) + c * m
    ensures 0 <= c * q <= 9 * q && 0 <= c * m <= 81
  {
  }

  function ThresholdOf(c: nat, f: u64): u64 {
    Wrap(Wrap(c * (f / 10)) + Wrap(Wrap(c * (f % 10)) + 9) / 10)
  }

  /** The threshold never wraps, and its test is exact: remainder >= threshold iff
      10 * remainder >= c * frequency. */
  lemma Threshold(c: nat, f: u64, r: u64)
    requires 1 <= c <= 9
    ensures ThresholdOf(c, f) == c * (f / 10) + (c * (f % 10) + 9) / 10
    ensures r >= ThresholdOf(c, f) <==> 10 * r >= c * f
    ensures c * f == (c - 1) * f + f
  {
    Split(c, f);
    ThresholdLinear(c * (f / 10), c * (f % 10), f / 10, r);
    Before(c, f);
  }

  lemma Before(c: nat, f: nat)
    requires c >= 1
    ensures c * f == (c - 1) * f + f
  {
  }

  lemma ThresholdLinear(a: nat, b: nat, q: nat, r: nat)
    requires b <= 81 && a <= 9 * q && 10 * q < 0x1_0000_0000_0000_0000
    ensures Wrap(Wrap(a) + Wrap(Wrap(b) + 9) / 10) == a + (b + 9) / 10
    ensures r >= a + (b + 9) / 10 <==> 10 * r >= 10 * a + b
  {
    assert Wrap(a) == a && Wrap(b) == b && Wrap(b + 9) == b + 9;
    assert Wrap(a + (b + 9) / 10) == a + (b + 9) / 10;
  }

  function RestOf(d: nat, f: u64, r: u64): u64 {
    Wrap(Wrap(Wrap(r - Wrap(d * (f / 10))) * 10) - Wrap(d * (f % 10)))
  }

  /** The new remainder is 10 * remainder - d * frequency, whether or not a step wraps; and for
      every frequency up to 2^64 - 82 no step does. */
  lemma Rest(d: nat, f: u64, r: u64)
    requires d <= 9 && d * f <= 10 * r < d * f + f
    ensures RestOf(d, f, r) == 10 * r - d * f
    ensures f <= 0x1_0000_0000_0000_0000 - 82 ==>
              && 0 <= d * (f / 10) <= r
              && 0 <= d * (f % 10) <= (r - d * (f / 10)) * 10 < 0x1_0000_0000_0000_0000
  {
    Split(d, f);
    RestLinear(d * (f / 10), d * (f % 10), r, f);
  }

  lemma RestLinear(a: nat, b: nat, r: u64, f: u64)
    requires b <= 81 && a <= 9 * (f / 10) && 10 * a + b <= 10 * r < 10 * a + b + f
    ensures Wrap(Wrap(Wrap(r - Wrap(a)) * 10) - Wrap(b)) == 10 * r - (10 * a + b)
    ensures f <= 0x1_0000_0000_0000_0000 - 82 ==> a <= r && b <= (r - a) * 10 < 0x1_0000_0000_0000_0000
  {
    assert Wrap(a) == a && Wrap(b) == b && Wrap(r - a) == r - a;
    WrapOnce((r - a) * 10, b);
  }

  lemma WrapOnce(x: int, b: int)
    ensures Wrap(Wrap(x) - b) == Wrap(x - b)
  {
  }

  /** One digit: floor(10 * remainder / frequency), found without forming 10 * remainder. */
  method Digit(remainder: u64, frequency: u64) returns (digit: nat, rest: u64)
    requires remainder < frequency
    ensures digit <= 9 && digit * frequency + rest == 10 * remainder && rest < frequency
  {
    digit := 0;
    while digit < 9
      invariant digit <= 9 && digit * frequency <= 10 * remainder
    {
      Threshold(digit + 1, frequency, remainder);
      if remainder < ThresholdOf(digit + 1, frequency) {
        break;
      }
      digit := digit + 1;
    }
    Rest(digit, frequency, remainder);
    rest := RestOf(digit, frequency, remainder);
  }

  /** siano_qpc_to_timespec. It fails exactly for a zero frequency; the pair it gives is the
      instant cut at the whole second, for every counter and every other frequency. */
  method ToTimespec(counter: u64, frequency: u64) returns (ok: bool, seconds: int, nanoseconds: nat)
    ensures ok <==> frequency != 0
    ensures ok ==> nanoseconds < NANOS
    ensures ok ==> (seconds * NANOS + nanoseconds == Instant(counter, frequency)
                    <==> counter / frequency < 0x8000_0000_0000_0000)
  {
    ok, seconds, nanoseconds := frequency != 0, 0, 0;
    if !ok {
      return;
    }
    var whole: u64, remainder: u64 := counter / frequency, counter % frequency;
    ghost var scale := 1;
    for index := 0 to 9
      invariant scale == Pow10(index) && nanoseconds < scale && remainder < frequency
      invariant nanoseconds * frequency + remainder == (counter % frequency) * scale
    {
      var digit, rest := Digit(remainder, frequency);
      Shift(nanoseconds, digit, frequency, remainder, rest, counter % frequency, scale);
      nanoseconds, remainder, scale := nanoseconds * 10 + digit, rest, 10 * scale;
    }
    assert Pow10(9) == NANOS;
    Exact(counter, frequency, nanoseconds, remainder);
    seconds := Signed(whole);
  }

  /** 10^k */
  function Pow10(k: nat): nat {
    if k == 0 then 1 else 10 * Pow10(k - 1)
  }

  lemma Shift(n: nat, d: nat, f: nat, r: nat, rest: nat, start: nat, scale: nat)
    requires n * f + r == start * scale && d * f + rest == 10 * r
    ensures (n * 10 + d) * f + rest == start * (10 * scale)
  {
    assert (n * 10 + d) * f == 10 * (n * f) + d * f;
    assert start * (10 * scale) == 10 * (start * scale);
  }

  lemma Exact(counter: u64, f: u64, n: nat, r: nat)
    requires f > 0 && n * f + r == (counter % f) * NANOS && r < f
    ensures Instant(counter, f) == (counter / f) * NANOS + n
  {
    var s := counter / f;
    assert counter == s * f + counter % f;
    assert counter * NANOS == (s * f) * NANOS + (counter % f) * NANOS;
    assert (s * f) * NANOS == (s * NANOS) * f;
    assert (s * NANOS + n) * f == (s * NANOS) * f + n * f;
    Quotient(counter * NANOS, f, s * NANOS + n, r);
  }

  lemma Quotient(x: nat, f: nat, q: nat, r: nat)
    requires f > 0 && x == q * f + r && r < f
    ensures x / f == q
  {
    AtLeast(x, f, q);
    AtLeast(x, f, q + 1);
    assert (q + 1) * f == q * f + f;
  }

  /** q <= x / f iff q * f <= x */
  lemma AtLeast(x: nat, f: nat, q: nat)
    requires f > 0
    ensures q <= x / f <==> q * f <= x
  {
    var p := x / f;
    assert x == p * f + x % f;
    if q <= p {
      Scaled(q, p, f);
    } else {
      Scaled(p + 1, q, f);
      assert (p + 1) * f == p * f + f;
    }
  }

  lemma Scaled(a: nat, b: nat, f: nat)
    requires a <= b
    ensures a * f <= b * f
  {
    assert b * f == a * f + (b - a) * f;
  }

  /** Time never runs backwards, and at up to a tick per nanosecond every tick is later. */
  lemma InstantIsMonotone(a: u64, b: u64, frequency: u64)
    requires frequency > 0 && a < b
    ensures Instant(a, frequency) <= Instant(b, frequency)
    ensures frequency <= NANOS ==> Instant(a, frequency) < Instant(b, frequency)
  {
    var q := Instant(a, frequency);
    AtLeast(a * NANOS, frequency, q);
    AtLeast(b * NANOS, frequency, q);
    AtLeast(b * NANOS, frequency, q + 1);
    assert (q + 1) * frequency == q * frequency + frequency;
  }
}
