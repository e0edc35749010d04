/** SNTP time arithmetic: timestamps in big-endian buffers, clock offset and round-trip time
    (sections 3 and 5 of RFC 4330). Milliseconds and nanoseconds are unbounded integers;
    uint32 storage and uint32 products wrap. */
module Sntp {
  import opened Endian

  const UINT32: int := 0x1_0000_0000
  const UINT32_MAX: int := 0xFFFF_FFFF

  const NS_PER_MS: int := 1_000_000
  const NS_PER_S: int := 1_000_000_000

  /** Seconds between 1900 and 1970. */
  const OFFSET_1900_TO_1970: int := (365 * 70 + 17) * 24 * 60 * 60

  // --- The calendar ------------------------------------------------------------------------

  predicate IsLeap(year: nat) { year % 4 == 0 && (year % 100 != 0 || year % 400 == 0) }

  /** Days from the first of January of one year to that of another, in the Gregorian calendar. */
  function Days(first: nat, last: nat): nat
    requires first <= last
  {
    if first == last then 0 else Days(first, last - 1) + (if IsLeap(last - 1) then 366 else 365)
  }

  /** Seconds from the NTP epoch to the Unix epoch. */
  function EpochGap(): nat { Days(1900, 1970) * 86400 }

  lemma {:induction false} LeapCycles(k: nat)
    requires k <= 16
    ensures Days(1900, 1904 + 4 * k) == 1460 + 1461 * k
  {
    if k == 0 {
      assert Days(1900, 1901) == 365 && Days(1900, 1902) == 730 && Days(1900, 1903) == 1095;
    } else {
      LeapCycles(k - 1);
      var y := 1900 + 4 * k;
      assert Days(1900, y + 1) == Days(1900, y) + 366;
      assert Days(1900, y + 2) == Days(1900, y + 1) + 365;
      assert Days(1900, y + 3) == Days(1900, y + 2) + 365;
      assert Days(1900, y + 4) == Days(1900, y + 3) + 365;
    }
  }

  /** The offset the program uses is what the calendar says. */
  lemma OffsetIsEpochGap()
    ensures OFFSET_1900_TO_1970 == EpochGap() == 2_208_988_800
  {
    LeapCycles(16);
    assert Days(1900, 1969) == Days(1900, 1968) + 366;
    assert Days(1900, 1970) == Days(1900, 1969) + 365;
  }

  // --- What is written and read ------------------------------------------------------------

  /** Integer division of C++, which drops the fraction. */
  function Quotient(a: int, b: int): int
    requires b > 0
  {
    if a >= 0 then a / b else -((-a) / b)
  }

  lemma QuotientTruncates(a: int, b: int)
    requires b > 0
    ensures a >= 0 ==> 0 <= a - b * Quotient(a, b) < b
    ensures Quotient(-a, b) == -Quotient(a, b)
  {
    if a == 0 {
      assert 0 / b == 0;
    } else if a > 0 {
      assert a == b * (a / b) + a % b;
    }
  }

  /** The seconds field written for ms, before it is cut to 32 bits. */
  function NtpSeconds(ms: int): int { Quotient(ms, 1000) + OFFSET_1900_TO_1970 }

  /** The fraction written for ms. By C++ precedence the expression is
      `msecs * max + (1 / 1000)`, and the second term is 0. */
  function NtpFraction(ms: int): int {
    ((ms - Quotient(ms, 1000) * 1000) * UINT32_MAX + 1 / 1000) % UINT32
  }

  /** The milliseconds read from a fraction: a uint32 product, divided by the uint32 maximum. */
  function FractionMs(fraction: int): int {
    ((fraction * 1000) % UINT32) / UINT32_MAX
  }

  function Decode(seconds: int, fraction: int): int {
    (seconds - OFFSET_1900_TO_1970) * 1000 + FractionMs(fraction)
  }

  /** The seconds are counted from 1900 by the calendar. The fraction of a second is not
      msecs * 2^32 / 1000 but the 32-bit negative of the milliseconds. */
  lemma Written(ms: int)
    ensures NtpSeconds(ms) == Quotient(ms, 1000) + EpochGap()
    ensures NtpFraction(ms) == (Quotient(ms, 1000) * 1000 - ms) % UINT32
    ensures ms >= 0 ==> NtpFraction(ms) == if ms % 1000 == 0 then 0 else UINT32 - ms % 1000
  {
    OffsetIsEpochGap();
    var m := ms - Quotient(ms, 1000) * 1000;
    assert m * UINT32_MAX + 1 / 1000 == m * UINT32 - m;
    NegativeModulo(m);
  }

  lemma NegativeModulo(m: int)
    ensures (m * UINT32 - m) % UINT32 == (-m) % UINT32
  {
    var q, r := (-m) / UINT32, (-m) % UINT32;
    assert m * UINT32 - m == (m + q) * UINT32 + r;
    DivisionIsUnique(m * UINT32 - m, m + q, UINT32, r);
  }

  /** The wrapped product is a multiple of 8, so it is never 2^32 - 1 and the division yields 0. */
  lemma FractionIsDropped(fraction: int)
    ensures FractionMs(fraction) == 0
  {
    var p := fraction * 1000;
    var q := p / UINT32;
    assert p % UINT32 == 8 * (fraction * 125 - q * (UINT32 / 8));
  }

  class Timestamp {
    const seconds: BigBuffer
    const fractionalSeconds: BigBuffer

    predicate Valid()
      reads this, seconds, fractionalSeconds, seconds.bytes, fractionalSeconds.bytes
    {
      && seconds.Valid() && fractionalSeconds.Valid()
      && seconds.t == U32 && fractionalSeconds.t == U32
      && seconds.bytes.Length == 4 && fractionalSeconds.bytes.Length == 4
      && seconds.bytes != fractionalSeconds.bytes
    }

    constructor ()
      ensures Valid() && fresh(seconds.bytes) && fresh(fractionalSeconds.bytes)
    {
      seconds := new BigBuffer(U32, 4);
      fractionalSeconds := new BigBuffer(U32, 4);
    }

    method FromMillisecondsSinceEpoch(ts: int)
      requires Valid()
      modifies seconds.bytes, fractionalSeconds.bytes
      ensures Valid()
      ensures seconds.Value() == (Quotient(ts, 1000) + EpochGap()) % UINT32
      ensures fractionalSeconds.Value() == NtpFraction(ts)
    {
      OffsetIsEpochGap();
      var secs := Quotient(ts, 1000);
      var msecs := ts - secs * 1000;
      secs := secs + OFFSET_1900_TO_1970;
      seconds.Assign(secs % UINT32);
      StoredWord(secs % UINT32);
      fractionalSeconds.Assign((msecs * UINT32_MAX + 1 / 1000) % UINT32);
      StoredWord((msecs * UINT32_MAX + 1 / 1000) % UINT32);
    }

    method ToMillisecondsSinceEpoch() returns (ms: int)
      requires Valid()
      ensures ms == Decode(seconds.Value(), fractionalSeconds.Value())
      ensures ms == (seconds.Value() - EpochGap()) * 1000
    {
      ms := (seconds.Value() - OFFSET_1900_TO_1970) * 1000
          + ((fractionalSeconds.Value() * 1000) % UINT32) / UINT32_MAX;
      FractionIsDropped(fractionalSeconds.Value());
      OffsetIsEpochGap();
    }
  }

  /** A 32-bit buffer gives back any 32-bit value. */
  lemma StoredWord(v: int)
    requires 0 <= v < UINT32
    ensures LoadBig(U32, StoreBig(U32, 4, v)) == v
  {
    assert Pow256(4) == UINT32;
    BigRoundTripExact(U32, 4, v);
  }

  // --- The timestamp round trip ------------------------------------------------------------

  /** What a reader makes of a timestamp written for ms. */
  function ReadBack(ms: int): int { Decode(NtpSeconds(ms) % UINT32, NtpFraction(ms)) }

  /** Writing then reading keeps the whole second and nothing of the fraction, if and only if that
      second lies in the 32-bit era (from 1900 to the 2036 wrap); for every instant, at any time. */
  lemma ReadBackKeepsSecond(ms: int)
    ensures ReadBack(ms) == Quotient(ms, 1000) * 1000 <==> 0 <= Quotient(ms, 1000) + EpochGap() < UINT32
    ensures ReadBack(ms) == ((Quotient(ms, 1000) + EpochGap()) % UINT32 - EpochGap()) * 1000
  {
    OffsetIsEpochGap();
    FractionIsDropped(NtpFraction(ms));
  }

  predicate InEra(ms: int) { 0 <= ms && ms / 1000 + EpochGap() < UINT32 }

  /** From 1970 to the 2036 wrap: never later than written, by less than a second, order-preserving. */
  lemma ReadBackInEra(a: int, b: int)
    requires InEra(a) && InEra(b)
    ensures ReadBack(a) <= a < ReadBack(a) + 1000
    ensures a <= b ==> ReadBack(a) <= ReadBack(b)
    ensures ReadBack(a) == a <==> a % 1000 == 0
  {
    ReadBackKeepsSecond(a);
    ReadBackKeepsSecond(b);
  }

  // --- One exchange with a server ----------------------------------------------------------

  /** The four timestamps of the answer, as 32-bit seconds and fraction. */
  datatype Stamp = Stamp(seconds: int, fraction: int)
  datatype Packet = Packet(originate: Stamp, receive: Stamp, transmit: Stamp)

  /** Wall clock and boot clock in ns; the wall clock is cut to whole milliseconds. */
  datatype Now = Now(time: int, ticks: int)

  datatype Response = Response(ntpTime: int, ntpTimeReference: int, roundTripTime: int)

  function DecodeNs(s: Stamp): int { Decode(s.seconds, s.fraction) * NS_PER_MS }

  /** The computation at the end of request_time(). */
  function Compute(packet: Packet, before: Now, after: Now): Response {
    var originate := DecodeNs(packet.originate);
    var receive := DecodeNs(packet.receive);
    var transmit := DecodeNs(packet.transmit);
    var rtt := after.ticks - before.ticks - (transmit - receive);
    var offset := Quotient((receive - originate) + (transmit - after.time), 2);
    Response(Quotient(after.time + offset, NS_PER_MS),
             Quotient(after.ticks, NS_PER_MS),
             Quotient(rtt, NS_PER_MS))
  }

  /** A stamp taken at time ns since 1970, before the 2036 wrap, by a clock that follows the format:
      whole seconds exactly, any fraction. */
  predicate Stamps(s: Stamp, ns: int) {
    && 0 <= ns && s.seconds == ns / NS_PER_S + EpochGap() < UINT32
    && 0 <= s.fraction < UINT32
  }

  /** What this client writes is such a stamp. */
  lemma ClientStamps(ns: int)
    requires ns >= 0 && InEra(ns / NS_PER_MS)
    ensures Stamps(Stamp(NtpSeconds(ns / NS_PER_MS) % UINT32, NtpFraction(ns / NS_PER_MS)), ns)
  {
    OffsetIsEpochGap();
  }

  /** An exchange in client time: the client samples its clocks, after `wait` it sends at t1; the server
      receives after delay d1, answers after p, and after delay d2 the client samples its clocks again.
      The server clock leads by theta; boot clock and wall clock advance alike. */
  ghost predicate Exchange(packet: Packet, before: Now, after: Now,
                           wait: int, t1: int, theta: int, d1: int, p: int, d2: int) {
    && wait >= 0 && d1 >= 0 && p >= 0 && d2 >= 0
    && Stamps(packet.originate, t1)
    && Stamps(packet.receive, t1 + d1 + theta)
    && Stamps(packet.transmit, t1 + d1 + p + theta)
    && before.time == (t1 - wait) / NS_PER_MS * NS_PER_MS
    && after.time == (t1 + d1 + p + d2) / NS_PER_MS * NS_PER_MS
    && after.ticks - before.ticks == wait + d1 + p + d2
  }

  lemma StampError(s: Stamp, ns: int)
    requires Stamps(s, ns)
    ensures 0 <= ns - DecodeNs(s) < NS_PER_S
  {
    OffsetIsEpochGap();
    FractionIsDropped(s.fraction);
  }

  lemma QuotientError(a: int, b: int)
    requires b > 0
    ensures -b < a - b * Quotient(a, b) < b
  {
  }

  /** The server's time at the moment the client received the answer. */
  function ServerTimeAtEnd(t1: int, theta: int, d1: int, p: int, d2: int): int { t1 + d1 + p + d2 + theta }

  /** The returned time differs from the server's by at most half the total delay, plus one second
      of lost fractions, plus two milliseconds of rounding. */
  lemma SntpAccuracy(packet: Packet, before: Now, after: Now,
                     wait: int, t1: int, theta: int, d1: int, p: int, d2: int)
    requires Exchange(packet, before, after, wait, t1, theta, d1, p, d2)
    ensures var err := Compute(packet, before, after).ntpTime * NS_PER_MS - ServerTimeAtEnd(t1, theta, d1, p, d2);
            && 2 * err < d1 + d2 + 2_000_000_000 + 4_000_000
            && -(d1 + d2 + 2_000_000_000 + 4_000_000) < 2 * err
  {
    StampError(packet.originate, t1);
    StampError(packet.receive, t1 + d1 + theta);
    StampError(packet.transmit, t1 + d1 + p + theta);
    var sum := (DecodeNs(packet.receive) - DecodeNs(packet.originate)) + (DecodeNs(packet.transmit) - after.time);
    QuotientError(sum, 2);
    QuotientError(after.time + Quotient(sum, 2), NS_PER_MS);
  }

  /** With exact stamps on the wire (all on whole seconds) the error is half the difference of the two
      delays, up to rounding: the method is exact on a symmetric path. */
  lemma SntpSymmetric(packet: Packet, before: Now, after: Now,
                      wait: int, t1: int, theta: int, d1: int, p: int, d2: int)
    requires Exchange(packet, before, after, wait, t1, theta, d1, p, d2)
    requires t1 % NS_PER_S == 0 && (t1 + d1 + theta) % NS_PER_S == 0 && (t1 + d1 + p + theta) % NS_PER_S == 0
    ensures var err := Compute(packet, before, after).ntpTime * NS_PER_MS - ServerTimeAtEnd(t1, theta, d1, p, d2);
            -4_000_000 < 2 * err - (d1 - d2) < 4_000_000
  {
    WholeSecond(packet.originate, t1);
    WholeSecond(packet.receive, t1 + d1 + theta);
    WholeSecond(packet.transmit, t1 + d1 + p + theta);
    var sum := (DecodeNs(packet.receive) - DecodeNs(packet.originate)) + (DecodeNs(packet.transmit) - after.time);
    QuotientError(sum, 2);
    QuotientError(after.time + Quotient(sum, 2), NS_PER_MS);
  }

  lemma WholeSecond(s: Stamp, ns: int)
    requires Stamps(s, ns) && ns % NS_PER_S == 0
    ensures DecodeNs(s) == ns
  {
    OffsetIsEpochGap();
    FractionIsDropped(s.fraction);
  }

  /** The round-trip time is the sum of the two delays, and the client's wait before sending, within one
      second of lost fractions and one millisecond of rounding. */
  lemma RoundTripAccuracy(packet: Packet, before: Now, after: Now,
                          wait: int, t1: int, theta: int, d1: int, p: int, d2: int)
    requires Exchange(packet, before, after, wait, t1, theta, d1, p, d2)
    ensures var err := Compute(packet, before, after).roundTripTime * NS_PER_MS - (d1 + d2 + wait);
            -1_001_000_000 < err < 1_001_000_000
  {
    StampError(packet.receive, t1 + d1 + theta);
    StampError(packet.transmit, t1 + d1 + p + theta);
    QuotientError(after.ticks - before.ticks - (DecodeNs(packet.transmit) - DecodeNs(packet.receive)), NS_PER_MS);
  }

  /** The reference that comes with the time is the boot clock at the end of the exchange, in whole milliseconds. */
  lemma ReferenceIsBootClock(packet: Packet, before: Now, after: Now)
    requires after.ticks >= 0
    ensures 0 <= after.ticks - Compute(packet, before, after).ntpTimeReference * 1_000_000 < 1_000_000
  {
    QuotientTruncates(after.ticks, NS_PER_MS);
  }
}
