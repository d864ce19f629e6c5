/** Realm's timestamp conversion. NSTimeInterval is read as real. */
module Timestamps {

  const INT64_MAX: int := 0x7FFF_FFFF_FFFF_FFFF
  const INT64_MIN: int := -0x8000_0000_0000_0000
  const NANOS: int := 1_000_000_000
  /** NSTimeIntervalSince1970: the reference date, in seconds after the epoch. */
  const EPOCH: int := 978_307_200

  newtype int64 = x: int | -0x8000_0000_0000_0000 <= x <= 0x7FFF_FFFF_FFFF_FFFF
  newtype int32 = x: int | -0x8000_0000 <= x <= 0x7FFF_FFFF

  datatype Timestamp = Timestamp(seconds: int64, nanoseconds: int32)

  /** An NSDate's time interval since the reference date: a number, or not a number. */
  datatype Interval = NaN | Number(value: real)

  /** static_cast from a floating point number to an integer type. */
  function Truncate(x: real): int {
    if x >= 0.0 then x.Floor else -(-x).Floor
  }

  /** RLMTimestampToNSDate: the interval since the reference date. */
  function ToInterval(ts: Timestamp): real {
    ts.seconds as int as real - EPOCH as real + ts.nanoseconds as int as real / 1_000_000_000.0
  }

  /** The guard of the upper clamp. */
  predicate TooLate(t: real) {
    t >= INT64_MAX as real - EPOCH as real
  }

  /** The guard of the lower clamp, with the epoch on the side where the code has it. */
  predicate TooEarly(t: real) {
    t - EPOCH as real < INT64_MIN as real
  }

  /** Nanoseconds since the epoch. */
  function Total(ts: Timestamp): int {
    ts.seconds as int * NANOS + ts.nanoseconds as int
  }

  /** Same signs, and less than a second of nanoseconds. */
  predicate WellFormed(ts: Timestamp) {
    && -NANOS < ts.nanoseconds as int < NANOS
    && (ts.seconds > 0 ==> ts.nanoseconds >= 0)
    && (ts.seconds < 0 ==> ts.nanoseconds <= 0)
  }

  const LATEST: Timestamp := Timestamp(0x7FFF_FFFF_FFFF_FFFF, 999_999_999)
  const EARLIEST: Timestamp := Timestamp(-0x8000_0000_0000_0000, -999_999_999)

  /** The total the conversion is meant to produce: nanoseconds truncated towards the reference date. */
  function ExpectedTotal(t: real): int {
    EPOCH * NANOS + Truncate(t * 1_000_000_000.0)
  }

  /** Truncating to seconds and then to nanoseconds is truncating to nanoseconds. */
  lemma TruncateInTwoSteps(t: real)
    ensures Truncate(t * 1_000_000_000.0)
            == Truncate(t) * NANOS + Truncate((t - Truncate(t) as real) * 1_000_000_000.0)
    ensures -NANOS < Truncate((t - Truncate(t) as real) * 1_000_000_000.0) < NANOS
    ensures t >= 0.0 ==> Truncate(t) >= 0 && Truncate((t - Truncate(t) as real) * 1_000_000_000.0) >= 0
    ensures t <= 0.0 ==> Truncate(t) <= 0 && Truncate((t - Truncate(t) as real) * 1_000_000_000.0) <= 0
  {
    if t >= 0.0 {
      FloorInTwoSteps(t);
    } else {
      FloorInTwoSteps(-t);
      var s := (-t).Floor;
      assert Truncate(t) == -s;
      assert (t - Truncate(t) as real) * 1_000_000_000.0 == -((-t - s as real) * 1_000_000_000.0);
      assert t * 1_000_000_000.0 == -((-t) * 1_000_000_000.0);
      TruncateIsOdd((-t - s as real) * 1_000_000_000.0);
      TruncateIsOdd(-t * 1_000_000_000.0);
    }
  }

  lemma TruncateIsOdd(x: real)
    ensures Truncate(-x) == -Truncate(x)
  {
  }

  lemma FloorInTwoSteps(t: real)
    requires t >= 0.0
    ensures (t * 1_000_000_000.0).Floor == t.Floor * NANOS + ((t - t.Floor as real) * 1_000_000_000.0).Floor
    ensures 0 <= ((t - t.Floor as real) * 1_000_000_000.0).Floor < NANOS
  {
    var f := (t - t.Floor as real) * 1_000_000_000.0;
    assert t * 1_000_000_000.0 == (t.Floor * NANOS) as real + f;
  }

  lemma TruncateBounds(t: real)
    requires !TooLate(t) && !TooEarly(t)
    ensures INT64_MIN + EPOCH <= Truncate(t) <= INT64_MAX - EPOCH
  {
  }

  // ---------- The conversion as a function ----------

  /** A well formed timestamp is determined by its total. */
  lemma SameTotalSameTimestamp(a: Timestamp, b: Timestamp)
    requires WellFormed(a) && WellFormed(b) && Total(a) == Total(b)
    ensures a == b
  {
    var ds := a.seconds as int - b.seconds as int;
    assert ds * NANOS == b.nanoseconds as int - a.nanoseconds as int;
    assert -2 < ds < 2;
  }

  /** Lexicographic order on well formed timestamps is the order of their totals. */
  predicate AtMost(a: Timestamp, b: Timestamp) {
    a.seconds < b.seconds || (a.seconds == b.seconds && a.nanoseconds <= b.nanoseconds)
  }

  lemma OrderByTotal(a: Timestamp, b: Timestamp)
    requires WellFormed(a) && WellFormed(b)
    ensures AtMost(a, b) <==> Total(a) <= Total(b)
  {
    if a.seconds < b.seconds {
      assert (b.seconds as int - a.seconds as int) * NANOS >= NANOS;
      if Total(a) > Total(b) { SecondsDecide(a, b); }
    } else if b.seconds < a.seconds {
      assert (a.seconds as int - b.seconds as int) * NANOS >= NANOS;
      if Total(a) <= Total(b) { SecondsDecide(b, a); }
    }
  }

  lemma SecondsDecide(a: Timestamp, b: Timestamp)
    requires WellFormed(a) && WellFormed(b) && a.seconds < b.seconds
    ensures Total(a) < Total(b)
  {
    var ds := b.seconds as int - a.seconds as int;
    assert ds >= 1;
    if ds >= 2 {
      assert ds * NANOS >= 2 * NANOS;
    }
  }

  /** The timestamp with a given total, which exists whenever the seconds fit. */
  function FromTotal(n: int): (ts: Timestamp)
    requires INT64_MIN * NANOS - NANOS < n < INT64_MAX * NANOS + NANOS
    ensures WellFormed(ts) && Total(ts) == n
  {
    if n >= 0 then Timestamp((n / NANOS) as int64, (n % NANOS) as int32)
    else Timestamp((-((-n) / NANOS)) as int64, (-((-n) % NANOS)) as int32)
  }

  lemma ExpectedTotalFits(t: real)
    requires !TooLate(t) && !TooEarly(t)
    ensures (INT64_MIN + 2 * EPOCH) * NANOS - NANOS < ExpectedTotal(t) < INT64_MAX * NANOS
  {
    TruncateInTwoSteps(t);
    TruncateBounds(t);
    if t >= 0.0 { FloorInTwoSteps(t); }
  }

  /** The timestamp of a date: its total, truncated towards the reference date, or one of the two clamps. */
  function Converted(t: real): (ts: Timestamp)
    ensures WellFormed(ts)
  {
    if TooLate(t) then LATEST
    else if TooEarly(t) then EARLIEST
    else
      ExpectedTotalFits(t);
      FromTotal(ExpectedTotal(t))
  }

  /**
   * RLMTimestampForNSDate: its steps all stay within int64 and int32, and it computes Converted. Not-a-number gives the
   * epoch.
   */
  method ForInterval(interval: Interval) returns (ts: Timestamp)
    ensures ts == if interval.NaN? then Timestamp(0, 0) else Converted(interval.value)
  {
    if interval.NaN? { return Timestamp(0, 0); }
    var t := interval.value;
    if t >= INT64_MAX as real - EPOCH as real { return LATEST; }
    if t - EPOCH as real < INT64_MIN as real { return EARLIEST; }
    TruncateInTwoSteps(t);
    TruncateBounds(t);
    var seconds: int64 := Truncate(t) as int64;
    var nanoseconds: int32 := Truncate((t - seconds as int as real) * 1_000_000_000.0) as int32;
    seconds := seconds + EPOCH as int64;
    if nanoseconds < 0 && seconds > 0 {
      nanoseconds := nanoseconds + 1_000_000_000;
      seconds := seconds - 1;
    }
    ts := Timestamp(seconds, nanoseconds);
    assert WellFormed(ts) && Total(ts) == ExpectedTotal(t);
    SameTotalSameTimestamp(ts, Converted(t));
  }

  lemma TruncateMonotone(x: real, y: real)
    requires x <= y
    ensures Truncate(x) <= Truncate(y)
  {
  }

  /** Later dates never get earlier timestamps, clamped dates included. */
  lemma Monotone(t: real, u: real)
    requires t <= u
    ensures AtMost(Converted(t), Converted(u))
  {
    if !TooEarly(t) && !TooLate(u) {
      assert !TooEarly(u) && !TooLate(t);
      TruncateMonotone(t * 1_000_000_000.0, u * 1_000_000_000.0);
    }
    OrderByTotal(Converted(t), Converted(u));
  }

  /** Outside the clamps a date moves by less than a nanosecond, and towards the reference date. */
  lemma WithinOneNanosecond(t: real)
    requires !TooLate(t) && !TooEarly(t)
    ensures t >= 0.0 ==> t - 0.000_000_001 < ToInterval(Converted(t)) <= t
    ensures t <= 0.0 ==> t <= ToInterval(Converted(t)) < t + 0.000_000_001
  {
    IntervalOfTotal(Converted(t));
  }

  lemma IntervalOfTotal(ts: Timestamp)
    ensures ToInterval(ts) == (Total(ts) - EPOCH * NANOS) as real / 1_000_000_000.0
  {
  }

  /**
   * The reference date is 2001-01-01, the epoch 1970-01-01: 31 years of 365 days with 8 leap days in between. The one
   * converts to that many seconds, the other to as many before the reference date.
   */
  lemma ReferenceDates()
    ensures Converted(0.0) == Timestamp(978_307_200, 0)
    ensures Converted(-(((31 * 365 + 8) * 24 * 60 * 60) as real)) == Timestamp(0, 0)
    ensures ToInterval(Timestamp(0, 0)) == -(((31 * 365 + 8) * 24 * 60 * 60) as real)
  {
    TruncateOfInteger(0);
    TruncateOfInteger(-978_307_200 * NANOS);
  }

  /**
   * To-date and back is the identity exactly on the timestamps that are neither in the last second before the latest
   * one nor within twice the epoch of the earliest one.
   */
  lemma RoundTrip(ts: Timestamp)
    requires WellFormed(ts)
    ensures Converted(ToInterval(ts)) == ts
            <==> ts == LATEST || ts == EARLIEST
                 || (INT64_MIN + 2 * EPOCH) * NANOS <= Total(ts) < INT64_MAX * NANOS
  {
    var t := ToInterval(ts);
    IntervalOfTotal(ts);
    assert t * 1_000_000_000.0 == (Total(ts) - EPOCH * NANOS) as real;
    assert TooLate(t) <==> Total(ts) >= INT64_MAX * NANOS;
    assert TooEarly(t) <==> Total(ts) < (INT64_MIN + 2 * EPOCH) * NANOS;
    if !TooLate(t) && !TooEarly(t) {
      TruncateOfInteger(Total(ts) - EPOCH * NANOS);
      SameTotalSameTimestamp(Converted(t), ts);
    }
  }

  lemma TruncateOfInteger(n: int)
    ensures Truncate(n as real) == n
  {
  }

  /** A representable timestamp that does not survive: two epochs after the earliest second, less one nanosecond. */
  lemma LowerClampLosesTimestamps()
    ensures var ts := Timestamp(-0x8000_0000_0000_0000 + 1_956_614_399, -999_999_999);
            WellFormed(ts) && Converted(ToInterval(ts)) == EARLIEST != ts
  {
    var ts := Timestamp(-0x8000_0000_0000_0000 + 1_956_614_399, -999_999_999);
    RoundTrip(ts);
    IntervalOfTotal(ts);
  }

  /** One conversion loses all the sub-nanosecond part: converting the result again changes nothing. */
  lemma Idempotent(t: real)
    ensures Converted(ToInterval(Converted(t))) == Converted(t)
  {
    RoundTrip(Converted(t));
    if !TooLate(t) && !TooEarly(t) {
      ExpectedTotalFits(t);
      TotalAtLeastLower(t);
    }
  }

  lemma TotalAtLeastLower(t: real)
    requires !TooLate(t) && !TooEarly(t)
    ensures (INT64_MIN + 2 * EPOCH) * NANOS <= ExpectedTotal(t)
  {
    TruncateMonotone((INT64_MIN + EPOCH) as real * 1_000_000_000.0, t * 1_000_000_000.0);
    TruncateOfInteger((INT64_MIN + EPOCH) * NANOS);
  }
}
