/** Errors and small decoders of the exchange adapter. */
module Wire {
  import opened Prelude
  import opened Digits

  datatype ClientError =
    | Transport
    | HttpStatus(status: nat)
    | ApiCode(code: string)
    | InvalidEndpoint
    | InvalidResponse
    | ResponseTooLarge
    | ClockUnavailable
    | ClockSkew

  /** `one`: exactly one row. */
  function One<T>(rows: seq<T>): Result<T, ClientError> {
    if |rows| == 1 then Success(rows[0]) else Failure(InvalidResponse)
  }

  /** `parse::<i64>`: an optional sign and at least one digit, within 64 bits. */
  function ParseI64(s: string): Option<int> {
    var negative := s != "" && s[0] == '-';
    var digits := if s != "" && s[0] in "+-" then s[1..] else s;
    if digits == "" || !AllDigits(digits) then None
    else
      var n := if negative then 0 - DigitsValue(digits) else DigitsValue(digits) as int;
      if I64_MIN <= n <= I64_MAX then Some(n) else None
  }

  /** The number that a signed digit string denotes. */
  ghost function SignedValue(sign: string, digits: string): int
    requires AllDigits(digits)
  {
    if sign == "-" then 0 - DigitsValue(digits) else DigitsValue(digits)
  }

  ghost predicate SignedDigits(s: string, sign: string, digits: string) {
    s == sign + digits && (sign == "" || sign == "+" || sign == "-") && digits != "" && AllDigits(digits)
  }

  lemma SignedRead(s: string, sign: string, digits: string)
    requires SignedDigits(s, sign, digits)
    ensures ParseI64(s) ==
      if I64_MIN <= SignedValue(sign, digits) <= I64_MAX then Some(SignedValue(sign, digits)) else None
  {
    if sign == "" {
      assert s == digits && IsDigit(s[0]);
    } else {
      assert s[1..] == digits && s[0] == sign[0];
    }
  }

  lemma ReadIsSigned(s: string)
    requires ParseI64(s).Some?
    ensures exists sign, digits :: SignedDigits(s, sign, digits)
  {
    if s[0] in "+-" {
      assert s == [s[0]] + s[1..];
      assert SignedDigits(s, [s[0]], s[1..]);
    } else {
      assert SignedDigits(s, "", s);
    }
  }

  /** Accepted are exactly the signed digit strings within 64 bits, and they are read as what they denote. */
  lemma IntegersRead(s: string)
    ensures forall sign, digits | SignedDigits(s, sign, digits) ::
      ParseI64(s) == if I64_MIN <= SignedValue(sign, digits) <= I64_MAX then Some(SignedValue(sign, digits)) else None
    ensures ParseI64(s).Some? ==> exists sign, digits :: SignedDigits(s, sign, digits)
  {
    forall sign, digits | SignedDigits(s, sign, digits)
      ensures ParseI64(s) ==
        if I64_MIN <= SignedValue(sign, digits) <= I64_MAX then Some(SignedValue(sign, digits)) else None
    {
      SignedRead(s, sign, digits);
    }
    if ParseI64(s).Some? {
      ReadIsSigned(s);
    }
  }

  /** Reading undoes writing for every 64-bit integer. */
  lemma IntegersReadBack(n: int)
    requires I64_MIN <= n <= I64_MAX
    ensures ParseI64((if n < 0 then "-" else "") + Render(Abs(n))) == Some(n)
  {
    var sign, digits := if n < 0 then "-" else "", Render(Abs(n));
    RenderValue(Abs(n));
    assert SignedDigits(sign + digits, sign, digits);
    assert SignedValue(sign, digits) == n;
    IntegersRead(sign + digits);
  }

  const MAX_BODY_BYTES: nat := 1024 * 1024

  type Bytes = seq<bv8>

  ghost function Concat(chunks: seq<Bytes>): Bytes {
    if |chunks| == 0 then [] else Concat(chunks[..|chunks| - 1]) + chunks[|chunks| - 1]
  }

  /** What the body reader returns for a stream of chunks that ends, or breaks off, after them. */
  ghost function BodyOf(chunks: seq<Bytes>, broken: bool): Result<Bytes, ClientError> {
    var whole := Concat(chunks);
    if |whole| > MAX_BODY_BYTES then Failure(ResponseTooLarge)
    else if broken then Failure(Transport)
    else Success(whole)
  }

  lemma {:induction false} ConcatAppend(a: seq<Bytes>, b: seq<Bytes>)
    ensures Concat(a + b) == Concat(a) + Concat(b)
    decreases |b|
  {
    if |b| == 0 {
      assert a + b == a;
    } else {
      var n := |b| - 1;
      ConcatAppend(a, b[..n]);
      assert (a + b)[..|a + b| - 1] == a + b[..n];
    }
  }

  /**
   * Reads a response body. `kept` counts the chunks it has buffered when it stops: every one of them while
   * they fit, and at no point more than the limit.
   */
  method ReadBody(chunks: seq<Bytes>, broken: bool) returns (r: Result<Bytes, ClientError>, ghost kept: nat)
    ensures r == BodyOf(chunks, broken)
    ensures r.Success? <==> !broken && |Concat(chunks)| <= MAX_BODY_BYTES
    ensures r.Success? ==> r.value == Concat(chunks)
    ensures r == Failure(Transport) <==> broken && |Concat(chunks)| <= MAX_BODY_BYTES
    ensures kept <= |chunks| && forall i :: 0 <= i <= kept ==> |Concat(chunks[..i])| <= 1_048_576
    ensures r == Failure(ResponseTooLarge) <==> kept < |chunks|
    ensures kept < |chunks| ==> |Concat(chunks[..kept + 1])| > MAX_BODY_BYTES
  {
    var body: Bytes := [];
    kept := 0;
    for i := 0 to |chunks|
      invariant kept == i && body == Concat(chunks[..i])
      invariant forall j :: 0 <= j <= i ==> |Concat(chunks[..j])| <= MAX_BODY_BYTES
    {
      assert chunks[..i + 1][..i] == chunks[..i];
      if |body| + |chunks[i]| > MAX_BODY_BYTES {
        ConcatAppend(chunks[..i + 1], chunks[i + 1..]);
        assert chunks == chunks[..i + 1] + chunks[i + 1..];
        return Failure(ResponseTooLarge), kept;
      }
      body, kept := body + chunks[i], kept + 1;
    }
    assert chunks[..|chunks|] == chunks;
    if broken {
      return Failure(Transport), kept;
    }
    return Success(body), kept;
  }

  /** Chunk boundaries never matter: one chunk holding everything reads the same. */
  lemma BodyIgnoresBoundaries(a: seq<Bytes>, b: seq<Bytes>, broken: bool)
    requires Concat(a) == Concat(b)
    ensures BodyOf(a, broken) == BodyOf(b, broken) == BodyOf([Concat(a)], broken)
  {
    var single := [Concat(a)];
    assert Concat(single) == Concat(single[..0]) + Concat(a);
    assert Concat(single) == Concat(a);
  }
}

/**
 * The client's stored clock synchronization. Monotonic instants count nanoseconds; wall-clock
 * readings are nanoseconds since the Unix epoch and may jump. Server times are milliseconds.
 */
module ClientClock {
  import opened Prelude
  import opened Units
  import opened Freshness
  import opened Wire

  const NS_PER_MS: int := 1_000_000
  const REQUEST_INTERVAL: nat := 500 * NS_PER_MS
  const TIME_INTERVAL: nat := 5_000 * NS_PER_MS
  const CLOCK_MAX_AGE: nat := 60_000 * NS_PER_MS
  const CLOCK_MAX_SKEW_MS: nat := 5_000
  const MAX_DRIFT_MS: int := 2_000

  type Instant = nat

  datatype ClockSync = ClockSync(at: Instant, serverMs: int, localMs: int)

  datatype TimeRow = TimeRow(ts: string)

  datatype Observation<T> = Observation(value: T, times: Times)

  /** `elapsed`, saturating at zero. */
  function Elapsed(now: Instant, since: Instant): nat {
    if now >= since then now - since else 0
  }

  /** When a paced caller may stamp: after whatever remains of the interval. */
  function WakeTime(last: Option<Instant>, now: Instant, interval: nat): Instant {
    match last
    case None => now
    case Some(previous) => now + (if Elapsed(now, previous) < interval then interval - Elapsed(now, previous) else 0)
  }

  /** A caller that arrives after the interval does not wait; an earlier one waits for what remains of it. */
  lemma WaitExactly(last: Option<Instant>, now: Instant, interval: nat)
    requires last.Some? ==> last.value <= now
    ensures last == None ==> WakeTime(last, now, interval) == now
    ensures last.Some? ==> WakeTime(last, now, interval) == Max(now, last.value + interval)
  {
  }

  /** `unix_ms`. */
  function UnixMs(wallNs: int): Result<int, ClientError> {
    if wallNs < 0 || wallNs / NS_PER_MS > I64_MAX then Failure(ClockUnavailable) else Success(wallNs / NS_PER_MS)
  }

  function Midpoint(before: int, after: int): Option<int> {
    var m := before + TruncDiv(after - before, 2);
    if I64_MIN <= m <= I64_MAX then Some(m) else None
  }

  /** What a completed time request stores, or why it stores nothing. */
  function SyncOutcome(before: int, rows: Result<seq<TimeRow>, ClientError>, afterNs: int, at: Instant)
    : Result<ClockSync, ClientError>
  {
    if rows.Failure? then Failure(rows.error)
    else if UnixMs(afterNs).Failure? then Failure(ClockUnavailable)
    else if One(rows.value).Failure? then Failure(InvalidResponse)
    else match (ParseI64(rows.value[0].ts), Midpoint(before, UnixMs(afterNs).value))
      case (Some(serverMs), Some(midpoint)) =>
        if Abs(serverMs - midpoint) > CLOCK_MAX_SKEW_MS then Failure(ClockSkew)
        else Success(ClockSync(at, serverMs, midpoint))
      case _ => Failure(InvalidResponse)
  }

  /** `require_clock`: a synchronization is stored and no more than a minute old. */
  predicate Recent(clock: Option<ClockSync>, now: Instant) {
    clock.Some? && Elapsed(now, clock.value.at) <= CLOCK_MAX_AGE
  }

  ghost predicate WithinSkew(clock: Option<ClockSync>) {
    clock.Some? ==> Abs(clock.value.serverMs - clock.value.localMs) <= CLOCK_MAX_SKEW_MS
  }

  /** `observation`: stamps a value with estimated exchange time and local receipt time. */
  function Observe<T>(clock: Option<ClockSync>, value: T, now: Instant, wallNs: int): Result<Observation<T>, ClientError> {
    if !Recent(clock, now) || UnixMs(wallNs).Failure? then Failure(ClockUnavailable)
    else
      var localMs := UnixMs(wallNs).value;
      var exchangeMs := localMs + (clock.value.serverMs - clock.value.localMs);
      if !(I64_MIN <= exchangeMs <= I64_MAX) || Min(exchangeMs, localMs) < 0 then Failure(ClockUnavailable)
      else Success(Observation(value, Times(Min(exchangeMs, localMs), localMs)))
  }

  /** The drift term of the signing check: wall-clock progress minus monotonic progress. */
  function DriftMs(sync: ClockSync, wallNs: int, now: Instant): int {
    wallNs / NS_PER_MS - sync.localMs - Elapsed(now, sync.at) / NS_PER_MS
  }

  /**
   * `timestamp` up to calendar formatting: the server time, in milliseconds, to sign with. The age is
   * checked at one instant, the wall clock read next, and the monotonic progress measured last.
   */
  function SigningTime(clock: Option<ClockSync>, checked: Instant, wallNs: int, measured: Instant)
    : Result<int, ClientError>
  {
    if !Recent(clock, checked) || UnixMs(wallNs).Failure? then Failure(ClockUnavailable)
    else if Abs(DriftMs(clock.value, wallNs, measured)) > MAX_DRIFT_MS then Failure(ClockSkew)
    else
      var adjusted := UnixMs(wallNs).value + (clock.value.serverMs - clock.value.localMs);
      if I64_MIN <= adjusted <= I64_MAX then Success(adjusted) else Failure(ClockUnavailable)
  }

  // ---------- the client object ----------

  /** What the environment answers during one clock synchronization. */
  datatype SyncRun = SyncRun(
    timeEntered: Instant, timeWoken: Instant, beforeNs: int,
    requestEntered: Instant, requestWoken: Instant,
    rows: Result<seq<TimeRow>, ClientError>, afterNs: int, at: Instant)

  datatype Fields = Fields(
    lastRequest: Option<Instant>,
    lastTimeRequest: Option<Instant>,
    clock: Option<ClockSync>)

  /** The client's fields after one synchronization that nothing interrupts. */
  ghost function Synchronized(f: Fields, run: SyncRun): Fields {
    var before := UnixMs(run.beforeNs);
    if before.Failure? then f.(lastTimeRequest := Some(run.timeWoken))
    else
      var outcome := SyncOutcome(before.value, run.rows, run.afterNs, run.at);
      Fields(Some(run.requestWoken), Some(run.timeWoken), if outcome.Success? then Some(outcome.value) else f.clock)
  }

  class ReadOnlyClient {
    var lastRequest: Option<Instant>
    var lastTimeRequest: Option<Instant>
    var clock: Option<ClockSync>

    ghost predicate Valid()
      reads this
    {
      WithinSkew(clock)
    }

    ghost function View(): Fields
      reads this
    {
      Fields(lastRequest, lastTimeRequest, clock)
    }

    constructor ()
      ensures Valid() && View() == Fields(None, None, None)
    {
      lastRequest, lastTimeRequest, clock := None, None, None;
    }

    /** The limiter section of `get_rows`; the sleep wakes no earlier than asked. */
    method PaceRequest(entered: Instant, woken: Instant)
      requires WakeTime(lastRequest, entered, REQUEST_INTERVAL) <= woken
      modifies this`lastRequest
      ensures lastRequest == Some(woken)
      ensures old(lastRequest).Some? && old(lastRequest).value <= entered ==>
        woken - old(lastRequest).value >= REQUEST_INTERVAL
    {
      lastRequest := Some(woken);
    }

    /** The limiter section of `synchronize_clock`. */
    method PaceTime(entered: Instant, woken: Instant)
      requires WakeTime(lastTimeRequest, entered, TIME_INTERVAL) <= woken
      modifies this`lastTimeRequest
      ensures lastTimeRequest == Some(woken)
      ensures old(lastTimeRequest).Some? && old(lastTimeRequest).value <= entered ==>
        woken - old(lastTimeRequest).value >= TIME_INTERVAL
    {
      lastTimeRequest := Some(woken);
    }

    /** `synchronize_clock`, run without interference. */
    method SynchronizeClock(run: SyncRun) returns (r: Result<int, ClientError>)
      requires Valid()
      requires WakeTime(lastTimeRequest, run.timeEntered, TIME_INTERVAL) <= run.timeWoken
      requires WakeTime(lastRequest, run.requestEntered, REQUEST_INTERVAL) <= run.requestWoken
      modifies this
      ensures Valid()
      ensures View() == Synchronized(old(View()), run)
      ensures r.Failure? ==> clock == old(clock)
      ensures r.Success? ==>
        && run.rows.Success? && |run.rows.value| == 1 && ParseI64(run.rows.value[0].ts) == Some(r.value)
        && clock.Some? && clock.value.at == run.at && clock.value.serverMs == r.value
        && HalfwayBetween(clock.value.localMs, run.beforeNs / NS_PER_MS, run.afterNs / NS_PER_MS)
      ensures UnixMs(run.beforeNs).Failure? ==> r == Failure(ClockUnavailable)
      ensures UnixMs(run.beforeNs).Success? ==>
        match SyncOutcome(UnixMs(run.beforeNs).value, run.rows, run.afterNs, run.at)
        case Success(sync) => r == Success(sync.serverMs)
        case Failure(e) => r == Failure(e)
    {
      PaceTime(run.timeEntered, run.timeWoken);
      var before := UnixMs(run.beforeNs);
      if before.Failure? {
        return Failure(ClockUnavailable);
      }
      PaceRequest(run.requestEntered, run.requestWoken);
      if run.rows.Failure? {
        return Failure(run.rows.error);
      }
      var after := UnixMs(run.afterNs);
      if after.Failure? {
        return Failure(ClockUnavailable);
      }
      var row := One(run.rows.value);
      if row.Failure? {
        return Failure(InvalidResponse);
      }
      var serverMs, midpoint := ParseI64(row.value.ts), Midpoint(before.value, after.value);
      if serverMs.None? || midpoint.None? {
        return Failure(InvalidResponse);
      }
      if Abs(serverMs.value - midpoint.value) > CLOCK_MAX_SKEW_MS {
        return Failure(ClockSkew);
      }
      MidpointHalfway(before.value, after.value);
      clock := Some(ClockSync(run.at, serverMs.value, midpoint.value));
      return Success(serverMs.value);
    }

    /** A valid client's observations lag receipt by no more than the skew limit. */
    method ObserveValue<T>(value: T, now: Instant, wallNs: int) returns (r: Result<Observation<T>, ClientError>)
      requires Valid()
      ensures r == Observe(clock, value, now, wallNs)
      ensures r.Success? ==> 0 <= r.value.times.received - r.value.times.source <= CLOCK_MAX_SKEW_MS
    {
      ObservationLag(clock, value, now, wallNs);
      r := Observe(clock, value, now, wallNs);
    }
  }

  // ---------- what the stored offset is worth ----------

  /** The checked addition of the midpoint never fails on clock readings. */
  lemma MidpointNeverOverflows(before: int, after: int)
    requires 0 <= before <= I64_MAX && 0 <= after <= I64_MAX
    ensures Midpoint(before, after).Some?
    ensures Min(before, after) <= Midpoint(before, after).value <= Max(before, after)
  {
  }

  /** `m` lies between the two readings, as near to either as to the other; an odd millisecond goes to the second. */
  ghost predicate HalfwayBetween(m: int, before: int, after: int) {
    if before <= after then m - before <= after - m <= m - before + 1 else before - m <= m - after <= before - m + 1
  }

  lemma MidpointHalfway(before: int, after: int)
    requires 0 <= before <= I64_MAX && 0 <= after <= I64_MAX
    ensures Midpoint(before, after).Some? && HalfwayBetween(Midpoint(before, after).value, before, after)
  {
  }

  /**
   * What is stored, and when: the number written in the only row as the server's time, the middle of the
   * two wall-clock readings as the local one, and the instant of storing; unless they lie too far apart.
   */
  lemma StoredSync(before: int, rows: Result<seq<TimeRow>, ClientError>, afterNs: int, at: Instant)
    requires 0 <= before <= I64_MAX
    ensures var r := SyncOutcome(before, rows, afterNs, at);
      && (r.Success? ==>
           && rows.Success? && |rows.value| == 1 && ParseI64(rows.value[0].ts) == Some(r.value.serverMs)
           && HalfwayBetween(r.value.localMs, before, afterNs / NS_PER_MS)
           && Abs(r.value.serverMs - r.value.localMs) <= CLOCK_MAX_SKEW_MS && r.value.at == at)
      && (rows.Failure? ==> r == Failure(rows.error))
      && (rows.Success? && UnixMs(afterNs).Success? && |rows.value| == 1 && ParseI64(rows.value[0].ts).Some? ==>
           var server := ParseI64(rows.value[0].ts).value;
           r.Success? || (r == Failure(ClockSkew)
             && forall m | HalfwayBetween(m, before, afterNs / NS_PER_MS) :: Abs(server - m) > CLOCK_MAX_SKEW_MS))
      && (rows.Success? && UnixMs(afterNs).Success? && (|rows.value| != 1 || ParseI64(rows.value[0].ts).None?) ==>
           r == Failure(InvalidResponse))
      && (rows.Success? && UnixMs(afterNs).Failure? ==> r == Failure(ClockUnavailable))
  {
    if UnixMs(afterNs).Success? {
      MidpointHalfway(before, UnixMs(afterNs).value);
    }
  }

  /**
   * If the server read its clock while the local clock showed `w`, between the two local readings, and
   * wrote it into the row, the offset that is stored misses the true one by at most half the round trip,
   * rounded up.
   */
  lemma StoredOffsetAccuracy(before: int, rows: Result<seq<TimeRow>, ClientError>, afterNs: int, at: Instant,
                             w: int, offset: int)
    requires SyncOutcome(before, rows, afterNs, at).Success?
    requires 0 <= before <= w <= afterNs / NS_PER_MS
    requires ParseI64(rows.value[0].ts) == Some(w + offset)
    ensures var stored := SyncOutcome(before, rows, afterNs, at).value;
      Abs((stored.serverMs - stored.localMs) - offset) <= (afterNs / NS_PER_MS - before + 1) / 2
  {
    MidpointAccuracy(before, afterNs / NS_PER_MS, w, offset);
  }

  /** A stored synchronization is always within the skew limit. */
  lemma SyncWithinSkew(before: int, rows: Result<seq<TimeRow>, ClientError>, afterNs: int, at: Instant)
    ensures SyncOutcome(before, rows, afterNs, at).Success? ==>
      WithinSkew(Some(SyncOutcome(before, rows, afterNs, at).value))
      && SyncOutcome(before, rows, afterNs, at).value.at == at
  {
  }

  /**
   * If the server read its clock while the local clock showed `w`, somewhere between the two local
   * readings, the stored offset misses the true one by at most half the round trip, rounded up.
   */
  lemma MidpointAccuracy(before: int, after: int, w: int, offset: int)
    requires 0 <= before <= w <= after <= I64_MAX
    ensures Midpoint(before, after).Some?
    ensures var stored := (w + offset) - Midpoint(before, after).value;
      Abs(stored - offset) <= (after - before + 1) / 2
  {
  }

  /** Observations never claim a source later than receipt, nor more than the skew limit earlier. */
  lemma ObservationLag<T>(clock: Option<ClockSync>, value: T, now: Instant, wallNs: int)
    requires WithinSkew(clock)
    ensures var r := Observe(clock, value, now, wallNs);
      r.Success? ==>
        && clock.Some? && Elapsed(now, clock.value.at) <= CLOCK_MAX_AGE
        && r.value.times.received == wallNs / NS_PER_MS
        && r.value.times.received - r.value.times.source == Max(0, clock.value.localMs - clock.value.serverMs)
        && 0 <= r.value.times.received - r.value.times.source <= CLOCK_MAX_SKEW_MS
  {
  }

  /** Exactly when an observation is possible, and what it says: the local time, and the earlier of it and the estimate. */
  lemma ObservedExactly<T>(clock: Option<ClockSync>, value: T, now: Instant, wallNs: int)
    ensures var r := Observe(clock, value, now, wallNs);
      && (r.Success? <==>
           && clock.Some? && now <= clock.value.at + 60_000_000_000
           && 0 <= wallNs / NS_PER_MS <= I64_MAX
           && 0 <= wallNs / NS_PER_MS + clock.value.serverMs - clock.value.localMs <= I64_MAX)
      && (r.Failure? ==> r.error == ClockUnavailable)
      && (r.Success? ==>
           && r.value.value == value
           && r.value.times.received * NS_PER_MS <= wallNs < (r.value.times.received + 1) * NS_PER_MS
           && r.value.times.source
             == Min(r.value.times.received, r.value.times.received + clock.value.serverMs - clock.value.localMs))
  {
  }

  /** Exactly when a request can be signed, and with which time; a drift is reported only for a usable clock. */
  lemma SignedExactly(clock: Option<ClockSync>, checked: Instant, wallNs: int, measured: Instant)
    requires clock.Some? ==> clock.value.at <= measured
    ensures var r := SigningTime(clock, checked, wallNs, measured);
      var usable := clock.Some? && checked <= clock.value.at + 60_000_000_000 && 0 <= wallNs / NS_PER_MS <= I64_MAX;
      && (!usable ==> r == Failure(ClockUnavailable))
      && (usable ==>
           var drift := wallNs / NS_PER_MS - clock.value.localMs - (measured - clock.value.at) / NS_PER_MS;
           var signed := wallNs / NS_PER_MS + clock.value.serverMs - clock.value.localMs;
           && (r == Failure(ClockSkew) <==> drift < -2_000 || 2_000 < drift)
           && (r == Failure(ClockUnavailable) <==> -2_000 <= drift <= 2_000 && !(I64_MIN <= signed <= I64_MAX))
           && (r.Success? ==> r.value == signed)
           && (r.Failure? ==> r.error == ClockSkew || r.error == ClockUnavailable))
  {
  }

  // ---------- the signing-time drift check ----------

  /** Receipt minus midpoint, in whole milliseconds, fixed when the synchronization is stored. */
  ghost function ReceiptGap(sync: ClockSync, wallAtSync: int): int {
    wallAtSync / NS_PER_MS - sync.localMs
  }

  lemma FloorSum(a: int, b: int)
    ensures (a + b) / NS_PER_MS - b / NS_PER_MS
      == a / NS_PER_MS + if a % NS_PER_MS + b % NS_PER_MS >= NS_PER_MS then 1 else 0
  {
  }

  /**
   * While the wall clock keeps step with the monotonic clock: the drift term is the receipt gap, one more
   * when the sub-millisecond parts carry, less the whole milliseconds that begin between the two readings.
   */
  lemma SteadyDrift(sync: ClockSync, wallAtSync: int, walled: nat, measured: nat)
    requires walled <= measured
    ensures DriftMs(sync, wallAtSync + walled, sync.at + measured)
      == ReceiptGap(sync, wallAtSync)
         + (if wallAtSync % NS_PER_MS + walled % NS_PER_MS >= NS_PER_MS then 1 else 0)
         - (measured / NS_PER_MS - walled / NS_PER_MS)
  {
    FloorSum(wallAtSync, walled);
  }

  /** The least drift under a steady wall clock with calls of up to `lag` nanoseconds: receipt less `lag`, rounded down. */
  ghost function LeastDrift(sync: ClockSync, wallAtSync: int, lag: nat): int {
    (wallAtSync - lag) / NS_PER_MS - sync.localMs
  }

  /** The greatest: the instant of receipt rounded up to whole milliseconds. */
  ghost function GreatestDrift(sync: ClockSync, wallAtSync: int): int {
    -(-wallAtSync / NS_PER_MS) - sync.localMs
  }

  /**
   * The three readings of one call, as nanoseconds since the synchronization, in the order the code takes
   * them: its age, the wall clock, the monotonic progress. From first to last they take at most `lag`.
   */
  ghost predicate IsCall(checked: nat, walled: nat, measured: nat, lag: nat) {
    checked <= walled <= measured <= checked + lag && checked <= CLOCK_MAX_AGE
  }

  /** What the call answers while the wall clock keeps step. */
  ghost function SteadySigning(sync: ClockSync, wallAtSync: int, checked: nat, walled: nat, measured: nat)
    : Result<int, ClientError>
  {
    SigningTime(Some(sync), sync.at + checked, wallAtSync + walled, sync.at + measured)
  }

  lemma DriftInRange(sync: ClockSync, wallAtSync: int, checked: nat, walled: nat, measured: nat, lag: nat)
    requires IsCall(checked, walled, measured, lag)
    ensures LeastDrift(sync, wallAtSync, lag)
      <= DriftMs(sync, wallAtSync + walled, sync.at + measured) <= GreatestDrift(sync, wallAtSync)
  {
  }

  /** Every value between the two bounds is the drift of some call within the first milliseconds. */
  lemma DriftReached(sync: ClockSync, wallAtSync: int, lag: nat, drift: int) returns (walled: nat, measured: nat)
    requires LeastDrift(sync, wallAtSync, lag) <= drift <= GreatestDrift(sync, wallAtSync)
    ensures IsCall(walled, walled, measured, lag) && measured <= walled + lag
    ensures DriftMs(sync, wallAtSync + walled, sync.at + measured) == drift
  {
    var target := drift + sync.localMs;
    if target > wallAtSync / NS_PER_MS {
      walled := NS_PER_MS - wallAtSync % NS_PER_MS;
      measured := walled;
    } else {
      var apart: nat := if target == wallAtSync / NS_PER_MS then 0 else wallAtSync - (target + 1) * NS_PER_MS + 1;
      measured := (apart / NS_PER_MS + 1) * NS_PER_MS;
      walled := measured - apart;
    }
  }

  /** Readings at which nothing but the drift check can refuse a call. */
  ghost predicate OrdinaryClock(sync: ClockSync, wallAtSync: int, lag: nat) {
    && WithinSkew(Some(sync)) && 0 <= wallAtSync
    && (wallAtSync + CLOCK_MAX_AGE + lag) / NS_PER_MS + CLOCK_MAX_SKEW_MS <= I64_MAX
  }

  lemma OnlyDriftRefuses(sync: ClockSync, wallAtSync: int, checked: nat, walled: nat, measured: nat, lag: nat)
    requires OrdinaryClock(sync, wallAtSync, lag) && IsCall(checked, walled, measured, lag)
    ensures SteadySigning(sync, wallAtSync, checked, walled, measured).Success?
      <==> Abs(DriftMs(sync, wallAtSync + walled, sync.at + measured)) <= MAX_DRIFT_MS
  {
  }

  ghost predicate AlwaysSigns(sync: ClockSync, wallAtSync: int, lag: nat) {
    forall checked: nat, walled: nat, measured: nat | IsCall(checked, walled, measured, lag) ::
      SteadySigning(sync, wallAtSync, checked, walled, measured).Success?
  }

  ghost predicate NeverSigns(sync: ClockSync, wallAtSync: int, lag: nat) {
    forall checked: nat, walled: nat, measured: nat | IsCall(checked, walled, measured, lag) ::
      SteadySigning(sync, wallAtSync, checked, walled, measured).Failure?
  }

  /**
   * Under a steady wall clock, with calls that take up to `lag` nanoseconds: every call of the validity
   * minute passes exactly when both drift bounds are within the limit, and none does exactly when the
   * whole range lies beyond it.
   */
  lemma SteadyVerdict(sync: ClockSync, wallAtSync: int, lag: nat)
    requires OrdinaryClock(sync, wallAtSync, lag)
    ensures AlwaysSigns(sync, wallAtSync, lag)
      <==> -MAX_DRIFT_MS <= LeastDrift(sync, wallAtSync, lag) && GreatestDrift(sync, wallAtSync) <= MAX_DRIFT_MS
    ensures NeverSigns(sync, wallAtSync, lag)
      <==> GreatestDrift(sync, wallAtSync) < -MAX_DRIFT_MS || MAX_DRIFT_MS < LeastDrift(sync, wallAtSync, lag)
  {
    var least, greatest := LeastDrift(sync, wallAtSync, lag), GreatestDrift(sync, wallAtSync);
    forall checked: nat, walled: nat, measured: nat | IsCall(checked, walled, measured, lag)
      ensures least <= DriftMs(sync, wallAtSync + walled, sync.at + measured) <= greatest
      ensures SteadySigning(sync, wallAtSync, checked, walled, measured).Success?
        <==> Abs(DriftMs(sync, wallAtSync + walled, sync.at + measured)) <= MAX_DRIFT_MS
    {
      DriftInRange(sync, wallAtSync, checked, walled, measured, lag);
      OnlyDriftRefuses(sync, wallAtSync, checked, walled, measured, lag);
    }
    var w0, m0 := DriftReached(sync, wallAtSync, lag, least);
    var w1, m1 := DriftReached(sync, wallAtSync, lag, greatest);
    if least <= MAX_DRIFT_MS && -MAX_DRIFT_MS <= greatest {
      var w, m := DriftReached(sync, wallAtSync, lag, Max(least, -MAX_DRIFT_MS));
      assert SteadySigning(sync, wallAtSync, w, w, m).Success?;
    }
    assert SteadySigning(sync, wallAtSync, w0, w0, m0).Success? <==> Abs(least) <= MAX_DRIFT_MS;
    assert SteadySigning(sync, wallAtSync, w1, w1, m1).Success? <==> Abs(greatest) <= MAX_DRIFT_MS;
  }

  /** The drift is one constant for all calls exactly when readings coincide and receipt fell on a whole millisecond. */
  lemma DriftConstantExactly(sync: ClockSync, wallAtSync: int, lag: nat)
    ensures (forall checked: nat, walled: nat, measured: nat | IsCall(checked, walled, measured, lag) ::
        DriftMs(sync, wallAtSync + walled, sync.at + measured) == ReceiptGap(sync, wallAtSync))
      <==> lag == 0 && wallAtSync % NS_PER_MS == 0
  {
    var least, greatest := LeastDrift(sync, wallAtSync, lag), GreatestDrift(sync, wallAtSync);
    var w0, m0 := DriftReached(sync, wallAtSync, lag, least);
    var w1, m1 := DriftReached(sync, wallAtSync, lag, greatest);
    assert least == greatest <==> lag == 0 && wallAtSync % NS_PER_MS == 0;
    forall checked: nat, walled: nat, measured: nat | IsCall(checked, walled, measured, lag)
      ensures least <= DriftMs(sync, wallAtSync + walled, sync.at + measured) <= greatest
    {
      DriftInRange(sync, wallAtSync, checked, walled, measured, lag);
    }
  }

  /** So one steady clock may pass one call and refuse the next, by a carry or by a nanosecond between readings. */
  lemma VerdictWavers()
    ensures var carried := ClockSync(0, 0, 0);
      && SteadySigning(carried, 2_000 * NS_PER_MS + 1, 0, 0, 0).Success?
      && SteadySigning(carried, 2_000 * NS_PER_MS + 1, 999_999, 999_999, 999_999) == Failure(ClockSkew)
    ensures var split := ClockSync(0, 2_000, 2_000);
      && SteadySigning(split, 0, 0, 0, 0).Success?
      && SteadySigning(split, 0, 999_999, 999_999, 1_000_000) == Failure(ClockSkew)
  {
  }

  /**
   * A passing check bounds any jump of the wall clock between the synchronization and its own reading of
   * it, up to the time between that reading and the measurement of monotonic progress.
   */
  lemma JumpBound(sync: ClockSync, wallAtSync: int, checked: Instant, wallNs: int, walled: nat, measured: nat)
    requires walled <= measured
    requires SigningTime(Some(sync), checked, wallNs, sync.at + measured).Success?
    ensures var jump, gap := wallNs - (wallAtSync + walled), ReceiptGap(sync, wallAtSync);
      -(MAX_DRIFT_MS + gap + 2) * NS_PER_MS < jump - (measured - walled) < (MAX_DRIFT_MS - gap + 1) * NS_PER_MS
  {
    var drift, gap := DriftMs(sync, wallNs, sync.at + measured), ReceiptGap(sync, wallAtSync);
    assert wallNs / NS_PER_MS - wallAtSync / NS_PER_MS - measured / NS_PER_MS == drift - gap;
  }

  /** A signing time stays within two seconds of the server time carried forward monotonically. */
  lemma SigningTimeAccuracy(sync: ClockSync, checked: Instant, wallNs: int, measured: Instant)
    requires SigningTime(Some(sync), checked, wallNs, measured).Success?
    ensures var signed := SigningTime(Some(sync), checked, wallNs, measured).value;
      && Abs(signed - (sync.serverMs + Elapsed(measured, sync.at) / NS_PER_MS)) <= MAX_DRIFT_MS
      && (WithinSkew(Some(sync)) ==> Abs(signed - wallNs / NS_PER_MS) <= CLOCK_MAX_SKEW_MS)
  {
  }
}
