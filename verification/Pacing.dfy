/**
 * Any number of concurrent tasks sharing one client. A step is what one task does between two
 * suspension points, so two tasks interleave at every await; a task may also be cancelled at any of
 * them. Sleeping tasks own their lock and may not stamp before their wake time.
 */
module Pacing {
  import opened Prelude
  import opened Sequences
  import opened Multiples
  import opened Wire
  import opened ClientClock

  type Task = nat

  /** A time request remembers the wall-clock reading taken before it was queued. */
  datatype Purpose = Fetch | TimeRequest(before: int)

  datatype Phase =
    | QueuedForTime
    | HoldingTime(wake: Instant)
    | Queued(purpose: Purpose)
    | Holding(purpose: Purpose, wake: Instant)
    | Stamped(purpose: Purpose, stamp: Instant)
    | InFlight(purpose: Purpose)

  /** A request on the wire, and the stamp under which it was let through. */
  datatype Sent = Sent(stamp: Instant, at: Instant)

  /** The client's fields, the two lock owners, the tasks, and the stamps and requests made so far. */
  datatype State = State(
    now: Instant,
    lastRequest: Option<Instant>,
    lastTimeRequest: Option<Instant>,
    clock: Option<ClockSync>,
    requestOwner: Option<Task>,
    timeOwner: Option<Task>,
    tasks: map<Task, Phase>,
    requestStamps: seq<Instant>,
    timeStamps: seq<Instant>,
    sends: seq<Sent>)

  datatype Event =
    | Tick(ns: nat)
    | StartFetch(task: Task)
    | StartSync(task: Task)
    | TakeTimeLock(task: Task)
    | StampTime(task: Task, wallNs: int)
    | TakeRequestLock(task: Task)
    | StampRequest(task: Task)
    | Send(task: Task)          // the lock is free by now
    | Finish(task: Task, rows: Result<seq<TimeRow>, ClientError>, afterNs: int)
    | Cancel(task: Task)        // also a request given up before it is sent

  /** A fresh client, created at any monotonic instant. */
  function Initial(start: Instant): State {
    State(start, None, None, None, None, None, map[], [], [], [])
  }

  predicate Enabled(s: State, e: Event) {
    match e
    case Tick(_) => true
    case StartFetch(t) => t !in s.tasks
    case StartSync(t) => t !in s.tasks
    case TakeTimeLock(t) => t in s.tasks && s.tasks[t].QueuedForTime? && s.timeOwner == None
    case StampTime(t, _) => t in s.tasks && s.tasks[t].HoldingTime? && s.tasks[t].wake <= s.now
    case TakeRequestLock(t) => t in s.tasks && s.tasks[t].Queued? && s.requestOwner == None
    case StampRequest(t) => t in s.tasks && s.tasks[t].Holding? && s.tasks[t].wake <= s.now
    case Send(t) => t in s.tasks && s.tasks[t].Stamped?
    case Finish(t, _, _) => t in s.tasks && s.tasks[t].InFlight?
    case Cancel(t) => t in s.tasks
  }

  function Ended(s: State, t: Task): State {
    s.(tasks := s.tasks - {t})
  }

  function Apply(s: State, e: Event): State
    requires Enabled(s, e)
  {
    match e
    case Tick(ns) => s.(now := s.now + ns)
    case StartFetch(t) => s.(tasks := s.tasks[t := Queued(Fetch)])
    case StartSync(t) => s.(tasks := s.tasks[t := QueuedForTime])
    case TakeTimeLock(t) =>
      s.(timeOwner := Some(t), tasks := s.tasks[t := HoldingTime(WakeTime(s.lastTimeRequest, s.now, TIME_INTERVAL))])
    case StampTime(t, wallNs) =>
      var stamped := s.(lastTimeRequest := Some(s.now), timeStamps := s.timeStamps + [s.now], timeOwner := None);
      if UnixMs(wallNs).Failure? then Ended(stamped, t)
      else stamped.(tasks := s.tasks[t := Queued(TimeRequest(UnixMs(wallNs).value))])
    case TakeRequestLock(t) =>
      s.(requestOwner := Some(t),
         tasks := s.tasks[t := Holding(s.tasks[t].purpose, WakeTime(s.lastRequest, s.now, REQUEST_INTERVAL))])
    case StampRequest(t) =>
      s.(lastRequest := Some(s.now), requestStamps := s.requestStamps + [s.now], requestOwner := None,
         tasks := s.tasks[t := Stamped(s.tasks[t].purpose, s.now)])
    case Send(t) =>
      s.(sends := s.sends + [Sent(s.tasks[t].stamp, s.now)], tasks := s.tasks[t := InFlight(s.tasks[t].purpose)])
    case Finish(t, rows, afterNs) =>
      var done := Ended(s, t);
      if s.tasks[t].purpose == Fetch then done
      else
        var outcome := SyncOutcome(s.tasks[t].purpose.before, rows, afterNs, s.now);
        if outcome.Success? then done.(clock := Some(outcome.value)) else done
    case Cancel(t) =>
      var done := Ended(s, t);
      match s.tasks[t]
      case HoldingTime(_) => done.(timeOwner := None)
      case Holding(_, _) => done.(requestOwner := None)
      case _ => done
  }

  // ---------- runs ----------

  predicate Legal(s: State, run: seq<Event>)
    decreases |run|
  {
    |run| == 0 || (Enabled(s, run[0]) && Legal(Apply(s, run[0]), run[1..]))
  }

  function After(s: State, run: seq<Event>): State
    requires Legal(s, run)
    decreases |run|
  {
    if |run| == 0 then s else After(Apply(s, run[0]), run[1..])
  }

  // ---------- the invariant ----------

  ghost predicate Spaced(stamps: seq<Instant>, gap: nat) {
    forall i :: 0 < i < |stamps| ==> stamps[i - 1] + gap <= stamps[i]
  }

  /** The field holds the latest stamp, and no stamp lies in the future. */
  ghost predicate Tracks(last: Option<Instant>, stamps: seq<Instant>, now: Instant) {
    && last == (if |stamps| == 0 then None else Some(stamps[|stamps| - 1]))
    && (last.Some? ==> last.value <= now)
  }

  /** A sleeper wakes late enough for the spacing, and within one interval. */
  ghost predicate WakesInTime(wake: Instant, last: Option<Instant>, now: Instant, gap: nat) {
    && (last.Some? ==> last.value + gap <= wake)
    && wake <= now + gap
  }

  ghost predicate StampsSound(s: State) {
    && Spaced(s.requestStamps, REQUEST_INTERVAL) && Tracks(s.lastRequest, s.requestStamps, s.now)
    && Spaced(s.timeStamps, TIME_INTERVAL) && Tracks(s.lastTimeRequest, s.timeStamps, s.now)
  }

  ghost predicate ClockSound(s: State) {
    WithinSkew(s.clock) && (s.clock.Some? ==> s.clock.value.at <= s.now)
  }

  /** A lock is owned by exactly the task that is past taking it and has not stamped yet. */
  ghost predicate TimeOwnerSound(s: State) {
    forall t :: s.timeOwner == Some(t) <==> t in s.tasks && s.tasks[t].HoldingTime?
  }

  ghost predicate RequestOwnerSound(s: State) {
    forall t :: s.requestOwner == Some(t) <==> t in s.tasks && s.tasks[t].Holding?
  }

  ghost predicate TimeSleepersSound(s: State) {
    forall t | t in s.tasks && s.tasks[t].HoldingTime? ::
      WakesInTime(s.tasks[t].wake, s.lastTimeRequest, s.now, TIME_INTERVAL)
  }

  ghost predicate RequestSleepersSound(s: State) {
    forall t | t in s.tasks && s.tasks[t].Holding? ::
      WakesInTime(s.tasks[t].wake, s.lastRequest, s.now, REQUEST_INTERVAL)
  }

  ghost predicate LocksSound(s: State) {
    TimeOwnerSound(s) && RequestOwnerSound(s) && TimeSleepersSound(s) && RequestSleepersSound(s)
  }

  ghost predicate Inv(s: State) {
    StampsSound(s) && ClockSound(s) && LocksSound(s)
  }

  lemma SpacedSnoc(stamps: seq<Instant>, last: Option<Instant>, now: Instant, gap: nat)
    requires Spaced(stamps, gap) && Tracks(last, stamps, now)
    requires last.Some? ==> last.value + gap <= now
    ensures Spaced(stamps + [now], gap) && Tracks(Some(now), stamps + [now], now)
  {
  }

  lemma StepKeepsStamps(s: State, e: Event)
    requires Inv(s) && Enabled(s, e)
    ensures StampsSound(Apply(s, e))
  {
    if e.StampTime? {
      SpacedSnoc(s.timeStamps, s.lastTimeRequest, s.now, TIME_INTERVAL);
    } else if e.StampRequest? {
      SpacedSnoc(s.requestStamps, s.lastRequest, s.now, REQUEST_INTERVAL);
    }
  }

  lemma StepKeepsClock(s: State, e: Event)
    requires Inv(s) && Enabled(s, e)
    ensures ClockSound(Apply(s, e))
  {
    if e.Finish? && s.tasks[e.task].purpose.TimeRequest? {
      SyncWithinSkew(s.tasks[e.task].purpose.before, e.rows, e.afterNs, s.now);
    }
  }

  lemma StepKeepsTimeOwner(s: State, e: Event)
    requires TimeOwnerSound(s) && Enabled(s, e)
    ensures TimeOwnerSound(Apply(s, e))
  {
  }

  lemma StepKeepsRequestOwner(s: State, e: Event)
    requires RequestOwnerSound(s) && Enabled(s, e)
    ensures RequestOwnerSound(Apply(s, e))
  {
  }

  lemma StepKeepsTimeSleepers(s: State, e: Event)
    requires Inv(s) && Enabled(s, e)
    ensures TimeSleepersSound(Apply(s, e))
  {
  }

  lemma StepKeepsRequestSleepers(s: State, e: Event)
    requires Inv(s) && Enabled(s, e)
    ensures RequestSleepersSound(Apply(s, e))
  {
  }

  /** Every step of every task keeps the invariant. */
  lemma StepKeepsInv(s: State, e: Event)
    requires Inv(s) && Enabled(s, e)
    ensures Inv(Apply(s, e))
  {
    StepKeepsStamps(s, e);
    StepKeepsClock(s, e);
    StepKeepsTimeOwner(s, e);
    StepKeepsRequestOwner(s, e);
    StepKeepsTimeSleepers(s, e);
    StepKeepsRequestSleepers(s, e);
  }

  lemma {:induction false} RunKeepsInv(s: State, run: seq<Event>)
    requires Inv(s) && Legal(s, run)
    ensures Inv(After(s, run))
    decreases |run|
  {
    if |run| == 0 {
    } else {
      StepKeepsInv(s, run[0]);
      RunKeepsInv(Apply(s, run[0]), run[1..]);
    }
  }

  // ---------- pacing over whole runs ----------

  /** The stamps in the closed interval from `lo` to `hi`. */
  function CountBetween(stamps: seq<Instant>, lo: int, hi: int): nat
    decreases |stamps|
  {
    if |stamps| == 0 then 0
    else
      var n := |stamps| - 1;
      CountBetween(stamps[..n], lo, hi) + if lo <= stamps[n] <= hi then 1 else 0
  }

  lemma {:induction false} SpacedIncreasing(stamps: seq<Instant>, gap: nat, i: nat)
    requires Spaced(stamps, gap) && i < |stamps|
    ensures forall j :: 0 <= j < i ==> stamps[j] + gap <= stamps[i]
    decreases i
  {
    if i == 0 {
    } else {
      SpacedIncreasing(stamps, gap, i - 1);
    }
  }

  lemma {:induction false} CountClipped(stamps: seq<Instant>, lo: int, hi: int, hi': int)
    requires forall i :: 0 <= i < |stamps| ==> stamps[i] <= hi'
    requires hi' <= hi
    ensures CountBetween(stamps, lo, hi) == CountBetween(stamps, lo, hi')
    decreases |stamps|
  {
    if |stamps| == 0 {
    } else {
      CountClipped(stamps[..|stamps| - 1], lo, hi, hi');
    }
  }

  lemma {:induction false} CountEmpty(stamps: seq<Instant>, lo: int, hi: int)
    requires hi < lo || forall i :: 0 <= i < |stamps| ==> stamps[i] < lo
    ensures CountBetween(stamps, lo, hi) == 0
    decreases |stamps|
  {
    if |stamps| == 0 {
    } else {
      CountEmpty(stamps[..|stamps| - 1], lo, hi);
    }
  }

  /** Spaced stamps: those in one window are bounded by how many gaps fit into it. */
  lemma {:induction false} WindowBound(stamps: seq<Instant>, gap: nat, lo: int, hi: int)
    requires Spaced(stamps, gap) && lo <= hi
    ensures var n := CountBetween(stamps, lo, hi);
      n == 0 || Times(n - 1, gap) <= hi - lo
    decreases |stamps|
  {
    if |stamps| == 0 {
    } else {
      var m := |stamps| - 1;
      var rest, last := stamps[..m], stamps[m];
      SpacedIncreasing(stamps, gap, m);
      assert Spaced(rest, gap);
      if last < lo || last > hi {
        WindowBound(rest, gap, lo, hi);
      } else if last - gap < lo {
        CountEmpty(rest, lo, hi);
      } else {
        CountClipped(rest, lo, hi, last - gap);
        WindowBound(rest, gap, lo, last - gap);
      }
    }
  }

  lemma RequestShare(stamps: seq<Instant>, lo: int, hi: int)
    requires Spaced(stamps, REQUEST_INTERVAL) && lo <= hi
    ensures CountBetween(stamps, lo, hi) <= (hi - lo) / REQUEST_INTERVAL + 1
  {
    WindowBound(stamps, REQUEST_INTERVAL, lo, hi);
    var n := CountBetween(stamps, lo, hi);
    if n > 0 { TimesIsProduct(n - 1, REQUEST_INTERVAL); }
  }

  lemma TimeShare(stamps: seq<Instant>, lo: int, hi: int)
    requires Spaced(stamps, TIME_INTERVAL) && lo <= hi
    ensures CountBetween(stamps, lo, hi) <= (hi - lo) / TIME_INTERVAL + 1
  {
    WindowBound(stamps, TIME_INTERVAL, lo, hi);
    var n := CountBetween(stamps, lo, hi);
    if n > 0 { TimesIsProduct(n - 1, TIME_INTERVAL); }
  }

  /** Spaced stamps, no window with more than its share, no task with both locks, a clock within the skew limit. */
  ghost predicate Paced(s: State, lo: int, hi: int)
    requires lo <= hi
  {
    && Spaced(s.requestStamps, 500_000_000) && Spaced(s.timeStamps, 5_000_000_000)
    && CountBetween(s.requestStamps, lo, hi) <= (hi - lo) / 500_000_000 + 1
    && CountBetween(s.timeStamps, lo, hi) <= (hi - lo) / 5_000_000_000 + 1
    && (s.requestOwner == None || s.requestOwner != s.timeOwner)
    && WithinSkew(s.clock)
  }

  lemma InvIsPaced(s: State, lo: int, hi: int)
    requires Inv(s) && lo <= hi
    ensures Paced(s, lo, hi)
  {
    RequestShare(s.requestStamps, lo, hi);
    TimeShare(s.timeStamps, lo, hi);
    if s.requestOwner.Some? {
      assert s.tasks[s.requestOwner.value].Holding?;
    }
  }

  /**
   * In every interleaving, however many tasks and cancellations: consecutive request stamps are at
   * least 500 ms apart and time stamps at least 5 s apart, so no window holds more than its share; no
   * task owns both locks; and the stored clock is within the skew limit.
   */
  lemma PacingSafety(start: Instant, run: seq<Event>, lo: int, hi: int)
    requires Legal(Initial(start), run) && lo <= hi
    ensures Paced(After(Initial(start), run), lo, hi)
  {
    RunKeepsInv(Initial(start), run);
    InvIsPaced(After(Initial(start), run), lo, hi);
  }

  /** Stamps are only ever appended: what a run has stamped, every longer run has stamped too. */
  lemma {:induction false} StampsAppend(s: State, run: seq<Event>)
    requires Legal(s, run)
    ensures s.requestStamps <= After(s, run).requestStamps && s.timeStamps <= After(s, run).timeStamps
    decreases |run|
  {
    if |run| == 0 {
    } else {
      StampsAppend(Apply(s, run[0]), run[1..]);
    }
  }

  /** A run may be cut anywhere. */
  lemma {:induction false} RunSplits(s: State, a: seq<Event>, b: seq<Event>)
    requires Legal(s, a)
    ensures Legal(s, a + b) <==> Legal(After(s, a), b)
    ensures Legal(s, a + b) ==> After(s, a + b) == After(After(s, a), b)
    decreases |a|
  {
    if |a| == 0 {
      assert a + b == b;
    } else {
      assert (a + b)[1..] == a[1..] + b;
      RunSplits(Apply(s, a[0]), a[1..], b);
    }
  }

  // ---------- what a step leaves alone ----------

  /** In state `s` the event `e` completes a time request, and `sync` is what that stores. */
  ghost predicate Synchronizes(s: State, e: Event, sync: ClockSync) {
    && e.Finish? && e.task in s.tasks
    && s.tasks[e.task].InFlight? && s.tasks[e.task].purpose.TimeRequest?
    && SyncOutcome(s.tasks[e.task].purpose.before, e.rows, e.afterNs, s.now) == Success(sync)
  }

  /** Only a successful time request writes the clock; no fetch, failure, cancellation or wait does. */
  lemma StepKeepsStoredClock(s: State, e: Event)
    requires Enabled(s, e)
    ensures forall sync | Synchronizes(s, e, sync) :: Apply(s, e).clock == Some(sync)
    ensures (forall sync :: !Synchronizes(s, e, sync)) ==> Apply(s, e).clock == s.clock
  {
    if e.Finish? && s.tasks[e.task].purpose.TimeRequest? {
      var outcome := SyncOutcome(s.tasks[e.task].purpose.before, e.rows, e.afterNs, s.now);
      assert outcome.Success? ==> Synchronizes(s, e, outcome.value);
    }
  }

  /** Some event of the run stores `sync`, and no later one stores anything. */
  ghost predicate LatestSync(s: State, run: seq<Event>, sync: ClockSync)
    requires Legal(s, run)
    decreases |run|
  {
    |run| > 0
    && (LatestSync(Apply(s, run[0]), run[1..], sync)
        || (Synchronizes(s, run[0], sync) && NoSync(Apply(s, run[0]), run[1..])))
  }

  /** No event of the run stores anything. */
  ghost predicate NoSync(s: State, run: seq<Event>)
    requires Legal(s, run)
    decreases |run|
  {
    |run| == 0 || ((forall sync :: !Synchronizes(s, run[0], sync)) && NoSync(Apply(s, run[0]), run[1..]))
  }

  lemma {:induction false} ClockAfter(s: State, run: seq<Event>)
    requires Legal(s, run)
    ensures NoSync(s, run) ==> After(s, run).clock == s.clock
    ensures !NoSync(s, run) ==> After(s, run).clock.Some? && LatestSync(s, run, After(s, run).clock.value)
    decreases |run|
  {
    if |run| == 0 {
    } else {
      StepKeepsStoredClock(s, run[0]);
      ClockAfter(Apply(s, run[0]), run[1..]);
    }
  }

  /**
   * In every reachable state the stored clock is that of the last successful time request of the run, and
   * there is none exactly when no time request has succeeded yet.
   */
  lemma StoredClockIsLatest(start: Instant, run: seq<Event>)
    requires Legal(Initial(start), run)
    ensures After(Initial(start), run).clock == None <==> NoSync(Initial(start), run)
    ensures After(Initial(start), run).clock.Some? ==>
      LatestSync(Initial(start), run, After(Initial(start), run).clock.value)
  {
    ClockAfter(Initial(start), run);
  }

  /** Within a minute of a synchronization, whatever other tasks do, an observation works. */
  lemma ObservableAfterSync<T>(s: State, e: Event, sync: ClockSync, run: seq<Event>, value: T, wallNs: int)
    requires Enabled(s, e) && Synchronizes(s, e, sync)
    requires Legal(Apply(s, e), run) && NoSync(Apply(s, e), run)
    requires After(Apply(s, e), run).now <= s.now + CLOCK_MAX_AGE
    requires 0 <= wallNs / NS_PER_MS <= I64_MAX
    requires 0 <= wallNs / NS_PER_MS + sync.serverMs - sync.localMs <= I64_MAX
    ensures var u := After(Apply(s, e), run); Observe(u.clock, value, u.now, wallNs).Success?
  {
    StepKeepsStoredClock(s, e);
    ClockAfter(Apply(s, e), run);
    var u := After(Apply(s, e), run);
    ObservedExactly(u.clock, value, u.now, wallNs);
  }

  /** A step concerns one task: the others stay where they are, and only time passing moves the clock on. */
  lemma StepKeepsOthers(s: State, e: Event)
    requires Enabled(s, e)
    ensures var u := Apply(s, e);
      && (e.Tick? ==> u == s.(now := s.now + e.ns))
      && (!e.Tick? ==>
           && u.now == s.now
           && u.tasks - {e.task} == s.tasks - {e.task}
           && (e.Finish? || e.Cancel? ==> e.task !in u.tasks))
  {
  }

  /** Each record changes by the one event that belongs to it. */
  lemma StepKeepsRecords(s: State, e: Event)
    requires Enabled(s, e)
    ensures var u := Apply(s, e);
      && (u.lastRequest, u.requestStamps)
         == (if e.StampRequest? then (Some(s.now), s.requestStamps + [s.now]) else (s.lastRequest, s.requestStamps))
      && (u.lastTimeRequest, u.timeStamps)
         == (if e.StampTime? then (Some(s.now), s.timeStamps + [s.now]) else (s.lastTimeRequest, s.timeStamps))
      && |u.sends| == |s.sends| + (if e.Send? then 1 else 0) && s.sends <= u.sends
      && (e.Send? ==> u.sends[|s.sends|].at == s.now)
  {
  }

  /** A task may be cancelled at any time; that frees the lock it owns and changes nothing else. */
  lemma CancelAnywhere(s: State, t: Task)
    requires Inv(s) && t in s.tasks
    ensures Enabled(s, Cancel(t))
    ensures Apply(s, Cancel(t)) == s.(tasks := s.tasks - {t},
      timeOwner := if s.timeOwner == Some(t) then None else s.timeOwner,
      requestOwner := if s.requestOwner == Some(t) then None else s.requestOwner)
  {
  }

  // ---------- when requests go out ----------

  /** Every request went out under a stamp of its own, no earlier than the stamp, one after another. */
  ghost predicate SendsSound(s: State) {
    && (forall i :: 0 <= i < |s.sends| ==>
          s.sends[i].stamp in s.requestStamps && s.sends[i].stamp <= s.sends[i].at <= s.now)
    && (forall i, j :: 0 <= i < j < |s.sends| ==>
          s.sends[i].stamp != s.sends[j].stamp && s.sends[i].at <= s.sends[j].at)
  }

  /** A task about to send holds a stamp that was made. */
  ghost predicate StampsReal(s: State) {
    forall t | t in s.tasks && s.tasks[t].Stamped? ::
      s.tasks[t].stamp in s.requestStamps && s.tasks[t].stamp <= s.now
  }

  /** No request has gone out under it. */
  ghost predicate StampsUnsent(s: State) {
    forall t, i | t in s.tasks && s.tasks[t].Stamped? && 0 <= i < |s.sends| ::
      s.tasks[t].stamp != s.sends[i].stamp
  }

  /** No other task holds it. */
  ghost predicate StampsOwn(s: State) {
    forall t, u | t in s.tasks && s.tasks[t].Stamped? && u in s.tasks && s.tasks[u].Stamped? && t != u ::
      s.tasks[t].stamp != s.tasks[u].stamp
  }

  ghost predicate StampsUnused(s: State) {
    StampsReal(s) && StampsUnsent(s) && StampsOwn(s)
  }

  lemma NewStamp(s: State, e: Event)
    requires Inv(s) && Enabled(s, e) && e.StampRequest?
    ensures s.now !in s.requestStamps
  {
    if s.requestStamps != [] {
      var n := |s.requestStamps| - 1;
      SpacedIncreasing(s.requestStamps, REQUEST_INTERVAL, n);
      assert s.tasks[e.task].Holding?;
      assert s.requestStamps[n] + REQUEST_INTERVAL <= s.now;
    }
  }

  lemma StepKeepsSends(s: State, e: Event)
    requires SendsSound(s) && StampsUnused(s) && Enabled(s, e)
    ensures SendsSound(Apply(s, e))
  {
    var u := Apply(s, e);
    assert forall x :: x in s.requestStamps ==> x in u.requestStamps;
  }

  lemma StepKeepsReal(s: State, e: Event)
    requires StampsReal(s) && Enabled(s, e)
    ensures StampsReal(Apply(s, e))
  {
    var u := Apply(s, e);
    assert forall x :: x in s.requestStamps ==> x in u.requestStamps;
    if e.StampRequest? {
      assert u.requestStamps[|s.requestStamps|] == s.now;
    }
  }

  lemma StepKeepsUnsent(s: State, e: Event)
    requires Inv(s) && SendsSound(s) && StampsUnused(s) && Enabled(s, e)
    ensures StampsUnsent(Apply(s, e))
  {
    if e.StampRequest? {
      NewStamp(s, e);
    }
  }

  lemma StepKeepsOwn(s: State, e: Event)
    requires Inv(s) && StampsUnused(s) && Enabled(s, e)
    ensures StampsOwn(Apply(s, e))
  {
    if e.StampRequest? {
      NewStamp(s, e);
    }
  }

  lemma {:induction false} RunKeepsSends(s: State, run: seq<Event>)
    requires Inv(s) && SendsSound(s) && StampsUnused(s) && Legal(s, run)
    ensures SendsSound(After(s, run)) && StampsUnused(After(s, run))
    decreases |run|
  {
    if |run| == 0 {
    } else {
      StepKeepsInv(s, run[0]);
      StepKeepsSends(s, run[0]);
      StepKeepsReal(s, run[0]);
      StepKeepsUnsent(s, run[0]);
      StepKeepsOwn(s, run[0]);
      RunKeepsSends(Apply(s, run[0]), run[1..]);
    }
  }

  /** In every reachable state no more requests have gone out than stamps were made. */
  lemma SendsWithinStamps(start: Instant, run: seq<Event>)
    requires Legal(Initial(start), run)
    ensures |After(Initial(start), run).sends| <= |After(Initial(start), run).requestStamps|
  {
    RunKeepsSends(Initial(start), run);
    var s := After(Initial(start), run);
    var used := seq(|s.sends|, i requires 0 <= i < |s.sends| => s.sends[i].stamp);
    DistinctCardinality(used);
    DistinctCardinality(s.requestStamps);
    SubsetCardinality(Elements(used), Elements(s.requestStamps));
  }

  /** No request went out later than `delay` after its stamp. */
  ghost predicate Prompt(sends: seq<Sent>, delay: nat) {
    forall i :: 0 <= i < |sends| ==> sends[i].at <= sends[i].stamp + delay
  }

  ghost predicate SendsSpaced(sends: seq<Sent>, gap: nat) {
    forall i :: 0 < i < |sends| ==> sends[i - 1].at + gap <= sends[i].at
  }

  /** Every run whose requests go out within `delay` of their stamps keeps them `gap` apart. */
  ghost predicate SpacingGuaranteed(start: Instant, delay: nat, gap: nat) {
    forall run | Legal(Initial(start), run) && Prompt(After(Initial(start), run).sends, delay) ::
      SendsSpaced(After(Initial(start), run).sends, gap)
  }

  lemma StampsApart(stamps: seq<Instant>, gap: nat, a: Instant, b: Instant)
    requires Spaced(stamps, gap) && a in stamps && b in stamps && a != b
    ensures a + gap <= b || b + gap <= a
  {
    var i :| 0 <= i < |stamps| && stamps[i] == a;
    var j :| 0 <= j < |stamps| && stamps[j] == b;
    SpacedIncreasing(stamps, gap, i);
    SpacedIncreasing(stamps, gap, j);
  }

  lemma PromptIsSpaced(start: Instant, run: seq<Event>, delay: nat, gap: nat)
    requires Legal(Initial(start), run) && Prompt(After(Initial(start), run).sends, delay)
    requires gap == 0 || gap + delay <= REQUEST_INTERVAL
    ensures SendsSpaced(After(Initial(start), run).sends, gap)
  {
    RunKeepsInv(Initial(start), run);
    RunKeepsSends(Initial(start), run);
    var s := After(Initial(start), run);
    forall i | 0 < i < |s.sends| ensures s.sends[i - 1].at + gap <= s.sends[i].at {
      StampsApart(s.requestStamps, REQUEST_INTERVAL, s.sends[i - 1].stamp, s.sends[i].stamp);
    }
  }

  ghost predicate StepFits(run: seq<Event>, states: seq<State>, i: nat)
    requires |states| == |run| + 1 && i < |run|
  {
    Enabled(states[i], run[i]) && states[i + 1] == Apply(states[i], run[i])
  }

  ghost predicate Follows(s: State, run: seq<Event>, states: seq<State>) {
    && |states| == |run| + 1 && states[0] == s
    && forall i :: 0 <= i < |run| ==> StepFits(run, states, i)
  }

  lemma {:induction false} FollowedState(s: State, run: seq<Event>, states: seq<State>)
    requires Follows(s, run, states)
    ensures Legal(s, run) && After(s, run) == states[|run|]
    decreases |run|
  {
    if |run| == 0 {
    } else {
      assert StepFits(run, states, 0);
      forall i | 0 <= i < |run| - 1 ensures StepFits(run[1..], states[1..], i) {
        assert StepFits(run, states, i + 1);
      }
      FollowedState(states[1], run[1..], states[1..]);
    }
  }

  /** Two tasks: the first delays its request, the second sends at once, one interval after the first stamp. */
  ghost function CrowdedRun(delay: nat): seq<Event>
    requires delay <= REQUEST_INTERVAL
  {
    [StartFetch(1), TakeRequestLock(1), StampRequest(1), Tick(delay), Send(1),
     StartFetch(2), TakeRequestLock(2), Tick(REQUEST_INTERVAL - delay), StampRequest(2), Send(2)]
  }

  ghost function CrowdedStates(start: Instant, delay: nat): seq<State> {
    var s := Initial(start);
    var next := start + REQUEST_INTERVAL;
    var one := s.(lastRequest := Some(start), requestStamps := [start]);
    var sent := one.(now := start + delay, sends := [Sent(start, start + delay)], tasks := map[1 := InFlight(Fetch)]);
    var two := sent.(now := next, lastRequest := Some(next), requestStamps := [start, next]);
    [s,
     s.(tasks := map[1 := Queued(Fetch)]),
     s.(requestOwner := Some(1), tasks := map[1 := Holding(Fetch, start)]),
     one.(tasks := map[1 := Stamped(Fetch, start)]),
     one.(now := start + delay, tasks := map[1 := Stamped(Fetch, start)]),
     sent,
     sent.(tasks := map[1 := InFlight(Fetch), 2 := Queued(Fetch)]),
     sent.(requestOwner := Some(2), tasks := map[1 := InFlight(Fetch), 2 := Holding(Fetch, next)]),
     sent.(now := next, requestOwner := Some(2), tasks := map[1 := InFlight(Fetch), 2 := Holding(Fetch, next)]),
     two.(tasks := map[1 := InFlight(Fetch), 2 := Stamped(Fetch, next)]),
     two.(sends := [Sent(start, start + delay), Sent(next, next)],
          tasks := map[1 := InFlight(Fetch), 2 := InFlight(Fetch)])]
  }

  lemma FirstRequestFits(start: Instant, delay: nat)
    requires delay <= REQUEST_INTERVAL
    ensures forall i :: 0 <= i < 5 ==> StepFits(CrowdedRun(delay), CrowdedStates(start, delay), i)
  {
    var states, run := CrowdedStates(start, delay), CrowdedRun(delay);
    assert StepFits(run, states, 0);
    assert StepFits(run, states, 1);
    assert StepFits(run, states, 2);
    assert StepFits(run, states, 3);
    assert StepFits(run, states, 4);
  }

  lemma SecondRequestFits(start: Instant, delay: nat)
    requires delay <= REQUEST_INTERVAL
    ensures forall i :: 5 <= i < 10 ==> StepFits(CrowdedRun(delay), CrowdedStates(start, delay), i)
  {
    var states, run := CrowdedStates(start, delay), CrowdedRun(delay);
    assert StepFits(run, states, 5);
    assert StepFits(run, states, 6);
    assert StepFits(run, states, 7);
    assert StepFits(run, states, 8);
    assert StepFits(run, states, 9);
  }

  lemma CountTwo(lo: Instant, hi: Instant)
    requires lo < hi
    ensures CountBetween([lo, hi], lo, hi) == 2
  {
    assert [lo, hi][..1] == [lo] && [lo][..0] == [];
    assert CountBetween([lo], lo, hi) == 1;
  }

  /** A run whose two requests go out `REQUEST_INTERVAL - delay` apart, at the same instant in the extreme; its window holds its full share of stamps. */
  lemma SendsMayCrowd(start: Instant, delay: nat)
    requires delay <= REQUEST_INTERVAL
    ensures Legal(Initial(start), CrowdedRun(delay))
    ensures After(Initial(start), CrowdedRun(delay)).sends
      == [Sent(start, start + delay), Sent(start + REQUEST_INTERVAL, start + REQUEST_INTERVAL)]
    ensures CountBetween(After(Initial(start), CrowdedRun(delay)).requestStamps, start, start + REQUEST_INTERVAL) == 2
  {
    CountTwo(start, start + REQUEST_INTERVAL);
    FirstRequestFits(start, delay);
    SecondRequestFits(start, delay);
    FollowedState(Initial(start), CrowdedRun(delay), CrowdedStates(start, delay));
  }

  /**
   * The stamps are spaced, the requests less so: requests sent within `delay` of their stamps are sure to
   * be `gap` apart exactly when the two together fit into one interval.
   */
  lemma SendSpacing(start: Instant, delay: nat, gap: nat)
    ensures SpacingGuaranteed(start, delay, gap) <==> gap == 0 || gap + delay <= REQUEST_INTERVAL
  {
    if gap == 0 || gap + delay <= REQUEST_INTERVAL {
      forall run | Legal(Initial(start), run) && Prompt(After(Initial(start), run).sends, delay)
        ensures SendsSpaced(After(Initial(start), run).sends, gap)
      {
        PromptIsSpaced(start, run, delay, gap);
      }
    } else {
      var late := if delay <= REQUEST_INTERVAL then delay else REQUEST_INTERVAL;
      SendsMayCrowd(start, late);
      var sends := After(Initial(start), CrowdedRun(late)).sends;
      assert Prompt(sends, delay) && sends[0].at + gap > sends[1].at;
    }
  }

  // ---------- nothing gets stuck ----------

  /** The event that lets the owner of a lock, or a waiter for a free one, move on. */
  ghost function Unblocking(s: State, t: Task): Event
    requires t in s.tasks
  {
    match s.tasks[t]
    case QueuedForTime =>
      if s.timeOwner.Some? then StampTime(s.timeOwner.value, 0) else TakeTimeLock(t)
    case HoldingTime(_) => StampTime(t, 0)
    case Queued(_) =>
      if s.requestOwner.Some? then StampRequest(s.requestOwner.value) else TakeRequestLock(t)
    case Holding(_, _) => StampRequest(t)
    case Stamped(_, _) => Send(t)
    case InFlight(_) => Finish(t, Failure(Transport), 0)
  }

  /**
   * There is no deadlock: whatever any task waits for, letting at most one interval pass enables a step
   * that moves it, or the owner of the lock it waits for, forward.
   */
  lemma NoDeadlock(start: Instant, run: seq<Event>, t: Task)
    requires Legal(Initial(start), run) && t in After(Initial(start), run).tasks
    ensures var s := After(Initial(start), run);
      exists ns: nat :: ns <= TIME_INTERVAL && Enabled(Apply(s, Tick(ns)), Unblocking(s, t))
        && (!s.tasks[t].QueuedForTime? && !s.tasks[t].HoldingTime? ==> ns <= REQUEST_INTERVAL)
  {
    RunKeepsInv(Initial(start), run);
    var s := After(Initial(start), run);
    var e := Unblocking(s, t);
    var wake := match e
      case StampTime(o, _) => s.tasks[o].wake
      case StampRequest(o) => s.tasks[o].wake
      case _ => s.now;
    var ns: nat := if wake > s.now then wake - s.now else 0;
    assert Enabled(Apply(s, Tick(ns)), e);
  }

  // ---------- observations in reachable states ----------

  /** In every reachable state a successful observation claims a source at most 5 s before receipt. */
  lemma ReachableObservation<T>(start: Instant, run: seq<Event>, value: T, wallNs: int)
    requires Legal(Initial(start), run)
    ensures var s := After(Initial(start), run);
      var r := Observe(s.clock, value, s.now, wallNs);
      r.Success? ==> 0 <= r.value.times.received - r.value.times.source <= 5_000
  {
    RunKeepsInv(Initial(start), run);
    var s := After(Initial(start), run);
    ObservationLag(s.clock, value, s.now, wallNs);
  }

  // ---------- one task alone does what the client's method says ----------

  lemma Prepend(s: State, e: Event, rest: seq<Event>)
    requires Enabled(s, e) && Legal(Apply(s, e), rest)
    ensures Legal(s, [e] + rest) && After(s, [e] + rest) == After(Apply(s, e), rest)
  {
    assert ([e] + rest)[1..] == rest;
  }

  ghost predicate InOrder(s: State, run: SyncRun) {
    s.now <= run.timeEntered <= run.timeWoken <= run.requestEntered <= run.requestWoken <= run.at
  }

  /** Up to the first stamp. */
  ghost function TimeSection(s: State, t: Task, run: SyncRun): seq<Event>
    requires InOrder(s, run)
  {
    [Tick(run.timeEntered - s.now), StartSync(t), TakeTimeLock(t), Tick(run.timeWoken - run.timeEntered),
     StampTime(t, run.beforeNs)]
  }

  /** From there to the end; the request is sent at once. */
  ghost function RequestSection(s: State, t: Task, run: SyncRun): seq<Event>
    requires InOrder(s, run)
  {
    [Tick(run.requestEntered - run.timeWoken), TakeRequestLock(t), Tick(run.requestWoken - run.requestEntered),
     StampRequest(t), Send(t), Tick(run.at - run.requestWoken), Finish(t, run.rows, run.afterNs)]
  }

  ghost function ViewOf(s: State): Fields {
    Fields(s.lastRequest, s.lastTimeRequest, s.clock)
  }

  lemma TimeSectionRuns(s: State, t: Task, run: SyncRun)
    requires InOrder(s, run) && t !in s.tasks && s.timeOwner == None
    requires WakeTime(s.lastTimeRequest, run.timeEntered, TIME_INTERVAL) <= run.timeWoken
    ensures Legal(s, TimeSection(s, t, run))
    ensures After(s, TimeSection(s, t, run)) == s.(now := run.timeWoken, lastTimeRequest := Some(run.timeWoken),
      timeStamps := s.timeStamps + [run.timeWoken],
      tasks := if UnixMs(run.beforeNs).Failure? then s.tasks
               else s.tasks[t := Queued(TimeRequest(UnixMs(run.beforeNs).value))])
  {
    var es := TimeSection(s, t, run);
    var s1 := Apply(s, es[0]);
    var s2 := Apply(s1, es[1]);
    var s3 := Apply(s2, es[2]);
    var s4 := Apply(s3, es[3]);
    TimeStamped(s, s4, t, WakeTime(s.lastTimeRequest, run.timeEntered, TIME_INTERVAL), run);
    Prepend(s4, es[4], []);
    Prepend(s3, es[3], es[4..]);
    Prepend(s2, es[2], es[3..]);
    Prepend(s1, es[1], es[2..]);
    Prepend(s, es[0], es[1..]);
    assert es == [es[0]] + es[1..];
  }

  /** The first stamp, and the wall-clock reading that decides whether the task goes on. */
  lemma TimeStamped(s: State, s4: State, t: Task, wake: Instant, run: SyncRun)
    requires t !in s.tasks && s.timeOwner == None && wake <= run.timeWoken
    requires s4 == s.(now := run.timeWoken, timeOwner := Some(t),
                      tasks := s.tasks[t := QueuedForTime][t := HoldingTime(wake)])
    ensures Enabled(s4, StampTime(t, run.beforeNs))
    ensures Apply(s4, StampTime(t, run.beforeNs)) == s.(now := run.timeWoken,
      lastTimeRequest := Some(run.timeWoken), timeStamps := s.timeStamps + [run.timeWoken],
      tasks := if UnixMs(run.beforeNs).Failure? then s.tasks
               else s.tasks[t := Queued(TimeRequest(UnixMs(run.beforeNs).value))])
  {
    assert s4.tasks - {t} == s.tasks;
    if UnixMs(run.beforeNs).Success? {
      var queued := Queued(TimeRequest(UnixMs(run.beforeNs).value));
      assert s4.tasks[t := queued] == s.tasks[t := queued];
    }
  }

  /** The state in which the request is stamped and on its way. */
  ghost function OnItsWay(u: State, t: Task, run: SyncRun): State
    requires UnixMs(run.beforeNs).Success?
  {
    u.(now := run.requestWoken, lastRequest := Some(run.requestWoken),
       requestStamps := u.requestStamps + [run.requestWoken],
       sends := u.sends + [Sent(run.requestWoken, run.requestWoken)],
       tasks := u.tasks[t := InFlight(TimeRequest(UnixMs(run.beforeNs).value))])
  }

  lemma StampSectionRuns(s: State, u: State, t: Task, run: SyncRun, rest: seq<Event>)
    requires InOrder(s, run) && u.now == run.timeWoken && u.requestOwner == None
    requires UnixMs(run.beforeNs).Success?
    requires t in u.tasks && u.tasks[t] == Queued(TimeRequest(UnixMs(run.beforeNs).value))
    requires WakeTime(u.lastRequest, run.requestEntered, REQUEST_INTERVAL) <= run.requestWoken
    requires Legal(OnItsWay(u, t, run), rest)
    ensures var es := RequestSection(s, t, run)[..5] + rest;
      Legal(u, es) && After(u, es) == After(OnItsWay(u, t, run), rest)
  {
    var es := RequestSection(s, t, run);
    var s1 := Apply(u, es[0]);
    var s2 := Apply(s1, es[1]);
    var s3 := Apply(s2, es[2]);
    var s4 := Apply(s3, es[3]);
    assert Apply(s4, es[4]) == OnItsWay(u, t, run);
    Prepend(s4, es[4], rest);
    Prepend(s3, es[3], [es[4]] + rest);
    Prepend(s2, es[2], [es[3]] + ([es[4]] + rest));
    Prepend(s1, es[1], [es[2]] + ([es[3]] + ([es[4]] + rest)));
    Prepend(u, es[0], [es[1]] + ([es[2]] + ([es[3]] + ([es[4]] + rest))));
    assert es[..5] + rest == [es[0]] + ([es[1]] + ([es[2]] + ([es[3]] + ([es[4]] + rest))));
  }

  lemma RequestSectionRuns(s: State, u: State, t: Task, run: SyncRun)
    requires InOrder(s, run) && u.now == run.timeWoken && u.requestOwner == None
    requires UnixMs(run.beforeNs).Success?
    requires t in u.tasks && u.tasks[t] == Queued(TimeRequest(UnixMs(run.beforeNs).value))
    requires WakeTime(u.lastRequest, run.requestEntered, REQUEST_INTERVAL) <= run.requestWoken
    ensures Legal(u, RequestSection(s, t, run))
    ensures var v := After(u, RequestSection(s, t, run));
      && v.requestOwner == None && v.timeOwner == u.timeOwner && v.tasks == u.tasks - {t}
      && v.lastTimeRequest == u.lastTimeRequest && v.lastRequest == Some(run.requestWoken)
      && var outcome := SyncOutcome(UnixMs(run.beforeNs).value, run.rows, run.afterNs, run.at);
         v.clock == if outcome.Success? then Some(outcome.value) else u.clock
  {
    var es := RequestSection(s, t, run);
    var s5 := OnItsWay(u, t, run);
    var s6 := Apply(s5, es[5]);
    Prepend(s6, es[6], []);
    Prepend(s5, es[5], [es[6]]);
    assert [es[6]] + [] == [es[6]] && es == es[..5] + ([es[5]] + [es[6]]);
    StampSectionRuns(s, u, t, run, [es[5]] + [es[6]]);
    assert Apply(s6, es[6]).tasks == u.tasks - {t};
  }

  /** The steps of one synchronization; it ends early when the first wall-clock reading is unusable. */
  ghost function WholeSync(s: State, t: Task, run: SyncRun): seq<Event>
    requires InOrder(s, run)
  {
    TimeSection(s, t, run) + if UnixMs(run.beforeNs).Success? then RequestSection(s, t, run) else []
  }

  /** A synchronization that no other task interrupts leaves the fields the client's method promises. */
  lemma SoloSynchronization(s: State, t: Task, run: SyncRun)
    requires InOrder(s, run) && t !in s.tasks && s.timeOwner == None && s.requestOwner == None
    requires WakeTime(s.lastTimeRequest, run.timeEntered, TIME_INTERVAL) <= run.timeWoken
    requires WakeTime(s.lastRequest, run.requestEntered, REQUEST_INTERVAL) <= run.requestWoken
    ensures var events := WholeSync(s, t, run);
      && Legal(s, events)
      && ViewOf(After(s, events)) == Synchronized(ViewOf(s), run)
      && After(s, events).tasks == s.tasks
      && After(s, events).timeOwner == None && After(s, events).requestOwner == None
  {
    TimeSectionRuns(s, t, run);
    var u := After(s, TimeSection(s, t, run));
    if UnixMs(run.beforeNs).Success? {
      RequestSectionRuns(s, u, t, run);
      RunSplits(s, TimeSection(s, t, run), RequestSection(s, t, run));
      assert u.tasks - {t} == s.tasks;
    } else {
      assert WholeSync(s, t, run) == TimeSection(s, t, run);
    }
  }

  /** The steps of one fetch that no other task interrupts and that is sent at once. */
  ghost function WholeFetch(s: State, t: Task, woken: Instant, rows: Result<seq<TimeRow>, ClientError>, wallNs: int)
    : seq<Event>
    requires s.now <= woken
  {
    [StartFetch(t), TakeRequestLock(t), Tick(woken - s.now), StampRequest(t), Send(t), Finish(t, rows, wallNs)]
  }

  ghost function FetchStates(s: State, t: Task, woken: Instant): seq<State>
    requires s.now <= woken
  {
    var sleeper := s.tasks[t := Holding(Fetch, WakeTime(s.lastRequest, s.now, REQUEST_INTERVAL))];
    var stamped := s.(now := woken, lastRequest := Some(woken), requestStamps := s.requestStamps + [woken]);
    var sent := stamped.(sends := s.sends + [Sent(woken, woken)]);
    [s,
     s.(tasks := s.tasks[t := Queued(Fetch)]),
     s.(requestOwner := Some(t), tasks := sleeper),
     s.(now := woken, requestOwner := Some(t), tasks := sleeper),
     stamped.(tasks := s.tasks[t := Stamped(Fetch, woken)]),
     sent.(tasks := s.tasks[t := InFlight(Fetch)]),
     sent]
  }

  lemma FetchLocks(s: State, t: Task, woken: Instant, rows: Result<seq<TimeRow>, ClientError>, wallNs: int)
    requires t !in s.tasks && s.requestOwner == None
    requires s.now <= woken && WakeTime(s.lastRequest, s.now, REQUEST_INTERVAL) <= woken
    ensures forall i :: 0 <= i < 3 ==> StepFits(WholeFetch(s, t, woken, rows, wallNs), FetchStates(s, t, woken), i)
  {
    var run, states := WholeFetch(s, t, woken, rows, wallNs), FetchStates(s, t, woken);
    assert states[1].tasks[t := Holding(Fetch, WakeTime(s.lastRequest, s.now, REQUEST_INTERVAL))] == states[2].tasks;
    assert StepFits(run, states, 0);
    assert StepFits(run, states, 1);
    assert StepFits(run, states, 2);
  }

  lemma FetchSends(s: State, t: Task, woken: Instant, rows: Result<seq<TimeRow>, ClientError>, wallNs: int)
    requires t !in s.tasks && s.requestOwner == None
    requires s.now <= woken && WakeTime(s.lastRequest, s.now, REQUEST_INTERVAL) <= woken
    ensures forall i :: 3 <= i < 6 ==> StepFits(WholeFetch(s, t, woken, rows, wallNs), FetchStates(s, t, woken), i)
  {
    var run, states := WholeFetch(s, t, woken, rows, wallNs), FetchStates(s, t, woken);
    assert states[3].tasks[t := Stamped(Fetch, woken)] == states[4].tasks;
    assert states[4].tasks[t := InFlight(Fetch)] == states[5].tasks;
    assert states[5].tasks - {t} == s.tasks;
    assert StepFits(run, states, 3);
    assert StepFits(run, states, 4);
    assert StepFits(run, states, 5);
  }

  /** Such a fetch stamps once, sends once, and leaves the rest of the client alone. */
  lemma SoloFetch(s: State, t: Task, woken: Instant, rows: Result<seq<TimeRow>, ClientError>, wallNs: int)
    requires t !in s.tasks && s.requestOwner == None
    requires s.now <= woken && WakeTime(s.lastRequest, s.now, REQUEST_INTERVAL) <= woken
    ensures var events := WholeFetch(s, t, woken, rows, wallNs);
      && Legal(s, events)
      && After(s, events) == s.(now := woken, lastRequest := Some(woken),
           requestStamps := s.requestStamps + [woken], sends := s.sends + [Sent(woken, woken)])
  {
    FetchLocks(s, t, woken, rows, wallNs);
    FetchSends(s, t, woken, rows, wallNs);
    FollowedState(s, WholeFetch(s, t, woken, rows, wallNs), FetchStates(s, t, woken));
  }
}
