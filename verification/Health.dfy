/** Process liveness and readiness: one flag, one reason under a lock, any number of threads. */
module Health {
  import opened Prelude

  datatype Reason = Ready | DependencyUnavailable | FactsStale | QueueFull | ConfigMismatch | Shutdown

  datatype Snapshot = Snapshot(live: bool, ready: bool, reason: Option<Reason>)

  /** What `pause` writes, given the liveness it loaded. */
  function PauseReason(live: bool, reason: Reason): Option<Reason> {
    Some(if live then reason else Shutdown)
  }

  function MakeSnapshot(live: bool, reason: Option<Reason>): Snapshot {
    Snapshot(live, live && reason == None, reason)
  }

  /** The object as its owner uses it from one thread. */
  class HealthState {
    var live: bool
    var reason: Option<Reason>

    /** Shutdown is terminal: a stopped process keeps its reason. */
    ghost predicate Valid()
      reads this
    {
      !live ==> reason == Some(Shutdown)
    }

    constructor ()
      ensures Valid() && live && reason == Some(DependencyUnavailable)
    {
      live, reason := true, Some(DependencyUnavailable);
    }

    method Pause(why: Reason)
      requires Valid()
      modifies this`reason
      ensures Valid() && reason == Some(if live then why else Shutdown)
    {
      reason := PauseReason(live, why);
    }

    method MarkReady()
      requires Valid()
      modifies this`reason
      ensures Valid() && reason == if live then None else old(reason)
    {
      if live {
        reason := None;
      }
    }

    method Stop()
      requires Valid()
      modifies this
      ensures Valid() && !live && reason == Some(Shutdown)
    {
      live := false;
      reason := PauseReason(live, Shutdown);
    }

    method TakeSnapshot() returns (s: Snapshot)
      requires Valid()
      ensures s == Snapshot(live, live && reason == None, reason)
      ensures !live ==> s == Snapshot(false, false, Some(Shutdown))
    {
      s := MakeSnapshot(live, reason);
    }
  }

  // ---------- the same operations as atomic steps of interleaved threads ----------

  type Thread = nat

  /** `stopping` marks the pause that `stop` runs after clearing the flag. */
  datatype Phase =
    | PauseWaiting(reason: Reason, stopping: bool)
    | PauseLocked(reason: Reason, stopping: bool)
    | PauseLoaded(reason: Reason, stopping: bool, loaded: bool)
    | ReadyWaiting
    | ReadyLocked
    | ReadyLoaded(loaded: bool)
    | SnapshotWaiting
    | SnapshotRead(seen: Option<Reason>)

  datatype State = State(
    live: bool,
    reason: Option<Reason>,
    owner: Option<Thread>,
    threads: map<Thread, Phase>,
    stopReturned: bool)

  datatype Event =
    | CallPause(thread: Thread, reason: Reason)
    | CallStop(thread: Thread)          // stores the flag, then goes on as a pause
    | CallReady(thread: Thread)
    | CallSnapshot(thread: Thread)
    | Lock(thread: Thread)              // pause and mark_ready keep the lock; snapshot reads and drops it
    | LoadLive(thread: Thread)          // under the lock, except in snapshot
    | WriteAndReturn(thread: Thread)    // writes the reason and drops the lock

  const INITIAL := State(true, Some(DependencyUnavailable), None, map[], false)

  predicate HoldsLock(p: Phase) {
    p.PauseLocked? || p.PauseLoaded? || p.ReadyLocked? || p.ReadyLoaded?
  }

  predicate Enabled(s: State, e: Event) {
    var t := e.thread;
    match e
    case CallPause(_, _) => t !in s.threads
    case CallStop(_) => t !in s.threads
    case CallReady(_) => t !in s.threads
    case CallSnapshot(_) => t !in s.threads
    case Lock(_) =>
      && t in s.threads && s.owner == None
      && (s.threads[t].PauseWaiting? || s.threads[t].ReadyWaiting? || s.threads[t].SnapshotWaiting?)
    case LoadLive(_) =>
      && t in s.threads
      && (s.threads[t].PauseLocked? || s.threads[t].ReadyLocked? || s.threads[t].SnapshotRead?)
    case WriteAndReturn(_) => t in s.threads && (s.threads[t].PauseLoaded? || s.threads[t].ReadyLoaded?)
  }

  function At(s: State, t: Thread, p: Phase): State {
    s.(threads := s.threads[t := p])
  }

  function Apply(s: State, e: Event): State
    requires Enabled(s, e)
  {
    var t := e.thread;
    match e
    case CallPause(_, reason) => At(s, t, PauseWaiting(reason, false))
    case CallStop(_) => At(s.(live := false), t, PauseWaiting(Shutdown, true))
    case CallReady(_) => At(s, t, ReadyWaiting)
    case CallSnapshot(_) => At(s, t, SnapshotWaiting)
    case Lock(_) =>
      var p := s.threads[t];
      if p.SnapshotWaiting? then At(s, t, SnapshotRead(s.reason))
      else At(s.(owner := Some(t)), t, if p.ReadyWaiting? then ReadyLocked else PauseLocked(p.reason, p.stopping))
    case LoadLive(_) =>
      var p := s.threads[t];
      if p.SnapshotRead? then s.(threads := s.threads - {t})
      else At(s, t, if p.ReadyLocked? then ReadyLoaded(s.live) else PauseLoaded(p.reason, p.stopping, s.live))
    case WriteAndReturn(_) =>
      var p := s.threads[t];
      var freed := s.(owner := None, threads := s.threads - {t});
      if p.ReadyLoaded? then (if p.loaded then freed.(reason := None) else freed)
      else freed.(reason := PauseReason(p.loaded, p.reason), stopReturned := s.stopReturned || p.stopping)
  }

  /** What a snapshot returns when it loads the flag. */
  function Returned(s: State, t: Thread): Snapshot
    requires t in s.threads && s.threads[t].SnapshotRead?
  {
    MakeSnapshot(s.live, s.threads[t].seen)
  }

  predicate Legal(s: State, run: seq<Event>)
    decreases |run|, 0
  {
    |run| == 0 || (Legal(s, run[..|run| - 1]) && Enabled(After(s, run[..|run| - 1]), run[|run| - 1]))
  }

  function After(s: State, run: seq<Event>): State
    requires Legal(s, run)
    decreases |run|, 1
  {
    if |run| == 0 then s else Apply(After(s, run[..|run| - 1]), run[|run| - 1])
  }

  // ---------- one thread alone does what the object's methods say ----------

  ghost function Solo(s: State, e: Event): State
    requires Enabled(s, e) && s.owner == None && (e.CallPause? || e.CallReady? || e.CallStop?)
  {
    var t := e.thread;
    Apply(Apply(Apply(Apply(s, e), Lock(t)), LoadLive(t)), WriteAndReturn(t))
  }

  lemma RemoveAdded<K, V>(m: map<K, V>, k: K, a: V, b: V, c: V)
    requires k !in m
    ensures m[k := a][k := b][k := c] - {k} == m
  {
  }

  /** Uninterrupted, the steps of a call change the fields as the methods of `HealthState` do. */
  lemma SoloPause(s: State, t: Thread, why: Reason)
    requires t !in s.threads && s.owner == None
    ensures Solo(s, CallPause(t, why)) == s.(reason := Some(if s.live then why else Shutdown))
  {
    RemoveAdded(s.threads, t, PauseWaiting(why, false), PauseLocked(why, false), PauseLoaded(why, false, s.live));
  }

  lemma SoloReady(s: State, t: Thread)
    requires t !in s.threads && s.owner == None
    ensures Solo(s, CallReady(t)) == s.(reason := if s.live then None else s.reason)
  {
    RemoveAdded(s.threads, t, ReadyWaiting, ReadyLocked, ReadyLoaded(s.live));
  }

  lemma SoloStop(s: State, t: Thread)
    requires t !in s.threads && s.owner == None
    ensures Solo(s, CallStop(t)) == s.(live := false, reason := Some(Shutdown), stopReturned := true)
  {
    RemoveAdded(s.threads, t, PauseWaiting(Shutdown, true), PauseLocked(Shutdown, true),
      PauseLoaded(Shutdown, true, false));
  }

  lemma SoloSnapshot(s: State, t: Thread)
    requires t !in s.threads && s.owner == None
    ensures Enabled(s, CallSnapshot(t))
    ensures var read := Apply(Apply(s, CallSnapshot(t)), Lock(t));
      && Returned(read, t) == Snapshot(s.live, s.live && s.reason == None, s.reason)
      && Apply(read, LoadLive(t)) == s
  {
    RemoveAdded(s.threads, t, SnapshotWaiting, SnapshotWaiting, SnapshotRead(s.reason));
  }

  /** A step concerns one thread, only a stop clears the flag, and only a write changes the reason. */
  lemma StepKeepsOthers(s: State, e: Event)
    requires Enabled(s, e)
    ensures var u := Apply(s, e);
      && u.threads - {e.thread} == s.threads - {e.thread}
      && u.live == (s.live && !e.CallStop?)
      && (!e.WriteAndReturn? ==> u.reason == s.reason && u.stopReturned == s.stopReturned)
  {
  }

  // ---------- invariants of every run ----------

  /** One owner; a stopping thread has cleared the flag; a thread that loaded `false` loaded the truth. */
  ghost predicate LockSound(s: State) {
    && (forall t :: s.owner == Some(t) <==> t in s.threads && HoldsLock(s.threads[t]))
    && (forall t | t in s.threads && (s.threads[t].PauseWaiting? || s.threads[t].PauseLocked? || s.threads[t].PauseLoaded?) ::
          s.threads[t].stopping ==> !s.live && s.threads[t].reason == Shutdown)
    && (forall t | t in s.threads && (s.threads[t].PauseLoaded? || s.threads[t].ReadyLoaded?) ::
          !s.threads[t].loaded ==> !s.live)
  }

  /** Once some stop has returned, no thread inside the lock still believes the process is live. */
  ghost predicate StopSound(s: State) {
    s.stopReturned ==>
      && !s.live && s.reason == Some(Shutdown)
      && forall t | t in s.threads && (s.threads[t].PauseLoaded? || s.threads[t].ReadyLoaded?) :: !s.threads[t].loaded
  }

  ghost predicate Inv(s: State) {
    LockSound(s) && StopSound(s)
  }

  lemma StepKeepsLock(s: State, e: Event)
    requires Inv(s) && Enabled(s, e)
    ensures LockSound(Apply(s, e))
  {
  }

  lemma StepKeepsStop(s: State, e: Event)
    requires Inv(s) && Enabled(s, e)
    ensures StopSound(Apply(s, e))
  {
    if e.WriteAndReturn? {
      // nobody else can be inside the lock
      forall u | u in s.threads && u != e.thread ensures !HoldsLock(s.threads[u]) {
        assert s.owner == Some(e.thread);
      }
    }
  }

  lemma {:induction false} RunKeepsInv(run: seq<Event>)
    requires Legal(INITIAL, run)
    ensures Inv(After(INITIAL, run))
    decreases |run|
  {
    if |run| == 0 {
    } else {
      var before := run[..|run| - 1];
      RunKeepsInv(before);
      StepKeepsLock(After(INITIAL, before), run[|run| - 1]);
      StepKeepsStop(After(INITIAL, before), run[|run| - 1]);
    }
  }

  /** No thread is ever stuck: it can go on, or the owner of the lock can. */
  lemma NoThreadStuck(run: seq<Event>, t: Thread)
    requires Legal(INITIAL, run) && t in After(INITIAL, run).threads
    ensures var s := After(INITIAL, run);
      exists e :: Enabled(s, e) && e.thread in s.threads && (e.thread == t || s.owner == Some(e.thread))
  {
    RunKeepsInv(run);
    var s := After(INITIAL, run);
    var u := if s.owner.Some? then s.owner.value else t;
    var p := s.threads[u];
    var e := match p
      case PauseWaiting(_, _) => Lock(u)
      case ReadyWaiting => Lock(u)
      case SnapshotWaiting => Lock(u)
      case PauseLocked(_, _) => LoadLive(u)
      case ReadyLocked => LoadLive(u)
      case SnapshotRead(_) => LoadLive(u)
      case PauseLoaded(_, _, _) => WriteAndReturn(u)
      case ReadyLoaded(_) => WriteAndReturn(u);
    assert Enabled(s, e);
  }

  lemma PrefixLegal(run: seq<Event>, k: nat)
    requires k <= |run| && Legal(INITIAL, run)
    ensures Legal(INITIAL, run[..k])
    decreases |run| - k
  {
    if k < |run| {
      PrefixLegal(run, k + 1);
      assert run[..k + 1][..k] == run[..k];
    } else {
      assert run[..k] == run;
    }
  }

  /** The state after the first `k` events. */
  ghost function StateAt(run: seq<Event>, k: nat): State
    requires k <= |run| && Legal(INITIAL, run)
  {
    PrefixLegal(run, k);
    After(INITIAL, run[..k])
  }

  lemma StateStep(run: seq<Event>, k: nat)
    requires k < |run| && Legal(INITIAL, run)
    ensures Enabled(StateAt(run, k), run[k]) && StateAt(run, k + 1) == Apply(StateAt(run, k), run[k])
  {
    PrefixLegal(run, k + 1);
    assert run[..k + 1][..k] == run[..k];
  }

  /** Liveness is lost for good, and so is the fact that a stop returned. */
  lemma {:induction false} Monotone(run: seq<Event>, i: nat, j: nat)
    requires i <= j <= |run| && Legal(INITIAL, run)
    ensures StateAt(run, j).live ==> StateAt(run, i).live
    ensures StateAt(run, i).stopReturned ==> StateAt(run, j).stopReturned
    decreases j - i
  {
    if i == j {
    } else {
      Monotone(run, i, j - 1);
      StateStep(run, j - 1);
    }
  }

  /** After any stop has returned, the process is down with reason shutdown in every later state. */
  lemma StopIsTerminal(run: seq<Event>, i: nat, j: nat)
    requires i <= j <= |run| && Legal(INITIAL, run) && StateAt(run, i).stopReturned
    ensures !StateAt(run, j).live && StateAt(run, j).reason == Some(Shutdown)
  {
    Monotone(run, i, j);
    PrefixLegal(run, j);
    RunKeepsInv(run[..j]);
  }

  // ---------- snapshots ----------

  /** Thread `t` read the reason at event `j` and loads the flag at event `k`. */
  ghost predicate SnapshotSpans(run: seq<Event>, t: Thread, j: nat, k: nat)
    requires Legal(INITIAL, run)
  {
    && j < k < |run|
    && run[j] == Lock(t) && run[k] == LoadLive(t)
    && t in StateAt(run, j).threads && StateAt(run, j).threads[t].SnapshotWaiting?
    && t in StateAt(run, k).threads
    && StateAt(run, k).threads[t] == SnapshotRead(StateAt(run, j).reason)
  }

  /** Every returning snapshot read its reason at some earlier event. */
  lemma {:induction false} SnapshotHasRead(run: seq<Event>, t: Thread, k: nat) returns (j: nat)
    requires k <= |run| && Legal(INITIAL, run)
    requires t in StateAt(run, k).threads && StateAt(run, k).threads[t].SnapshotRead?
    ensures j < k && run[j] == Lock(t)
    ensures t in StateAt(run, j).threads && StateAt(run, j).threads[t].SnapshotWaiting?
    ensures StateAt(run, k).threads[t] == SnapshotRead(StateAt(run, j).reason)
    decreases k
  {
    StateStep(run, k - 1);
    var before := StateAt(run, k - 1);
    if t in before.threads && before.threads[t].SnapshotRead? {
      j := SnapshotHasRead(run, t, k - 1);
    } else {
      j := k - 1;
    }
  }

  /**
   * A snapshot that says ready is true of one instant: when it read the reason, the reason was clear
   * and the process live, although the flag is loaded only after the lock is gone.
   */
  lemma ReadySnapshotIsTruthful(run: seq<Event>, t: Thread, k: nat) returns (j: nat)
    requires k < |run| && Legal(INITIAL, run) && run[k] == LoadLive(t)
    requires t in StateAt(run, k).threads && StateAt(run, k).threads[t].SnapshotRead?
    requires Returned(StateAt(run, k), t).ready
    ensures SnapshotSpans(run, t, j, k)
    ensures StateAt(run, j).live && StateAt(run, j).reason == None
    ensures Returned(StateAt(run, k), t) == MakeSnapshot(StateAt(run, j).live, StateAt(run, j).reason)
  {
    j := SnapshotHasRead(run, t, k);
    Monotone(run, j, k);
  }

  /** A snapshot shows the state at its reading instant exactly when the flag was not cleared meanwhile. */
  lemma SnapshotTruthfulExactly(run: seq<Event>, t: Thread, j: nat, k: nat)
    requires Legal(INITIAL, run) && SnapshotSpans(run, t, j, k)
    ensures Returned(StateAt(run, k), t) == MakeSnapshot(StateAt(run, j).live, StateAt(run, j).reason)
      <==> (StateAt(run, j).live ==> StateAt(run, k).live)
  {
    Monotone(run, j, k);
  }

  // ---------- when a snapshot was true at any instant of its call ----------

  /** The returned pair was the state's own at some instant from the first reading to the second. */
  ghost predicate HeldDuring(run: seq<Event>, t: Thread, j: nat, k: nat)
    requires Legal(INITIAL, run) && SnapshotSpans(run, t, j, k)
  {
    exists i: nat | j <= i <= k ::
      Returned(StateAt(run, k), t) == MakeSnapshot(StateAt(run, i).live, StateAt(run, i).reason)
  }

  /** What the lock owner is about to write when it loaded the flag before it was cleared. */
  ghost function StaleWrite(s: State): Option<Option<Reason>> {
    if s.owner.None? || s.owner.value !in s.threads then None
    else match s.threads[s.owner.value]
      case PauseLoaded(reason, _, true) => Some(Some(reason))
      case ReadyLoaded(true) => Some(None)
      case _ => None
  }

  /** Event `c - 1` clears the flag. */
  ghost predicate Clears(run: seq<Event>, c: nat)
    requires Legal(INITIAL, run)
  {
    0 < c <= |run| && StateAt(run, c - 1).live && !StateAt(run, c).live
  }

  lemma {:induction false} FindClearing(run: seq<Event>, j: nat, k: nat) returns (c: nat)
    requires j <= k <= |run| && Legal(INITIAL, run) && StateAt(run, j).live && !StateAt(run, k).live
    ensures j < c <= k && Clears(run, c)
    decreases k
  {
    if StateAt(run, k - 1).live {
      c := k;
    } else {
      c := FindClearing(run, j, k - 1);
    }
  }

  lemma ClearsOnce(run: seq<Event>, c: nat, other: nat)
    requires Legal(INITIAL, run) && Clears(run, c) && Clears(run, other)
    ensures c == other
  {
    if other < c { Monotone(run, other, c - 1); }
    if c < other { Monotone(run, c, other - 1); }
  }

  /**
   * The reason after the flag is cleared: unchanged while the stale owner has yet to write, and then what
   * that owner wrote, or shutdown.
   */
  lemma {:induction false} AfterClearing(run: seq<Event>, c: nat, i: nat)
    requires c <= i <= |run| && Legal(INITIAL, run) && !StateAt(run, c).live
    ensures var s, u := StateAt(run, c), StateAt(run, i);
      && !u.live
      && (StaleWrite(u).Some? ==> StaleWrite(u) == StaleWrite(s) && u.reason == s.reason)
      && (StaleWrite(u).None? ==>
           u.reason == Some(Shutdown) || u.reason == if StaleWrite(s).Some? then StaleWrite(s).value else s.reason)
    decreases i
  {
    if i == c {
    } else {
      AfterClearing(run, c, i - 1);
      PrefixLegal(run, i - 1);
      RunKeepsInv(run[..i - 1]);
      StateStep(run, i - 1);
      StepAfterClearing(StateAt(run, i - 1), run[i - 1]);
    }
  }

  lemma StepAfterClearing(s: State, e: Event)
    requires Inv(s) && Enabled(s, e) && !s.live
    ensures var u := Apply(s, e);
      && !u.live
      && (StaleWrite(u).Some? ==> StaleWrite(u) == StaleWrite(s) && u.reason == s.reason)
      && (StaleWrite(u).None? ==>
           u.reason == Some(Shutdown) || u.reason == if StaleWrite(s).Some? then StaleWrite(s).value else s.reason)
      && (StaleWrite(u).None? && StaleWrite(s).Some? ==> u.reason == StaleWrite(s).value)
  {
    assert e.thread in s.threads && HoldsLock(s.threads[e.thread]) ==> s.owner == Some(e.thread);
  }

  /** When the stale owner has written, what it wrote was the reason at that instant. */
  lemma {:induction false} StaleWritten(run: seq<Event>, c: nat, k: nat) returns (i: nat)
    requires c <= k <= |run| && Legal(INITIAL, run) && !StateAt(run, c).live
    requires StaleWrite(StateAt(run, c)).Some? && StaleWrite(StateAt(run, k)).None?
    ensures c < i <= k && StateAt(run, i).reason == StaleWrite(StateAt(run, c)).value
    decreases k
  {
    AfterClearing(run, c, k - 1);
    if StaleWrite(StateAt(run, k - 1)).None? {
      i := StaleWritten(run, c, k - 1);
    } else {
      i := k;
      PrefixLegal(run, k - 1);
      RunKeepsInv(run[..k - 1]);
      StateStep(run, k - 1);
      StepAfterClearing(StateAt(run, k - 1), run[k - 1]);
    }
  }

  /**
   * The reason read at `j` was met again with the flag down: when the flag was cleared, when it was loaded,
   * or in between because the one stale owner wrote it.
   */
  ghost predicate ReasonMet(run: seq<Event>, j: nat, c: nat, k: nat)
    requires j <= c <= k <= |run| && Legal(INITIAL, run)
  {
    var read := StateAt(run, j).reason;
    || StateAt(run, c).reason == read
    || StateAt(run, k).reason == read
    || (StaleWrite(StateAt(run, c)) == Some(read) && StaleWrite(StateAt(run, k)).None?)
  }

  /**
   * A snapshot was true at some instant of its call exactly when the flag was not cleared between its two
   * readings, or the reason it had read was met again once it was.
   */
  lemma SnapshotHeldExactly(run: seq<Event>, t: Thread, j: nat, k: nat)
    requires Legal(INITIAL, run) && SnapshotSpans(run, t, j, k)
    ensures HeldDuring(run, t, j, k) <==>
      (StateAt(run, j).live ==> StateAt(run, k).live)
      || exists c: nat :: j < c <= k && Clears(run, c) && ReasonMet(run, j, c, k)
  {
    if StateAt(run, j).live ==> StateAt(run, k).live {
      SnapshotTruthfulExactly(run, t, j, k);
    } else {
      var c := FindClearing(run, j, k);
      forall other: nat | Clears(run, other) ensures other == c {
        ClearsOnce(run, c, other);
      }
      if ReasonMet(run, j, c, k) {
        MetIsHeld(run, t, j, c, k);
      }
      if HeldDuring(run, t, j, k) {
        var i: nat :| j <= i <= k
          && Returned(StateAt(run, k), t) == MakeSnapshot(StateAt(run, i).live, StateAt(run, i).reason);
        if i < c { Monotone(run, i, c - 1); }
        HeldIsMet(run, j, c, i, k);
      }
    }
  }

  lemma MetIsHeld(run: seq<Event>, t: Thread, j: nat, c: nat, k: nat)
    requires Legal(INITIAL, run) && SnapshotSpans(run, t, j, k) && j <= c <= k && !StateAt(run, c).live
    requires ReasonMet(run, j, c, k)
    ensures HeldDuring(run, t, j, k)
  {
    var i: nat;
    if StateAt(run, c).reason == StateAt(run, j).reason {
      i := c;
    } else if StateAt(run, k).reason == StateAt(run, j).reason {
      i := k;
    } else {
      i := StaleWritten(run, c, k);
    }
    AfterClearing(run, c, k);
    AfterClearing(run, c, i);
    assert Returned(StateAt(run, k), t) == MakeSnapshot(StateAt(run, i).live, StateAt(run, i).reason);
  }

  lemma HeldIsMet(run: seq<Event>, j: nat, c: nat, i: nat, k: nat)
    requires Legal(INITIAL, run) && j <= c <= i <= k <= |run| && !StateAt(run, c).live
    requires StateAt(run, i).reason == StateAt(run, j).reason
    ensures ReasonMet(run, j, c, k)
  {
    AfterClearing(run, c, i);
    AfterClearing(run, i, k);
  }

  /** Any snapshot that reads the reason after a stop has returned reports shutdown. */
  lemma SnapshotAfterStop(run: seq<Event>, t: Thread, j: nat, k: nat)
    requires Legal(INITIAL, run) && SnapshotSpans(run, t, j, k) && StateAt(run, j).stopReturned
    ensures Returned(StateAt(run, k), t) == Snapshot(false, false, Some(Shutdown))
  {
    StopIsTerminal(run, j, j);
    StopIsTerminal(run, j, k);
  }

  ghost predicate Follows(run: seq<Event>, states: seq<State>) {
    && |states| == |run| + 1 && states[0] == INITIAL
    && forall i :: 0 <= i < |run| ==> Enabled(states[i], run[i]) && states[i + 1] == Apply(states[i], run[i])
  }

  lemma {:induction false} FollowedStates(run: seq<Event>, states: seq<State>, k: nat)
    requires Follows(run, states) && k <= |run|
    ensures Legal(INITIAL, run[..k]) && After(INITIAL, run[..k]) == states[k]
  {
    if k == 0 {
    } else {
      FollowedStates(run, states, k - 1);
      assert run[..k][..k - 1] == run[..k - 1];
    }
  }

  /**
   * Not-ready snapshots promise less. In this run the snapshot reads the starting reason, then the
   * process becomes ready, then it stops: the returned pair (not live, dependency unavailable) held
   * at no instant.
   */
  ghost const TORN_RUN := [
    CallSnapshot(1), Lock(1),
    CallReady(2), Lock(2), LoadLive(2), WriteAndReturn(2),
    CallStop(3), LoadLive(1)]

  /** The states of that run; `reader` is the snapshot after it has read the reason. */
  ghost const TORN_STATES :=
    var down, reader := Some(DependencyUnavailable), map[1 := SnapshotRead(Some(DependencyUnavailable))];
    [INITIAL,
     State(true, down, None, map[1 := SnapshotWaiting], false),
     State(true, down, None, reader, false),
     State(true, down, None, reader[2 := ReadyWaiting], false),
     State(true, down, Some(2), reader[2 := ReadyLocked], false),
     State(true, down, Some(2), reader[2 := ReadyLoaded(true)], false),
     State(true, None, None, reader, false),
     State(false, None, None, reader[3 := PauseWaiting(Shutdown, true)], false),
     State(false, None, None, map[3 := PauseWaiting(Shutdown, true)], false)]

  lemma TornRunFollows()
    ensures Follows(TORN_RUN, TORN_STATES)
  {
    var states, run := TORN_STATES, TORN_RUN;
    assert states[2] == Apply(states[1], run[1]);
    assert states[4] == Apply(states[3], run[3]);
    assert states[5] == Apply(states[4], run[4]);
    assert states[6] == Apply(states[5], run[5]);
    assert states[8] == Apply(states[7], run[7]);
  }

  lemma TornSnapshot()
    ensures Legal(INITIAL, TORN_RUN) && SnapshotSpans(TORN_RUN, 1, 1, 7)
    ensures Returned(StateAt(TORN_RUN, 7), 1) == Snapshot(false, false, Some(DependencyUnavailable))
    ensures forall i :: 0 <= i <= 8 ==>
      StateAt(TORN_RUN, i).live || StateAt(TORN_RUN, i).reason != Some(DependencyUnavailable)
  {
    TornRunFollows();
    assert TORN_RUN[..8] == TORN_RUN;
    FollowedStates(TORN_RUN, TORN_STATES, 8);
    forall i | 0 <= i <= 8 ensures StateAt(TORN_RUN, i) == TORN_STATES[i] {
      FollowedStates(TORN_RUN, TORN_STATES, i);
    }
  }
}
