/**
 * The kernel's poll notifier: a generation counter under a mutex, and a condition variable.
 * Threads change kernel state and then notify; pollers take a snapshot, evaluate their targets and
 * wait for the generation to move on.
 */
module PollNotifier {
  import opened Options

  const U64_MAX: nat := 0xFFFF_FFFF_FFFF_FFFF

  function SaturatingInc(g: nat): nat { if g < U64_MAX then g + 1 else g }

  /** The generation after `n` notifications. */
  function Saturated(n: nat): nat { if n < U64_MAX then n else U64_MAX }

  // Threads

  datatype Timeout = Forever | Zero | Deadline

  datatype Pc =
    | Free
    | Changed                                       // has changed kernel state, will notify
    | NotifyHeld | NotifyAdded | NotifyDone         // in notify, with the lock
    | SnapHeld                                      // in snapshot, with the lock
    | Observed                                      // has its snapshot
    | Evaluated                                     // found nothing ready
    | Entering(timeout: Timeout)                    // in wait_for_change, before the lock
    | Checking(timeout: Timeout)                    // first check, with the lock
    | Looping(timeout: Timeout)                     // top of a loop, with the lock
    | Parked(timeout: Timeout)                      // in the condition variable
    | Woken(timeout: Timeout)                       // out of it, before the lock
    | Rechecking(timeout: Timeout, timedOut: bool)  // after the wait, with the lock
    | Returned(changed: bool, at: nat)              // `at`: notifications by the time of the check

  /** `observed` is what snapshot returned. The other two are history: the notifications before the
      snapshot and the changes before the evaluation. */
  datatype Thread = Thread(pc: Pc, observed: nat, stamp: nat, seen: nat)

  datatype State = State(generation: nat, holder: Option<nat>, notifies: nat, changes: nat, threads: seq<Thread>)

  datatype Move =
    | Change | NotifyLock | NotifyAdd | NotifyAll | NotifyUnlock
    | SnapLock | SnapRead
    | Evaluate | Wait(timeout: Timeout) | WaitLock | Check | Loop(expired: bool)
    | Wake | Relock(timedOut: bool) | Recheck | Leave

  predicate Holds(pc: Pc) {
    pc.NotifyHeld? || pc.NotifyAdded? || pc.NotifyDone? || pc.SnapHeld? || pc.Checking? || pc.Looping? || pc.Rechecking?
  }

  predicate HasSnapshot(pc: Pc) {
    pc.Observed? || HasEvaluated(pc) || pc.Returned?
  }

  predicate HasEvaluated(pc: Pc) {
    pc.Evaluated? || pc.Entering? || pc.Checking? || pc.Looping? || pc.Parked? || pc.Woken? || pc.Rechecking?
  }

  /** A change made and not yet counted. */
  predicate Announcing(pc: Pc) { pc.Changed? || pc.NotifyHeld? }

  function WakeUp(t: Thread): Thread {
    if t.pc.Parked? then t.(pc := Woken(t.pc.timeout)) else t
  }

  predicate Enabled(s: State, t: nat, m: Move) {
    t < |s.threads| &&
    var pc := s.threads[t].pc;
    match m
    case Change => pc.Free?
    case NotifyLock => (pc.Free? || pc.Changed?) && s.holder.None?
    case NotifyAdd => pc.NotifyHeld?
    case NotifyAll => pc.NotifyAdded?
    case NotifyUnlock => pc.NotifyDone?
    case SnapLock => pc.Free? && s.holder.None?
    case SnapRead => pc.SnapHeld?
    case Evaluate => pc.Observed?
    case Wait(_) => pc.Evaluated?
    case WaitLock => pc.Entering? && s.holder.None?
    case Check => pc.Checking?
    case Loop(expired) => pc.Looping? && (expired ==> pc.timeout.Deadline?)
    case Wake => pc.Parked?
    case Relock(timedOut) => pc.Woken? && s.holder.None? && (timedOut ==> pc.timeout.Deadline?)
    case Recheck => pc.Rechecking?
    case Leave => pc.Returned? || pc.Observed?
  }

  function Go(s: State, t: nat, pc: Pc): State
    requires t < |s.threads|
  {
    s.(threads := s.threads[t := s.threads[t].(pc := pc)])
  }

  function Acquire(s: State, t: nat, pc: Pc): State
    requires t < |s.threads|
  {
    Go(s, t, pc).(holder := Some(t))
  }

  function Release(s: State, t: nat, pc: Pc): State
    requires t < |s.threads|
  {
    Go(s, t, pc).(holder := None)
  }

  /** The lock is dropped as the function returns. */
  function Return(s: State, t: nat, changed: bool): State
    requires t < |s.threads|
  {
    Release(s, t, Returned(changed, s.notifies))
  }

  function DoCheck(s: State, t: nat, timeout: Timeout): State
    requires t < |s.threads|
  {
    var differs := s.generation != s.threads[t].observed;
    if differs then Return(s, t, true)
    else if timeout.Zero? then Return(s, t, differs)
    else Go(s, t, Looping(timeout))
  }

  function DoLoop(s: State, t: nat, timeout: Timeout, expired: bool): State
    requires t < |s.threads|
  {
    var differs := s.generation != s.threads[t].observed;
    if timeout.Forever? then
      if differs then Return(s, t, true) else Release(s, t, Parked(timeout))
    else if expired then Return(s, t, differs)
    else Release(s, t, Parked(timeout))
  }

  function DoRecheck(s: State, t: nat, timeout: Timeout, timedOut: bool): State
    requires t < |s.threads|
  {
    if timeout.Forever? then Go(s, t, Looping(timeout))
    else if s.generation != s.threads[t].observed then Return(s, t, true)
    else if timedOut then Return(s, t, false)
    else Go(s, t, Looping(timeout))
  }

  function Step(s: State, t: nat, m: Move): State
    requires Enabled(s, t, m)
  {
    var th := s.threads[t];
    match m
    case Change => Go(s, t, Changed).(changes := s.changes + 1)
    case NotifyLock => Acquire(s, t, NotifyHeld)
    case NotifyAdd => Go(s, t, NotifyAdded).(generation := SaturatingInc(s.generation), notifies := s.notifies + 1)
    case NotifyAll =>
      var woken := seq(|s.threads|, k requires 0 <= k < |s.threads| => WakeUp(s.threads[k]));
      s.(threads := woken[t := th.(pc := NotifyDone)])
    case NotifyUnlock => Release(s, t, Free)
    case SnapLock => Acquire(s, t, SnapHeld)
    case SnapRead =>
      s.(threads := s.threads[t := Thread(Observed, s.generation, s.notifies, s.changes)], holder := None)
    case Evaluate => s.(threads := s.threads[t := th.(pc := Evaluated, seen := s.changes)])
    case Wait(timeout) => Go(s, t, Entering(timeout))
    case WaitLock => Acquire(s, t, Checking(th.pc.timeout))
    case Check => DoCheck(s, t, th.pc.timeout)
    case Loop(expired) => DoLoop(s, t, th.pc.timeout, expired)
    case Wake => Go(s, t, Woken(th.pc.timeout))
    case Relock(timedOut) => Acquire(s, t, Rechecking(th.pc.timeout, timedOut))
    case Recheck => DoRecheck(s, t, th.pc.timeout, th.pc.timedOut)
    case Leave => Go(s, t, Free)
  }

  // What every step keeps

  /** The lock holder is the one thread inside a critical section. */
  ghost predicate Exclusive(s: State) {
    forall k | 0 <= k < |s.threads| :: Holds(s.threads[k].pc) <==> s.holder == Some(k)
  }

  /** A notification has been counted whose `notify_all` is still to come. */
  predicate Adding(s: State) {
    s.holder.Some? && s.holder.value < |s.threads| && s.threads[s.holder.value].pc.NotifyAdded?
  }

  predicate SnapshotOk(s: State, th: Thread) {
    HasSnapshot(th.pc) ==> th.stamp <= s.notifies && th.observed == Saturated(th.stamp)
  }

  predicate SleepOk(s: State, th: Thread) {
    && (th.pc.Parked? ==> s.generation == th.observed || Adding(s))
    && (th.pc == Looping(Deadline) ==> s.generation == th.observed)
  }

  predicate ZeroNeverWaits(pc: Pc) {
    pc.Looping? || pc.Parked? || pc.Woken? || pc.Rechecking? ==> !pc.timeout.Zero?
  }

  /** The answer is right for the moment of the check it was given on. */
  predicate AnswerOk(s: State, th: Thread) {
    th.pc.Returned? ==> th.pc.at <= s.notifies && (th.pc.changed <==> th.stamp < th.pc.at && th.stamp < U64_MAX)
  }

  ghost predicate ChangesOk(s: State, th: Thread) {
    HasEvaluated(th.pc) && th.seen < s.changes ==>
      s.notifies > th.stamp || exists j :: 0 <= j < |s.threads| && Announcing(s.threads[j].pc)
  }

  ghost predicate ThreadOk(s: State, k: nat)
    requires k < |s.threads|
  {
    var th := s.threads[k];
    SnapshotOk(s, th) && SleepOk(s, th) && AnswerOk(s, th) && ChangesOk(s, th) && ZeroNeverWaits(th.pc)
  }

  ghost predicate Inv(s: State) {
    && Exclusive(s)
    && s.generation == Saturated(s.notifies)
    && forall k | 0 <= k < |s.threads| :: ThreadOk(s, k)
  }

  lemma StepExclusive(s: State, t: nat, m: Move)
    requires Inv(s) && Enabled(s, t, m)
    ensures Exclusive(Step(s, t, m))
  {
  }

  lemma SnapshotStep(s: State, t: nat, m: Move, k: nat)
    requires Inv(s) && Enabled(s, t, m) && k < |s.threads|
    ensures SnapshotOk(Step(s, t, m), Step(s, t, m).threads[k]) && ZeroNeverWaits(Step(s, t, m).threads[k].pc)
  {
    assert ThreadOk(s, k);
  }

  lemma SleepStep(s: State, t: nat, m: Move, k: nat)
    requires Inv(s) && Enabled(s, t, m) && k < |s.threads|
    ensures SleepOk(Step(s, t, m), Step(s, t, m).threads[k])
  {
    assert ThreadOk(s, k) && ThreadOk(s, t);
    assert Holds(s.threads[k].pc) <==> s.holder == Some(k);
    assert Holds(s.threads[t].pc) <==> s.holder == Some(t);
  }

  lemma AnswerStep(s: State, t: nat, m: Move, k: nat)
    requires Inv(s) && Enabled(s, t, m) && k < |s.threads|
    ensures AnswerOk(Step(s, t, m), Step(s, t, m).threads[k])
  {
    assert ThreadOk(s, k);
  }

  lemma ChangesStep(s: State, t: nat, m: Move, k: nat)
    requires Inv(s) && Enabled(s, t, m) && k < |s.threads|
    ensures ChangesOk(Step(s, t, m), Step(s, t, m).threads[k])
  {
    assert ThreadOk(s, k);
    var next := Step(s, t, m);
    var th := next.threads[k];
    if HasEvaluated(th.pc) && th.seen < next.changes && next.notifies <= th.stamp {
      if m.Change? {
        assert Announcing(next.threads[t].pc);
      } else {
        var j :| 0 <= j < |s.threads| && Announcing(s.threads[j].pc);
        assert Announcing(next.threads[j].pc);
      }
    }
  }

  lemma StepInv(s: State, t: nat, m: Move)
    requires Inv(s) && Enabled(s, t, m)
    ensures Inv(Step(s, t, m))
  {
    StepExclusive(s, t, m);
    var next := Step(s, t, m);
    forall k | 0 <= k < |next.threads| ensures ThreadOk(next, k) {
      SnapshotStep(s, t, m, k);
      SleepStep(s, t, m, k);
      AnswerStep(s, t, m, k);
      ChangesStep(s, t, m, k);
    }
  }

  // Runs

  datatype Action = Action(thread: nat, move: Move)

  predicate IsRun(s: State, run: seq<Action>)
    decreases run
  {
    run == [] || (Enabled(s, run[0].thread, run[0].move) && IsRun(Step(s, run[0].thread, run[0].move), run[1..]))
  }

  function After(s: State, run: seq<Action>): State
    requires IsRun(s, run)
    decreases run
  {
    if run == [] then s else After(Step(s, run[0].thread, run[0].move), run[1..])
  }

  function Start(n: nat): State {
    State(0, None, 0, 0, seq(n, _ => Thread(Free, 0, 0, 0)))
  }

  /** The states of all runs of `n` threads. */
  ghost predicate Reached(s: State) {
    exists n: nat, run :: IsRun(Start(n), run) && After(Start(n), run) == s
  }

  lemma {:induction false} RunInv(s: State, run: seq<Action>)
    requires Inv(s) && IsRun(s, run)
    ensures Inv(After(s, run))
    decreases run
  {
    if run != [] {
      StepInv(s, run[0].thread, run[0].move);
      RunInv(Step(s, run[0].thread, run[0].move), run[1..]);
    }
  }

  lemma ReachedInv(s: State)
    requires Reached(s)
    ensures Inv(s)
  {
    var n: nat, run :| IsRun(Start(n), run) && After(Start(n), run) == s;
    RunInv(Start(n), run);
  }

  lemma {:induction false} OneMore(s: State, run: seq<Action>, a: Action)
    requires IsRun(s, run) && Enabled(After(s, run), a.thread, a.move)
    ensures IsRun(s, run + [a]) && After(s, run + [a]) == Step(After(s, run), a.thread, a.move)
    decreases run
  {
    if run == [] {
      assert run + [a] == [a] && [a][1..] == [];
      assert IsRun(Step(s, a.thread, a.move), []);
    } else {
      OneMore(Step(s, run[0].thread, run[0].move), run[1..], a);
      assert (run + [a])[1..] == run[1..] + [a];
    }
  }

  lemma StepReached(s: State, t: nat, m: Move, next: State)
    requires Reached(s) && Enabled(s, t, m) && next == Step(s, t, m)
    ensures Reached(next)
  {
    var n: nat, run :| IsRun(Start(n), run) && After(Start(n), run) == s;
    OneMore(Start(n), run, Action(t, m));
  }

  // The promises

  /** Two threads are never inside the lock at once. */
  lemma MutualExclusion(s: State, j: nat, k: nat)
    requires Reached(s) && j < |s.threads| && k < |s.threads| && Holds(s.threads[j].pc) && Holds(s.threads[k].pc)
    ensures j == k
  {
    ReachedInv(s);
  }

  /** No thread sleeps through a notification: outside the short time between the count and
      `notify_all`, a parked thread took its snapshot after the last notification, as long as the
      generation had not yet saturated when it did. */
  lemma NoLostWakeup(s: State, k: nat)
    requires Reached(s) && !Adding(s) && k < |s.threads| && s.threads[k].pc.Parked?
    ensures s.generation == s.threads[k].observed
    ensures s.threads[k].stamp < U64_MAX ==> s.threads[k].stamp == s.notifies
  {
    ReachedInv(s);
    assert ThreadOk(s, k);
  }

  /** Nor through a change: with every change announced, a parked poller has evaluated its targets
      after the last one. */
  lemma ParkedPollerIsCurrent(s: State, k: nat)
    requires Reached(s) && !Adding(s) && (forall j | 0 <= j < |s.threads| :: !Announcing(s.threads[j].pc))
    requires k < |s.threads| && s.threads[k].pc.Parked? && s.threads[k].stamp < U64_MAX
    ensures s.threads[k].seen >= s.changes
  {
    ReachedInv(s);
    assert ThreadOk(s, k);
  }

  /** On every path the call answers true exactly when a notification came between the snapshot and
      the check, provided the generation could still move. */
  lemma AnswerExact(s: State, k: nat)
    requires Reached(s) && k < |s.threads| && s.threads[k].pc.Returned?
    ensures s.threads[k].stamp <= s.notifies && s.threads[k].pc.at <= s.notifies
    ensures s.threads[k].pc.changed <==> s.threads[k].stamp < s.threads[k].pc.at && s.threads[k].stamp < U64_MAX
    ensures s.generation < U64_MAX ==> (s.threads[k].pc.changed <==> s.threads[k].stamp < s.threads[k].pc.at)
  {
    ReachedInv(s);
    assert ThreadOk(s, k);
  }

  // Saturation

  const IDLE := Thread(Free, 0, 0, 0)

  /** Two idle threads, after any number of notifications. */
  lemma {:induction false} Notified(n: nat)
    ensures Reached(State(Saturated(n), None, n, 0, [IDLE, IDLE]))
  {
    if n == 0 {
      assert Start(2) == State(0, None, 0, 0, [IDLE, IDLE]);
      assert IsRun(Start(2), []) && After(Start(2), []) == Start(2);
    } else {
      Notified(n - 1);
      var g := Saturated(n - 1);
      var s0 := State(g, None, n - 1, 0, [IDLE, IDLE]);
      var s1 := State(g, Some(1), n - 1, 0, [IDLE, Thread(NotifyHeld, 0, 0, 0)]);
      StepReached(s0, 1, NotifyLock, s1);
      var s2 := State(Saturated(n), Some(1), n, 0, [IDLE, Thread(NotifyAdded, 0, 0, 0)]);
      StepReached(s1, 1, NotifyAdd, s2);
      var s3 := State(Saturated(n), Some(1), n, 0, [IDLE, Thread(NotifyDone, 0, 0, 0)]);
      StepReached(s2, 1, NotifyAll, s3);
      StepReached(s3, 1, NotifyUnlock, State(Saturated(n), None, n, 0, [IDLE, IDLE]));
    }
  }

  lemma PollerParks(n: nat, g: nat, next: State)
    requires g == Saturated(n) && next == State(g, None, n, 0, [Thread(Parked(Forever), g, n, 0), IDLE])
    ensures Reached(next)
  {
    hide Reached, Saturated;
    Notified(n);
    var s0 := State(g, None, n, 0, [IDLE, IDLE]);
    var s1 := State(g, Some(0), n, 0, [Thread(SnapHeld, 0, 0, 0), IDLE]);
    StepReached(s0, 0, SnapLock, s1);
    var s2 := State(g, None, n, 0, [Thread(Observed, g, n, 0), IDLE]);
    StepReached(s1, 0, SnapRead, s2);
    var s3 := State(g, None, n, 0, [Thread(Evaluated, g, n, 0), IDLE]);
    StepReached(s2, 0, Evaluate, s3);
    var s4 := State(g, None, n, 0, [Thread(Entering(Forever), g, n, 0), IDLE]);
    StepReached(s3, 0, Wait(Forever), s4);
    var s5 := State(g, Some(0), n, 0, [Thread(Checking(Forever), g, n, 0), IDLE]);
    StepReached(s4, 0, WaitLock, s5);
    var s6 := State(g, Some(0), n, 0, [Thread(Looping(Forever), g, n, 0), IDLE]);
    StepReached(s5, 0, Check, s6);
    StepReached(s6, 0, Loop(false), next);
  }

  lemma OtherNotifies(n: nat, g: nat, th: Thread, next: State)
    requires g == Saturated(n) == Saturated(n + 1) && th == Thread(Parked(Forever), g, n, 0)
    requires next == State(g, None, n + 1, 1, [th.(pc := Woken(Forever)), IDLE])
    ensures Reached(next)
  {
    var s0 := State(g, None, n, 0, [th, IDLE]);
    PollerParks(n, g, s0);
    var s1 := State(g, None, n, 1, [th, Thread(Changed, 0, 0, 0)]);
    StepReached(s0, 1, Change, s1);
    var s2 := State(g, Some(1), n, 1, [th, Thread(NotifyHeld, 0, 0, 0)]);
    StepReached(s1, 1, NotifyLock, s2);
    var s3 := State(g, Some(1), n + 1, 1, [th, Thread(NotifyAdded, 0, 0, 0)]);
    StepReached(s2, 1, NotifyAdd, s3);
    var s4 := State(g, Some(1), n + 1, 1, [th.(pc := Woken(Forever)), Thread(NotifyDone, 0, 0, 0)]);
    StepReached(s3, 1, NotifyAll, s4);
    StepReached(s4, 1, NotifyUnlock, next);
  }

  /** Once the generation has saturated, a poller is woken, sees no difference and parks again: the
      change it missed stays missed. */
  lemma SaturationLosesWakeup() returns (s: State)
    ensures Reached(s) && s.holder.None? && forall j | 0 <= j < |s.threads| :: !Announcing(s.threads[j].pc)
    ensures |s.threads| == 2 && s.threads[0].pc == Parked(Forever)
    ensures s.threads[0].stamp == U64_MAX < s.notifies && s.threads[0].seen < s.changes
  {
    var g, n := U64_MAX, U64_MAX;
    var th := Thread(Parked(Forever), g, n, 0);
    var s0 := State(g, None, n + 1, 1, [th.(pc := Woken(Forever)), IDLE]);
    OtherNotifies(n, g, th, s0);
    var s1 := State(g, Some(0), n + 1, 1, [th.(pc := Rechecking(Forever, false)), IDLE]);
    StepReached(s0, 0, Relock(false), s1);
    var s2 := State(g, Some(0), n + 1, 1, [th.(pc := Looping(Forever)), IDLE]);
    StepReached(s1, 0, Recheck, s2);
    s := State(g, None, n + 1, 1, [th, IDLE]);
    StepReached(s2, 0, Loop(false), s);
  }

  // The code itself, with the other threads as input

  /** One stay in the condition variable: the clock before it, the notifications during it, and what
      the timed wait reports after it. */
  datatype Stay = Stay(expired: bool, notified: nat, timedOut: bool)

  class Notifier {
    var generation: nat
    ghost var notifies: nat

    ghost predicate Valid()
      reads this
    {
      generation == Saturated(notifies)
    }

    constructor ()
      ensures Valid() && notifies == 0
    {
      generation, notifies := 0, 0;
    }

    method Notify()
      requires Valid()
      modifies this
      ensures Valid() && notifies == old(notifies) + 1
    {
      generation := SaturatingInc(generation);
      notifies := notifies + 1;
    }

    method Snapshot() returns (g: nat)
      requires Valid()
      ensures g == Saturated(notifies)
    {
      return generation;
    }

    /** What other threads do while this one is parked. */
    method Others(count: nat)
      requires Valid()
      modifies this
      ensures Valid() && notifies == old(notifies) + count
    {
      for i := 0 to count
        invariant Valid() && notifies == old(notifies) + i
      {
        Notify();
      }
    }

    /** `wait_for_change`. No result: still parked when the stays run out. */
    method WaitForChange(observed: nat, timeout: Timeout, stays: seq<Stay>, ghost stamp: nat) returns (r: Option<bool>)
      requires Valid() && stamp <= notifies && observed == Saturated(stamp)
      modifies this
      ensures Valid() && old(notifies) <= notifies
      ensures r.Some? ==> (r.value <==> stamp < notifies && stamp < U64_MAX)
      ensures r.None? ==> !timeout.Zero? && (stamp == notifies || stamp >= U64_MAX)
    {
      if generation != observed {
        return Some(true);
      }
      var i := 0;
      match timeout
      case Forever =>
        while generation == observed
          invariant Valid() && old(notifies) <= notifies && i <= |stays|
          decreases |stays| - i
        {
          if i == |stays| {
            return None;
          }
          Others(stays[i].notified);
          i := i + 1;
        }
        return Some(true);
      case Zero => return Some(generation != observed);
      case Deadline =>
        while i < |stays|
          invariant Valid() && old(notifies) <= notifies && i <= |stays| && generation == observed
        {
          if stays[i].expired {
            return Some(generation != observed);
          }
          Others(stays[i].notified);
          if generation != observed {
            return Some(true);
          }
          if stays[i].timedOut {
            return Some(false);
          }
          i := i + 1;
        }
        return None;
    }
  }
}
