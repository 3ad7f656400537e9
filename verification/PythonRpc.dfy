/**
 * The pending slot of a Python execution's file-system calls. The event loop fills it, the host's
 * replies empty it, and one timer thread per call may find its call still there and expire it.
 */
module PythonRpc {

  /** What the lock guards. */
  datatype Slot = Empty | Pending(id: nat) | TimedOut(id: nat)

  datatype Resolution = WasPending | WasTimedOut | Missing

  function Claim(slot: Slot, id: nat): (Slot, Resolution) {
    if slot == Pending(id) then (Empty, WasPending)
    else if slot == TimedOut(id) then (slot, WasTimedOut)
    else (slot, Missing)
  }

  function Expire(slot: Slot, id: nat): Slot {
    if slot == Pending(id) then TimedOut(id) else slot
  }

  // Interleavings

  /** The event loop and the responders share one thread: they take the execution mutably. */
  datatype Host = Idle | Spawning(id: nat) | Forwarding(id: nat)

  datatype Timer = Sleeping(id: nat) | Expired(id: nat) | Finished(id: nat)

  datatype Event =
    | Requested(id: nat)
    | Superseded(id: nat)    // its slot was taken by a later request while still pending
    | Cleared(id: nat)       // a reply found it pending
    | Missed(id: nat)        // a reply found the slot empty or taken by another request
    | Rejected(id: nat)      // a reply found it timed out
    | Forwarded(id: nat)     // a reply went to the guest
    | Marked(id: nat)        // its timer found it pending
    | Lapsed(id: nat)        // its timer found something else
    | TimeoutSent(id: nat)   // the timeout error went to the guest

  datatype State = State(slot: Slot, host: Host, timers: seq<Timer>, log: seq<Event>)

  datatype Action = Request(id: nat) | Spawn | Reply(id: nat) | Forward | Fire(k: nat) | Report(k: nat)

  const START := State(Empty, Idle, [], [])

  predicate Enabled(s: State, a: Action) {
    match a
    case Request(_) => s.host.Idle?
    case Spawn => s.host.Spawning?
    case Reply(_) => s.host.Idle?
    case Forward => s.host.Forwarding?
    case Fire(k) => k < |s.timers| && s.timers[k].Sleeping?
    case Report(k) => k < |s.timers| && s.timers[k].Expired?
  }

  function DoRequest(s: State, id: nat): State {
    s.(slot := Pending(id), host := Spawning(id),
       log := s.log + (if s.slot.Pending? then [Superseded(s.slot.id)] else []) + [Requested(id)])
  }

  /** How a reply fares. */
  function Outcome(s: State, id: nat): Event {
    match Claim(s.slot, id).1
    case WasPending => Cleared(id)
    case WasTimedOut => Rejected(id)
    case Missing => Missed(id)
  }

  function DoReply(s: State, id: nat): State {
    match Claim(s.slot, id)
    case (slot, WasPending) => s.(slot := slot, host := Forwarding(id), log := s.log + [Cleared(id)])
    case (slot, WasTimedOut) => s.(slot := slot, log := s.log + [Rejected(id)])
    case (slot, Missing) => s.(slot := slot, host := Forwarding(id), log := s.log + [Missed(id)])
  }

  function DoFire(s: State, k: nat): State
    requires k < |s.timers|
  {
    var id := s.timers[k].id;
    if s.slot == Pending(id) then
      s.(slot := Expire(s.slot, id), timers := s.timers[k := Expired(id)], log := s.log + [Marked(id)])
    else
      s.(slot := Expire(s.slot, id), timers := s.timers[k := Finished(id)], log := s.log + [Lapsed(id)])
  }

  function Step(s: State, a: Action): State
    requires Enabled(s, a)
  {
    match a
    case Request(id) => DoRequest(s, id)
    case Spawn => s.(host := Idle, timers := s.timers + [Sleeping(s.host.id)])
    case Reply(id) => DoReply(s, id)
    case Forward => s.(host := Idle, log := s.log + [Forwarded(s.host.id)])
    case Fire(k) => DoFire(s, k)
    case Report(k) =>
      s.(timers := s.timers[k := Finished(s.timers[k].id)], log := s.log + [TimeoutSent(s.timers[k].id)])
  }

  predicate IsRun(s: State, run: seq<Action>)
    decreases run
  {
    run == [] || (Enabled(s, run[0]) && IsRun(Step(s, run[0]), run[1..]))
  }

  function After(s: State, run: seq<Action>): State
    requires IsRun(s, run)
    decreases run
  {
    if run == [] then s else After(Step(s, run[0]), run[1..])
  }

  // Counting

  function Count<E(==)>(es: seq<E>, x: E): nat {
    if es == [] then 0 else Count(es[..|es| - 1], x) + if es[|es| - 1] == x then 1 else 0
  }

  function N(s: State, e: Event): nat { Count(s.log, e) }

  function Held(s: State, id: nat): nat { if s.slot == Pending(id) then 1 else 0 }

  function InFlight(s: State, id: nat): nat { if s.host == Forwarding(id) then 1 else 0 }

  function ToSpawn(s: State, id: nat): nat { if s.host == Spawning(id) then 1 else 0 }

  function T(s: State, t: Timer): nat { Count(s.timers, t) }

  /** Every request is still held, or was cleared by a reply, or marked by its timer, or superseded. */
  predicate RequestsBalance(s: State, id: nat) {
    N(s, Requested(id)) == Held(s, id) + N(s, Cleared(id)) + N(s, Marked(id)) + N(s, Superseded(id))
  }

  /** Every reply let through is on its way or forwarded. */
  predicate RepliesBalance(s: State, id: nat) {
    N(s, Cleared(id)) + N(s, Missed(id)) == InFlight(s, id) + N(s, Forwarded(id))
  }

  /** Every request has one timer, and every mark is reported once. */
  predicate TimersBalance(s: State, id: nat) {
    && N(s, Requested(id)) == ToSpawn(s, id) + T(s, Sleeping(id)) + T(s, Expired(id)) + T(s, Finished(id))
    && N(s, Marked(id)) == T(s, Expired(id)) + N(s, TimeoutSent(id))
  }

  /** A timer that has fired has found its request gone, if ids are never reused. */
  predicate TimersSpent(s: State, id: nat) {
    N(s, Requested(id)) <= 1 && T(s, Expired(id)) + T(s, Finished(id)) > 0 ==> Held(s, id) == 0
  }

  predicate Balanced(s: State, id: nat) {
    RequestsBalance(s, id) && RepliesBalance(s, id) && TimersBalance(s, id) && TimersSpent(s, id)
  }

  lemma Appended<E>(log: seq<E>, e: E)
    ensures forall x :: Count(log + [e], x) == Count(log, x) + if x == e then 1 else 0
  {
    assert (log + [e])[..|log|] == log;
  }

  lemma {:induction false} CountReplaced<E>(ts: seq<E>, k: nat, t: E, x: E)
    requires k < |ts|
    ensures Count(ts[k := t], x) + (if x == ts[k] then 1 else 0) == Count(ts, x) + if x == t then 1 else 0
  {
    var n := |ts| - 1;
    if k == n {
      assert ts[k := t][..n] == ts[..n];
    } else {
      CountReplaced(ts[..n], k, t, x);
      assert ts[k := t][..n] == ts[..n][k := t];
    }
  }

  lemma TimerReplaced(ts: seq<Timer>, k: nat, t: Timer, id: nat)
    requires k < |ts|
    ensures Count(ts[k := t], Sleeping(id)) + (if ts[k] == Sleeping(id) then 1 else 0)
            == Count(ts, Sleeping(id)) + if t == Sleeping(id) then 1 else 0
    ensures Count(ts[k := t], Expired(id)) + (if ts[k] == Expired(id) then 1 else 0)
            == Count(ts, Expired(id)) + if t == Expired(id) then 1 else 0
    ensures Count(ts[k := t], Finished(id)) + (if ts[k] == Finished(id) then 1 else 0)
            == Count(ts, Finished(id)) + if t == Finished(id) then 1 else 0
  {
    CountReplaced(ts, k, t, Sleeping(id));
    CountReplaced(ts, k, t, Expired(id));
    CountReplaced(ts, k, t, Finished(id));
  }

  lemma RequestBalanced(s: State, r: nat, id: nat)
    requires s.host.Idle? && Balanced(s, id)
    ensures Balanced(DoRequest(s, r), id)
  {
    hide Count;
    var log := s.log + if s.slot.Pending? then [Superseded(s.slot.id)] else [];
    if s.slot.Pending? {
      Appended(s.log, Superseded(s.slot.id));
    } else {
      assert log == s.log;
    }
    Appended(log, Requested(r));
  }

  lemma ReplyBalanced(s: State, r: nat, id: nat)
    requires s.host.Idle? && Balanced(s, id)
    ensures Balanced(DoReply(s, r), id)
  {
    hide Count;
    match Claim(s.slot, r).1 {
      case WasPending => Appended(s.log, Cleared(r));
      case WasTimedOut => Appended(s.log, Rejected(r));
      case Missing => Appended(s.log, Missed(r));
    }
  }

  lemma MarkBalanced(s: State, k: nat, r: nat, id: nat)
    requires Enabled(s, Fire(k)) && Balanced(s, id) && s.timers[k] == Sleeping(r) && s.slot == Pending(r)
    ensures Balanced(State(TimedOut(r), s.host, s.timers[k := Expired(r)], s.log + [Marked(r)]), id)
  {
    hide Count;
    Appended(s.log, Marked(r));
    TimerReplaced(s.timers, k, Expired(r), id);
  }

  lemma LapseBalanced(s: State, k: nat, r: nat, id: nat)
    requires Enabled(s, Fire(k)) && Balanced(s, id) && s.timers[k] == Sleeping(r) && s.slot != Pending(r)
    ensures Balanced(State(s.slot, s.host, s.timers[k := Finished(r)], s.log + [Lapsed(r)]), id)
  {
    hide Count;
    Appended(s.log, Lapsed(r));
    TimerReplaced(s.timers, k, Finished(r), id);
  }

  lemma FireBalanced(s: State, k: nat, id: nat)
    requires Enabled(s, Fire(k)) && Balanced(s, id)
    ensures Balanced(DoFire(s, k), id)
  {
    var r := s.timers[k].id;
    if s.slot == Pending(r) {
      MarkBalanced(s, k, r, id);
    } else {
      LapseBalanced(s, k, r, id);
    }
  }

  lemma StepBalanced(s: State, a: Action, id: nat)
    requires Enabled(s, a) && Balanced(s, id)
    ensures Balanced(Step(s, a), id)
  {
    hide Count, DoRequest, DoReply, DoFire;
    match a
    case Request(r) => RequestBalanced(s, r, id);
    case Spawn => Appended(s.timers, Sleeping(s.host.id));
    case Reply(r) => ReplyBalanced(s, r, id);
    case Forward => Appended(s.log, Forwarded(s.host.id));
    case Fire(k) => FireBalanced(s, k, id);
    case Report(k) =>
      Appended(s.log, TimeoutSent(s.timers[k].id));
      TimerReplaced(s.timers, k, Finished(s.timers[k].id), id);
  }

  // The slot is what the log says it is

  function SlotOf(log: seq<Event>): Slot {
    if log == [] then Empty
    else
      match log[|log| - 1]
      case Requested(id) => Pending(id)
      case Cleared(_) => Empty
      case Marked(id) => TimedOut(id)
      case _ => SlotOf(log[..|log| - 1])
  }

  /** The reply on its way to the guest, if any. */
  function Letting(log: seq<Event>): Host {
    if log == [] then Idle
    else
      match log[|log| - 1]
      case Requested(_) => Idle
      case Cleared(id) => Forwarding(id)
      case Missed(id) => Forwarding(id)
      case Rejected(_) => Idle
      case Forwarded(_) => Idle
      case _ => Letting(log[..|log| - 1])
  }

  /** What must have held when the event was logged. */
  predicate Justified(before: seq<Event>, e: Event) {
    match e
    case Superseded(id) => SlotOf(before) == Pending(id)
    case Cleared(id) => SlotOf(before) == Pending(id)
    case Missed(id) => SlotOf(before) != Pending(id) && SlotOf(before) != TimedOut(id)
    case Rejected(id) => SlotOf(before) == TimedOut(id)
    case Forwarded(id) => Letting(before) == Forwarding(id)
    case Marked(id) => SlotOf(before) == Pending(id)
    case Lapsed(id) => SlotOf(before) != Pending(id)
    case _ => true
  }

  predicate AllJustified(log: seq<Event>) {
    log == [] || (AllJustified(log[..|log| - 1]) && Justified(log[..|log| - 1], log[|log| - 1]))
  }

  predicate Told(s: State) {
    && s.slot == SlotOf(s.log)
    && (s.host.Forwarding? <==> Letting(s.log).Forwarding?) && (s.host.Forwarding? ==> s.host == Letting(s.log))
    && AllJustified(s.log)
  }

  lemma Tell(log: seq<Event>, e: Event)
    requires AllJustified(log) && Justified(log, e)
    ensures AllJustified(log + [e])
    ensures SlotOf(log + [e]) == match e {
              case Requested(id) => Pending(id)
              case Cleared(_) => Empty
              case Marked(id) => TimedOut(id)
              case _ => SlotOf(log)
            }
    ensures Letting(log + [e]) == match e {
              case Cleared(id) => Forwarding(id)
              case Missed(id) => Forwarding(id)
              case Requested(_) => Idle
              case Rejected(_) => Idle
              case Forwarded(_) => Idle
              case _ => Letting(log)
            }
  {
    assert (log + [e])[..|log|] == log;
  }

  lemma StepTold(s: State, a: Action)
    requires Enabled(s, a) && Told(s)
    ensures Told(Step(s, a))
  {
    match a
    case Request(r) =>
      if s.slot.Pending? {
        Tell(s.log, Superseded(s.slot.id));
        Tell(s.log + [Superseded(s.slot.id)], Requested(r));
      } else {
        assert s.log + [] == s.log;
        Tell(s.log, Requested(r));
      }
    case Spawn =>
    case Reply(r) =>
      Tell(s.log, Outcome(s, r));
    case Forward => Tell(s.log, Forwarded(s.host.id));
    case Fire(k) =>
      var r := s.timers[k].id;
      Tell(s.log, if s.slot == Pending(r) then Marked(r) else Lapsed(r));
    case Report(k) => Tell(s.log, TimeoutSent(s.timers[k].id));
  }

  ghost predicate Sound(s: State) {
    Told(s) && forall id :: Balanced(s, id)
  }

  /** Both hold after every run, whatever the order of the steps. */
  lemma {:induction false} RunSound(s: State, run: seq<Action>)
    requires Sound(s) && IsRun(s, run)
    ensures Sound(After(s, run))
    decreases run
  {
    if run != [] {
      StepTold(s, run[0]);
      forall id ensures Balanced(Step(s, run[0]), id) {
        StepBalanced(s, run[0], id);
      }
      RunSound(Step(s, run[0]), run[1..]);
    }
  }

  /** The states of all runs from the start. */
  ghost predicate Reached(s: State) {
    exists run :: IsRun(START, run) && After(START, run) == s
  }

  lemma ReachedSound(s: State)
    requires Reached(s)
    ensures Sound(s)
  {
    var run :| IsRun(START, run) && After(START, run) == s;
    RunSound(START, run);
  }

  lemma {:induction false} OneMore(s: State, run: seq<Action>, a: Action)
    requires IsRun(s, run) && Enabled(After(s, run), a)
    ensures IsRun(s, run + [a]) && After(s, run + [a]) == Step(After(s, run), a)
    decreases run
  {
    if run == [] {
      assert run + [a] == [a] && [a][1..] == [];
      assert IsRun(Step(s, a), []);
    } else {
      OneMore(Step(s, run[0]), run[1..], a);
      assert (run + [a])[1..] == run[1..] + [a];
    }
  }

  lemma StepReached(s: State, a: Action, next: State)
    requires Reached(s) && Enabled(s, a) && next == Step(s, a)
    ensures Reached(next)
  {
    var run :| IsRun(START, run) && After(START, run) == s;
    OneMore(START, run, a);
  }

  // One winner

  lemma {:induction false} CountAtLeast<E>(es: seq<E>, i: nat, x: E)
    requires i < |es| && es[i] == x
    ensures Count(es, x) >= 1
  {
    if i < |es| - 1 {
      CountAtLeast(es[..|es| - 1], i, x);
    }
  }

  lemma {:induction false} CountTwo<E>(es: seq<E>, i: nat, j: nat, x: E)
    requires i < j < |es| && es[i] == x && es[j] == x
    ensures Count(es, x) >= 2
  {
    if j < |es| - 1 {
      CountTwo(es[..|es| - 1], i, j, x);
    } else {
      CountAtLeast(es[..j], i, x);
    }
  }

  /** Of a request made once, at most one of these ever happens, and only once: a reply clears it,
      its timer expires it, a later request takes its slot. */
  lemma OneWinner(s: State, id: nat)
    requires Reached(s) && N(s, Requested(id)) <= 1
    ensures N(s, Cleared(id)) + N(s, Marked(id)) + N(s, Superseded(id)) <= 1
  {
    ReachedSound(s);
    assert Balanced(s, id);
  }

  // Replies after the timeout

  predicate RequestAfter(log: seq<Event>, i: nat) {
    exists m :: i < m < |log| && log[m].Requested?
  }

  lemma {:induction false} StaysTimedOut(log: seq<Event>, i: nat, id: nat)
    requires AllJustified(log) && i < |log| && log[i] == Marked(id) && !RequestAfter(log, i)
    ensures SlotOf(log) == TimedOut(id)
  {
    var front := log[..|log| - 1];
    if i < |front| {
      assert forall m | i < m < |front| :: front[m] == log[m];
      StaysTimedOut(front, i, id);
      assert !log[|log| - 1].Requested?;
    }
  }

  lemma {:induction false} TimedOutWhy(log: seq<Event>, id: nat) returns (i: nat)
    requires SlotOf(log) == TimedOut(id)
    ensures i < |log| && log[i] == Marked(id) && !RequestAfter(log, i)
  {
    var last := |log| - 1;
    if log[last] == Marked(id) {
      i := last;
    } else {
      i := TimedOutWhy(log[..last], id);
      assert forall m | i < m < last :: log[m] == log[..last][m];
    }
  }

  /** Once the timer has marked a request, a reply to it is refused exactly until the next request. */
  lemma RefusedUntilNextRequest(s: State, id: nat, i: nat)
    requires Reached(s) && N(s, Requested(id)) <= 1 && i < |s.log| && s.log[i] == Marked(id)
    ensures Claim(s.slot, id).1 == WasTimedOut <==> !RequestAfter(s.log, i)
  {
    ReachedSound(s);
    assert Balanced(s, id);
    if !RequestAfter(s.log, i) {
      StaysTimedOut(s.log, i, id);
    }
    if s.slot == TimedOut(id) {
      var j := TimedOutWhy(s.log, id);
      if j < i { CountTwo(s.log, j, i, Marked(id)); }
      if i < j { CountTwo(s.log, i, j, Marked(id)); }
    }
  }

  /** A reply is refused only after the request's timeout, with no request since. */
  lemma RefusedOnlyAfterTimeout(s: State, id: nat) returns (i: nat)
    requires Reached(s) && Claim(s.slot, id).1 == WasTimedOut
    ensures i < |s.log| && s.log[i] == Marked(id) && !RequestAfter(s.log, i)
  {
    ReachedSound(s);
    i := TimedOutWhy(s.log, id);
  }

  /** The reply being forwarded was let through, and no request came in since. */
  lemma {:induction false} LetThroughWhen(log: seq<Event>, id: nat) returns (i: nat)
    requires Letting(log) == Forwarding(id)
    ensures i < |log| && (log[i] == Cleared(id) || log[i] == Missed(id)) && !RequestAfter(log, i)
  {
    var last := |log| - 1;
    if log[last] == Cleared(id) || log[last] == Missed(id) {
      i := last;
    } else {
      i := LetThroughWhen(log[..last], id);
      assert forall m | i < m < last :: log[m] == log[..last][m];
    }
  }

  /** Without a new request nothing becomes pending again. */
  lemma {:induction false} StaysGone(log: seq<Event>, i: nat, id: nat)
    requires i < |log| && !RequestAfter(log, i) && SlotOf(log[..i + 1]) != Pending(id)
    ensures SlotOf(log) != Pending(id)
  {
    if i + 1 == |log| {
      assert log[..i + 1] == log;
    } else {
      var front := log[..|log| - 1];
      assert forall m | i < m < |front| :: front[m] == log[m];
      assert front[..i + 1] == log[..i + 1];
      StaysGone(front, i, id);
    }
  }

  lemma {:induction false} JustifiedAt(log: seq<Event>, i: nat)
    requires AllJustified(log) && i < |log|
    ensures AllJustified(log[..i]) && Justified(log[..i], log[i])
  {
    if i < |log| - 1 {
      JustifiedAt(log[..|log| - 1], i);
      assert log[..|log| - 1][..i] == log[..i];
    }
  }

  lemma LetThroughAfterTimeout(log: seq<Event>, i: nat, j: nat, id: nat)
    requires AllJustified(log) && i < j < |log| && log[i] == Marked(id)
             && (log[j] == Cleared(id) || log[j] == Missed(id))
    ensures exists m :: i < m < j && log[m].Requested?
  {
    JustifiedAt(log, j);
    if !RequestAfter(log[..j], i) {
      StaysTimedOut(log[..j], i, id);
    } else {
      var m :| i < m < |log[..j]| && log[..j][m].Requested?;
      assert log[m].Requested?;
    }
  }

  /** After its timeout a request's reply reaches the guest only if another request came between. */
  lemma ForwardedAfterTimeout(s: State, i: nat, j: nat, id: nat)
    requires Reached(s) && i < j < |s.log| && s.log[i] == Marked(id) && s.log[j] == Forwarded(id)
    ensures exists m :: i < m < j && s.log[m].Requested?
  {
    ReachedSound(s);
    var log := s.log;
    JustifiedAt(log, j);
    var l := LetThroughWhen(log[..j], id);
    assert log[..j][l] == log[l];
    if i < l {
      LetThroughAfterTimeout(log, i, l, id);
    } else if l < i {
      MarkedAfterLetThrough(log, l, i, j, id);
    }
  }

  /** Once let through, the request is not pending. */
  lemma GoneOnceLetThrough(log: seq<Event>, e: Event, id: nat)
    requires AllJustified(log) && Justified(log, e) && (e == Cleared(id) || e == Missed(id))
    ensures SlotOf(log + [e]) != Pending(id)
  {
    Tell(log, e);
  }

  lemma NoRequestBefore(log: seq<Event>, l: nat, i: nat, j: nat)
    requires l < i < j < |log| && !RequestAfter(log[..j], l)
    ensures !RequestAfter(log[..i], l) && log[..i][..l + 1] == log[..l] + [log[l]]
  {
    assert forall m | l < m < i :: log[..i][m] == log[..j][m];
  }

  lemma MarkedIsPending(log: seq<Event>, id: nat)
    requires Justified(log, Marked(id))
    ensures SlotOf(log) == Pending(id)
  {
  }

  lemma MarkedAfterLetThrough(log: seq<Event>, l: nat, i: nat, j: nat, id: nat)
    requires AllJustified(log) && l < i < j < |log| && !RequestAfter(log[..j], l)
    requires log[l] == Cleared(id) || log[l] == Missed(id)
    ensures log[i] != Marked(id)
  {
    hide AllJustified, Justified, SlotOf, RequestAfter;
    JustifiedAt(log, i);
    JustifiedAt(log, l);
    NoRequestBefore(log, l, i, j);
    GoneOnceLetThrough(log[..l], log[l], id);
    StaysGone(log[..i], l, id);
    if log[i] == Marked(id) {
      MarkedIsPending(log[..i], id);
    }
  }

  // How many answers the guest gets

  lemma {:induction false} NoneOf(ts: seq<Timer>, t: Timer)
    requires t !in ts
    ensures Count(ts, t) == 0
  {
    if ts != [] {
      NoneOf(ts[..|ts| - 1], t);
    }
  }

  predicate Quiet(s: State) {
    s.host.Idle? && forall k | 0 <= k < |s.timers| :: s.timers[k].Finished?
  }

  /** When everything has run out, a request made once has had one answer, less one if a later
      request took its slot, plus one for each reply that came when the slot was not its own. */
  lemma AnswersWhenQuiet(s: State, id: nat)
    requires Reached(s) && Quiet(s) && N(s, Requested(id)) == 1
    ensures N(s, Forwarded(id)) + N(s, TimeoutSent(id)) == 1 - N(s, Superseded(id)) + N(s, Missed(id))
  {
    ReachedSound(s);
    assert Balanced(s, id);
    NoneOf(s.timers, Sleeping(id));
    NoneOf(s.timers, Expired(id));
  }

  /** The call times out and a second call takes its slot. */
  lemma FirstCallExpires() returns (s: State)
    ensures Reached(s)
    ensures s == State(Pending(2), Idle, [Finished(1), Sleeping(2)],
                       [Requested(1), Marked(1), TimeoutSent(1), Requested(2)])
  {
    assert IsRun(START, []) && After(START, []) == START;
    var s1 := State(Pending(1), Spawning(1), [], [Requested(1)]);
    StepReached(START, Request(1), s1);
    var s2 := State(Pending(1), Idle, [Sleeping(1)], [Requested(1)]);
    StepReached(s1, Spawn, s2);
    var s3 := State(TimedOut(1), Idle, [Expired(1)], [Requested(1), Marked(1)]);
    StepReached(s2, Fire(0), s3);
    var s4 := State(TimedOut(1), Idle, [Finished(1)], [Requested(1), Marked(1), TimeoutSent(1)]);
    StepReached(s3, Report(0), s4);
    var s5 := State(Pending(2), Spawning(2), [Finished(1)], [Requested(1), Marked(1), TimeoutSent(1), Requested(2)]);
    StepReached(s4, Request(2), s5);
    s := State(Pending(2), Idle, [Finished(1), Sleeping(2)], [Requested(1), Marked(1), TimeoutSent(1), Requested(2)]);
    StepReached(s5, Spawn, s);
  }

  /** So two answers are possible: the late reply finds another call in the slot and goes through. */
  lemma LateReplyIsForwarded() returns (s: State)
    ensures Reached(s)
    ensures s.log == [Requested(1), Marked(1), TimeoutSent(1), Requested(2), Missed(1), Forwarded(1)]
  {
    var s1 := FirstCallExpires();
    var s2 := State(Pending(2), Forwarding(1), s1.timers, s1.log + [Missed(1)]);
    StepReached(s1, Reply(1), s2);
    s := State(Pending(2), Idle, s1.timers, s2.log + [Forwarded(1)]);
    StepReached(s2, Forward, s);
  }

  // A host that answers the latest call, once

  /** `id` is the latest request. */
  predicate Latest(log: seq<Event>, id: nat) {
    log != [] && if log[|log| - 1].Requested? then log[|log| - 1].id == id else Latest(log[..|log| - 1], id)
  }

  lemma {:induction false} LatestIsHeld(log: seq<Event>, id: nat)
    requires AllJustified(log) && Latest(log, id) && Cleared(id) !in log
    ensures SlotOf(log) == Pending(id) || SlotOf(log) == TimedOut(id)
  {
    var last := |log| - 1;
    if !log[last].Requested? {
      LatestIsHeld(log[..last], id);
    }
  }

  /** Every reply goes to the latest request, and none after one that cleared it. */
  predicate Disciplined(s: State, run: seq<Action>)
    requires IsRun(s, run)
    decreases run
  {
    run == [] || ( && (run[0].Reply? ==> Latest(s.log, run[0].id) && Cleared(run[0].id) !in s.log)
                   && Disciplined(Step(s, run[0]), run[1..]))
  }

  lemma {:induction false} NothingMissed(s: State, run: seq<Action>, id: nat)
    requires Sound(s) && IsRun(s, run) && Disciplined(s, run)
    ensures N(After(s, run), Missed(id)) == N(s, Missed(id))
    decreases run
  {
    if run != [] {
      var next := Step(s, run[0]);
      if run[0].Reply? {
        LatestIsHeld(s.log, run[0].id);
      }
      MissedOnlyByReply(s, run[0], id);
      StepTold(s, run[0]);
      forall x ensures Balanced(next, x) {
        StepBalanced(s, run[0], x);
      }
      NothingMissed(next, run[1..], id);
    }
  }

  lemma MissedOnlyByReply(s: State, a: Action, id: nat)
    requires Enabled(s, a) && (a.Reply? ==> Claim(s.slot, a.id).1 != Missing)
    ensures N(Step(s, a), Missed(id)) == N(s, Missed(id))
  {
    match a
    case Request(r) =>
      if s.slot.Pending? {
        Appended(s.log, Superseded(s.slot.id));
        Appended(s.log + [Superseded(s.slot.id)], Requested(r));
      } else {
        assert s.log + [] == s.log;
        Appended(s.log, Requested(r));
      }
    case Spawn =>
    case Reply(r) => Appended(s.log, if Claim(s.slot, r).1 == WasPending then Cleared(r) else Rejected(r));
    case Forward => Appended(s.log, Forwarded(s.host.id));
    case Fire(k) =>
      Appended(s.log, Marked(s.timers[k].id));
      Appended(s.log, Lapsed(s.timers[k].id));
    case Report(k) => Appended(s.log, TimeoutSent(s.timers[k].id));
  }

  /** Such a host's guest gets at most one answer to a call: the reply or the timeout. */
  lemma AnsweredAtMostOnce(run: seq<Action>, id: nat)
    requires IsRun(START, run) && Disciplined(START, run) && N(After(START, run), Requested(id)) <= 1
    ensures var s := After(START, run); N(s, Forwarded(id)) + N(s, TimeoutSent(id)) <= 1
  {
    RunSound(START, run);
    NothingMissed(START, run, id);
    assert Balanced(After(START, run), id);
  }

  // The code itself

  datatype Answer = HostReply(id: nat, ok: bool) | TimeoutError(id: nat)

  /** A Python execution: the slot under its lock and what went to the guest. */
  class PythonExecution {
    var pending: Slot
    var sent: seq<Answer>

    constructor ()
      ensures pending == Empty && sent == []
    {
      pending, sent := Empty, [];
    }

    /** `set_pending_vfs_rpc_state`: from now on a reply to this call, and to no other, finds it
        pending, and only its own timer can mark it. */
    method SetPending(id: nat)
      modifies this`pending
      ensures pending == Pending(id)
      ensures forall x :: Claim(pending, x) == if x == id then (Empty, WasPending) else (pending, Missing)
      ensures forall x :: Expire(pending, x) == if x == id then TimedOut(id) else pending
    {
      pending := Pending(id);
    }

    /** `clear_pending_vfs_rpc`. */
    method ClearPending(id: nat) returns (r: Resolution)
      modifies this`pending
      ensures (pending, r) == Claim(old(pending), id)
    {
      match pending
      case Pending(current) =>
        if current == id {
          pending := Empty;
          return WasPending;
        }
        return Missing;
      case TimedOut(current) => return if current == id then WasTimedOut else Missing;
      case Empty => return Missing;
    }

    /** `respond_vfs_rpc_success` and `respond_vfs_rpc_error`: refused exactly when the call has
        timed out and its mark is still in the slot. */
    method Respond(id: nat, success: bool) returns (ok: bool)
      modifies this
      ensures ok <==> old(pending) != TimedOut(id)
      ensures pending == Claim(old(pending), id).0
      ensures sent == old(sent) + if ok then [HostReply(id, success)] else []
    {
      var r := ClearPending(id);
      match r {
        case WasPending =>
        case WasTimedOut => return false;
        case Missing =>
      }
      sent := sent + [HostReply(id, success)];
      return true;
    }

    /** The timer thread after its sleep: the check and the mark under the lock. */
    method ExpirePending(id: nat) returns (due: bool)
      modifies this`pending
      ensures due <==> old(pending) == Pending(id)
      ensures pending == Expire(old(pending), id)
      ensures if due then pending == TimedOut(id) else pending == old(pending)
    {
      if pending == Pending(id) {
        pending := TimedOut(id);
        return true;
      }
      return false;
    }

    /** The report it then sends, outside the lock. */
    method ReportTimeout(id: nat, due: bool)
      modifies this`sent
      ensures sent == old(sent) + if due then [TimeoutError(id)] else []
    {
      if !due {
        return;
      }
      sent := sent + [TimeoutError(id)];
    }
  }
}
