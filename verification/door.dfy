/**
 * The simulated garage-door state machine of `HttpGarageDoorsAccessory`,
 * as values: a snapshot of the accessory's fields together with the timers
 * it has pending in the JavaScript runtime, and one function per event.
 *
 * `open()` is split at its `await`: `SetTarget` with OPEN runs the part
 * before the network call, `FinishOpen` the part after it settles. Timers
 * are the runtime's pending `setTimeout` entries; the accessory only holds
 * their handles, and `clearTimeout` on a fired or unknown handle is a no-op.
 */
module GarageDoor {
  import opened Wrappers

  /** The reported current state (HAP `CurrentDoorState`; STOPPED is never used). */
  datatype CurrentDoorState = Open | Closed | Opening | Closing

  /** The requested state (HAP `TargetDoorState`). */
  datatype TargetDoorState = TargetOpen | TargetClosed

  /** The two `setTimeout` callbacks `open()` arms. */
  datatype Callback = SetClosing | SetClosed

  /** A pending timer: its handle, its deadline in milliseconds, its callback. */
  datatype Timer = Timer(handle: nat, deadline: nat, callback: Callback)

  /** `simulateTimeOpen` and `simulateTimeClosing`, in whole seconds. */
  datatype Timing = Timing(simulateTimeOpen: nat, simulateTimeClosing: nat)

  /**
   * The accessory's state: `targetDoorState`, `currentDoorState`, the two
   * timer handles (`None` is `undefined`), the runtime's pending timers of
   * this accessory in creation order, the next fresh handle, the logical
   * clock in milliseconds, and the number of `open()` calls still awaiting
   * their request.
   */
  datatype Door = Door(
    target: TargetDoorState,
    current: CurrentDoorState,
    closingTimer: Option<nat>,
    closedTimer: Option<nat>,
    timers: seq<Timer>,
    nextHandle: nat,
    now: nat,
    inFlight: nat)

  /** Delay of the closing timer: `simulateTimeOpen * 1000`. */
  function ClosingDelay(timing: Timing): (ms: nat) {
    timing.simulateTimeOpen * 1000
  }

  /** Delay of the closed timer: `(simulateTimeOpen + simulateTimeClosing) * 1000`. */
  function ClosedDelay(timing: Timing): (ms: nat) {
    (timing.simulateTimeOpen + timing.simulateTimeClosing) * 1000
  }

  /**
   * The invariant of every reachable state. The pending timers are a suffix
   * of the last pair `open()` armed: none, the closed timer alone, or the
   * closing timer followed by the closed timer with the earlier (or equal)
   * deadline, each referenced by its handle field. No deadline is in the
   * past and every handle is older than `nextHandle`. A target that is still
   * CLOSED means the door was never opened; CLOSED, CLOSING and OPEN are
   * each backed by the pending timers that will carry the cycle on.
   */
  predicate Valid(d: Door) {
    var q := d.timers;
    |q| <= 2
    && (forall i :: 0 <= i < |q| ==> d.now <= q[i].deadline && q[i].handle < d.nextHandle)
    && (|q| == 1 ==> q[0].callback == SetClosed && d.closedTimer == Some(q[0].handle))
    && (|q| == 2 ==>
          q[0].callback == SetClosing && d.closingTimer == Some(q[0].handle)
          && q[1].callback == SetClosed && d.closedTimer == Some(q[1].handle)
          && q[0].deadline <= q[1].deadline)
    && (d.target == TargetClosed ==> d.current == Closed && q == [] && d.inFlight == 0)
    && (d.current == Closed ==> q == [])
    && (d.current == Closing ==> |q| == 1)
    && (d.current == Open ==> |q| == 2)
  }

  /** The state the constructor leaves: both CLOSED, no timer, clock at zero. */
  function Init(): (d: Door)
    ensures Valid(d)
    ensures d.target == TargetClosed && d.current == Closed
    ensures d.closingTimer == None && d.closedTimer == None && d.timers == []
    ensures d.inFlight == 0
  {
    Door(TargetClosed, Closed, None, None, [], 0, 0, 0)
  }

  /** The first half of `open()`: OPENING, then the request is sent and awaited. */
  function BeginOpen(d: Door): (e: Door)
    // OPENING is consistent with whatever timers are pending
    ensures Valid(d) && d.target == TargetOpen ==> Valid(e)
    ensures e.current == Opening && e.inFlight == d.inFlight + 1
    ensures e.target == d.target && e.timers == d.timers
    ensures e.closingTimer == d.closingTimer && e.closedTimer == d.closedTimer
  {
    d.(current := Opening, inFlight := d.inFlight + 1)
  }

  /** The target-state `set` handler: it acts on OPEN only. */
  function SetTarget(d: Door, v: TargetDoorState): (e: Door)
    ensures Valid(d) ==> Valid(e)
    // the target is OPEN afterwards exactly when it was, or OPEN was written
    ensures e.target == TargetOpen <==> v == TargetOpen || d.target == TargetOpen
    // the handler never touches the timers itself
    ensures e.timers == d.timers && e.closingTimer == d.closingTimer && e.closedTimer == d.closedTimer
  {
    if v == TargetOpen then BeginOpen(d.(target := TargetOpen)) else d
  }

  /** Some pending timer holds handle `h`. */
  predicate HasHandle(q: seq<Timer>, h: nat) {
    exists i :: 0 <= i < |q| && q[i].handle == h
  }

  /** `clearTimeout(handle)` for one handle: the pending timers without it. */
  function RemoveHandle(q: seq<Timer>, h: nat): (r: seq<Timer>)
    ensures forall t :: t in r <==> t in q && t.handle != h
    ensures |r| <= |q|
    // a handle that is no longer pending cancels nothing
    ensures !HasHandle(q, h) ==> r == q
  {
    if q == [] then []
    else if q[0].handle == h then RemoveHandle(q[1..], h)
    else [q[0]] + RemoveHandle(q[1..], h)
  }

  /**
   * `clearTimeout(field)`: drops the pending timer with that handle. It is
   * a no-op on `undefined` and on a handle that already fired or was
   * cancelled; the order of the remaining timers is kept
   * (`ClearTimeoutKeepsOrder`).
   */
  function ClearTimeout(q: seq<Timer>, h: Option<nat>): (r: seq<Timer>)
    ensures forall t :: t in r <==> t in q && h != Some(t.handle)
    ensures |r| <= |q|
    ensures h.None? ==> r == q
    ensures h.Some? && !HasHandle(q, h.value) ==> r == q
  {
    if h.Some? then RemoveHandle(q, h.value) else q
  }

  /**
   * Cancelling works timer by timer and keeps creation order: clearing a
   * handle from two runs of timers is clearing it from each, in place.
   */
  lemma {:induction false} ClearTimeoutKeepsOrder(a: seq<Timer>, b: seq<Timer>, h: Option<nat>)
    ensures ClearTimeout(a + b, h) == ClearTimeout(a, h) + ClearTimeout(b, h)
    decreases |a|
  {
    if a == [] {
      assert a + b == b;
    } else if h.Some? {
      assert (a + b)[0] == a[0];
      assert (a + b)[1..] == a[1..] + b;
      ClearTimeoutKeepsOrder(a[1..], b, h);
      if a[0].handle == h.value {
        calc {
          ClearTimeout(a + b, h);
          RemoveHandle(a[1..] + b, h.value);
          ClearTimeout(a[1..], h) + ClearTimeout(b, h);
          ClearTimeout(a, h) + ClearTimeout(b, h);
        }
      } else {
        calc {
          ClearTimeout(a + b, h);
          [a[0]] + RemoveHandle(a[1..] + b, h.value);
          [a[0]] + (ClearTimeout(a[1..], h) + ClearTimeout(b, h));
          ([a[0]] + ClearTimeout(a[1..], h)) + ClearTimeout(b, h);
          ClearTimeout(a, h) + ClearTimeout(b, h);
        }
      }
    }
  }

  /**
   * The second half of `open()`. A rejected request propagates out of
   * `open()`: only the suspended call ends. A resolved one sets OPEN,
   * cancels the timers held in the two fields and arms a fresh pair.
   */
  function FinishOpen(d: Door, ok: bool, timing: Timing): (e: Door)
    requires d.inFlight > 0
    ensures Valid(d) ==> Valid(e)
    ensures e.target == d.target && e.inFlight == d.inFlight - 1
    ensures ok ==> e.current == Open && |e.timers| >= 2
    ensures !ok ==> e.current == d.current && e.timers == d.timers
  {
    if !ok then d.(inFlight := d.inFlight - 1)
    else
      var q := ClearTimeout(ClearTimeout(d.timers, d.closingTimer), d.closedTimer);
      var h := d.nextHandle;
      d.(inFlight := d.inFlight - 1,
         current := Open,
         timers := q + [Timer(h, d.now + ClosingDelay(timing), SetClosing),
                        Timer(h + 1, d.now + ClosedDelay(timing), SetClosed)],
         closingTimer := Some(h),
         closedTimer := Some(h + 1),
         nextHandle := h + 2)
  }

  /**
   * The index of the timer the runtime runs next: the earliest deadline,
   * and among equal deadlines the one created first.
   */
  function NextDue(q: seq<Timer>): (i: nat)
    requires q != []
    ensures i < |q|
    ensures forall j :: 0 <= j < |q| ==> q[i].deadline <= q[j].deadline
    ensures forall j :: 0 <= j < i ==> q[i].deadline < q[j].deadline
  {
    if |q| == 1 then 0
    else
      var k := NextDue(q[1..]);
      if q[0].deadline <= q[1 + k].deadline then 0 else 1 + k
  }

  /** What a timer callback does: it sets the current state and nothing else. */
  function CallbackState(cb: Callback): (s: CurrentDoorState) {
    match cb
    case SetClosing => Closing
    case SetClosed => Closed
  }

  /** The runtime runs the next due timer; the clock reads its deadline. */
  function Fire(d: Door): (e: Door)
    requires d.timers != []
    ensures Valid(d) ==> Valid(e)
    // one timer leaves the queue, and its callback sets only the current state
    ensures |e.timers| == |d.timers| - 1
    ensures e.current == Closing || e.current == Closed
    ensures e.target == d.target && e.closingTimer == d.closingTimer && e.closedTimer == d.closedTimer
    ensures e.inFlight == d.inFlight && e.nextHandle == d.nextHandle
  {
    var i := NextDue(d.timers);
    var t := d.timers[i];
    d.(current := CallbackState(t.callback),
       timers := d.timers[..i] + d.timers[i + 1..],
       now := t.deadline)
  }

  /** No pending timer is due before time `t`. */
  predicate NothingDueBefore(q: seq<Timer>, t: nat) {
    forall i :: 0 <= i < |q| ==> t <= q[i].deadline
  }

  /** Time passes without any timer becoming due. */
  function Advance(d: Door, t: nat): (e: Door)
    requires d.now <= t && NothingDueBefore(d.timers, t)
    ensures Valid(d) ==> Valid(e)
    ensures e.now == t && e.current == d.current && e.timers == d.timers
    // only the clock moves
    ensures e.(now := d.now) == d
  {
    d.(now := t)
  }

  /** What can happen to the accessory next. */
  datatype Event =
    | SetTargetEvent(v: TargetDoorState)  // the host writes the target state
    | RequestSettled(ok: bool)            // an awaited request resolves (true) or rejects (false)
    | TimerFires                          // the runtime runs the next due timer
    | ClockAdvances(t: nat)               // time passes

  /** The state after an event, or `None` when the event cannot happen in `d`. */
  function Apply(d: Door, e: Event, timing: Timing): (r: Option<Door>) {
    match e
    case SetTargetEvent(v) => Some(SetTarget(d, v))
    case RequestSettled(ok) => if d.inFlight > 0 then Some(FinishOpen(d, ok, timing)) else None
    case TimerFires => if d.timers != [] then Some(Fire(d)) else None
    case ClockAdvances(t) =>
      if d.now <= t && NothingDueBefore(d.timers, t) then Some(Advance(d, t)) else None
  }

  /** The state after a sequence of events, or `None` if one of them cannot happen. */
  function Run(d: Door, evs: seq<Event>, timing: Timing): (r: Option<Door>)
    decreases |evs|
  {
    if evs == [] then Some(d)
    else
      match Apply(d, evs[0], timing)
      case None => None
      case Some(d') => Run(d', evs[1..], timing)
  }

  // ---------------------------------------------------------------------
  // Properties of single events

  /** Setting the target to anything but OPEN changes nothing. */
  lemma SetTargetOtherIsNoOp(d: Door, v: TargetDoorState)
    requires v != TargetOpen
    ensures SetTarget(d, v) == d
  {
  }

  /**
   * Setting the target to OPEN makes it OPEN and the current state OPENING
   * before the request settles; timers and handles are untouched.
   */
  lemma SetTargetOpenStartsOpening(d: Door)
    ensures var e := SetTarget(d, TargetOpen);
            e.target == TargetOpen && e.current == Opening
            && e.timers == d.timers && e.closingTimer == d.closingTimer
            && e.closedTimer == d.closedTimer && e.now == d.now
            && e.inFlight == d.inFlight + 1
  {
  }

  /** Cancelling the two handles of a valid state leaves no timer pending. */
  lemma CancelClearsAll(d: Door)
    requires Valid(d)
    ensures ClearTimeout(ClearTimeout(d.timers, d.closingTimer), d.closedTimer) == []
  {
  }

  /**
   * A resolved request: OPEN, every previously pending timer cancelled and
   * exactly the new pair pending, at now + simulateTimeOpen·1000 and
   * now + (simulateTimeOpen + simulateTimeClosing)·1000. The target stays
   * OPEN. Only validity is assumed, so this holds also when a stale timer
   * of an earlier cycle fired while the request was outstanding.
   */
  lemma FinishOpenRearms(d: Door, timing: Timing)
    requires Valid(d) && d.inFlight > 0
    ensures var e := FinishOpen(d, true, timing);
            e.current == Open && e.target == TargetOpen
            && e.timers == [Timer(d.nextHandle, d.now + timing.simulateTimeOpen * 1000, SetClosing),
                            Timer(d.nextHandle + 1,
                                  d.now + (timing.simulateTimeOpen + timing.simulateTimeClosing) * 1000,
                                  SetClosed)]
            && e.closingTimer == Some(d.nextHandle) && e.closedTimer == Some(d.nextHandle + 1)
            && (forall t :: t in d.timers ==> t !in e.timers)
            && e.inFlight == d.inFlight - 1 && e.now == d.now && e.nextHandle == d.nextHandle + 2
  {
    CancelClearsAll(d);
  }

  /**
   * A rejected request: `open()` stops after OPENING. The current state,
   * the target, the timers and the handles all stay as they were, and the
   * `set` callback is never called (the class method reports this).
   */
  lemma FinishOpenRejectedKeepsState(d: Door, timing: Timing)
    requires d.inFlight > 0
    ensures var e := FinishOpen(d, false, timing);
            e.current == d.current && e.target == d.target && e.timers == d.timers
            && e.closingTimer == d.closingTimer && e.closedTimer == d.closedTimer
            && e.inFlight == d.inFlight - 1
    // nothing else changes: not the clock, not the handle counter
    ensures FinishOpen(d, false, timing) == d.(inFlight := d.inFlight - 1)
  {
  }

  /**
   * A timer callback sets only the current state: CLOSING for the closing
   * timer, CLOSED for the closed timer. In a valid state the closing timer
   * always runs first; the target is untouched.
   */
  lemma FireRunsFirstTimer(d: Door)
    requires Valid(d) && d.timers != []
    ensures var e := Fire(d);
            e.target == d.target
            && e.current == (if |d.timers| == 2 then Closing else Closed)
            && e.timers == d.timers[1..]
            && e.closingTimer == d.closingTimer && e.closedTimer == d.closedTimer
            && e.now == d.timers[0].deadline
    // nothing else changes: no request appears, no handle is used up
    ensures Fire(d) == d.(current := if |d.timers| == 2 then Closing else Closed,
                          timers := d.timers[1..],
                          now := d.timers[0].deadline)
  {
  }

  /**
   * A cycle left undisturbed: from OPEN the runtime runs the closing timer
   * (CLOSING, at its deadline) and then the closed timer (CLOSED, at the
   * later deadline), after which nothing is pending.
   */
  lemma UndisturbedCycle(d: Door)
    requires Valid(d) && d.current == Open
    ensures Fire(d).timers != []
    ensures Fire(d).current == Closing && Fire(Fire(d)).current == Closed
    ensures Fire(d).now <= Fire(Fire(d)).now
    ensures Fire(Fire(d)).timers == [] && Fire(Fire(d)).target == TargetOpen
  {
    FireRunsFirstTimer(d);
    FireRunsFirstTimer(Fire(d));
  }

  /** Every event keeps the invariant. */
  lemma ApplyPreservesValid(d: Door, e: Event, timing: Timing)
    requires Valid(d)
    ensures Apply(d, e, timing).Some? ==> Valid(Apply(d, e, timing).value)
  {
    match e
    case SetTargetEvent(v) =>
    case RequestSettled(ok) =>
      if d.inFlight > 0 && ok {
        FinishOpenRearms(d, timing);
      }
    case TimerFires =>
      if d.timers != [] {
        FireRunsFirstTimer(d);
      }
    case ClockAdvances(t) =>
  }

  /** Once OPEN, the target is never set back to CLOSED by any event. */
  lemma ApplyKeepsTargetOpen(d: Door, e: Event, timing: Timing)
    requires d.target == TargetOpen
    ensures Apply(d, e, timing).Some? ==> Apply(d, e, timing).value.target == TargetOpen
  {
  }

  // ---------------------------------------------------------------------
  // Properties of runs

  lemma {:induction false} RunPreservesValid(d: Door, evs: seq<Event>, timing: Timing)
    requires Valid(d)
    ensures Run(d, evs, timing).Some? ==> Valid(Run(d, evs, timing).value)
    decreases |evs|
  {
    if evs != [] {
      ApplyPreservesValid(d, evs[0], timing);
      if Apply(d, evs[0], timing).Some? {
        RunPreservesValid(Apply(d, evs[0], timing).value, evs[1..], timing);
      }
    }
  }

  /**
   * Every state reachable from construction is valid: at most one closing
   * and one closed timer pending, in that order, and the reported state
   * backed by them.
   */
  lemma Reachable(evs: seq<Event>, timing: Timing)
    ensures Run(Init(), evs, timing).Some? ==> Valid(Run(Init(), evs, timing).value)
  {
    RunPreservesValid(Init(), evs, timing);
  }

  /** The target, once OPEN, stays OPEN along every run. */
  lemma {:induction false} RunKeepsTargetOpen(d: Door, evs: seq<Event>, timing: Timing)
    requires d.target == TargetOpen
    ensures Run(d, evs, timing).Some? ==> Run(d, evs, timing).value.target == TargetOpen
    decreases |evs|
  {
    if evs != [] {
      ApplyKeepsTargetOpen(d, evs[0], timing);
      if Apply(d, evs[0], timing).Some? {
        RunKeepsTargetOpen(Apply(d, evs[0], timing).value, evs[1..], timing);
      }
    }
  }

  /** No event opens the door again. */
  predicate NoOpenRequest(evs: seq<Event>) {
    forall i :: 0 <= i < |evs| ==> evs[i] != SetTargetEvent(TargetOpen)
  }

  /**
   * A door left OPENING with no timer pending and no request outstanding
   * (a first open whose request rejected) reports OPENING until it is
   * opened again: nothing else changes the current state.
   */
  lemma {:induction false} StuckOpening(d: Door, evs: seq<Event>, timing: Timing)
    requires d.current == Opening && d.timers == [] && d.inFlight == 0
    requires NoOpenRequest(evs)
    ensures Run(d, evs, timing).Some? ==> Run(d, evs, timing).value.current == Opening
    decreases |evs|
  {
    if evs != [] {
      assert evs[0] != SetTargetEvent(TargetOpen);
      assert NoOpenRequest(evs[1..]) by {
        forall i | 0 <= i < |evs[1..]| ensures evs[1..][i] != SetTargetEvent(TargetOpen) {
          assert evs[1..][i] == evs[i + 1];
        }
      }
      if Apply(d, evs[0], timing).Some? {
        StuckOpening(Apply(d, evs[0], timing).value, evs[1..], timing);
      }
    }
  }

  /**
   * The first open from construction with a rejected request leaves the
   * door OPENING with the target OPEN and no timer pending.
   */
  lemma RejectedFirstOpen(timing: Timing)
    ensures var d := Run(Init(), [SetTargetEvent(TargetOpen), RequestSettled(false)], timing);
            d.Some? && d.value.current == Opening && d.value.target == TargetOpen
            && d.value.timers == [] && d.value.inFlight == 0
  {
  }

  /**
   * A rejected re-open does not stop the cycle in progress: from OPEN, after
   * an open whose request is rejected, the pending timers still run and the
   * door ends CLOSED with nothing pending and no further open.
   */
  lemma RejectedReopenStillCloses(d: Door, timing: Timing)
    requires Valid(d) && d.current == Open
    ensures var r := FinishOpen(SetTarget(d, TargetOpen), false, timing);
            r.current == Opening && r.timers != [] && Fire(r).timers != []
            && Fire(r).current == Closing
            && Fire(Fire(r)).current == Closed && Fire(Fire(r)).timers == []
  {
    var r := FinishOpen(SetTarget(d, TargetOpen), false, timing);
    FireRunsFirstTimer(r);
    FireRunsFirstTimer(Fire(r));
  }

  /**
   * With simulateTimeOpen = 5 and simulateTimeClosing = 3, an open at time 0
   * whose request resolves shows OPENING and then OPEN at 0, CLOSING at
   * 5000 ms and CLOSED at 8000 ms.
   */
  lemma CycleFiveThree()
    ensures var d1 := SetTarget(Init(), TargetOpen);
            var d2 := FinishOpen(d1, true, Timing(5, 3));
            d1.current == Opening && d1.now == 0
            && d2.current == Open && d2.now == 0 && d2.timers != []
            && Fire(d2).current == Closing && Fire(d2).now == 5000 && Fire(d2).timers != []
            && Fire(Fire(d2)).current == Closed && Fire(Fire(d2)).now == 8000
  {
    var d1 := SetTarget(Init(), TargetOpen);
    var d2 := FinishOpen(d1, true, Timing(5, 3));
    FinishOpenRearms(d1, Timing(5, 3));
    FireRunsFirstTimer(d2);
    FireRunsFirstTimer(Fire(d2));
  }
}
