/**
 * `HttpGarageDoorsAccessory` as an object: its fields are updated step by
 * step as in the handlers, `open()` and the timer callbacks, and every
 * method is tied to the state machine of module GarageDoor.
 *
 * The pending timers, the next timer handle, the clock and the count of
 * suspended `open()` calls belong to the JavaScript runtime; they are kept
 * here as fields because only this accessory's timers are of interest.
 */
module Accessory {
  import opened Wrappers
  import opened GarageDoor
  import Requests

  class HttpGarageDoorsAccessory {
    var targetDoorState: TargetDoorState
    var currentDoorState: CurrentDoorState
    var closingTimer: Option<nat>
    var closedTimer: Option<nat>
    var timers: seq<Timer>
    var nextHandle: nat
    var now: nat
    var inFlight: nat
    const timing: Timing
    const request: Requests.Request

    /** The accessory's fields as a GarageDoor state. */
    function State(): (d: Door)
      reads this
    {
      Door(targetDoorState, currentDoorState, closingTimer, closedTimer, timers, nextHandle, now, inFlight)
    }

    constructor (timing: Timing, request: Requests.Request)
      ensures State() == Init() && Valid(State())
      ensures this.timing == timing && this.request == request
    {
      this.timing := timing;
      this.request := request;
      targetDoorState := TargetClosed;
      currentDoorState := Closed;
      closingTimer := None;
      closedTimer := None;
      timers := [];
      nextHandle := 0;
      now := 0;
      inFlight := 0;
    }

    /** The current-state `get` handler: the last state set, always backed by the timers. */
    function GetCurrentDoorState(): (s: CurrentDoorState)
      reads this
      requires Valid(State())
      ensures s == Closed ==> timers == []
      ensures s == Closing ==> |timers| == 1 && timers[0].callback == SetClosed
      ensures s == Open ==> |timers| == 2 && timers[0].callback == SetClosing
    {
      currentDoorState
    }

    /** The target-state `get` handler: CLOSED only while the door was never opened. */
    function GetTargetDoorState(): (v: TargetDoorState)
      reads this
      requires Valid(State())
      ensures v == TargetClosed ==> currentDoorState == Closed && timers == [] && inFlight == 0
    {
      targetDoorState
    }

    /**
     * The target-state `set` handler. For OPEN it records the target and
     * runs `open()` up to its `await`; `sent` is the `fetch` call made. The
     * host's callback is called now (`answered`) for any other value, and
     * only when the request settles for OPEN.
     */
    method SetTargetDoorState(v: TargetDoorState) returns (answered: bool, sent: Option<Requests.FetchCall>)
      requires Valid(State())
      modifies this, request
      ensures Valid(State())
      ensures State() == SetTarget(old(State()), v)
      ensures answered <==> v != TargetOpen
      ensures v == TargetOpen ==>
                request.Value() == Requests.Normalize(old(request.Value()))
                && sent == Some(Requests.FetchCall(request.url, request.options))
      ensures v != TargetOpen ==> sent == None && request.Value() == old(request.Value())
    {
      if v == TargetOpen {
        targetDoorState := v;
        var call := BeginOpen();
        answered, sent := false, Some(call);
      } else {
        answered, sent := true, None;
      }
    }

    /** `open()` up to its `await`: OPENING, then the request is normalised and sent. */
    method BeginOpen() returns (call: Requests.FetchCall)
      modifies this, request
      ensures State() == GarageDoor.BeginOpen(old(State()))
      ensures request.Value() == Requests.Normalize(old(request.Value()))
      ensures call == Requests.FetchCall(request.url, request.options)
    {
      currentDoorState := Opening;
      inFlight := inFlight + 1;
      call := Requests.FetchRequest(request);
    }

    /**
     * `open()` after its `await`. On a resolved request: OPEN, both handles
     * cleared, a fresh closing/closed pair armed, and the `set` callback
     * answered. On a rejection the call ends there and nothing is answered.
     */
    method FinishOpen(ok: bool) returns (answered: bool)
      requires Valid(State()) && inFlight > 0
      modifies this
      ensures Valid(State())
      ensures State() == GarageDoor.FinishOpen(old(State()), ok, timing)
      ensures answered == ok
    {
      ghost var d := State();
      ghost var e := GarageDoor.FinishOpen(d, ok, timing);
      inFlight := inFlight - 1;
      if ok {
        FinishOpenRearms(d, timing);
        CancelClearsAll(d);
        currentDoorState := Open;
        ClearTimeout(closingTimer);
        ClearTimeout(closedTimer);
        var h1 := SetTimeout(ClosingDelay(timing), SetClosing);
        closingTimer := Some(h1);
        var h2 := SetTimeout(ClosedDelay(timing), SetClosed);
        closedTimer := Some(h2);
      }
      answered := ok;
      assert State() == e;
      assert Valid(e);
    }

    /** `clearTimeout(h)`: drops the pending timer with that handle, if any. */
    method ClearTimeout(h: Option<nat>)
      modifies this`timers
      ensures timers == GarageDoor.ClearTimeout(old(timers), h)
    {
      timers := GarageDoor.ClearTimeout(timers, h);
    }

    /** `setTimeout(callback, delay)`: a fresh handle for a timer due `delay` ms from now. */
    method SetTimeout(delay: nat, cb: Callback) returns (h: nat)
      modifies this`timers, this`nextHandle
      ensures h == old(nextHandle) && nextHandle == h + 1
      ensures timers == old(timers) + [Timer(h, now + delay, cb)]
    {
      h := nextHandle;
      timers := timers + [Timer(h, now + delay, cb)];
      nextHandle := nextHandle + 1;
    }

    /** The closing timer's callback. */
    method ClosingCallback()
      modifies this`currentDoorState
      ensures currentDoorState == Closing
    {
      currentDoorState := Closing;
    }

    /** The closed timer's callback. */
    method ClosedCallback()
      modifies this`currentDoorState
      ensures currentDoorState == Closed
    {
      currentDoorState := Closed;
    }

    /** The runtime runs the next due timer. */
    method RunNextTimer()
      requires Valid(State()) && timers != []
      modifies this
      ensures Valid(State())
      ensures State() == Fire(old(State()))
    {
      ghost var d := State();
      var i := NextDue(timers);
      var t := timers[i];
      timers := timers[..i] + timers[i + 1..];
      now := t.deadline;
      match t.callback {
        case SetClosing => ClosingCallback();
        case SetClosed => ClosedCallback();
      }
      ApplyPreservesValid(d, TimerFires, timing);
    }

    /** Time passes up to `t`, with no timer due before it. */
    method AdvanceClock(t: nat)
      requires Valid(State()) && now <= t && NothingDueBefore(timers, t)
      modifies this
      ensures Valid(State())
      ensures State() == Advance(old(State()), t)
    {
      ghost var d := State();
      now := t;
      ApplyPreservesValid(d, ClockAdvances(t), timing);
    }
  }
}
