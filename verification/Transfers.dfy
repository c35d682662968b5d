/** The life of the USB transfers of siano-device.c: starting, completing, resubmitting, failing,
    stopping, cancelling, draining and freeing, by several threads under the state mutex.
    A submission and the count of it are two steps, between which the mutex is held. */
module Transfers {
  import opened Wire

  datatype Lock = Unlocked | Submitted(id: nat)

  datatype Thread = NotStarted | Running | Exited

  /** Who runs callbacks: the event thread, and the thread that owns the device, while it waits in a
      synchronous libusb call. The owner also starts and stops the streaming. */
  datatype Who = EventThread | Owner

  datatype State = State(
    urbs: nat,                        // MAX_URBS
    next: nat,                        // loop index of start_streaming
    stored: set<nat>,                 // device->transfers[i] != NULL
    inFlight: set<nat>,               // submitted, callback not yet counted
    onEvent: Option<nat>,             // the callback each of the two is running, counted but not returned
    onOwner: Option<nat>,
    active: nat,                      // device->active_transfers
    lock: Lock,
    stopping: bool,
    error: int,
    thread: Thread,
    failed: bool,                     // siano_stream_state_fail has transitioned
    stopped: bool,                    // stop_streaming has been entered
    failSnapshot: Option<set<nat>>,   // what cancel_transfers copied on each path
    stopSnapshot: Option<set<nat>>,
    freed: bool)
  {
    function Callback(who: Who): Option<nat> {
      if who.Owner? then onOwner else onEvent
    }

    function Calling(): set<nat> {
      Slot(onEvent) + Slot(onOwner)
    }
  }

  function Slot(callback: Option<nat>): set<nat> {
    if callback.Some? then {callback.value} else {}
  }

  datatype Step =
    | StartThread
    | StartSubmit(ok: bool)           // start_streaming, one transfer
    | Enter(id: nat, who: Who)        // transfer_callback up to its first unlock
    | Return(who: Who)                // a callback that ends without resubmitting
    | Resubmit(who: Who, ok: bool)    // transfer_callback's second critical section
    | Count                           // active_transfers++ and unlock
    | Fail(error: int)                // fail_streaming: siano_stream_state_fail
    | FailCancel                      // fail_streaming: cancel_transfers
    | Stop                            // stop_streaming: siano_stream_state_stop
    | StopCancel                      // stop_streaming: cancel_transfers
    | Check                           // event_thread_main: is it done?
    | Free                            // stop_streaming: joined if there is a thread, then free everything

  const LIBUSB_ERROR_IO := -1
  const LIBUSB_ERROR_NO_DEVICE := -4
  const LIBUSB_ERROR_PIPE := -9

  /** siano_stream_disconnect_error */
  function Disconnect(error: int): int {
    if error == LIBUSB_ERROR_NO_DEVICE || error == LIBUSB_ERROR_IO || error == LIBUSB_ERROR_PIPE
    then LIBUSB_ERROR_NO_DEVICE else error
  }

  /** Which steps the threads can take; all but Count need the mutex. */
  predicate Enabled(s: State, e: Step) {
    match e
    case Count => s.lock.Submitted?
    case StartThread => s.thread.NotStarted? && !s.stopped
    case StartSubmit(_) => s.lock.Unlocked? && !s.thread.NotStarted? && s.next < s.urbs && !s.stopping
    case Enter(id, who) =>
      && s.lock.Unlocked? && id in s.inFlight && s.Callback(who).None?
      && if who.Owner? then !s.stopped else s.thread.Running?
    case Return(who) => s.Callback(who).Some?
    case Resubmit(who, _) => s.lock.Unlocked? && s.Callback(who).Some?
    case Fail(_) => s.lock.Unlocked? && !s.thread.NotStarted?
    case FailCancel => s.lock.Unlocked? && s.failed
    case Stop => s.lock.Unlocked? && s.onOwner.None?
    case StopCancel => s.lock.Unlocked? && s.stopped
    case Check => s.lock.Unlocked? && s.thread.Running? && s.onEvent.None?
    case Free => s.stopSnapshot.Some? && !s.thread.Running?
  }

  function Submit(s: State, id: nat): State {
    s.(inFlight := s.inFlight + {id}, lock := Submitted(id))
  }

  function Calls(s: State, who: Who, callback: Option<nat>): State {
    if who.Owner? then s.(onOwner := callback) else s.(onEvent := callback)
  }

  function Apply(s: State, e: Step): State
    requires Enabled(s, e)
  {
    match e
    case StartThread => s.(thread := Running)
    case StartSubmit(ok) =>
      var t := s.(stored := s.stored + {s.next});
      if ok then Submit(t, s.next).(next := s.next + 1) else t.(next := s.urbs)
    case Enter(id, who) =>
      Calls(s, who, Some(id)).(inFlight := s.inFlight - {id},
                               active := if s.active > 0 then s.active - 1 else s.active)
    case Return(who) => Calls(s, who, None)
    case Resubmit(who, ok) =>
      if s.stopping then Calls(s, who, None)
      else if ok then Submit(Calls(s, who, None), s.Callback(who).value)
      else s                           // the callback goes on to fail_streaming
    case Count => s.(active := s.active + 1, lock := Unlocked)
    case Fail(error) =>
      if s.stopping then s else s.(stopping := true, error := Disconnect(error), failed := true)
    case FailCancel => s.(failSnapshot := Some(s.stored))
    case Stop => s.(stopping := true, stopped := true)
    case StopCancel => s.(stopSnapshot := Some(s.stored))
    case Check => if s.stopping && s.active == 0 then s.(thread := Exited) else s
    case Free => s.(stored := {}, freed := true)
  }

  function Next(s: State, e: Step): State {
    if Enabled(s, e) then Apply(s, e) else s
  }

  function Run(s: State, es: seq<Step>): State
    decreases |es|
  {
    if es == [] then s else Run(Next(s, es[0]), es[1..])
  }

  function Start(urbs: nat): State {
    State(urbs, 0, {}, {}, None, None, 0, Unlocked, false, 0, NotStarted, false, false, None, None, false)
  }

  // ---------------------------------------------------------------- safety

  /** The counter is right. */
  ghost predicate Counted(s: State) {
    && |s.inFlight| == s.active + (if s.lock.Submitted? then 1 else 0)
    && (s.lock.Submitted? ==> s.lock.id in s.inFlight && !s.stopping)
  }

  /** No transfer is in two places, and each that is anywhere is stored. */
  ghost predicate Placed(s: State) {
    && s.inFlight !! s.Calling() && (s.onEvent.Some? && s.onOwner.Some? ==> s.onEvent != s.onOwner)
    && (!s.freed ==> s.inFlight <= s.stored && s.Calling() <= s.stored)
    && Below(s.stored, s.next) && Below(s.inFlight, s.next) && Below(s.Calling(), s.next)
  }

  ghost predicate Below(ids: set<nat>, n: nat) {
    forall i | i in ids :: i < n
  }

  /** What the threads have come to. */
  ghost predicate Threads(s: State) {
    && (s.thread.NotStarted? ==> s.next == 0)
    && (s.onEvent.Some? ==> s.thread.Running?)
    && (s.thread.Exited? ==> s.stopping && s.inFlight == {})
    && (s.stopped ==> s.onOwner.None?)
    && (s.failed || s.stopped ==> s.stopping) && (!s.failed ==> s.error == 0)
    && (s.freed ==> s.stopped && !s.thread.Running?)
  }

  /** Once a path has taken its cancel snapshot, what is in flight is in that snapshot. */
  ghost predicate Covered(s: State) {
    && (s.failSnapshot.Some? ==> s.failed && s.inFlight <= s.failSnapshot.value)
    && (s.stopSnapshot.Some? ==> s.stopped && s.inFlight <= s.stopSnapshot.value)
  }

  ghost predicate Inv(s: State) {
    Counted(s) && Placed(s) && Threads(s) && Covered(s)
  }

  lemma NextKeepsInv(s: State, e: Step)
    requires Inv(s)
    ensures Inv(Next(s, e))
  {
    if Enabled(s, e) {
      match e
      case StartSubmit(ok) => StartKeepsInv(s, ok);
      case Enter(id, who) => EnterKeepsInv(s, id, who);
      case Return(who) => ReturnKeepsInv(s, who);
      case Resubmit(who, ok) => ResubmitKeepsInv(s, who, ok);
      case FailCancel => SnapshotKeepsInv(s, e);
      case StopCancel => SnapshotKeepsInv(s, e);
      case Free => FreeKeepsInv(s);
      case _ => FlagsKeepInv(s, e);
    }
  }

  lemma StartKeepsInv(s: State, ok: bool)
    requires Inv(s) && Enabled(s, StartSubmit(ok))
    ensures Inv(Apply(s, StartSubmit(ok)))
  {
    assert s.next !in s.inFlight;
  }

  lemma ReturnKeepsInv(s: State, who: Who)
    requires Inv(s) && Enabled(s, Return(who))
    ensures Inv(Apply(s, Return(who)))
  {
    assert Calls(s, who, None).Calling() <= s.Calling();
  }

  lemma ResubmitKeepsInv(s: State, who: Who, ok: bool)
    requires Inv(s) && Enabled(s, Resubmit(who, ok))
    ensures Inv(Apply(s, Resubmit(who, ok)))
  {
    ReturnKeepsInv(s, who);
    assert s.Callback(who).value in s.Calling();
  }

  /** A callback always finds the counter above zero, so its guard never hides a mismatch. */
  lemma EnterKeepsInv(s: State, id: nat, who: Who)
    requires Inv(s) && Enabled(s, Enter(id, who))
    ensures Inv(Apply(s, Enter(id, who)))
    ensures s.active > 0 && Apply(s, Enter(id, who)).active == s.active - 1
  {
    assert |s.inFlight - {id}| == |s.inFlight| - 1;
    EnterPlaced(s, id, who, Apply(s, Enter(id, who)));
  }

  lemma EnterPlaced(s: State, id: nat, who: Who, t: State)
    requires Placed(s) && id in s.inFlight && s.Callback(who).None?
    requires t == Calls(s, who, Some(id)).(inFlight := s.inFlight - {id}, active := t.active)
    ensures Placed(t)
  {
    assert t.Calling() == s.Calling() + {id};
  }

  lemma SnapshotKeepsInv(s: State, e: Step)
    requires Inv(s) && Enabled(s, e) && (e.FailCancel? || e.StopCancel?)
    ensures Inv(Apply(s, e))
  {
    if s.freed {
      NothingBeforeTheThread(s);
    }
  }

  /** When memory is freed nothing is in flight and no callback is running. */
  lemma FreeKeepsInv(s: State)
    requires Inv(s) && Enabled(s, Free)
    ensures Inv(Apply(s, Free)) && s.inFlight == {} && s.Calling() == {}
  {
    NothingBeforeTheThread(s);
  }

  lemma NothingBeforeTheThread(s: State)
    requires Placed(s) && Threads(s) && !s.thread.Running?
    ensures s.inFlight == {}
  {
  }

  /** Steps that move only flags and the counter. */
  lemma FlagsKeepInv(s: State, e: Step)
    requires Inv(s) && Enabled(s, e)
    requires e.StartThread? || e.Count? || e.Fail? || e.Stop? || e.Check?
    ensures Inv(Apply(s, e))
  {
    assert Apply(s, e).inFlight == s.inFlight && Apply(s, e).stored == s.stored;
  }

  lemma {:induction false} RunKeepsInv(s: State, es: seq<Step>)
    requires Inv(s)
    ensures Inv(Run(s, es))
    decreases |es|
  {
    if es != [] {
      NextKeepsInv(s, es[0]);
      RunKeepsInv(Next(s, es[0]), es[1..]);
    }
  }

  /** Transfer safety, in every reachable state: with the mutex free the counter is the number
      of transfers in flight; memory is freed only when none is, no thread runs a callback and the event
      thread is gone; each cancel snapshot taken covers every transfer still in flight; no error
      without a failure. */
  lemma TransferSafety(urbs: nat, es: seq<Step>)
    ensures var s := Run(Start(urbs), es);
            && (s.lock.Unlocked? ==> s.active == |s.inFlight|)
            && (s.freed ==> s.inFlight == {} && s.Calling() == {} && s.active == 0 && !s.thread.Running?)
            && (s.failSnapshot.Some? ==> s.inFlight <= s.failSnapshot.value)
            && (s.stopSnapshot.Some? ==> s.inFlight <= s.stopSnapshot.value)
            && (!s.failed ==> s.error == 0)
  {
    RunKeepsInv(Start(urbs), es);
    var s := Run(Start(urbs), es);
    if s.freed {
      NothingBeforeTheThread(s);
    }
  }

  // ---------------------------------------------------------------- shutdown

  /** How many callbacks of transfers in flight a run makes. */
  function Callbacks(s: State, es: seq<Step>): nat
    decreases |es|
  {
    if es == [] then 0
    else (if es[0].Enter? && Enabled(s, es[0]) then 1 else 0) + Callbacks(Next(s, es[0]), es[1..])
  }

  /** Shutdown drains. Once stopping is set, by failure or by request, nothing is submitted and
      the error stays; each callback takes one transfer out of flight, and the event thread's exit
      condition holds after exactly as many callbacks as there were transfers in flight. */
  lemma {:induction false} ShutdownDrains(s: State, es: seq<Step>)
    requires Inv(s) && s.stopping
    ensures var t := Run(s, es);
            && t.stopping && t.error == s.error
            && t.inFlight <= s.inFlight
            && |s.inFlight| == |t.inFlight| + Callbacks(s, es)
            && t.active == s.active - Callbacks(s, es)
            && (t.active == 0 <==> Callbacks(s, es) == |s.inFlight|)
    decreases |es|
  {
    if es != [] {
      NextKeepsInv(s, es[0]);
      DrainStep(s, es[0]);
      ShutdownDrains(Next(s, es[0]), es[1..]);
    }
  }

  lemma DrainStep(s: State, e: Step)
    requires Inv(s) && s.stopping
    ensures var t := Next(s, e);
            && t.stopping && t.error == s.error && t.inFlight <= s.inFlight
            && (if e.Enter? && Enabled(s, e) then |t.inFlight| == |s.inFlight| - 1 else t.inFlight == s.inFlight)
  {
    if Enabled(s, e) {
      if e.Enter? {
        assert |s.inFlight - {e.id}| == |s.inFlight| - 1;
      } else {
        NothingMoreInFlight(s, e);
      }
    }
  }

  lemma NothingMoreInFlight(s: State, e: Step)
    requires Enabled(s, e) && s.stopping && !e.Enter?
    ensures var t := Apply(s, e); t.stopping && t.error == s.error && t.inFlight == s.inFlight
  {
  }

  /** The exit condition lets the event thread go, and that lets stop_streaming free. */
  lemma DrainedShutdownFinishes(s: State)
    requires Inv(s) && s.stopping && s.inFlight == {} && s.Calling() == {} && s.thread.Running?
    ensures Run(s, [Check, Stop, StopCancel, Free]).freed
  {
    var a := Next(s, Check);
    var b := Next(a, Stop);
    var c := Next(b, StopCancel);
    assert a.thread.Exited? && Next(c, Free).freed;
    assert Run(s, [Check, Stop, StopCancel, Free]) == Run(a, [Stop, StopCancel, Free]);
    assert Run(a, [Stop, StopCancel, Free]) == Run(b, [StopCancel, Free]);
    assert Run(b, [StopCancel, Free]) == Run(c, [Free]);
    assert Run(c, [Free]) == Run(Next(c, Free), []);
  }

  lemma RunTwo(s: State, a: Step, b: Step)
    ensures Run(s, [a, b]) == Next(Next(s, a), b)
  {
    assert [a, b][1..] == [b];
    assert Run(Next(s, a), [b]) == Run(Next(Next(s, a), b), []);
  }

  lemma RunThree(s: State, a: Step, b: Step, c: Step)
    ensures Run(s, [a, b, c]) == Next(Next(Next(s, a), b), c)
  {
    assert [a, b, c][1..] == [b, c];
    RunTwo(Next(s, a), b, c);
  }

  /** From any state that is stopping the threads can come to the end, also if the event thread never ran. */
  lemma {:induction false} ShutdownCanFinish(s: State) returns (es: seq<Step>)
    requires Inv(s) && s.stopping
    ensures Run(s, es).freed
    decreases |s.inFlight|, s.onEvent.Some?, s.onOwner.Some?
  {
    if s.onEvent.Some? || s.onOwner.Some? {
      var who := if s.onEvent.Some? then EventThread else Owner;
      ReturnKeepsInv(s, who);
      var rest := ShutdownCanFinish(Next(s, Return(who)));
      es := [Return(who)] + rest;
      assert es[1..] == rest;
    } else if s.inFlight != {} {
      var id :| id in s.inFlight;
      EnterKeepsInv(s, id, EventThread);
      assert |s.inFlight - {id}| == |s.inFlight| - 1;
      var rest := ShutdownCanFinish(Next(s, Enter(id, EventThread)));
      es := [Enter(id, EventThread)] + rest;
      assert es[1..] == rest;
    } else if s.thread.Running? {
      DrainedShutdownFinishes(s);
      es := [Check, Stop, StopCancel, Free];
    } else {
      RunThree(s, Stop, StopCancel, Free);
      es := [Stop, StopCancel, Free];
    }
  }

  // ---------------------------------------------------------------- that it streams

  /** Starting puts every transfer in flight, as long as each is taken. */
  function Starting(n: nat): seq<Step> {
    if n == 0 then [StartThread] else Starting(n - 1) + [StartSubmit(true), Count]
  }

  lemma {:induction false} RunAppend(s: State, a: seq<Step>, b: seq<Step>)
    ensures Run(s, a + b) == Run(Run(s, a), b)
    decreases |a|
  {
    if a == [] {
      assert a + b == b;
    } else {
      assert (a + b)[1..] == a[1..] + b;
      RunAppend(Next(s, a[0]), a[1..], b);
    }
  }

  function Ids(n: nat): (ids: set<nat>)
    ensures forall i: nat :: i in ids <==> i < n
  {
    if n == 0 then {} else Ids(n - 1) + {n - 1}
  }

  lemma {:induction false} AllAreSubmitted(urbs: nat, n: nat)
    requires n <= urbs
    ensures var s := Run(Start(urbs), Starting(n));
            s == Start(urbs).(next := n, stored := Ids(n), inFlight := Ids(n), active := n, thread := Running)
  {
    if n == 0 {
      assert Starting(0)[1..] == [];
    } else {
      AllAreSubmitted(urbs, n - 1);
      RunAppend(Start(urbs), Starting(n - 1), [StartSubmit(true), Count]);
      RunTwo(Run(Start(urbs), Starting(n - 1)), StartSubmit(true), Count);
    }
  }

  /** A submission refused at the start ends the starting, with the others in flight. */
  lemma RefusedStart(s: State)
    requires s.lock.Unlocked? && !s.thread.NotStarted? && s.next < s.urbs && !s.stopping
    ensures var t := Next(s, StartSubmit(false));
            t == s.(stored := s.stored + {s.next}, next := s.urbs) && forall ok :: !Enabled(t, StartSubmit(ok))
  {
  }

  /** A completed transfer is submitted again: the callback ends, and the transfer is in flight and counted. */
  lemma Resubmits(s: State, who: Who, id: nat)
    requires s.lock.Unlocked? && !s.stopping && s.Callback(who) == Some(id)
    ensures var t := Run(s, [Resubmit(who, true), Count]);
            && t.inFlight == s.inFlight + {id} && t.active == s.active + 1 && t.Callback(who).None?
            && t == Calls(s, who, None).(inFlight := t.inFlight, active := t.active)
  {
    RunTwo(s, Resubmit(who, true), Count);
  }

  /** So streaming goes on: completion and resubmission bring back the very same state. */
  lemma StreamingGoesOn(s: State, who: Who, id: nat)
    requires Inv(s) && s.lock.Unlocked? && !s.stopping && id in s.inFlight && s.Callback(who).None?
    ensures Run(s, [Enter(id, who), Resubmit(who, true), Count]) == s
  {
    CanEnter(s, id, who);
    var t := Next(s, Enter(id, who));
    EnterKeepsInv(s, id, who);
    RunThree(s, Enter(id, who), Resubmit(who, true), Count);
    assert s.inFlight - {id} + {id} == s.inFlight;
  }

  lemma CanEnter(s: State, id: nat, who: Who)
    requires Inv(s) && s.lock.Unlocked? && !s.stopping && id in s.inFlight && s.Callback(who).None?
    ensures Enabled(s, Enter(id, who))
  {
  }

  /** A refused resubmission stops the stream with the mapped error: the callback is still there, and the
      failure path takes its snapshot and lets it end. */
  lemma RefusedResubmissionFails(s: State, who: Who, error: int)
    requires Inv(s) && s.lock.Unlocked? && !s.stopping && s.Callback(who).Some?
    ensures Next(s, Resubmit(who, false)) == s
    ensures Run(s, [Fail(error), FailCancel, Return(who)]) ==
            Calls(s, who, None).(stopping := true, failed := true, failSnapshot := Some(s.stored),
                                 error := if error == -1 || error == -4 || error == -9 then -4 else error)
  {
    HasStarted(s, who);
    var mapped := if error == -1 || error == -4 || error == -9 then -4 else error;
    var a := s.(stopping := true, failed := true, error := mapped);
    assert Next(s, Fail(error)) == a;
    assert Next(a, FailCancel) == a.(failSnapshot := Some(s.stored));
    RunThree(s, Fail(error), FailCancel, Return(who));
  }

  lemma HasStarted(s: State, who: Who)
    requires Inv(s) && s.Callback(who).Some?
    ensures !s.thread.NotStarted?
  {
    assert s.Callback(who).value in s.Calling();
  }

  /** Once stopping, a callback submits nothing: it only ends. */
  lemma StoppingCallbackEnds(s: State, who: Who, ok: bool)
    requires s.lock.Unlocked? && s.stopping && s.Callback(who).Some?
    ensures Next(s, Resubmit(who, ok)) == Next(s, Return(who)) == Calls(s, who, None)
  {
  }

  /** The first failure decides the error for good. */
  lemma FirstFailureStays(s: State, error: int, es: seq<Step>)
    requires Inv(s) && s.lock.Unlocked? && !s.stopping && !s.thread.NotStarted?
    ensures var t := Run(s, [Fail(error)] + es);
            t.stopping && t.error == if error == -1 || error == -4 || error == -9 then -4 else error
  {
    NextKeepsInv(s, Fail(error));
    assert ([Fail(error)] + es)[1..] == es;
    ShutdownDrains(Next(s, Fail(error)), es);
  }

  /** Stopping takes its snapshot of all that is stored, and the event thread leaves only when drained. */
  lemma StopsAndLeaves(s: State)
    requires s.lock.Unlocked?
    ensures s.onOwner.None? ==>
              Run(s, [Stop, StopCancel]) == s.(stopping := true, stopped := true, stopSnapshot := Some(s.stored))
    ensures s.thread.Running? && s.onEvent.None? ==> (Next(s, Check).thread.Exited? <==> s.stopping && s.active == 0)
  {
    RunTwo(s, Stop, StopCancel);
  }
}
