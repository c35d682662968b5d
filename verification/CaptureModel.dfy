/** Who owns a capture: siano-capture-host.c, siano-capture-consumer.cpp and the flags of
    siano-receiver-adapter.cpp, as one state and the calls on it. What the packet session, the thread
    library and the device answer is given with each call. */
module CaptureModel {
  import opened Wire
  import Q = QueueModel

  /** A capture host: its session, worker_started, worker_error, and whether its thread may be running. */
  datatype Host = Host(generation: nat, started: bool, failed: bool, alive: bool)

  datatype Error = Busy | InvalidArgument | NotFound | Internal | ResourceLimit | DeviceError(rc: int)

  datatype Result = Success | Failure(error: Error)

  /** What siano_capture_host_start is answered: memory, the pump, and pthread_create. */
  datatype Answers = Answers(memory: bool, pump: int, thread: int)

  datatype State = State(
    initialized: bool,
    isOpen: bool,
    attached: bool,
    host: Option<Host>,
    queue: Q.Queue,
    closedUnderWorker: bool)    // close_device was reached while a worker could be running

  const START := State(false, false, false, None, Q.Init(false), false)

  datatype Call =
    | Open(initialised: bool, rc: int)
    | Close
    | Attach(session: Result, hasRun: bool, answers: Answers)
    | Detach(joined: int, session: Result)
    | StopCapture(joined: int, session: Result)
    | Shutdown
    | WorkerEnds(failed: bool)         // the worker leaves its loop by itself
    | Traffic(queue: Q.Queue)          // whatever else happens to the queue

  function CloseDevice(s: State): State {
    s.(initialized := false,
       closedUnderWorker := s.closedUnderWorker || (s.host.Some? && s.host.value.alive))
  }

  // ---------------------------------------------------------------- Consumer

  function HostStartResult(q: Q.Queue, a: Answers): int {
    if !a.memory then -ENOMEM
    else if Q.CaptureStartResult(q) != 0 then Q.CaptureStartResult(q)
    else if a.pump != 0 then a.pump else -a.thread
  }

  function HostStartQueue(q: Q.Queue, a: Answers): Q.Queue {
    if !a.memory || Q.CaptureStartResult(q) != 0 then q
    else if a.pump != 0 || a.thread != 0 then Q.CaptureStopped(Q.CaptureStarted(q))
    else Q.CaptureStarted(q)
  }

  /** siano_capture_host_stop: the session ends in any case; the worker only if it is joined. */
  function HostStopped(h: Host, joined: int): Host {
    if !h.started || joined != 0 then h else h.(started := false, alive := false)
  }

  function HostStopResult(h: Host, joined: int): int {
    if !h.started then 0 else if joined != 0 then -joined else if h.failed then -EIO else 0
  }

  function StartError(rc: int): Error {
    if rc == -EOVERFLOW then ResourceLimit else if rc == -EALREADY then Busy
    else if rc == -EINVAL then InvalidArgument else Internal
  }

  /** Consumer::start */
  function Started(s: State, session: Result, hasRun: bool, a: Answers): (State, Result) {
    if s.host.Some? then (s, Failure(InvalidArgument))
    else if session.Failure? then (s, session)
    else if !hasRun then (s, Failure(Internal))
    else
      var rc, q := HostStartResult(s.queue, a), HostStartQueue(s.queue, a);
      if rc != 0 then (s.(queue := q), Failure(StartError(rc)))
      else (s.(queue := q, host := Some(Host(q.captureGeneration, true, false, true))), Success)
  }

  /** Consumer::stop */
  function Stopped(s: State, joined: int, session: Result): (State, Result) {
    if s.host.None? then (s, Failure(NotFound))
    else
      var h := HostStopped(s.host.value, joined);
      var t := s.(queue := if s.host.value.started then Q.CaptureStopped(s.queue) else s.queue);
      if h.started then (t.(host := Some(h)), Failure(Internal))
      else (t.(host := None),
            if session.Failure? then session
            else if HostStopResult(s.host.value, joined) == 0 then Success else Failure(Internal))
  }

  predicate Quiesced(host: Option<Host>) {
    host.None? || !host.value.started
  }

  // ---------------------------------------------------------------- ReceiverAdapter

  /** The common tail of detach and stop_capture. */
  function StoppedCapture(s: State, joined: int, session: Result): (State, Result) {
    var (t, r) := Stopped(s, joined, session);
    (t.(attached := if Quiesced(t.host) then false else t.attached),
     if r == Failure(NotFound) then Success else r)
  }

  function Next(s: State, call: Call): (State, Result) {
    match call
    case Open(initialised, rc) =>
      if s.isOpen then (s, Failure(Busy))
      else if !initialised then (s, Failure(Internal))
      else
        var t := s.(queue := Q.Init(false));
        if rc != 0 then (CloseDevice(t), Failure(DeviceError(rc)))
        else (t.(initialized := true, isOpen := true), Success)
    case Close =>
      if s.attached then (s, Failure(Busy))
      else if !s.initialized then (s, Success)
      else (CloseDevice(s).(isOpen := false), Success)
    case Attach(session, hasRun, answers) =>
      if !s.isOpen || s.attached then (s, Failure(Busy))
      else
        var (t, r) := Started(s, session, hasRun, answers);
        (t.(attached := r.Success?), r)
    case Detach(joined, session) =>
      if !s.attached then (s, Success) else StoppedCapture(s, joined, session)
    case StopCapture(joined, session) => StoppedCapture(s, joined, session)
    case Shutdown => (s, if s.attached then Failure(Busy) else Success)
    case WorkerEnds(failed) =>
      if s.host.None? then (s, Success)
      else (s.(host := Some(s.host.value.(alive := false, failed := s.host.value.failed || failed))), Success)
    case Traffic(q) =>
      (if q.captureEnabled == s.queue.captureEnabled && q.captureGeneration == s.queue.captureGeneration
       then s.(queue := q) else s, Success)
  }

  function Run(s: State, calls: seq<Call>): State
    decreases |calls|
  {
    if calls == [] then s else Run(Next(s, calls[0]).0, calls[1..])
  }

  // ---------------------------------------------------------------- ownership

  /** A host that has not been joined exists exactly while a stream is attached, and only while
      the device is open; a capture session is enabled only for that host. */
  ghost predicate Inv(s: State) {
    && s.initialized == s.isOpen
    && (s.attached <==> s.host.Some?)
    && (s.host.Some? ==> s.isOpen && s.host.value.started)
    && !s.closedUnderWorker
    && SessionOwned(s.host, s.queue)
  }

  ghost predicate SessionOwned(host: Option<Host>, q: Q.Queue) {
    && q.captureGeneration <= UINT64_MAX
    && (host.Some? ==> host.value.generation <= q.captureGeneration)
    && (q.captureEnabled ==> host.Some? && host.value.generation == q.captureGeneration)
  }

  lemma NextKeepsInv(s: State, call: Call)
    requires Inv(s)
    ensures Inv(Next(s, call).0)
  {
  }

  /** Over every sequence of calls, whatever the environment answers: the device is initialised
      exactly when it is open, a stream is attached exactly when a host exists, a host has not been
      joined, the device was never closed under a running worker, and no capture session is left
      enabled without its host. */
  lemma {:induction false} OwnershipHolds(s: State, calls: seq<Call>)
    requires Inv(s)
    ensures Inv(Run(s, calls))
    decreases |calls|
  {
    if calls != [] {
      NextKeepsInv(s, calls[0]);
      OwnershipHolds(Next(s, calls[0]).0, calls[1..]);
    }
  }

  /** Nothing is held: not the device, not a host, not a session. */
  ghost predicate Released(s: State) {
    !s.initialized && !s.isOpen && !s.attached && s.host.None? && !s.queue.captureEnabled && !s.closedUnderWorker
  }

  /** A stop whose join fails has already ended the session, so that the worker's next pop sends it
      out of its loop, and keeps everything else; meanwhile the device cannot be closed; a later stop
      whose join works, and a close, release everything. */
  lemma FailedJoinIsRecoverable(calls: seq<Call>, joined: int, session: Result)
    requires Run(START, calls).attached && joined != 0
    ensures var s := Run(START, calls);
            var t := s.(queue := Q.CaptureStopped(s.queue));
            && Next(s, StopCapture(joined, session)) == (t, Failure(Internal))
            && Next(s, Detach(joined, session)) == (t, Failure(Internal))
            && Q.Ended(t.queue, s.host.value.generation) && WorkerLeaves(t.queue, s.host.value.generation)
            && Next(t, Close) == (t, Failure(Busy)) && Next(t, Shutdown) == (t, Failure(Busy))
            && Released(Run(t, [StopCapture(0, session), Close]))
  {
    OwnershipHolds(START, calls);
    var s := Run(START, calls);
    var t := s.(queue := Q.CaptureStopped(s.queue));
    assert Inv(t) by {
      NextKeepsInv(s, StopCapture(joined, session));
    }
    StopAndClose(t, session);
  }

  /** The pop of a worker whose session has ended is an error on which it leaves its loop. */
  predicate WorkerLeaves(q: Q.Queue, generation: nat) {
    var p := Q.PopCapture(q, generation);
    p.Error? && p.rc != -EAGAIN
  }

  lemma StopAndClose(s: State, session: Result)
    requires Inv(s)
    ensures Released(Run(s, [StopCapture(0, session), Close]))
  {
    var t := Next(s, StopCapture(0, session)).0;
    assert [StopCapture(0, session), Close][1..] == [Close];
    assert Run(t, [Close]) == Run(Next(t, Close).0, []);
  }

  // ---------------------------------------------------------------- what callers are told

  /** What a session start is told when the host could not be started. */
  lemma StartErrors(rc: int)
    ensures StartError(rc) == ResourceLimit <==> rc == -75
    ensures StartError(rc) == Busy <==> rc == -114
    ensures StartError(rc) == InvalidArgument <==> rc == -22
    ensures StartError(rc).ResourceLimit? || StartError(rc).Busy? || StartError(rc).InvalidArgument? || StartError(rc).Internal?
  {
  }

  /** Everything that must hold for an attachment to succeed. */
  predicate CanAttach(s: State, session: Result, hasRun: bool, a: Answers) {
    && s.isOpen && !s.attached && session.Success? && hasRun && a.memory && a.pump == 0 && a.thread == 0
    && !s.queue.closed && !s.queue.overflowed && s.queue.captureGeneration < 0xFFFF_FFFF_FFFF_FFFF
  }

  /** When an attachment succeeds and what it then leaves, and the reasons of a failure, which leaves
      host, attachment and session as they were. */
  lemma AttachAnswers(s: State, session: Result, hasRun: bool, a: Answers)
    requires Inv(s)
    ensures var (t, r) := Next(s, Attach(session, hasRun, a));
            var g := s.queue.captureGeneration + 1;
            && (r.Success? <==> CanAttach(s, session, hasRun, a))
            && (r.Success? ==>
                  && t.attached && t.host == Some(Host(g, true, false, true))
                  && t.queue.captureEnabled && t.queue.captureGeneration == g && t.queue.items == [])
            && (r.Failure? ==>
                  && t.host == s.host && t.attached == s.attached && t.isOpen == s.isOpen
                  && t.queue.captureEnabled == s.queue.captureEnabled)
    ensures var r := Next(s, Attach(session, hasRun, a)).1;
            && (!s.isOpen || s.attached ==> r == Failure(Busy))
            && (s.isOpen && !s.attached && session.Failure? ==> r == session)
            && (s.isOpen && !s.attached && session.Success? && (!hasRun || !a.memory) ==> r == Failure(Internal))
            && (s.isOpen && !s.attached && session.Success? && hasRun && a.memory ==>
                  && (s.queue.closed || s.queue.overflowed ==> r == Failure(Internal))
                  && (!s.queue.closed && !s.queue.overflowed && s.queue.captureGeneration == 0xFFFF_FFFF_FFFF_FFFF
                      ==> r == Failure(ResourceLimit)))
  {
  }

  /** A stop without a host has nothing to do; with one whose worker is joined it releases it and
      reports the session's error, or that the worker had failed; but a session that is not found
      counts as success, and then a failed worker goes unreported. */
  lemma StopAnswers(s: State, session: Result)
    requires Inv(s)
    ensures s.host.None? ==> Next(s, StopCapture(0, session)) == (s, Success) == Next(s, Detach(0, session))
    ensures s.host.Some? ==>
              var r := if session == Failure(NotFound) then Success else if session.Failure? then session
                       else if s.host.value.failed then Failure(Internal) else Success;
              Next(s, StopCapture(0, session)) == Next(s, Detach(0, session)) ==
              (s.(host := None, attached := false, queue := Q.CaptureStopped(s.queue)), r)
  {
  }

  /** Opening, closing and shutting down. */
  lemma OpenAndCloseAnswer(s: State, initialised: bool, rc: int)
    requires Inv(s)
    ensures Next(s, Open(initialised, rc)).1 ==
            if s.isOpen then Failure(Busy) else if !initialised then Failure(Internal)
            else if rc != 0 then Failure(DeviceError(rc)) else Success
    ensures !s.isOpen && initialised && rc == 0 ==>
              Next(s, Open(initialised, rc)).0 == s.(initialized := true, isOpen := true, queue := Q.Init(false))
    ensures s.attached ==> Next(s, Close) == (s, Failure(Busy)) == Next(s, Shutdown)
    ensures !s.attached ==>
              Next(s, Close) == (s.(initialized := false, isOpen := false), Success) && Next(s, Shutdown) == (s, Success)
  {
    if !s.attached {
      assert s.host.None? && s.(initialized := s.initialized, isOpen := s.isOpen) == s;
    }
  }
}
