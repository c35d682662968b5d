/** CaptureModel as the objects that hold its state, over the real ring. Each call keeps the ownership invariant. */
module CaptureObjects {
  import opened Wire
  import M = CaptureModel
  import Q = QueueModel
  import TsRing

  class CaptureHost {
    const queue: TsRing.TsQueue
    const generation: nat
    var workerStarted: bool
    var workerError: bool
    ghost var alive: bool

    ghost function Model(): M.Host
      reads this
    {
      M.Host(generation, workerStarted, workerError, alive)
    }

    /** The worker can run only until it has been joined. */
    ghost predicate Valid()
      reads this
    {
      alive ==> workerStarted
    }

    constructor (queue: TsRing.TsQueue, generation: nat)
      ensures this.queue == queue && Valid() && Model() == M.Host(generation, true, false, true)
    {
      this.queue, this.generation := queue, generation;
      workerStarted, workerError, alive := true, false, true;
    }

    /** `joined` is what pthread_join answers. No session is left behind, and the host counts as
        stopped only when its worker has ended. */
    method Stop(joined: int) returns (rc: int)
      requires Valid() && queue.Valid()
      modifies this, queue
      ensures Valid() && queue.Valid()
      ensures workerStarted <==> old(workerStarted) && joined != 0
      ensures !workerStarted ==> !alive
      ensures rc == 0 <==> !workerStarted && (workerError ==> !old(workerStarted))
      ensures old(workerStarted) ==> !queue.captureEnabled
      ensures old(workerStarted) && old(queue.captureEnabled) ==> Q.Ended(queue.Model(), old(queue.captureGeneration))
      ensures queue.Model() == if old(workerStarted) then Q.CaptureStopped(old(queue.Model())) else old(queue.Model())
      ensures Model() == M.HostStopped(old(Model()), joined) && rc == M.HostStopResult(old(Model()), joined)
    {
      if !workerStarted {
        return 0;
      }
      queue.CaptureStop();
      if joined != 0 {
        return -joined;
      }
      workerStarted, alive := false, false;
      rc := if workerError then -EIO else 0;
    }
  }

  class Consumer {
    var host: CaptureHost?

    ghost function Model(): Option<M.Host>
      reads this, host
    {
      if host == null then None else Some(host.Model())
    }

    /** A host that is held has not been joined. */
    ghost predicate Valid()
      reads this, host, if host == null then null else host.queue
    {
      host != null ==> host.Valid() && host.workerStarted && host.queue.Valid()
    }

    constructor ()
      ensures Valid() && host == null
    {
      host := null;
    }

    /** A start that fails leaves no host and no session; one that succeeds leaves a running worker
        and its session. */
    method Start(queue: TsRing.TsQueue, session: M.Result, hasRun: bool, answers: M.Answers) returns (r: M.Result)
      requires Valid() && queue.Valid()
      modifies this, queue
      ensures Valid() && queue.Valid()
      ensures r.Success? <==> old(host) == null && session.Success? && hasRun && M.HostStartResult(old(queue.Model()), answers) == 0
      ensures r.Success? ==> host != null && fresh(host) && host.queue == queue && host.Valid() && host.alive
      ensures r.Success? ==> queue.captureEnabled && host.generation == queue.captureGeneration == old(queue.captureGeneration) + 1
      ensures r.Failure? ==> host == old(host) && queue.captureEnabled == old(queue.captureEnabled)
      ensures old(host) != null ==> queue.Model() == old(queue.Model())
      ensures forall s: M.State | s.host == old(Model()) && s.queue == old(queue.Model()) ::
                M.Started(s, session, hasRun, answers) == (s.(host := Model(), queue := queue.Model()), r)
    {
      if host != null {
        return M.Failure(M.InvalidArgument);
      }
      if session.Failure? {
        return session;
      }
      if !hasRun {
        return M.Failure(M.Internal);
      }
      var rc := StartHost(queue, answers);
      r := if rc == 0 then M.Success else M.Failure(M.StartError(rc));
    }

    /** siano_capture_host_start: the session is stopped again when the pump or the thread fails. */
    method StartHost(queue: TsRing.TsQueue, answers: M.Answers) returns (rc: int)
      requires queue.Valid() && host == null
      modifies this, queue
      ensures queue.Valid() && rc == M.HostStartResult(old(queue.Model()), answers)
      ensures queue.Model() == M.HostStartQueue(old(queue.Model()), answers)
      ensures queue.captureEnabled <==> rc == 0 || old(queue.captureEnabled)
      ensures if rc == 0 then
                && host != null && fresh(host) && host.queue == queue && host.Valid() && host.alive
                && host.Model() == M.Host(queue.captureGeneration, true, false, true)
                && queue.captureGeneration == old(queue.captureGeneration) + 1
              else host == null
    {
      if !answers.memory {
        return -ENOMEM;
      }
      var generation;
      rc, generation := queue.CaptureStart();
      if rc != 0 {
        return;
      }
      if answers.pump != 0 {
        queue.CaptureStop();
        return answers.pump;
      }
      if answers.thread != 0 {
        queue.CaptureStop();
        return -answers.thread;
      }
      host := new CaptureHost(queue, generation);
    }

    /** The host goes exactly when its worker has been joined, and the session in any case. */
    method Stop(joined: int, session: M.Result) returns (r: M.Result)
      requires Valid()
      modifies this, host, if host == null then null else host.queue
      ensures Valid()
      ensures old(host) == null ==> host == null && r == M.Failure(M.NotFound)
      ensures old(host) != null ==> old(host.queue).Valid() && !old(host.queue).captureEnabled
      ensures old(host) != null ==> old(host.queue).Model() == Q.CaptureStopped(old(host.queue.Model()))
      ensures old(host) != null && joined != 0 ==>
                host == old(host) && host.Model() == old(host.Model()) && r == M.Failure(M.Internal)
      ensures old(host) != null && joined == 0 ==>
                && host == null && !old(host).alive
                && r == if session.Failure? then session else if old(host.workerError) then M.Failure(M.Internal) else M.Success
    {
      if host == null {
        return M.Failure(M.NotFound);
      }
      var rc := host.Stop(joined);
      if host.workerStarted {
        return M.Failure(M.Internal);
      }
      host := null;
      if session.Failure? {
        return session;
      }
      r := if rc == 0 then M.Success else M.Failure(M.Internal);
    }
  }

  class ReceiverAdapter {
    const consumer: Consumer
    var queue: TsRing.TsQueue        // the queue of device_, made anew by each opening
    var initialized: bool
    var isOpen: bool
    var streamAttached: bool
    ghost var closedUnderWorker: bool

    ghost predicate Linked()
      reads this, queue, consumer, consumer.host, if consumer.host == null then null else consumer.host.queue
    {
      && queue.Valid() && consumer.Valid()
      && (consumer.host != null ==> consumer.host.queue == queue)
    }

    ghost function Model(): M.State
      requires queue.Valid()
      reads this, queue, queue.chunks, consumer, consumer.host
    {
      M.State(initialized, isOpen, streamAttached, consumer.Model(), queue.Model(), closedUnderWorker)
    }

    /** The ownership invariant, which every call finds and leaves. */
    ghost predicate Valid()
      reads this, queue, queue.chunks, consumer, consumer.host,
            if consumer.host == null then null else consumer.host.queue
    {
      Linked() && M.Inv(Model())
    }

    constructor ()
      ensures Valid() && Model() == M.START && fresh(consumer) && fresh(queue) && fresh(queue.chunks)
    {
      consumer := new Consumer();
      queue := new TsRing.TsQueue(false);
      initialized, isOpen, streamAttached, closedUnderWorker := false, false, false, false;
    }

    /** close_device; its callers must have seen to the worker. */
    method CloseDevice()
      requires Linked()
      modifies this
      ensures Linked() && queue == old(queue) && Model() == M.CloseDevice(old(Model()))
    {
      closedUnderWorker := closedUnderWorker || (consumer.host != null && consumer.host.alive);
      initialized := false;
    }

    /** A failed opening leaves the device as it was: closed, or open for its first user. */
    method Open(initialised: bool, rc: int) returns (r: M.Result)
      requires Valid()
      modifies this
      ensures Valid()
      ensures r.Success? <==> !old(isOpen) && initialised && rc == 0
      ensures isOpen <==> old(isOpen) || r.Success?
      ensures r.Success? ==> fresh(queue) && queue.Model() == Q.Init(false)
      ensures (Model(), r) == M.Next(old(Model()), M.Open(initialised, rc))
    {
      if isOpen {
        return M.Failure(M.Busy);
      }
      if !initialised {
        return M.Failure(M.Internal);
      }
      queue := new TsRing.TsQueue(false);
      initialized := true;
      if rc != 0 {
        CloseDevice();
        return M.Failure(M.DeviceError(rc));
      }
      isOpen := true;
      r := M.Success;
    }

    /** Closing succeeds exactly when no host is left, hence never under a worker. */
    method Close() returns (r: M.Result)
      requires Valid()
      modifies this
      ensures Valid()
      ensures r.Success? <==> consumer.host == null
      ensures isOpen <==> old(isOpen) && r.Failure?
      ensures (Model(), r) == M.Next(old(Model()), M.Close)
    {
      if streamAttached {
        return M.Failure(M.Busy);
      }
      if !initialized {
        return M.Success;
      }
      CloseDevice();
      isOpen := false;
      r := M.Success;
    }

    /** Attaching succeeds exactly when it leaves a new host with a running worker and its own session;
        otherwise it changes neither host nor session. */
    method Attach(session: M.Result, hasRun: bool, answers: M.Answers) returns (r: M.Result)
      requires Valid()
      modifies this, consumer, queue
      ensures Valid() && queue == old(queue)
      ensures r.Success? <==> consumer.host != null && fresh(consumer.host)
      ensures r.Success? ==> streamAttached && consumer.host.alive
      ensures r.Success? ==> queue.captureEnabled && queue.captureGeneration == consumer.host.generation
      ensures r.Failure? ==> consumer.host == old(consumer.host) && queue.captureEnabled == old(queue.captureEnabled)
      ensures (Model(), r) == M.Next(old(Model()), M.Attach(session, hasRun, answers))
    {
      if !isOpen || streamAttached {
        return M.Failure(M.Busy);
      }
      r := consumer.Start(queue, session, hasRun, answers);
      if r.Failure? {
        return;
      }
      streamAttached := true;
    }

    /** The session is over in any case. The host is gone exactly when its worker was joined; a failed
        join leaves host and attachment as they were and says so. */
    method StopCapture(joined: int, session: M.Result) returns (r: M.Result)
      requires Valid()
      modifies this, consumer, consumer.host, queue
      ensures Valid() && queue == old(queue)
      ensures !queue.captureEnabled
      ensures consumer.host == null <==> old(consumer.host) == null || joined == 0
      ensures consumer.host != null ==>
                consumer.host == old(consumer.host) && streamAttached && r == M.Failure(M.Internal)
      ensures consumer.host == null && old(consumer.host) != null ==> !old(consumer.host).alive
      ensures (Model(), r) == M.Next(old(Model()), M.StopCapture(joined, session))
    {
      r := consumer.Stop(joined, session);
      if consumer.host == null || !consumer.host.workerStarted {
        streamAttached := false;
      }
      if r == M.Failure(M.NotFound) {
        r := M.Success;
      }
    }

    /** The same for the holder of the stream. */
    method Detach(joined: int, session: M.Result) returns (r: M.Result)
      requires Valid()
      modifies this, consumer, consumer.host, queue
      ensures Valid() && queue == old(queue)
      ensures !queue.captureEnabled
      ensures streamAttached <==> old(streamAttached) && joined != 0
      ensures streamAttached ==> consumer.host == old(consumer.host) && r == M.Failure(M.Internal)
      ensures !streamAttached && old(consumer.host) != null ==> consumer.host == null && !old(consumer.host).alive
      ensures (Model(), r) == M.Next(old(Model()), M.Detach(joined, session))
    {
      if !streamAttached {
        return M.Success;
      }
      r := StopCapture(joined, session);
    }
  }
}
