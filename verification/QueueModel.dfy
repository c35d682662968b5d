/** The transport-stream queue between the USB callbacks and the consumers, on values.
    Each function is one critical section of siano-device.c under the queue mutex, with the
    policy decisions of queue-policy.c. */
module QueueModel {
  import opened Wire

  const SLOTS: nat := 256

  /** What a transfer is stamped with when it is submitted. `epoch` and `generation` are the
      transfer context; `tunes` (successful retunes finished by then) and `captured` (a
      capture session was enabled) exist only for statements. */
  datatype Stamp = Stamp(epoch: nat, generation: nat, tunes: nat, captured: bool)

  /** A queued chunk, with the stamp of the transfer it came from (for statements only). */
  datatype Chunk = Chunk(data: seq<Cell>, stamp: Stamp)

  datatype Queue = Queue(
    items: seq<Chunk>,
    drops: nat,
    closed: bool,
    failOnDrop: bool,
    overflowed: bool,
    discarding: bool,
    epoch: nat,
    captureEnabled: bool,
    captureGeneration: nat)

  function Init(captureEnabled: bool): Queue {
    Queue([], 0, false, false, false, false, 0, captureEnabled, 0)
  }

  datatype Fate = Rejected | Dropped | Stored

  predicate EpochAccepts(q: Queue, epoch: nat) {
    !q.discarding && epoch == q.epoch
  }

  predicate Accepts(q: Queue, stamp: Stamp) {
    q.captureEnabled && q.captureGeneration == stamp.generation && EpochAccepts(q, stamp.epoch) && !q.closed
  }

  function Clip(data: seq<Cell>): (r: seq<Cell>)
    ensures |r| <= TRANSFER_SIZE && r <= data
  {
    if |data| > TRANSFER_SIZE then data[..TRANSFER_SIZE] else data
  }

  function EnqueueFate(q: Queue, stamp: Stamp): Fate {
    if !Accepts(q, stamp) then Rejected else if |q.items| == SLOTS then Dropped else Stored
  }

  /** ts_enqueue_generation */
  function Enqueued(q: Queue, stamp: Stamp, data: seq<Cell>): Queue {
    match EnqueueFate(q, stamp)
    case Rejected => q
    case Dropped =>
      var dropped := q.(drops := q.drops + 1);
      if q.failOnDrop then dropped.(closed := true, overflowed := true) else dropped
    case Stored => q.(items := q.items + [Chunk(Clip(data), stamp)])
  }

  datatype Popped = Data(chunk: Chunk) | Error(rc: int)

  function Taken(q: Queue, p: Popped): Queue {
    if p.Data? && q.items != [] then q.(items := q.items[1..]) else q
  }

  /** ts_pop, once its wait is over */
  function Pop(q: Queue): Popped {
    if q.overflowed then Error(-ENOBUFS)
    else if q.items != [] then Data(q.items[0])
    else Error(-EAGAIN)
  }

  /** ts_pop_capture, once its wait is over */
  function PopCapture(q: Queue, generation: nat): Popped {
    if q.overflowed then Error(-ENOBUFS)
    else if !q.captureEnabled || q.captureGeneration != generation then Error(-ECANCELED)
    else if q.items != [] then Data(q.items[0])
    else Error(-EAGAIN)
  }

  function CaptureStartResult(q: Queue): int {
    if q.closed || q.overflowed then -ESHUTDOWN
    else if q.captureEnabled then -EALREADY
    else if q.captureGeneration == UINT64_MAX then -EOVERFLOW
    else 0
  }

  /** ts_queue_capture_start */
  function CaptureStarted(q: Queue): Queue {
    if CaptureStartResult(q) == 0
    then q.(captureGeneration := q.captureGeneration + 1, items := [], captureEnabled := true)
    else q
  }

  /** ts_queue_capture_stop: the generation saturates */
  function CaptureStopped(q: Queue): Queue {
    if !q.captureEnabled then q
    else q.(captureEnabled := false, items := [],
            captureGeneration := if q.captureGeneration != UINT64_MAX then q.captureGeneration + 1
                                 else q.captureGeneration)
  }

  /** ts_queue_retune_begin */
  function RetuneBegun(q: Queue): Queue {
    q.(epoch := q.epoch + 1, discarding := true)
  }

  /** ts_queue_retune_finish: only success empties the queue */
  function RetuneFinished(q: Queue, success: bool): Queue {
    q.(items := if success then [] else q.items, epoch := q.epoch + 1, discarding := false)
  }

  /** ts_queue_transfer_state, with the two facts the statements want */
  function StampOf(q: Queue, tunes: nat): Stamp {
    Stamp(q.epoch, q.captureGeneration, tunes, q.captureEnabled)
  }

  /** A capture session that can never again be the current one. */
  predicate Ended(q: Queue, generation: nat) {
    generation < q.captureGeneration || (generation == q.captureGeneration && !q.captureEnabled)
  }
}
