/** struct ts_queue as it stands: a ring of 256 slots with head, tail and count.
    Every call is proved to act on the ring as QueueModel acts on a bounded FIFO. */
module TsRing {
  import opened Wire
  import Q = QueueModel

  /** The slot i places after `head`. */
  function Slot(head: nat, i: nat): (k: nat)
    requires head < 256 && i <= 256
    ensures k < 256
  {
    if head + i < 256 then head + i else head + i - 256
  }

  /** The `count` slots of the ring from `head` on, oldest first. */
  function Ring(s: seq<Q.Chunk>, head: nat, count: nat): (r: seq<Q.Chunk>)
    requires |s| == 256 && head < 256 && count <= 256
    ensures |r| == count && forall i | 0 <= i < count :: r[i] == s[Slot(head, i)]
  {
    seq(count, i requires 0 <= i < count => s[Slot(head, i)])
  }

  lemma RingTail(s: seq<Q.Chunk>, head: nat, count: nat)
    requires |s| == 256 && head < 256 && 0 < count <= 256
    ensures s[head] == Ring(s, head, count)[0]
    ensures Ring(s, Slot(head, 1), count - 1) == Ring(s, head, count)[1..]
  {
    forall i | 0 <= i < count - 1
      ensures Ring(s, Slot(head, 1), count - 1)[i] == Ring(s, head, count)[1..][i]
    {
      assert Slot(Slot(head, 1), i) == Slot(head, i + 1);
    }
  }

  lemma RingPut(s: seq<Q.Chunk>, head: nat, count: nat, chunk: Q.Chunk)
    requires |s| == 256 && head < 256 && count < 256
    ensures Ring(s[Slot(head, count) := chunk], head, count + 1) == Ring(s, head, count) + [chunk]
  {
    forall i | 0 <= i < count ensures Slot(head, i) != Slot(head, count) {
    }
  }

  class TsQueue {
    const chunks: array<Q.Chunk>
    var head: nat
    var tail: nat
    var count: nat
    var drops: nat
    var closed: bool
    var failOnDrop: bool
    var overflowed: bool
    var discarding: bool
    var epoch: nat
    var captureEnabled: bool
    var captureGeneration: nat

    ghost predicate Valid()
      reads this
    {
      && chunks.Length == Q.SLOTS
      && head < Q.SLOTS && count <= Q.SLOTS
      && tail == Slot(head, count)
    }

    ghost function Items(): seq<Q.Chunk>
      requires Valid()
      reads this, chunks
    {
      Ring(chunks[..], head, count)
    }

    ghost function Model(): Q.Queue
      requires Valid()
      reads this, chunks
    {
      Q.Queue(Items(), drops, closed, failOnDrop, overflowed, discarding, epoch, captureEnabled, captureGeneration)
    }

    constructor (captureEnabled: bool)
      ensures Valid() && fresh(chunks) && Model() == Q.Init(captureEnabled)
    {
      chunks := new Q.Chunk[Q.SLOTS];
      head, tail, count, drops := 0, 0, 0, 0;
      closed, failOnDrop, overflowed, discarding := false, false, false, false;
      epoch, captureGeneration := 0, 0;
      this.captureEnabled := captureEnabled;
    }

    method Enqueue(stamp: Q.Stamp, data: seq<Cell>)
      requires Valid()
      modifies this, chunks
      ensures Valid() && Model() == Q.Enqueued(old(Model()), stamp, data)
    {
      if !captureEnabled || captureGeneration != stamp.generation ||
         !(!discarding && stamp.epoch == epoch) || closed {
        return;
      }
      if count == Q.SLOTS {
        drops := drops + 1;
        if failOnDrop {
          closed := true;
          overflowed := true;
        }
        return;
      }
      var length := if |data| > TRANSFER_SIZE then TRANSFER_SIZE else |data|;
      assert data[..length] == Q.Clip(data);
      PutTail(Q.Chunk(data[..length], stamp));
    }

    method PutTail(chunk: Q.Chunk)
      requires Valid() && count < Q.SLOTS
      modifies this, chunks
      ensures Valid() && Model() == old(Model()).(items := old(Items()) + [chunk])
    {
      RingPut(chunks[..], head, count, chunk);
      ghost var put := chunks[..][tail := chunk];
      chunks[tail] := chunk;
      assert chunks[..] == put;
      tail := (tail + 1) % 256;
      count := count + 1;
    }

    /** Takes the oldest chunk; the callers have checked that there is one. */
    method TakeHead() returns (chunk: Q.Chunk)
      requires Valid() && count != 0
      modifies this
      ensures Valid() && Items() == old(Items())[1..] && chunk == old(Items())[0]
      ensures Model() == old(Model()).(items := old(Items())[1..])
    {
      RingTail(chunks[..], head, count);
      chunk := chunks[head];
      head := (head + 1) % 256;
      count := count - 1;
    }

    method Pop() returns (r: Q.Popped)
      requires Valid()
      modifies this
      ensures Valid() && r == Q.Pop(old(Model())) && Model() == Q.Taken(old(Model()), r)
    {
      if overflowed {
        r := Q.Error(-ENOBUFS);
      } else if count != 0 {
        var chunk := TakeHead();
        r := Q.Data(chunk);
      } else {
        r := Q.Error(-EAGAIN);
      }
    }

    method PopCapture(generation: nat) returns (r: Q.Popped)
      requires Valid()
      modifies this
      ensures Valid() && r == Q.PopCapture(old(Model()), generation) && Model() == Q.Taken(old(Model()), r)
    {
      if overflowed {
        r := Q.Error(-ENOBUFS);
      } else if !captureEnabled || captureGeneration != generation {
        r := Q.Error(-ECANCELED);
      } else if count != 0 {
        var chunk := TakeHead();
        r := Q.Data(chunk);
      } else {
        r := Q.Error(-EAGAIN);
      }
    }

    method CaptureStart() returns (rc: int, generation: nat)
      requires Valid()
      modifies this
      ensures Valid() && rc == Q.CaptureStartResult(old(Model())) && Model() == Q.CaptureStarted(old(Model()))
      ensures rc == 0 ==> generation == Model().captureGeneration
    {
      rc, generation := 0, 0;
      if closed || overflowed {
        rc := -ESHUTDOWN;
      } else if captureEnabled {
        rc := -EALREADY;
      } else if captureGeneration == UINT64_MAX {
        rc := -EOVERFLOW;
      } else {
        captureGeneration := captureGeneration + 1;
        head, tail, count := 0, 0, 0;
        captureEnabled := true;
        generation := captureGeneration;
      }
    }

    method CaptureStop()
      requires Valid()
      modifies this
      ensures Valid() && Model() == Q.CaptureStopped(old(Model()))
    {
      if captureEnabled {
        captureEnabled := false;
        if captureGeneration != UINT64_MAX {
          captureGeneration := captureGeneration + 1;
        }
        head, tail, count := 0, 0, 0;
      }
    }

    method RetuneBegin()
      requires Valid()
      modifies this
      ensures Valid() && Model() == Q.RetuneBegun(old(Model()))
    {
      epoch := epoch + 1;
      discarding := true;
    }

    method RetuneFinish(tuneResult: int) returns (succeeded: bool)
      requires Valid()
      modifies this
      ensures Valid() && succeeded == (tuneResult == 0)
      ensures Model() == Q.RetuneFinished(old(Model()), succeeded)
    {
      succeeded := tuneResult == 0;
      if succeeded {
        head, tail, count := 0, 0, 0;
      }
      epoch := epoch + 1;
      discarding := false;
    }
  }
}
