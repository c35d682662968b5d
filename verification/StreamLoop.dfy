/** The consumer side of siano-ts.c and siano-capture-host.c: the turns that drive the real queue
    and the real pump, proved to be the Turn and RetuneFinish events of Receiver. */
module StreamLoop {
  import opened Wire
  import Q = QueueModel
  import P = PumpModel
  import R = Receiver
  import TsRing
  import OutputWriter

  /** What every chunk in the queue satisfies: it fits in one feed. */
  ghost predicate Feedable(q: Q.Queue) {
    forall c | c in q.items :: |c.data| <= TRANSFER_SIZE
  }

  /** The pump after the pop of a turn: fed if it was idle and there was a chunk. */
  ghost function AfterPop(q: Q.Queue, p: P.Pump): (r: P.Pump)
    requires p.Valid() && Feedable(q)
    ensures r.Valid()
  {
    var popped := Q.Pop(q);
    if p.busy || popped.Error? then p else P.Fed(p, popped.chunk.data)
  }

  /** siano_stream_state_stream_result of a pop: a USB error outranks what the queue says. */
  function PopResult(popped: Q.Popped, streamError: int): int {
    if streamError < 0 then streamError else if popped.Error? then popped.rc else 0
  }

  /** One turn of stream_ts or stream_ts_control: pop and feed only an idle pump, step a busy one.
      `stopped` is the error that ends the loop before anything is written. */
  method Turn(queue: TsRing.TsQueue, pump: OutputWriter.OutputPump, streamError: int, answers: seq<int>)
    returns (stopped: int, rc: int, out: seq<Cell>)
    requires queue.Valid() && pump.Valid() && Feedable(queue.Model())
    requires {queue, queue.chunks} !! {pump, pump.hold, pump.scratch}
    modifies queue, pump, pump.hold, pump.scratch
    ensures queue.Valid() && pump.Valid()
    ensures queue.Model() == if old(pump.busy) then old(queue.Model())
                             else Q.Taken(old(queue.Model()), Q.Pop(old(queue.Model())))
    ensures stopped == (var r := PopResult(Q.Pop(old(queue.Model())), streamError);
                        if !old(pump.busy) && r < 0 && r != -EAGAIN then r else 0)
    ensures !old(pump.busy) && streamError < 0 ==> stopped == if streamError == -11 then 0 else streamError
    ensures !old(pump.busy) && streamError >= 0 ==> stopped == if old(queue.overflowed) then -105 else 0
    ensures old(pump.busy) ==> stopped == 0
    ensures stopped == 0 && streamError >= 0 ==>
              var r := P.Step(AfterPop(old(queue.Model()), old(pump.View())), answers);
              pump.View() == r.pump && rc == r.rc && out == r.out
    ensures !old(pump.busy) && (stopped != 0 || streamError < 0) ==> pump.View() == old(pump.View()) && out == []
  {
    stopped, rc, out := 0, P.DONE, [];
    if !pump.busy {
      var popped := queue.Pop();
      var result := PopResult(popped, streamError);
      if result < 0 && result != -EAGAIN {
        stopped := result;
        return;
      }
      if result == 0 {
        pump.Feed(popped.chunk.data);
      }
    }
    if pump.busy {
      rc, out := pump.Step(answers);
    }
  }

  /** What Turn ensures of the queue and the pump, without a USB error, is the Turn event of Receiver, so its theorems
      speak of this code. */
  lemma TurnIsTheEvent(s: R.State, answers: seq<int>)
    requires R.Inv(s)
    ensures Feedable(s.queue)
    ensures var t := R.Next(s, R.Turn(answers));
            var r := P.Step(AfterPop(s.queue, s.out.pump), answers);
            && t.queue == (if s.out.pump.busy then s.queue else Q.Taken(s.queue, Q.Pop(s.queue)))
            && t.out.pump == r.pump && t.out.emitted == s.out.emitted + r.out
  {
    forall c | c in s.queue.items ensures |c.data| <= TRANSFER_SIZE {
      assert R.Current(s.queue, s.tunes, c);
    }
    assert s.out.emitted + [] == s.out.emitted;
  }

  /** stream_retune_finish: success empties the queue and retunes the pump; failure keeps both. */
  method RetuneFinish(queue: TsRing.TsQueue, pump: OutputWriter.OutputPump, tuneResult: int) returns (succeeded: bool)
    requires queue.Valid() && pump.Valid()
    requires {queue, queue.chunks} !! {pump, pump.hold, pump.scratch}
    modifies queue, pump, pump.scratch
    ensures queue.Valid() && pump.Valid() && succeeded == (tuneResult == 0)
    ensures queue.Model() == Q.RetuneFinished(old(queue.Model()), succeeded)
    ensures pump.View() == if succeeded then P.Retuned(old(pump.View())) else old(pump.View())
  {
    succeeded := queue.RetuneFinish(tuneResult);
    if succeeded {
      pump.holdLen := 0;
      pump.Retune();
    }
  }

  /** One round of capture_worker after a successful pop: the sink pump is idle, is fed, and is idle
      again exactly when the sink took every packet; otherwise the worker leaves its loop. */
  method CaptureRound(pump: OutputWriter.OutputPump, data: seq<Cell>, answers: seq<int>) returns (goesOn: bool, out: seq<Cell>)
    requires pump.Valid() && pump.sink && !pump.busy && |data| <= TRANSFER_SIZE
    modifies pump, pump.hold, pump.scratch
    ensures pump.Valid() && (goesOn <==> !pump.busy)
    ensures goesOn ==> out == P.Scan(old(pump.View()).hold + data).out && pump.View().hold == P.Scan(old(pump.View()).hold + data).tail
    ensures out <= P.Scan(old(pump.View()).hold + data).out
  {
    pump.Feed(data);
    ghost var p := pump.View();
    var rc;
    rc, out := pump.Step(answers);
    P.StepFollowsPlan(p, answers);
    goesOn := rc == P.DONE;
  }
}
