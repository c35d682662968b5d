/** output-writer.c as it stands: two fixed buffers, offsets into them, and loops over both.
    Every call is proved to do to the buffers what PumpModel says. */
module OutputWriter {
  import opened Wire
  import M = PumpModel

  /** n elements found `from` places further on in another sequence, or in the used part of it. */
  lemma SameSlice(s: seq<Cell>, t: seq<Cell>, from: nat, n: nat, used: nat)
    requires n <= |s| && from + n <= used <= |t|
    requires forall k | 0 <= k < n :: s[k] == t[from + k]
    ensures s[..n] == t[..used][from..from + n]
  {
    var r := t[..used][from..from + n];
    forall k | 0 <= k < n ensures s[..n][k] == r[k] {
      assert r[k] == t[from + k];
    }
  }

  class OutputPump {
    const sink: bool
    const hold: array<Cell>
    const scratch: array<Cell>
    var holdLen: nat
    var scratchLen: nat
    var sendOff: nat
    var packetOff: nat
    var resumeOff: nat
    var writing: bool
    var busy: bool

    ghost predicate Bounded()
      reads this
    {
      && hold.Length == PACKET && scratch.Length == TRANSFER_SIZE + PACKET && hold != scratch
      && holdLen <= hold.Length && scratchLen <= scratch.Length
    }

    ghost function View(): M.Pump
      requires Bounded()
      reads this, hold, scratch
    {
      M.Pump(sink, hold[..holdLen], scratch[..scratchLen], sendOff, packetOff, resumeOff, writing, busy)
    }

    ghost predicate Valid()
      reads this, hold, scratch
    {
      Bounded() && View().Valid()
    }

    constructor (sink: bool)
      ensures Valid() && fresh(hold) && fresh(scratch) && View() == M.Init(sink)
    {
      this.sink := sink;
      hold := new Cell[PACKET];
      scratch := new Cell[TRANSFER_SIZE + PACKET];
      holdLen, scratchLen, sendOff, packetOff, resumeOff := 0, 0, 0, 0, 0;
      writing, busy := false, false;
    }

    method Reset()
      requires Valid()
      modifies this
      ensures Valid() && View() == M.Reset(old(View()))
    {
      holdLen, scratchLen, sendOff, packetOff, resumeOff := 0, 0, 0, 0, 0;
      writing, busy := false, false;
    }

    method Retune()
      requires Valid()
      modifies this, scratch
      ensures Valid() && View() == M.Retuned(old(View()))
    {
      if !writing || packetOff == 0 || packetOff >= PACKET || resumeOff > packetOff {
        Reset();
        return;
      }
      var remaining := PACKET - packetOff;
      var from := sendOff + (packetOff - resumeOff);
      ghost var before := scratch[..];
      forall k | 0 <= k < remaining {
        scratch[k] := scratch[from + k];
      }
      SameSlice(scratch[..], before, from, remaining, scratchLen);
      holdLen := 0;
      scratchLen := remaining;
      sendOff := 0;
      resumeOff := packetOff;
      writing, busy := true, true;
    }

    method Pending() returns (n: nat)
      requires Valid()
      ensures n == View().Pending()
    {
      if busy && resumeOff != 0 {
        n := scratchLen - sendOff - (packetOff - resumeOff);
      } else if busy {
        n := scratchLen - sendOff;
      } else {
        n := holdLen;
      }
    }

    method Feed(data: seq<Cell>)
      requires Valid() && !busy && |data| <= TRANSFER_SIZE
      modifies this, scratch
      ensures Valid() && View() == M.Fed(old(View()), data)
    {
      forall k | 0 <= k < holdLen {
        scratch[k] := hold[k];
      }
      forall k | 0 <= k < |data| {
        scratch[holdLen + k] := data[k];
      }
      assert scratch[..holdLen + |data|] == old(hold[..holdLen]) + data;
      scratchLen := holdLen + |data|;
      holdLen, sendOff, packetOff, resumeOff := 0, 0, 0, 0;
      writing, busy := false, true;
    }

    /** `ws` are the answers of the output calls made, in order; `out` is what they took. */
    method Step(ws: seq<int>) returns (rc: int, out: seq<Cell>)
      requires Valid()
      modifies this, hold, scratch
      ensures Valid()
      ensures var r := M.Step(old(View()), ws);
              View() == r.pump && rc == r.rc && out == r.out
    {
      out, rc := [], M.DONE;
      var left := ws;
      ghost var whole, skipped := M.Step(View(), ws), 0;
      while busy
        invariant Valid() && rc == M.DONE
        invariant whole == M.Step(View(), left).After(out, skipped)
        decreases busy, scratchLen - sendOff, !writing
      {
        ghost var n;
        var halted, more;
        halted, rc, more, left, n := Turn(left);
        if halted {
          out := out + more;
          return;
        }
        M.AfterTwice(M.Step(View(), left), more, n, out, skipped);
        out, skipped := out + more, skipped + n;
      }
    }

    /** One turn of the outer loop: write, or look for the next packet. */
    method Turn(ws: seq<int>) returns (halted: bool, rc: int, out: seq<Cell>, left: seq<int>, ghost skipped: nat)
      requires Valid() && busy
      modifies this, hold, scratch
      ensures Valid()
      ensures halted ==> M.Step(old(View()), ws) == M.Stepped(View(), rc, out, skipped)
      ensures !halted ==>
                && rc == M.DONE && scratchLen == old(scratchLen)
                && (sendOff > old(sendOff) || (sendOff == old(sendOff) && writing && !old(writing)))
                && M.Step(old(View()), ws) == M.Step(View(), left).After(out, skipped)
    {
      skipped, left := 0, if writing && ws != [] then ws[1..] else ws;
      if writing && sink {
        halted, rc, out := SinkPacket(M.Answer(ws));
      } else if writing {
        halted, rc, out := WritePacket(M.Answer(ws));
      } else {
        skipped := M.Garbage(View().scratch[sendOff..]);
        rc, out := M.DONE, [];
        halted := FindPacket();
      }
    }

    method SinkPacket(answer: int) returns (halted: bool, rc: int, out: seq<Cell>)
      requires Valid() && writing && sink
      modifies this
      ensures Valid()
      ensures match M.SinkTurn(old(View()), answer)
              case Halt(r) => halted && View() == r.pump && rc == r.rc && out == r.out
              case Go(p, o, n) => !halted && View() == p && out == o && rc == M.DONE
    {
      halted, rc, out := answer != 0, M.DONE, [];
      if halted {
        rc := if answer < 0 then answer else -EIO;
      } else {
        out := scratch[..scratchLen][sendOff..][..PACKET];
        sendOff := sendOff + PACKET;
        packetOff := 0;
        writing := false;
      }
    }

    method WritePacket(answer: int) returns (halted: bool, rc: int, out: seq<Cell>)
      requires Valid() && writing && !sink
      modifies this
      ensures Valid()
      ensures match M.WriteTurn(old(View()), answer)
              case Halt(r) => halted && View() == r.pump && rc == r.rc && out == r.out
              case Go(p, o, n) => !halted && View() == p && out == o && rc == M.DONE
    {
      halted, rc, out := true, M.DONE, [];
      if answer < 0 {
        rc := if answer == -EAGAIN || answer == -EINTR then M.PENDING else answer;
        return;
      }
      var request := PACKET - packetOff;
      var from := packetOff - resumeOff;
      var written := M.Taken(answer, request);
      out := scratch[..scratchLen][sendOff..][from..from + written];
      packetOff := packetOff + written;
      if written < request {
        rc := M.PENDING;
      } else if resumeOff != 0 {
        scratchLen, sendOff, packetOff, resumeOff := 0, 0, 0, 0;
        writing, busy := false, false;
      } else {
        sendOff := sendOff + PACKET;
        packetOff := 0;
        writing := false;
        halted := false;
      }
    }

    /** The inner loop: skip to where a packet may start, or to where too little is left. */
    method Resync()
      requires Bounded() && sendOff <= scratchLen
      modifies this`sendOff
      ensures sendOff == old(sendOff) + M.Garbage(scratch[..scratchLen][old(sendOff)..])
    {
      ghost var s, from := scratch[..scratchLen], sendOff;
      while scratchLen - sendOff >= PACKET &&
            !(scratch[sendOff].value == SYNC &&
              (scratchLen - sendOff < 2 * PACKET || scratch[sendOff + PACKET].value == SYNC))
        invariant sendOff <= scratchLen && s == scratch[..scratchLen]
        invariant sendOff + M.Garbage(s[sendOff..]) == from + M.Garbage(s[from..])
      {
        M.GarbageStep(s, sendOff);
        sendOff := sendOff + 1;
      }
      M.GarbageStep(s, sendOff);
    }

    /** Start on the next packet, or keep what is left for the next feed. */
    method FindPacket() returns (halted: bool)
      requires Valid() && busy && !writing
      modifies this, hold, scratch
      ensures Valid()
      ensures match M.ScanTurn(old(View()))
              case Halt(r) => halted && r == M.Stepped(View(), M.DONE, [], r.skipped)
              case Go(p, o, n) => !halted && View() == p
    {
      M.ScanTurnValid(View());
      Resync();
      assert View() == old(View()).(sendOff := sendOff);
      halted := scratchLen - sendOff < PACKET;
      if halted {
        Keep();
      } else {
        StartPacket();
      }
    }

    method StartPacket()
      requires Bounded() && busy
      modifies this`writing, this`packetOff
      ensures View() == old(View()).(writing := true, packetOff := 0)
    {
      writing := true;
      packetOff := 0;
    }

    /** The end of a feed: move what is left to the front, then to the hold buffer. */
    method Keep()
      requires Bounded() && sendOff <= scratchLen < sendOff + PACKET
      modifies this, hold, scratch
      ensures Bounded()
      ensures View() == old(View()).(scratch := [], sendOff := 0, hold := old(View().scratch[sendOff..]), busy := false)
    {
      ghost var rest := scratch[..scratchLen][sendOff..];
      if sendOff != 0 {
        var from, n := sendOff, scratchLen - sendOff;
        forall k | 0 <= k < n {
          scratch[k] := scratch[from + k];
        }
        scratchLen := n;
        sendOff := 0;
      }
      assert scratch[..scratchLen] == rest;
      forall k | 0 <= k < scratchLen {
        hold[k] := scratch[k];
      }
      assert hold[..scratchLen] == rest;
      holdLen := scratchLen;
      scratchLen := 0;
      busy := false;
    }
  }
}
