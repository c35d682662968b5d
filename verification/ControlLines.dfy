/** The command lines of stream_ts_control, put together byte by byte in a 128-byte buffer from
    whatever pieces the control input delivers. */
module ControlLines {
  import opened Wire

  const NEWLINE: Byte := 10
  const LINE_MAX: nat := 127

  datatype Event = Line(text: seq<Byte>) | Overlong

  /** What handling a line leads to; the command table and the device decide it. */
  datatype Reply = Continue | Quit | Fail(rc: int)

  type Handler = (seq<Event>, seq<Byte>) -> Reply

  datatype Session = Session(events: seq<Event>, reply: Reply)

  const FRESH := Session([], Continue)

  // ---------------------------------------------------------------- what it should do

  /** The newline-terminated lines of an input, the first of which goes on from `begun`. */
  function Lines(begun: seq<Byte>, input: seq<Byte>): seq<seq<Byte>>
    decreases |input|
  {
    if input == [] then []
    else if input[0] == NEWLINE then [begun] + Lines([], input[1..])
    else Lines(begun + [input[0]], input[1..])
  }

  /** The unterminated rest, which is never handled. */
  function Rest(begun: seq<Byte>, input: seq<Byte>): seq<Byte>
    decreases |input|
  {
    if input == [] then begun
    else if input[0] == NEWLINE then Rest([], input[1..])
    else Rest(begun + [input[0]], input[1..])
  }

  /** A line over 127 bytes is reported once as invalid and is never a command. */
  function Served(h: Handler, s: Session, line: seq<Byte>): Session {
    if |line| > LINE_MAX then s.(events := s.events + [Overlong])
    else Session(s.events + [Line(line)], h(s.events, line))
  }

  /** Lines in order, up to the first that quits or fails. */
  function Serve(h: Handler, s: Session, lines: seq<seq<Byte>>): Session
    decreases |lines|
  {
    if lines == [] || !s.reply.Continue? then s else Serve(h, Served(h, s, lines[0]), lines[1..])
  }

  // ---------------------------------------------------------------- what it does

  /** The line buffer, its length and its overflow mark. */
  class Assembler {
    const line: array<Byte>
    var lineLen: nat
    var lineOverflow: bool
    ghost var begun: seq<Byte>      // every byte since the last newline

    ghost predicate Valid()
      reads this, line
    {
      && line.Length == LINE_MAX + 1
      && lineLen == (if |begun| > LINE_MAX then LINE_MAX else |begun|)
      && line[..lineLen] == begun[..lineLen]
      && (lineOverflow <==> |begun| > LINE_MAX)
    }

    constructor ()
      ensures Valid() && fresh(line) && begun == []
    {
      line := new Byte[LINE_MAX + 1];
      lineLen, lineOverflow, begun := 0, false, [];
    }

    /** One byte of input. */
    method Take(h: Handler, s: Session, b: Byte) returns (t: Session)
      requires Valid()
      modifies this, line
      ensures Valid()
      ensures b == NEWLINE ==> t == Served(h, s, old(begun)) && begun == []
      ensures b != NEWLINE ==> t == s && begun == old(begun) + [b]
    {
      t := s;
      if b == NEWLINE {
        if lineOverflow {
          t := s.(events := s.events + [Overlong]);
        } else {
          var text := line[..lineLen];
          assert text == begun;
          t := Session(s.events + [Line(text)], h(s.events, text));
        }
        lineLen, lineOverflow, begun := 0, false, [];
      } else if lineLen + 1 < line.Length {
        line[lineLen] := b;
        lineLen, begun := lineLen + 1, begun + [b];
      } else {
        lineOverflow, begun := true, begun + [b];
      }
    }

    /** One read: its bytes up to the one that ends the session. */
    method TakeAll(h: Handler, s: Session, input: seq<Byte>, ghost later: seq<Byte>) returns (t: Session)
      requires Valid()
      modifies this, line
      ensures Valid()
      ensures Serve(h, s, Lines(old(begun), input + later)) == Serve(h, t, Lines(begun, later))
    {
      t := s;
      var i := 0;
      assert input[0..] == input;
      while i < |input| && t.reply.Continue?
        invariant Valid() && i <= |input|
        invariant Serve(h, s, Lines(old(begun), input + later)) == Serve(h, t, Lines(begun, input[i..] + later))
      {
        assert (input[i..] + later)[1..] == input[i + 1..] + later;
        t := Take(h, t, input[i]);
        i := i + 1;
      }
      assert i == |input| ==> input[i..] + later == later;
    }
  }

  /** The control session over successive reads: however the input is cut, the lines handled up
      to the first that quits or fails are the lines of the whole input. */
  method Control(pieces: seq<seq<Byte>>, h: Handler) returns (s: Session)
    ensures s == Serve(h, FRESH, Lines([], Concat(pieces)))
  {
    s := FRESH;
    var assembler := new Assembler();
    var i := 0;
    assert pieces[0..] == pieces;
    while i < |pieces| && s.reply.Continue?
      invariant assembler.Valid() && fresh(assembler) && fresh(assembler.line) && i <= |pieces|
      invariant Serve(h, FRESH, Lines([], Concat(pieces))) == Serve(h, s, Lines(assembler.begun, Concat(pieces[i..])))
    {
      assert pieces[i..][1..] == pieces[i + 1..];
      s := assembler.TakeAll(h, s, pieces[i], Concat(pieces[i + 1..]));
      i := i + 1;
    }
    assert i == |pieces| ==> Concat(pieces[i..]) == [];
  }

  // ---------------------------------------------------------------- what lines are

  function Joined(lines: seq<seq<Byte>>, rest: seq<Byte>): seq<Byte> {
    if lines == [] then rest else lines[0] + [10] + Joined(lines[1..], rest)
  }

  /** The lines and the rest are the input cut at its newlines, and nowhere else. */
  lemma {:induction false} LinesAreTheInput(begun: seq<Byte>, input: seq<Byte>)
    requires 10 !in begun
    ensures Joined(Lines(begun, input), Rest(begun, input)) == begun + input
    ensures 10 !in Rest(begun, input)
    ensures forall line | line in Lines(begun, input) :: 10 !in line
    decreases |input|
  {
    if input == [] {
      assert begun + input == begun;
    } else if input[0] == NEWLINE {
      LinesAreTheInput([], input[1..]);
      assert ([begun] + Lines([], input[1..]))[1..] == Lines([], input[1..]);
      assert begun + input == begun + [10] + ([] + input[1..]);
    } else {
      LinesAreTheInput(begun + [input[0]], input[1..]);
      assert begun + input == begun + [input[0]] + input[1..];
    }
  }

  function EventOf(line: seq<Byte>): Event {
    if |line| > 127 then Overlong else Line(line)
  }

  /** `events` go on from `before` by the first n lines. */
  ghost predicate Handles(before: seq<Event>, events: seq<Event>, lines: seq<seq<Byte>>, n: nat) {
    && n <= |lines| && |events| == |before| + n && before <= events
    && forall k | 0 <= k < n :: events[|before| + k] == EventOf(lines[k])
  }

  /** What line k was replied, `events` having gone on from `before` by the lines up to it. */
  function ReplyTo(h: Handler, before: seq<Event>, events: seq<Event>, lines: seq<seq<Byte>>, k: nat): Reply
    requires k < |lines| && |before| + k <= |events|
  {
    if |lines[k]| > 127 then Continue else h(events[..|before| + k], lines[k])
  }

  /** Every overlong line is reported once and handled never, every other line is handled once, in
      order and as it is, up to the line whose reply ends the session; without one, to the end. */
  lemma {:induction false} EventsAreTheLines(h: Handler, s: Session, lines: seq<seq<Byte>>)
    requires s.reply.Continue?
    ensures var t := Serve(h, s, lines);
            var n := |t.events| - |s.events|;
            && n >= 0 && Handles(s.events, t.events, lines, n)
            && (forall k | 0 <= k < n - 1 :: ReplyTo(h, s.events, t.events, lines, k).Continue?)
            && (n > 0 ==> t.reply == ReplyTo(h, s.events, t.events, lines, n - 1))
            && (t.reply.Continue? ==> n == |lines|) && (n == 0 ==> t.reply.Continue?)
    decreases |lines|
  {
    if lines != [] {
      var r, t := Served(h, s, lines[0]), Serve(h, s, lines);
      if r.reply.Continue? {
        EventsAreTheLines(h, r, lines[1..]);
        HandlesOneMore(s.events, r.events, t.events, lines, |t.events| - |r.events|);
        var n := |t.events| - |s.events|;
        RepliesOneMore(h, s, t.events, lines, n - 1);
        ContinuedBefore(h, s, t.events, lines, n - 1);
      } else {
        assert r.events[..|s.events|] == s.events;
      }
    }
  }

  lemma ContinuedBefore(h: Handler, s: Session, events: seq<Event>, lines: seq<seq<Byte>>, n: nat)
    requires lines != [] && Handles(Served(h, s, lines[0]).events, events, lines[1..], n) && s.reply.Continue?
    requires Served(h, s, lines[0]).reply.Continue? && s.events + [EventOf(lines[0])] <= events
    requires forall k | 0 <= k < n - 1 :: ReplyTo(h, Served(h, s, lines[0]).events, events, lines[1..], k).Continue?
    ensures forall k | 0 <= k < n :: ReplyTo(h, s.events, events, lines, k).Continue?
  {
    RepliesOneMore(h, s, events, lines, n);
    forall k | 0 <= k < n ensures ReplyTo(h, s.events, events, lines, k).Continue? {
      if k > 0 {
        assert ReplyTo(h, Served(h, s, lines[0]).events, events, lines[1..], k - 1).Continue?;
      }
    }
  }

  lemma RepliesOneMore(h: Handler, s: Session, events: seq<Event>, lines: seq<seq<Byte>>, n: nat)
    requires lines != [] && Handles(Served(h, s, lines[0]).events, events, lines[1..], n)
    requires s.reply.Continue?
    ensures s.events + [EventOf(lines[0])] <= events
    ensures ReplyTo(h, s.events, events, lines, 0) == Served(h, s, lines[0]).reply
    ensures forall k | 0 < k < n + 1 ::
              ReplyTo(h, s.events, events, lines, k) == ReplyTo(h, Served(h, s, lines[0]).events, events, lines[1..], k - 1)
  {
    assert events[..|s.events|] == s.events;
  }

  lemma HandlesOneMore(before: seq<Event>, next: seq<Event>, events: seq<Event>, lines: seq<seq<Byte>>, n: nat)
    requires lines != [] && next == before + [EventOf(lines[0])] && Handles(next, events, lines[1..], n)
    ensures Handles(before, events, lines, n + 1)
  {
    forall k | 0 <= k < n + 1 ensures events[|before| + k] == EventOf(lines[k]) {
      if k > 0 {
        assert events[|next| + (k - 1)] == EventOf(lines[1..][k - 1]);
      } else {
        assert events[|before|] == next[|before|];
      }
    }
  }
}
