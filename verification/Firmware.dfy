/** The firmware download of siano-device.c as the sequence of messages it sends. */
module Firmware {
  import opened Wire
  import opened Protocol

  const RELOAD_START := 702
  const DATA_DOWNLOAD := 660
  const DATA_VALIDITY := 662
  const SWDOWNLOAD_TRIGGER := 664
  const RELOAD_EXEC := 704

  type Message = seq<Byte>

  function Request(kind: nat, body: seq<Byte>): (m: Message)
    requires kind < 0x1_0000 && |body| <= MAX_PAYLOAD + 4
    ensures |m| == HEADER_SIZE + |body|
  {
    Pack(Header(kind, 0, HIF_TASK, HEADER_SIZE + |body|, 0)) + body
  }

  lemma RequestReadsBack(kind: nat, body: seq<Byte>)
    requires kind < 0x1_0000 && |body| <= MAX_PAYLOAD + 4
    ensures var m := Request(kind, body);
            Unpack(m) == Some(Header(kind, 0, HIF_TASK, |m|, 0)) && m[HEADER_SIZE..] == body
  {
    UnpackPacked(Header(kind, 0, HIF_TASK, HEADER_SIZE + |body|, 0), body);
  }

  // ---------------------------------------------------------------- the image

  /** sms_parse_firmware_header accepts the file. */
  predicate WellFormed(file: seq<Byte>) {
    |file| >= 12 && Get32(file, 4) <= |file| - 12
  }

  function Zeros(n: nat): (s: seq<Byte>)
    ensures |s| == n
  {
    seq(n, _ => 0)
  }

  /** What the device is to hold: the payload, padded with zeros to the size of the file. */
  function Image(file: seq<Byte>): (s: seq<Byte>)
    requires WellFormed(file)
    ensures |s| == |file|
  {
    var length := Get32(file, 4);
    file[12..12 + length] + Zeros(|file| - length)
  }

  /** Where: the header's start address, or when reloading the word at 20 of the payload. */
  function Base(file: seq<Byte>, reload: bool): (a: nat)
    requires WellFormed(file)
    ensures a < 0x1_0000_0000
  {
    if reload && Get32(file, 4) >= 24 then Get32(Image(file), 20) else Get32(file, 8)
  }

  function Min(a: nat, b: nat): nat { if a < b then a else b }

  /** A 32-bit address. */
  function At(a: nat): (r: nat)
    ensures r < 0x1_0000_0000
  {
    a % 0x1_0000_0000
  }

  function DownloadOf(address: nat, piece: seq<Byte>): Message
    requires address < 0x1_0000_0000 && |piece| <= MAX_PAYLOAD
  {
    Request(DATA_DOWNLOAD, Le32(address) + piece)
  }

  /** The download messages for an image from `address` on, in address order. */
  function Downloads(image: seq<Byte>, address: nat): (ms: seq<Message>)
    requires address < 0x1_0000_0000
  {
    if image == [] then []
    else
      var n := Min(|image|, MAX_PAYLOAD);
      [DownloadOf(address, image[..n])] + Downloads(image[n..], At(address + n))
  }

  function Prologue(reload: bool): seq<Message> {
    if reload then [Request(RELOAD_START, [])] else []
  }

  function Epilogue(start: nat, length: nat, reload: bool): (ms: seq<Message>)
    requires start < 0x1_0000_0000 && length < 0x1_0000_0000
    ensures |ms| == 2
  {
    [Request(DATA_VALIDITY, Le32(start) + Le32(length) + Le32(0)),
     if reload then Request(RELOAD_EXEC, [])
     else Request(SWDOWNLOAD_TRIGGER, Le32(start) + Le32(6) + Le32(0x200) + Le32(0) + Le32(4))]
  }

  /** Everything that is sent when every message is answered well. */
  function Script(file: seq<Byte>, reload: bool): seq<Message>
    requires WellFormed(file)
  {
    Prologue(reload) + Downloads(Image(file), Base(file, reload))
    + Epilogue(Get32(file, 8), Get32(file, 4), reload)
  }

  /** The image of a reload holds its own address only if the payload reaches that far. */
  predicate Refused(file: seq<Byte>, reload: bool)
    requires WellFormed(file)
  {
    reload && Get32(file, 4) < 24
  }

  // ---------------------------------------------------------------- the messages at the ends

  /** The little-endian word at byte i. */
  function Word(s: seq<Byte>, i: nat): nat
    requires i + 4 <= |s|
  {
    s[i] as int + 256 * s[i + 1] as int + 65536 * s[i + 2] as int + 16777216 * s[i + 3] as int
  }

  /** The i-th word of a request's body. */
  function Field(m: Message, i: nat): nat
    requires 8 + 4 * i + 4 <= |m|
  {
    Word(m, 8 + 4 * i)
  }

  /** A request of this kind and size: to task 11, with its length stated and no flags. */
  predicate IsRequest(m: Message, kind: nat, size: nat) {
    && |m| == size && size >= 8
    && m[0] as int + 256 * m[1] as int == kind && m[2] == 0 && m[3] == 11
    && m[4] as int + 256 * m[5] as int == size && m[6] == 0 && m[7] == 0
  }

  /** How the messages begin and end: a reload begins with 702 and ends with 704; a cold start ends
      with the trigger 664, which carries start address, 6, 0x200, 0 and 4; the last but one is 662 with
      start address, length and 0; between them 240 bytes of the file's size to a message. */
  ghost predicate Complete(file: seq<Byte>, reload: bool, sent: seq<Message>)
    requires |file| >= 12
  {
    var n := |sent|;
    && n == (if reload then 1 else 0) + (|file| + 239) / 240 + 2
    && (reload ==> IsRequest(sent[0], 702, 8))
    && IsRequest(sent[n - 2], 662, 20)
    && Field(sent[n - 2], 0) == Word(file, 8) && Field(sent[n - 2], 1) == Word(file, 4) && Field(sent[n - 2], 2) == 0
    && (reload ==> IsRequest(sent[n - 1], 704, 8))
    && (!reload ==>
          && IsRequest(sent[n - 1], 664, 28)
          && Field(sent[n - 1], 0) == Word(file, 8) && Field(sent[n - 1], 1) == 6 && Field(sent[n - 1], 2) == 0x200
          && Field(sent[n - 1], 3) == 0 && Field(sent[n - 1], 4) == 4)
  }

  lemma ScriptIsComplete(file: seq<Byte>, reload: bool)
    requires WellFormed(file)
    ensures Complete(file, reload, Script(file, reload))
  {
    var start, length := Get32(file, 8), Get32(file, 4);
    DownloadsAreSmall(Image(file), Base(file, reload));
    RequestBytes(RELOAD_START, []);
    RequestBytes(RELOAD_EXEC, []);
    var validity := Le32(start) + Le32(length) + Le32(0);
    RequestBytes(DATA_VALIDITY, validity);
    WordAt(validity, [], start, Le32(length) + Le32(0));
    WordAt(validity, Le32(start), length, Le32(0));
    WordAt(validity, Le32(start) + Le32(length), 0, []);
    TriggerBytes(start);
  }

  lemma TriggerBytes(start: nat)
    requires start < 0x1_0000_0000
    ensures var m := Request(SWDOWNLOAD_TRIGGER, Le32(start) + Le32(6) + Le32(0x200) + Le32(0) + Le32(4));
            && IsRequest(m, 664, 28)
            && Field(m, 0) == start && Field(m, 1) == 6 && Field(m, 2) == 0x200 && Field(m, 3) == 0 && Field(m, 4) == 4
  {
    var a, b, c, d, e := Le32(start), Le32(6), Le32(0x200), Le32(0), Le32(4);
    var body := a + b + c + d + e;
    RequestBytes(SWDOWNLOAD_TRIGGER, body);
    WordAt(body, [], start, b + c + d + e);
    WordAt(body, a, 6, c + d + e);
    WordAt(body, a + b, 0x200, d + e);
    WordAt(body, a + b + c, 0, e);
    WordAt(body, a + b + c + d, 4, []);
  }

  lemma RequestBytes(kind: nat, body: seq<Byte>)
    requires kind < 0x1_0000 && |body| <= MAX_PAYLOAD + 4
    ensures IsRequest(Request(kind, body), kind, 8 + |body|)
    ensures forall i: nat | 4 * i + 4 <= |body| :: Field(Request(kind, body), i) == Word(body, 4 * i)
  {
    HeaderBytes(Header(kind, 0, HIF_TASK, HEADER_SIZE + |body|, 0));
  }

  lemma WordAt(body: seq<Byte>, before: seq<Byte>, v: nat, after: seq<Byte>)
    requires v < 0x1_0000_0000 && body == before + Le32(v) + after
    ensures Word(body, |before|) == v
  {
    WordBytes(v);
  }

  ghost predicate AllWell(answer: nat -> int) {
    forall i: nat :: answer(i) == 0
  }

  /** load_family2_firmware once the file is read: `answer(i)` is the outcome of the i-th exchange.
      It sends a prefix of the script, the whole of it if it succeeds, and succeeds if all goes well. */
  method Load(file: seq<Byte>, reload: bool, answer: nat -> int) returns (rc: int, sent: seq<Message>)
    ensures !WellFormed(file) ==> rc == -EBADMSG && sent == []
    ensures WellFormed(file) ==> sent <= Script(file, reload)
    ensures WellFormed(file) && rc >= 0 ==> sent == Script(file, reload) && Complete(file, reload, sent)
    ensures WellFormed(file) && Refused(file, reload) ==> rc < 0 && sent == Prologue(reload)
    ensures WellFormed(file) && AllWell(answer) && !Refused(file, reload) ==> rc == 0
    ensures WellFormed(file) ==> WellUpTo(answer, 0, |sent| - 1)
    ensures WellFormed(file) && !Refused(file, reload) ==> sent != [] && rc == answer(|sent| - 1)
    ensures WellFormed(file) && Refused(file, reload) ==> rc == if answer(0) < 0 then answer(0) else -74
  {
    rc, sent := -EBADMSG, [];
    if !WellFormed(file) {
      return;
    }
    ScriptParts(file, reload);
    var address := Get32(file, 8);
    if reload {
      sent := [Request(RELOAD_START, [])];
      rc := answer(0);
      if rc < 0 {
        return;
      }
      if Get32(file, 4) < 24 {
        rc := -EBADMSG;
        return;
      }
      address := Get32(Image(file), 20);
    }
    rc, sent := LoadImage(file, reload, address, sent, answer);
    ScriptIsComplete(file, reload);
  }

  lemma ScriptParts(file: seq<Byte>, reload: bool)
    requires WellFormed(file)
    ensures Script(file, reload) == Prologue(reload) + (Downloads(Image(file), Base(file, reload))
                                                        + Epilogue(Get32(file, 8), Get32(file, 4), reload))
    ensures Prologue(reload) <= Script(file, reload)
  {
  }

  /** Every answer from one exchange up to another was good. */
  ghost predicate WellUpTo(answer: nat -> int, from: nat, to: int) {
    forall i: nat | from <= i < to :: answer(i) >= 0
  }

  /** Download and closing messages, behind those sent `before`. */
  method LoadImage(file: seq<Byte>, reload: bool, address: nat, before: seq<Message>, answer: nat -> int)
    returns (rc: int, sent: seq<Message>)
    requires WellFormed(file) && address < 0x1_0000_0000
    ensures var rest := Downloads(Image(file), address) + Epilogue(Get32(file, 8), Get32(file, 4), reload);
            sent <= before + rest && (rc >= 0 ==> sent == before + rest)
    ensures |before| < |sent| && rc == answer(|sent| - 1) && WellUpTo(answer, |before|, |sent| - 1)
  {
    var epilogue := Epilogue(Get32(file, 8), Get32(file, 4), reload);
    ghost var downloads := Downloads(Image(file), address);
    assert before + (downloads + epilogue) == before + downloads + epilogue;
    var data;
    rc, data := Download(Image(file), address, |before|, answer);
    sent := before + data;
    if rc < 0 {
      return;
    }
    rc, sent := SendBoth(sent, epilogue, answer);
  }

  /** The two closing messages, the second only after a good answer to the first. */
  method SendBoth(before: seq<Message>, last: seq<Message>, answer: nat -> int) returns (rc: int, sent: seq<Message>)
    requires |last| == 2
    ensures before <= sent <= before + last
    ensures rc >= 0 ==> sent == before + last
    ensures |before| < |sent| && rc == answer(|sent| - 1) && WellUpTo(answer, |before|, |sent| - 1)
  {
    sent := before + [last[0]];
    rc := answer(|before|);
    if rc < 0 {
      return;
    }
    sent := before + last;
    rc := answer(|before| + 1);
  }

  /** The download loop: at most 240 bytes of the image to a message, each at the next address. */
  method Download(image: seq<Byte>, base: nat, first: nat, answer: nat -> int) returns (rc: int, sent: seq<Message>)
    requires base < 0x1_0000_0000
    ensures sent <= Downloads(image, base)
    ensures rc >= 0 ==> sent == Downloads(image, base) && WellUpTo(answer, first, first + |sent|)
    ensures rc < 0 ==> sent != [] && rc == answer(first + |sent| - 1) && WellUpTo(answer, first, first + |sent| - 1)
  {
    rc, sent := 0, [];
    var offset, address := 0, base;
    assert image[0..] == image;
    while offset < |image|
      invariant offset <= |image| && address < 0x1_0000_0000 && rc >= 0
      invariant Downloads(image, base) == sent + Downloads(image[offset..], address)
      invariant WellUpTo(answer, first, first + |sent|)
    {
      var n := Min(|image| - offset, MAX_PAYLOAD);
      var message := DownloadOf(address, image[offset..offset + n]);
      NextDownload(image, offset, address, n);
      OneMoreSent(sent, message, Downloads(image[offset + n..], At(address + n)));
      sent := sent + [message];
      rc := answer(first + |sent| - 1);
      if rc < 0 {
        return;
      }
      offset, address := offset + n, At(address + n);
    }
  }

  lemma OneMoreSent(sent: seq<Message>, message: Message, later: seq<Message>)
    ensures sent + ([message] + later) == sent + [message] + later
  {
  }

  lemma NextDownload(image: seq<Byte>, offset: nat, address: nat, n: nat)
    requires offset < |image| && n == Min(|image| - offset, MAX_PAYLOAD) && address < 0x1_0000_0000
    ensures Downloads(image[offset..], address) ==
            [DownloadOf(address, image[offset..offset + n])] + Downloads(image[offset + n..], At(address + n))
  {
    assert image[offset..][..n] == image[offset..offset + n];
    assert image[offset..][n..] == image[offset + n..];
  }

  // ---------------------------------------------------------------- the device's memory

  type Memory = map<nat, Byte>

  /** Bytes stored at consecutive addresses of a 32-bit address space. */
  function Stored(m: Memory, address: nat, data: seq<Byte>): Memory
    decreases |data|
  {
    if data == [] then m else Stored(m[At(address) := data[0]], address + 1, data[1..])
  }

  /** A device that obeys download messages, knowing them only as bytes. */
  function Obeyed(m: Memory, message: Message): Memory {
    match Unpack(message)
    case Some(h) =>
      if h.kind == 660 && |message| >= HEADER_SIZE + 4 && HEADER_SIZE + 4 <= h.length <= |message|
      then Stored(m, Get32(message, HEADER_SIZE), message[HEADER_SIZE + 4..h.length])
      else m
    case None => m
  }

  function Replayed(m: Memory, ms: seq<Message>): Memory
    decreases |ms|
  {
    if ms == [] then m else Replayed(Obeyed(m, ms[0]), ms[1..])
  }

  /** The download rebuilds the image: obeying the whole script is storing the image at its base. */
  lemma ScriptRebuildsImage(file: seq<Byte>, reload: bool, m: Memory)
    requires WellFormed(file)
    ensures Replayed(m, Script(file, reload)) == Stored(m, Base(file, reload), Image(file))
  {
    var image, base := Image(file), Base(file, reload);
    var tail := Epilogue(Get32(file, 8), Get32(file, 4), reload);
    ReplayedAppend(m, Prologue(reload) + Downloads(image, base), tail);
    ReplayedAppend(m, Prologue(reload), Downloads(image, base));
    PrologueAndEpilogue(Get32(file, 8), Get32(file, 4), reload);
    OthersDoNothing(m, Prologue(reload));
    DownloadsRebuild(m, image, base);
    OthersDoNothing(Stored(m, base, image), tail);
  }

  /** Only download messages touch the memory. */
  lemma {:induction false} OthersDoNothing(m: Memory, ms: seq<Message>)
    requires forall message | message in ms :: Unpack(message).Some? && Unpack(message).value.kind != DATA_DOWNLOAD
    ensures Replayed(m, ms) == m
    decreases |ms|
  {
    if ms != [] {
      assert ms[0] in ms;
      OthersDoNothing(m, ms[1..]);
    }
  }

  lemma PrologueAndEpilogue(start: nat, length: nat, reload: bool)
    requires start < 0x1_0000_0000 && length < 0x1_0000_0000
    ensures forall message | message in Prologue(reload) + Epilogue(start, length, reload) ::
              Unpack(message).Some? && Unpack(message).value.kind != DATA_DOWNLOAD
  {
    RequestReadsBack(RELOAD_START, []);
    RequestReadsBack(RELOAD_EXEC, []);
    RequestReadsBack(DATA_VALIDITY, Le32(start) + Le32(length) + Le32(0));
    RequestReadsBack(SWDOWNLOAD_TRIGGER, Le32(start) + Le32(6) + Le32(0x200) + Le32(0) + Le32(4));
  }

  lemma {:induction false} DownloadsRebuild(m: Memory, image: seq<Byte>, address: nat)
    requires address < 0x1_0000_0000
    ensures Replayed(m, Downloads(image, address)) == Stored(m, address, image)
    decreases |image|
  {
    if image != [] {
      var n := Min(|image|, MAX_PAYLOAD);
      OneDownload(m, image, address, n);
      StoredSplit(m, image, address, n);
      DownloadsRebuild(Stored(m, address, image[..n]), image[n..], At(address + n));
    }
  }

  lemma OneDownload(m: Memory, image: seq<Byte>, address: nat, n: nat)
    requires image != [] && n == Min(|image|, MAX_PAYLOAD) && address < 0x1_0000_0000
    ensures Replayed(m, Downloads(image, address)) ==
            Replayed(Stored(m, address, image[..n]), Downloads(image[n..], At(address + n)))
  {
    ObeyedDownload(m, address, image[..n]);
    ReplayedCons(m, DownloadOf(address, image[..n]), Downloads(image[n..], At(address + n)));
  }

  lemma StoredSplit(m: Memory, image: seq<Byte>, address: nat, n: nat)
    requires n <= |image|
    ensures Stored(m, address, image) == Stored(Stored(m, address, image[..n]), At(address + n), image[n..])
  {
    assert image[..n] + image[n..] == image;
    StoredAppend(m, address, image[..n], image[n..]);
    StoredWraps(Stored(m, address, image[..n]), address + n, image[n..]);
  }

  lemma ReplayedCons(m: Memory, first: Message, later: seq<Message>)
    ensures Replayed(m, [first] + later) == Replayed(Obeyed(m, first), later)
  {
    assert ([first] + later)[1..] == later;
  }

  lemma ObeyedDownload(m: Memory, address: nat, piece: seq<Byte>)
    requires address < 0x1_0000_0000 && |piece| <= MAX_PAYLOAD
    ensures Obeyed(m, DownloadOf(address, piece)) == Stored(m, address, piece)
  {
    var body := Le32(address) + piece;
    var message := Request(DATA_DOWNLOAD, body);
    RequestReadsBack(DATA_DOWNLOAD, body);
    assert forall i | 0 <= i < 4 :: message[HEADER_SIZE + i] == message[HEADER_SIZE..][i] == Le32(address)[i];
    Le32ReadsBack(address);
    assert Get32(message, HEADER_SIZE) == Get32(Le32(address), 0);
    assert message[HEADER_SIZE + 4..|message|] == body[4..] == piece;
  }

  lemma {:induction false} ReplayedAppend(m: Memory, a: seq<Message>, b: seq<Message>)
    ensures Replayed(m, a + b) == Replayed(Replayed(m, a), b)
    decreases |a|
  {
    if a == [] {
      assert a + b == b;
    } else {
      assert (a + b)[1..] == a[1..] + b;
      ReplayedAppend(Obeyed(m, a[0]), a[1..], b);
    }
  }

  lemma {:induction false} StoredAppend(m: Memory, address: nat, a: seq<Byte>, b: seq<Byte>)
    ensures Stored(m, address, a + b) == Stored(Stored(m, address, a), address + |a|, b)
    decreases |a|
  {
    if a == [] {
      assert a + b == b;
    } else {
      assert (a + b)[1..] == a[1..] + b;
      StoredAppend(m[At(address) := a[0]], address + 1, a[1..], b);
    }
  }

  lemma {:induction false} StoredWraps(m: Memory, address: nat, data: seq<Byte>)
    ensures Stored(m, At(address), data) == Stored(m, address, data)
    decreases |data|
  {
    if data != [] {
      var m' := m[At(address) := data[0]];
      StoredWraps(m', At(address) + 1, data[1..]);
      StoredWraps(m', address + 1, data[1..]);
      assert At(At(address) + 1) == At(address + 1);
    }
  }

  /** What the memory then holds: byte i of the image at base + i, wrapping at 2^32, for every i
      not overwritten by a later turn of the address space (so for all i up to 4 GiB). */
  lemma {:induction false} StoredMeans(m: Memory, address: nat, data: seq<Byte>, i: nat)
    requires i < |data| <= i + 0x1_0000_0000
    ensures At(address + i) in Stored(m, address, data) && Stored(m, address, data)[At(address + i)] == data[i]
    decreases |data|
  {
    var m' := m[At(address) := data[0]];
    if i > 0 {
      StoredMeans(m', address + 1, data[1..], i - 1);
    } else {
      StoredElsewhere(m', address + 1, data[1..], At(address));
    }
  }

  /** Addresses outside the image are untouched. */
  lemma {:induction false} StoredElsewhere(m: Memory, address: nat, data: seq<Byte>, at: nat)
    requires forall a | address <= a < address + |data| :: At(a) != at
    ensures at in m <==> at in Stored(m, address, data)
    ensures at in m ==> Stored(m, address, data)[at] == m[at]
    decreases |data|
  {
    if data != [] {
      StoredElsewhere(m[At(address) := data[0]], address + 1, data[1..], at);
    }
  }

  /** At base + i, modulo 2^32, the memory has byte 12 + i of the file if that is payload and zero up to the
      size of the file; and elsewhere what it had. */
  ghost predicate Lands(file: seq<Byte>, base: nat, before: Memory, after: Memory, i: nat)
    requires WellFormed(file)
  {
    var at := (base + i) % 0x1_0000_0000;
    && (i < |file| ==> at in after && after[at] == if i < Word(file, 4) then file[12 + i] else 0)
    && (|file| <= i < 0x1_0000_0000 ==> (at in after <==> at in before) && (at in before ==> after[at] == before[at]))
  }

  /** What a device holds that has obeyed the whole script, by the bytes of the file, which goes to the address
      that the header states, or when reloading to the word at byte 32. */
  lemma FirmwareLands(file: seq<Byte>, reload: bool, m: Memory, i: nat)
    requires WellFormed(file) && |file| <= 0x1_0000_0000 && (reload ==> Word(file, 4) >= 24)
    ensures Lands(file, if reload then Word(file, 32) else Word(file, 8), m, Replayed(m, Script(file, reload)), i)
  {
    ScriptRebuildsImage(file, reload, m);
    ImageByBytes(file, reload);
    ImageLands(file, Base(file, reload), m, i);
  }

  lemma ImageLands(file: seq<Byte>, base: nat, m: Memory, i: nat)
    requires WellFormed(file) && |file| <= 0x1_0000_0000
    requires forall k | 0 <= k < |file| :: Image(file)[k] == if k < Word(file, 4) then file[12 + k] else 0
    ensures Lands(file, base, m, Stored(m, base, Image(file)), i)
  {
    StoredByBytes(m, base, Image(file), i);
    assert At(base + i) == (base + i) % 0x1_0000_0000;
  }

  lemma ImageByBytes(file: seq<Byte>, reload: bool)
    requires WellFormed(file) && (reload ==> Word(file, 4) >= 24)
    ensures Base(file, reload) == if reload then Word(file, 32) else Word(file, 8)
    ensures forall i | 0 <= i < |file| :: Image(file)[i] == if i < Word(file, 4) then file[12 + i] else 0
  {
  }

  lemma StoredByBytes(m: Memory, base: nat, image: seq<Byte>, i: nat)
    requires |image| <= 0x1_0000_0000
    ensures var after, at := Stored(m, base, image), At(base + i);
            && (i < |image| ==> at in after && after[at] == image[i])
            && (|image| <= i < 0x1_0000_0000 ==> (at in after <==> at in m) && (at in m ==> after[at] == m[at]))
  {
    if i < |image| {
      StoredMeans(m, base, image, i);
    } else if i < 0x1_0000_0000 {
      forall a | base <= a < base + |image| ensures At(a) != At(base + i) {
        Apart(base, a - base, i);
      }
      StoredElsewhere(m, base, image, At(base + i));
    }
  }

  lemma Apart(base: nat, i: nat, j: nat)
    requires i < j < 0x1_0000_0000
    ensures At(base + i) != At(base + j)
  {
  }

  /** Which files are accepted, by their bytes. */
  lemma AcceptedFiles(file: seq<Byte>)
    ensures WellFormed(file) <==> |file| >= 12 && Word(file, 4) <= |file| - 12
    ensures WellFormed(file) ==> forall reload :: Refused(file, reload) <==> reload && Word(file, 4) < 24
  {
  }

  /** At most 252 bytes, stating its own length. */
  predicate Proper(message: Message) {
    12 < |message| <= 252 && Unpack(message) == Some(Header(DATA_DOWNLOAD, 0, HIF_TASK, |message|, 0))
  }

  /** As many messages as 240-byte pieces, every one of them proper. */
  lemma {:induction false} DownloadsAreSmall(image: seq<Byte>, address: nat)
    requires address < 0x1_0000_0000
    ensures |Downloads(image, address)| == (|image| + 239) / 240
    ensures forall message | message in Downloads(image, address) :: Proper(message)
    decreases |image|
  {
    if image != [] {
      var n := Min(|image|, MAX_PAYLOAD);
      ProperDownload(address, image[..n]);
      DownloadsAreSmall(image[n..], At(address + n));
      OnePieceMore(|image|, n);
    }
  }

  /** Request 660 with this piece, for this address. */
  predicate IsDownload(m: Message, address: nat, piece: seq<Byte>) {
    IsRequest(m, 660, 12 + |piece|) && Field(m, 0) == address && m[12..] == piece
  }

  /** The j-th 240 bytes, or what is left. */
  function Piece(image: seq<Byte>, j: nat): seq<Byte>
    requires 240 * j < |image|
  {
    if |image| < 240 * j + 240 then image[240 * j..] else image[240 * j..240 * j + 240]
  }

  predicate Carries(ms: seq<Message>, j: nat, address: nat, piece: seq<Byte>) {
    j < |ms| && IsDownload(ms[j], address, piece)
  }

  /** The j-th download message carries the j-th 240 bytes and the address they go to. */
  lemma {:induction false} DownloadBytes(image: seq<Byte>, address: nat, j: nat, at: nat)
    requires address < 0x1_0000_0000 && 240 * j < |image| && at == At(address + 240 * j)
    ensures Carries(Downloads(image, address), j, at, Piece(image, j))
    decreases j
  {
    if j == 0 {
      DownloadFirst(image, address);
    } else {
      AddressOn(address, j);
      DownloadBytes(image[240..], At(address + 240), j - 1, at);
      DownloadLater(image, address, j, at);
    }
  }

  lemma DownloadFirst(image: seq<Byte>, address: nat)
    requires address < 0x1_0000_0000 && image != []
    ensures Carries(Downloads(image, address), 0, address, Piece(image, 0))
  {
    FirstDownload(image, address);
    FirstDownloadBytes(address, Piece(image, 0));
  }

  lemma DownloadLater(image: seq<Byte>, address: nat, j: nat, at: nat)
    requires address < 0x1_0000_0000 && j > 0 && 240 * j < |image|
    requires Carries(Downloads(image[240..], At(address + 240)), j - 1, at, Piece(image[240..], j - 1))
    ensures Carries(Downloads(image, address), j, at, Piece(image, j))
  {
    FirstDownload(image, address);
    LaterPiece(image, j);
    CarriesLater(Downloads(image, address), j, at, Piece(image, j));
  }

  lemma CarriesLater(ms: seq<Message>, j: nat, address: nat, piece: seq<Byte>)
    requires ms != [] && j > 0 && Carries(ms[1..], j - 1, address, piece)
    ensures Carries(ms, j, address, piece)
  {
  }

  lemma FirstDownload(image: seq<Byte>, address: nat)
    requires address < 0x1_0000_0000 && image != []
    ensures var ms := Downloads(image, address);
            && ms != [] && ms[0] == DownloadOf(address, Piece(image, 0))
            && (|image| > 240 ==> ms[1..] == Downloads(image[240..], At(address + 240)))
  {
  }

  lemma AddressOn(address: nat, j: nat)
    requires j > 0
    ensures At(At(address + 240) + 240 * (j - 1)) == At(address + 240 * j)
  {
  }

  lemma LaterPiece(image: seq<Byte>, j: nat)
    requires j > 0 && 240 * j < |image|
    ensures Piece(image[240..], j - 1) == Piece(image, j)
  {
  }

  lemma FirstDownloadBytes(address: nat, piece: seq<Byte>)
    requires address < 0x1_0000_0000 && |piece| <= MAX_PAYLOAD
    ensures IsDownload(DownloadOf(address, piece), address, piece)
  {
    RequestBytes(DATA_DOWNLOAD, Le32(address) + piece);
    WordAt(Le32(address) + piece, [], address, piece);
  }

  lemma ProperDownload(address: nat, piece: seq<Byte>)
    requires address < 0x1_0000_0000 && 0 < |piece| <= MAX_PAYLOAD
    ensures Proper(DownloadOf(address, piece))
  {
    RequestReadsBack(DATA_DOWNLOAD, Le32(address) + piece);
  }

  lemma OnePieceMore(size: nat, n: nat)
    requires 0 < size && n == Min(size, 240)
    ensures 1 + (size - n + 239) / 240 == (size + 239) / 240
  {
  }
}
