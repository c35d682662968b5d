/** device-selector.c, the parser of `--device`, and usb-location.h, which prints where a device
    sits: what one prints the other must read back. */
module Selector {
  import opened Wire

  // ---------------------------------------------------------------- numbers

  predicate IsDigit(c: char) { '0' <= c <= '9' }

  function DigitValue(c: char): nat
    requires IsDigit(c)
  {
    (c - '0') as nat
  }

  /** How many digits lead the text. */
  function DigitCount(s: string): (n: nat)
    ensures n <= |s| && (forall i | 0 <= i < n :: IsDigit(s[i])) && (n < |s| ==> !IsDigit(s[n]))
  {
    if s == [] || !IsDigit(s[0]) then 0 else 1 + DigitCount(s[1..])
  }

  /** The value of a numeral. */
  function Value(s: string): nat
    requires forall i | 0 <= i < |s| :: IsDigit(s[i])
  {
    if s == [] then 0 else 10 * Value(s[..|s| - 1]) + DigitValue(s[|s| - 1])
  }

  datatype Number = NoNumber | Number(value: nat, rest: string)

  /** The numeral that leads the text, if there is one and its value is at most `max`. */
  function ReadNumber(s: string, max: nat): (r: Number)
    ensures r.Number? ==> |r.rest| < |s| && r.value <= max
  {
    var n := DigitCount(s);
    if n == 0 || Value(s[..n]) > max then NoNumber else Number(Value(s[..n]), s[n..])
  }

  /** parse_number: it accepts exactly the numerals up to `max`, and no intermediate result exceeds it. */
  method ParseNumber(text: string, cursor: nat, max: nat) returns (r: Number)
    requires cursor <= |text| && 9 <= max <= UINT32_MAX
    ensures r == ReadNumber(text[cursor..], max)
  {
    var p, parsed := cursor, 0;
    ghost var s := text[cursor..];
    while p < |text| && IsDigit(text[p])
      invariant cursor <= p <= |text| && p - cursor <= DigitCount(s)
      invariant parsed == Value(s[..p - cursor]) <= max
    {
      var digit := DigitValue(text[p]);
      assert s[p - cursor] == text[p];
      assert s[..p - cursor + 1][..p - cursor] == s[..p - cursor];
      if parsed > (max - digit) / 10 {
        ValueGrows(s[..DigitCount(s)], p - cursor + 1);
        assert s[..DigitCount(s)][..p - cursor + 1] == s[..p - cursor + 1];
        return NoNumber;
      }
      parsed := parsed * 10 + digit;
      p := p + 1;
    }
    assert p - cursor == DigitCount(s) by {
      if p < |text| {
        assert s[p - cursor] == text[p];
      }
    }
    assert text[p..] == s[p - cursor..];
    r := if p == cursor then NoNumber else Number(parsed, text[p..]);
  }

  lemma {:induction false} ValueGrows(s: string, k: nat)
    requires k <= |s| && forall i | 0 <= i < |s| :: IsDigit(s[i])
    ensures Value(s[..k]) <= Value(s)
  {
    if k < |s| {
      var t := s[..|s| - 1];
      ValueGrows(t, k);
      assert t[..k] == s[..k];
    } else {
      assert s[..k] == s;
    }
  }

  // ---------------------------------------------------------------- selectors

  datatype Selected =
    | Invalid
    | Index(index: nat)
    | BusAddress(bus: Byte, address: Byte)
    | Port(bus: Byte, ports: seq<Byte>)

  const MAX_PORTS: nat := 8

  predicate NonZero(ports: seq<Byte>) {
    forall i | 0 <= i < |ports| :: ports[i] != 0
  }

  /** The ports read so far with the further `.p.p...` up to the end of the text, at most eight
      in all and none zero; the empty sequence stands for failure. */
  function ReadPorts(ports: seq<Byte>, s: string): seq<Byte>
    decreases |s|
  {
    if s == [] then ports
    else if s[0] != '.' || |ports| == MAX_PORTS then []
    else
      match ReadNumber(s[1..], 255)
      case NoNumber => []
      case Number(port, rest) => if port == 0 then [] else ReadPorts(ports + [port], rest)
  }

  /** The grammar: an index, bus:address, or bus-port.port... with one to eight nonzero ports. */
  function Read(s: string): Selected {
    match ReadNumber(s, UINT32_MAX)
    case NoNumber => Invalid
    case Number(first, rest) =>
      if rest == [] then Index(first)
      else if first > 255 || (rest[0] != ':' && rest[0] != '-') then Invalid
      else ReadSecond(first, rest)
  }

  function ReadSecond(first: Byte, rest: string): Selected
    requires rest != []
  {
    match ReadNumber(rest[1..], 255)
    case NoNumber => Invalid
    case Number(second, more) =>
      if second == 0 then Invalid
      else if rest[0] == ':' then if more == [] then BusAddress(first, second) else Invalid
      else
        var ports := ReadPorts([second], more);
        if ports == [] then Invalid else Port(first, ports)
  }

  // ---------------------------------------------------------------- the language accepted

  predicate Numeral(s: string) {
    s != [] && forall i | 0 <= i < |s| :: IsDigit(s[i])
  }

  /** A numeral of this value. */
  predicate Denotes(s: string, n: nat) {
    Numeral(s) && Value(s) == n
  }

  function Dotted(numerals: seq<string>): string {
    if numerals == [] then "" else "." + numerals[0] + Dotted(numerals[1..])
  }

  ghost predicate Spells(numerals: seq<string>, ports: seq<Byte>) {
    |numerals| == |ports| && forall i | 0 <= i < |ports| :: Denotes(numerals[i], ports[i]) && ports[i] != 0
  }

  ghost predicate NamesAddress(s: string, bus: Byte, address: Byte, x: string, y: string) {
    s == x + (":" + y) && Denotes(x, bus) && Denotes(y, address) && address != 0
  }

  ghost predicate NamesPorts(s: string, bus: Byte, ports: seq<Byte>, x: string, y: string, more: seq<string>) {
    && s == x + ("-" + (y + Dotted(more))) && Denotes(x, bus)
    && 1 <= |ports| <= 8 && Denotes(y, ports[0]) && ports[0] != 0 && Spells(more, ports[1..])
  }

  /** The texts that name a selector: a numeral, bus:address, or bus-port.port... with one to eight
      nonzero ports; leading zeros are allowed anywhere. */
  ghost predicate Names(s: string, r: Selected) {
    match r
    case Invalid => false
    case Index(i) => Denotes(s, i) && i <= 0xFFFF_FFFF
    case BusAddress(bus, address) => exists x, y :: NamesAddress(s, bus, address, x, y)
    case Port(bus, ports) => exists x, y, more :: NamesPorts(s, bus, ports, x, y, more)
  }

  /** A numeral is read up to what follows it that is not a digit. */
  lemma ReadNumeral(x: string, rest: string, max: nat)
    requires Numeral(x) && Value(x) <= max && (rest != [] ==> !IsDigit(rest[0]))
    ensures ReadNumber(x + rest, max) == Number(Value(x), rest)
  {
    var s := x + rest;
    DigitCountOf(x, rest);
    assert s[..|x|] == x;
    assert s[|x|..] == rest;
  }

  lemma {:induction false} DigitCountOf(digits: string, rest: string)
    requires (forall i | 0 <= i < |digits| :: IsDigit(digits[i])) && (rest != [] ==> !IsDigit(rest[0]))
    ensures DigitCount(digits + rest) == |digits|
  {
    if digits == [] {
      assert digits + rest == rest;
    } else {
      assert (digits + rest)[1..] == digits[1..] + rest;
      DigitCountOf(digits[1..], rest);
    }
  }

  /** And what is read is a numeral. */
  lemma NumeralRead(s: string, max: nat) returns (x: string)
    requires ReadNumber(s, max).Number?
    ensures var r := ReadNumber(s, max);
            s == x + r.rest && Denotes(x, r.value) && (r.rest != [] ==> !IsDigit(r.rest[0]))
  {
    x := s[..DigitCount(s)];
  }

  lemma DottedTail(numerals: seq<string>)
    ensures var s := Dotted(numerals); s != [] ==> s[0] == '.' && !IsDigit(s[0])
  {
  }

  lemma {:induction false} PortsRead(read: seq<Byte>, more: seq<string>, ports: seq<Byte>)
    requires Spells(more, ports) && |read| + |ports| <= MAX_PORTS
    ensures ReadPorts(read, Dotted(more)) == read + ports
    decreases |ports|
  {
    if ports == [] {
      assert read + ports == read;
    } else {
      var s, rest := Dotted(more), Dotted(more[1..]);
      assert s[1..] == more[0] + rest;
      DottedTail(more[1..]);
      assert Denotes(more[0], ports[0]);
      ReadNumeral(more[0], rest, 255);
      PortStep(read, s, ports[0], rest);
      PortsRead(read + [ports[0]], more[1..], ports[1..]);
      OneMore(read, ports);
    }
  }

  lemma OneMore(read: seq<Byte>, ports: seq<Byte>)
    requires ports != []
    ensures read + [ports[0]] + ports[1..] == read + ports
  {
  }

  lemma PortStep(read: seq<Byte>, s: string, port: Byte, rest: string)
    requires |read| < MAX_PORTS && s != [] && s[0] == '.' && port != 0
    requires ReadNumber(s[1..], 255) == Number(port, rest)
    ensures ReadPorts(read, s) == ReadPorts(read + [port], rest)
  {
  }

  lemma {:induction false} PortsSpelled(read: seq<Byte>, s: string) returns (more: seq<string>, ports: seq<Byte>)
    requires 1 <= |read| <= MAX_PORTS && ReadPorts(read, s) != []
    ensures ReadPorts(read, s) == read + ports && |read| + |ports| <= MAX_PORTS
    ensures s == Dotted(more) && Spells(more, ports)
    decreases |s|
  {
    if s == [] {
      more, ports := [], [];
      assert read + [] == read;
    } else {
      PortTaken(read, s);
      var n := ReadNumber(s[1..], 255);
      var x := NumeralRead(s[1..], 255);
      var later, further := PortsSpelled(read + [n.value], n.rest);
      more, ports := [x] + later, [n.value] + further;
      FirstSpelled(x, n.value, later, further);
      Reassociate(read, n.value, further);
      DotFirst(s, x, n.rest);
    }
  }

  lemma DotFirst(s: string, x: string, rest: string)
    requires s != [] && s[0] == '.' && s[1..] == x + rest
    ensures s == "." + x + rest
  {
  }

  lemma PortTaken(read: seq<Byte>, s: string)
    requires s != [] && ReadPorts(read, s) != []
    ensures var n := ReadNumber(s[1..], 255);
            && s[0] == '.' && |read| != MAX_PORTS && n.Number? && n.value != 0
            && ReadPorts(read, s) == ReadPorts(read + [n.value], n.rest)
  {
  }

  lemma Reassociate(read: seq<Byte>, port: Byte, further: seq<Byte>)
    ensures read + [port] + further == read + ([port] + further)
  {
  }

  lemma FirstSpelled(x: string, port: Byte, later: seq<string>, further: seq<Byte>)
    requires Denotes(x, port) && port != 0 && Spells(later, further)
    ensures Spells([x] + later, [port] + further) && Dotted([x] + later) == "." + x + Dotted(later)
  {
    assert ([x] + later)[1..] == later;
  }

  lemma NamedIsRead(s: string, r: Selected)
    requires Names(s, r)
    ensures Read(s) == r
  {
    match r
    case Index(i) =>
      ReadNumeral(s, [], UINT32_MAX);
      assert s + [] == s;
    case BusAddress(bus, address) =>
      var x, y :| NamesAddress(s, bus, address, x, y);
      ReadNumeral(x, ":" + y, UINT32_MAX);
      AddressIsRead(bus, address, ":" + y, y);
    case Port(bus, ports) =>
      var x, y, more :| NamesPorts(s, bus, ports, x, y, more);
      var tail := "-" + (y + Dotted(more));
      ReadNumeral(x, tail, UINT32_MAX);
      PortsAreRead(bus, ports, tail, y, more);
  }

  lemma AddressIsRead(bus: Byte, address: Byte, tail: string, y: string)
    requires tail == ":" + y && Denotes(y, address) && address != 0
    ensures ReadSecond(bus, tail) == BusAddress(bus, address)
  {
    ReadNumeral(y, [], 255);
    assert tail[1..] == y + [];
  }

  lemma PortsAreRead(bus: Byte, ports: seq<Byte>, tail: string, y: string, more: seq<string>)
    requires 1 <= |ports| <= MAX_PORTS && Denotes(y, ports[0]) && ports[0] != 0 && Spells(more, ports[1..])
    requires tail == "-" + (y + Dotted(more))
    ensures ReadSecond(bus, tail) == Port(bus, ports)
  {
    assert tail[1..] == y + Dotted(more);
    DottedTail(more);
    ReadNumeral(y, Dotted(more), 255);
    PortsRead([ports[0]], more, ports[1..]);
    assert [ports[0]] + ports[1..] == ports;
    PathRead(bus, tail, ports, Dotted(more));
  }

  lemma PathRead(bus: Byte, tail: string, ports: seq<Byte>, rest: string)
    requires tail != [] && tail[0] == '-' && ports != [] && ports[0] != 0
    requires ReadNumber(tail[1..], 255) == Number(ports[0], rest) && ReadPorts([ports[0]], rest) == ports
    ensures ReadSecond(bus, tail) == Port(bus, ports)
  {
  }

  lemma ReadIsNamed(s: string)
    requires !Read(s).Invalid?
    ensures Names(s, Read(s))
  {
    var first := ReadNumber(s, UINT32_MAX);
    var x := NumeralRead(s, UINT32_MAX);
    if first.rest == [] {
      assert s == x;
    } else {
      var rest := first.rest;
      var second := ReadNumber(rest[1..], 255);
      var y := NumeralRead(rest[1..], 255);
      if rest[0] == ':' {
        assert rest == ":" + y;
        assert NamesAddress(s, first.value, second.value, x, y);
      } else {
        var more, ports := PortsSpelled([second.value], second.rest);
        assert rest == "-" + (y + Dotted(more));
        assert ([second.value] + ports)[1..] == ports;
        assert NamesPorts(s, first.value, [second.value] + ports, x, y, more);
      }
    }
  }

  /** The parser accepts exactly the texts that name a selector, and each names only one. */
  lemma ReadsTheLanguage(s: string, r: Selected)
    requires !r.Invalid?
    ensures Read(s) == r <==> Names(s, r)
  {
    if Read(s) == r {
      ReadIsNamed(s);
    }
    if Names(s, r) {
      NamedIsRead(s, r);
    }
  }

  // ---------------------------------------------------------------- the parser

  /** siano_parse_device_selector */
  method Parse(text: string) returns (r: Selected)
    ensures r == Read(text)
    ensures r.Invalid? || Names(text, r)
    ensures forall q :: Names(text, q) ==> q == r
  {
    forall q: Selected | !q.Invalid? ensures Read(text) == q <==> Names(text, q) {
      ReadsTheLanguage(text, q);
    }
    assert text[0..] == text;
    var first := ParseNumber(text, 0, UINT32_MAX);
    if first.NoNumber? {
      return Invalid;
    }
    if first.rest == [] {
      return Index(first.value);
    }
    if (first.rest[0] != ':' && first.rest[0] != '-') || first.value > 255 {
      return Invalid;
    }
    var second := ParseNumber(first.rest, 1, 255);
    if second.NoNumber? || second.value == 0 {
      return Invalid;
    }
    if first.rest[0] == ':' {
      return if second.rest == [] then BusAddress(first.value, second.value) else Invalid;
    }
    var ports := ParsePorts(second.rest, second.value);
    r := if ports == [] then Invalid else Port(first.value, ports);
  }

  /** The loop over further ports. */
  method ParsePorts(text: string, first: Byte) returns (ports: seq<Byte>)
    ensures ports == ReadPorts([first], text)
  {
    ports := [first];
    var s := text;
    while s != [] && s[0] == '.'
      invariant ReadPorts([first], text) == ReadPorts(ports, s)
      decreases |s|
    {
      if |ports| == MAX_PORTS {
        return [];
      }
      var port := ParseNumber(s, 1, 255);
      if port.NoNumber? || port.value == 0 {
        return [];
      }
      ports := ports + [port.value];
      s := port.rest;
    }
    if s != [] {
      ports := [];
    }
  }

  // ---------------------------------------------------------------- printing

  /** `%u` */
  function Decimal(n: nat): (s: string)
    ensures |s| > 0 && (forall i | 0 <= i < |s| :: IsDigit(s[i])) && Value(s) == n
  {
    if n < 10 then
      var s := [('0' as int + n) as char];
      assert s[..0] == [];
      s
    else
      var s := Decimal(n / 10) + [('0' as int + n % 10) as char];
      assert s[..|s| - 1] == Decimal(n / 10);
      s
  }

  function MorePorts(ports: seq<Byte>): string {
    if ports == [] then "" else "." + Decimal(ports[0]) + MorePorts(ports[1..])
  }

  /** bus-port.port... */
  function PortPath(bus: Byte, ports: seq<Byte>): string
    requires ports != []
  {
    Decimal(bus) + ("-" + (Decimal(ports[0]) + MorePorts(ports[1..])))
  }

  function Location(bus: Byte, address: Byte, ports: seq<Byte>): string {
    " bus=" + Decimal(bus) + " address=" + Decimal(address) + " port=" +
    (if ports == [] then "-" else PortPath(bus, ports))
  }

  /** siano_format_usb_location: it succeeds exactly when the text and its terminator fit. */
  method Format(size: nat, bus: Byte, address: Byte, ports: seq<Byte>) returns (ok: bool, buffer: string)
    ensures ok <==> |Location(bus, address, ports)| < size
    ensures ok ==> buffer == Location(bus, address, ports)
  {
    buffer := " bus=" + Decimal(bus) + " address=" + Decimal(address) + " port=";
    if |buffer| >= size {
      return false, buffer;
    }
    if ports == [] {
      return |buffer| + 1 < size, buffer + "-";
    }
    ghost var whole := Location(bus, address, ports);
    FirstPort(buffer, Decimal(bus), Decimal(ports[0]), MorePorts(ports[1..]));
    buffer := buffer + (Decimal(bus) + "-" + Decimal(ports[0]));
    if |buffer| >= size {
      return false, buffer;
    }
    for index := 1 to |ports|
      invariant |buffer| < size && whole == buffer + MorePorts(ports[index..])
    {
      assert ports[index..][1..] == ports[index + 1..];
      var piece := "." + Decimal(ports[index]);
      assert whole == buffer + piece + MorePorts(ports[index + 1..]);
      buffer := buffer + piece;
      if |buffer| >= size {
        return false, buffer;
      }
    }
    ok := true;
  }

  lemma FirstPort(before: string, bus: string, port: string, more: string)
    ensures before + (bus + ("-" + (port + more))) == before + (bus + "-" + port) + more
  {
  }

  // ---------------------------------------------------------------- the round trip

  lemma {:induction false} DecimalsSpell(ports: seq<Byte>) returns (more: seq<string>)
    requires NonZero(ports)
    ensures MorePorts(ports) == Dotted(more) && Spells(more, ports)
  {
    if ports == [] {
      more := [];
    } else {
      var later := DecimalsSpell(ports[1..]);
      more := [Decimal(ports[0])] + later;
      assert more[1..] == later;
    }
  }

  /** Printing and parsing undo each other, for every bus and one to eight nonzero ports. */
  lemma PrintedPathIsRead(bus: Byte, ports: seq<Byte>)
    requires 1 <= |ports| <= MAX_PORTS && NonZero(ports)
    ensures Read(PortPath(bus, ports)) == Port(bus, ports)
  {
    var more := DecimalsSpell(ports[1..]);
    assert NamesPorts(PortPath(bus, ports), bus, ports, Decimal(bus), Decimal(ports[0]), more);
    NamedIsRead(PortPath(bus, ports), Port(bus, ports));
  }

  /** The other two forms are read back too: a plain index, and bus:address. */
  lemma PrintedIndexIsRead(index: nat)
    requires index <= UINT32_MAX
    ensures Read(Decimal(index)) == Index(index)
  {
    NamedIsRead(Decimal(index), Index(index));
  }

  lemma PrintedAddressIsRead(bus: Byte, address: Byte)
    requires address != 0
    ensures Read(Decimal(bus) + (":" + Decimal(address))) == BusAddress(bus, address)
  {
    var s := Decimal(bus) + (":" + Decimal(address));
    assert NamesAddress(s, bus, address, Decimal(bus), Decimal(address));
    NamedIsRead(s, BusAddress(bus, address));
  }

  /** Every port selector that parses is one the printer names, and is read back from that name. */
  lemma ParsedPathsArePrintable(s: string)
    requires Read(s).Port?
    ensures 1 <= |Read(s).ports| <= MAX_PORTS && NonZero(Read(s).ports)
    ensures Read(PortPath(Read(s).bus, Read(s).ports)) == Read(s)
  {
    ReadIsNamed(s);
    var bus, ports := Read(s).bus, Read(s).ports;
    var x, y, more :| NamesPorts(s, bus, ports, x, y, more);
    SpelledNonZero(more, ports);
    PrintedPathIsRead(bus, ports);
  }

  lemma SpelledNonZero(more: seq<string>, ports: seq<Byte>)
    requires ports != [] && ports[0] != 0 && Spells(more, ports[1..])
    ensures NonZero(ports)
  {
    forall i | 0 < i < |ports| ensures ports[i] != 0 {
      assert ports[i] == ports[1..][i - 1];
    }
  }

  /** The 64-byte buffer of the lister holds any location of up to eight ports. */
  lemma SixtyFourBytesSuffice(bus: Byte, address: Byte, ports: seq<Byte>)
    ensures |Location(bus, address, ports)| <= 29 + 4 * |ports|
    ensures |ports| <= 8 ==> |Location(bus, address, ports)| < 64
  {
    ShortDecimal(bus);
    ShortDecimal(address);
    if ports != [] {
      ShortDecimal(ports[0]);
      MorePortsLength(ports[1..]);
    }
  }

  lemma ShortDecimal(b: Byte)
    ensures |Decimal(b)| <= 3
  {
    assert b >= 10 ==> |Decimal(b)| == |Decimal(b / 10)| + 1;
    assert b >= 100 ==> |Decimal(b / 10)| == |Decimal(b / 100)| + 1;
  }

  lemma {:induction false} MorePortsLength(ports: seq<Byte>)
    ensures |MorePorts(ports)| <= 4 * |ports|
  {
    if ports != [] {
      ShortDecimal(ports[0]);
      MorePortsLength(ports[1..]);
    }
  }

  /** No number is printed with a leading zero. */
  lemma {:induction false} NoLeadingZero(n: nat)
    ensures Decimal(n)[0] == '0' ==> n == 0 && |Decimal(n)| == 1
  {
    if n >= 10 {
      NoLeadingZero(n / 10);
      assert Decimal(n)[0] == Decimal(n / 10)[0];
    }
  }

  /** What the text looks like, with two ports and without any. */
  lemma LocationParts(bus: Byte, address: Byte, first: Byte, second: Byte)
    ensures Location(bus, address, []) == " bus=" + Decimal(bus) + " address=" + Decimal(address) + " port=" + "-"
    ensures Location(bus, address, [first, second]) ==
            " bus=" + Decimal(bus) + " address=" + Decimal(address) + " port="
            + (Decimal(bus) + ("-" + (Decimal(first) + ("." + Decimal(second) + ""))))
  {
    PathParts(bus, first, second);
  }

  lemma PathParts(bus: Byte, first: Byte, second: Byte)
    ensures PortPath(bus, [first, second]) == Decimal(bus) + ("-" + (Decimal(first) + ("." + Decimal(second) + "")))
  {
    assert [first, second][1..] == [second];
    OnePort(second);
  }

  lemma OnePort(port: Byte)
    ensures MorePorts([port]) == "." + Decimal(port) + ""
  {
  }
}
