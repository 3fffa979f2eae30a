/**
  Packets of the GDB Remote Serial Protocol (appendix E.1 of "Debugging with GDB"): what is sent for a
  payload, and what a receiver makes of a stream of bytes, one byte at a time.
 */
module Rsp {
  import opened Bits
  import opened Bytes
  import opened IoV2

  const MAX_LEN := 16 * 1024
  const CTRL_C: byte := 0x03
  const HASH: byte := 0x23
  const DOLLAR: byte := 0x24
  const PERCENT: byte := 0x25
  const STAR: byte := 0x2A
  const PLUS: byte := 0x2B
  const BRACE: byte := 0x7D

  datatype Fault = TooManyCharacters | BadChecksum

  /** The callbacks of the codec's user. */
  datatype Event = Packet(payload: seq<byte>) | Error(fault: Fault) | Interrupt | Ack

  // ---------------------------------------------------------------- what is sent

  /** `b ^ 0x20` */
  function Flip(b: byte): byte {
    if b / 32 % 2 == 1 then b - 32 else b + 32
  }

  lemma FlipIsXor(b: byte)
    ensures Flip(b) == Xor(b, 0x20)
  {
    Pow2Unfold(5); Pow2Unfold(4); Pow2Unfold(3); Pow2Unfold(2); Pow2Unfold(1); Pow2Unfold(0);
    XorBit(b, 5);
    var b1 := b / 2;
    var b2 := b1 / 2;
    var b3 := b2 / 2;
    var b4 := b3 / 2;
    assert Bit(b, 5) == Bit(b1, 4) == Bit(b2, 3) == Bit(b3, 2) == Bit(b4, 1) == Bit(b4 / 2, 0);
    assert b4 / 2 == b / 32;
  }

  predicate MustEscape(b: byte) {
    b == HASH || b == PERCENT || b == BRACE || b == STAR
  }

  function EscapeByte(b: byte): seq<byte> {
    if MustEscape(b) then [BRACE, Flip(b)] else [b]
  }

  function Escape(payload: seq<byte>): seq<byte>
    decreases |payload|, 1
  {
    EscapeStep(payload)
  }

  function EscapeStep(payload: seq<byte>): seq<byte>
    decreases |payload|, 0
  {
    if payload == [] then [] else Escape(payload[..|payload| - 1]) + EscapeByte(payload[|payload| - 1])
  }

  lemma EscapeUnfold(payload: seq<byte>)
    ensures Escape(payload) ==
            if payload == [] then [] else Escape(payload[..|payload| - 1]) + EscapeByte(payload[|payload| - 1])
  {
    assert Escape(payload) == EscapeStep(payload);
  }

  /** A byte as the signed `char` that is added to a checksum. */
  function Signed(b: byte): int {
    if b < 128 then b else b - 256
  }

  /** A character is added to the 32-bit running checksum. */
  function Added(crc: int, b: byte): int {
    (crc + Signed(b)) % 0x1_0000_0000
  }

  /** The 32-bit running checksum. */
  function ChecksumOf(bytes: seq<byte>): int {
    if bytes == [] then 0 else Added(ChecksumOf(bytes[..|bytes| - 1]), bytes[|bytes| - 1])
  }

  function Sum(bytes: seq<byte>): int {
    if bytes == [] then 0 else Sum(bytes[..|bytes| - 1]) + bytes[|bytes| - 1]
  }

  /** The two digits are those of the modulo 256 sum of all characters, as the protocol demands. */
  lemma CrcIsSum(bytes: seq<byte>)
    ensures 0 <= ChecksumOf(bytes) < 0x1_0000_0000 && ChecksumOf(bytes) % 256 == Sum(bytes) % 256
  {
    var k := CrcMinusSum(bytes);
    AddMultiple(Sum(bytes), k);
  }

  lemma {:induction false} CrcMinusSum(bytes: seq<byte>) returns (k: int)
    ensures 0 <= ChecksumOf(bytes) < 0x1_0000_0000 && ChecksumOf(bytes) == Sum(bytes) + 256 * k
  {
    k := 0;
    if bytes != [] {
      var rest, b := bytes[..|bytes| - 1], bytes[|bytes| - 1];
      k := CrcMinusSum(rest);
      k := AddedMinus(ChecksumOf(rest), b, k);
    }
  }

  lemma AddedMinus(crc: int, b: byte, k: int) returns (k': int)
    ensures 0 <= Added(crc, b) < 0x1_0000_0000 && Added(crc, b) - 256 * k' == crc - 256 * k + b
  {
    k' := k - (if b < 128 then 0 else 1) - 0x100_0000 * ((crc + Signed(b)) / 0x1_0000_0000);
  }

  lemma AddMultiple(t: int, k: int)
    ensures (t + 256 * k) % 256 == t % 256
  {}

  function Digit(d: int): byte
    requires 0 <= d < 16
  {
    if d < 10 then 0x30 + d else 0x61 + d - 10
  }

  /** A checksum in two lower-case hexadecimal digits. */
  function Hex(crc: int): seq<byte> {
    [Digit(crc % 256 / 16), Digit(crc % 16)]
  }

  // An own reading of hexadecimal characters.

  const ZERO: byte := 0x30
  const NINE: byte := 0x39
  const LETTER_A: byte := 0x61
  const LETTER_F: byte := 0x66

  predicate IsHexDigit(c: byte) {
    ZERO <= c <= NINE || LETTER_A <= c <= LETTER_F
  }

  function HexValue(c: byte): nat
    requires IsHexDigit(c)
  {
    if c <= NINE then c - ZERO else c - LETTER_A + 10
  }

  /** Two lower-case hexadecimal characters, the high one first, that read as a sum modulo 256. */
  predicate ReadsAs(digits: seq<byte>, sum: int) {
    && |digits| == 2 && IsHexDigit(digits[0]) && IsHexDigit(digits[1])
    && 16 * HexValue(digits[0]) + HexValue(digits[1]) == sum % 256
  }

  lemma DigitReads(c: byte, d: int)
    requires 0 <= d < 16
    ensures c == Digit(d) <==> IsHexDigit(c) && HexValue(c) == d
  {}

  lemma HexReads(digits: seq<byte>, crc: int)
    ensures digits == Hex(crc) <==> ReadsAs(digits, crc)
  {
    if |digits| == 2 {
      LowDigit(crc);
      DigitsRead(digits, crc % 256 / 16, crc % 256 % 16);
      HighAndLow(crc % 256);
    }
  }

  lemma LowDigit(crc: int)
    ensures crc % 16 == crc % 256 % 16
  {
    LastDigit(crc, 16 * (crc / 256) + crc % 256 / 16, crc % 256 % 16);
  }

  lemma LastDigit(x: int, high: int, low: int)
    requires x == 16 * high + low && 0 <= low < 16
    ensures x % 16 == low
  {}

  lemma HighAndLow(b: byte)
    ensures b == 16 * (b / 16) + b % 16
  {}

  /** Two digits are determined by what they read as. */
  lemma DigitsRead(digits: seq<byte>, high: int, low: int)
    requires |digits| == 2 && 0 <= high < 16 && 0 <= low < 16
    ensures digits == [Digit(high), Digit(low)] <==>
            && IsHexDigit(digits[0]) && IsHexDigit(digits[1])
            && 16 * HexValue(digits[0]) + HexValue(digits[1]) == 16 * high + low
  {
    DigitReads(digits[0], high);
    DigitReads(digits[1], low);
    assert digits == [digits[0], digits[1]];
  }

  /** The two characters behind a packet are the ones that read as the sum of its bytes. */
  lemma ChecksumReads(bytes: seq<byte>, digits: seq<byte>)
    ensures digits == Hex(ChecksumOf(bytes)) <==> ReadsAs(digits, Sum(bytes))
  {
    CrcIsSum(bytes);
    HexReads(digits, ChecksumOf(bytes));
  }

  function Encoded(payload: seq<byte>): seq<byte> {
    [DOLLAR] + Escape(payload) + [HASH] + Hex(ChecksumOf(Escape(payload)))
  }

  // ---------------------------------------------------------------- what is received

  datatype Unescaping = Unescaping(bytes: seq<byte>, escaped: bool)

  function Unescape(bytes: seq<byte>): Unescaping
    decreases |bytes|, 1
  {
    UnescapeLast(bytes)
  }

  function UnescapeLast(bytes: seq<byte>): Unescaping
    decreases |bytes|, 0
  {
    if bytes == [] then Unescaping([], false)
    else
      var u, b := Unescape(bytes[..|bytes| - 1]), bytes[|bytes| - 1];
      if u.escaped then Unescaping(u.bytes + [Flip(b)], false)
      else if b == BRACE then Unescaping(u.bytes, true)
      else Unescaping(u.bytes + [b], false)
  }

  datatype Phase = Outside | Inside | Trailer

  /** A receiver: the packet so far, in a checksum perhaps its first digit, and what it has told its user. */
  datatype Receiver = Receiver(phase: Phase, pkt: seq<byte>, escaped: bool, digit: seq<byte>, events: seq<Event>)

  function Idle(events: seq<Event>): Receiver {
    Receiver(Outside, [], false, [], events)
  }

  function Byte(r: Receiver, b: byte): Receiver {
    match r.phase
    case Outside =>
      if b == CTRL_C then r.(events := r.events + [Interrupt])
      else if b == PLUS then r.(events := r.events + [Ack])
      else if b == DOLLAR then r.(phase := Inside)
      else r
    case Inside =>
      if r.escaped then r.(pkt := r.pkt + [b], escaped := false)
      else if b == BRACE then r.(pkt := r.pkt + [b], escaped := true)
      else if b == HASH then r.(phase := Trailer)
      else r.(pkt := r.pkt + [b])
    case Trailer =>
      if r.digit == [] then r.(digit := [b])
      else if r.digit + [b] == Hex(ChecksumOf(r.pkt)) then Idle(r.events + [Packet(Unescape(r.pkt).bytes)])
      else Idle(r.events + [Error(BadChecksum)])
  }

  // As in Arith, a name and one step of the definition.
  function Feed(r: Receiver, bytes: seq<byte>): Receiver
    decreases |bytes|, 1
  {
    FeedStep(r, bytes)
  }

  function FeedStep(r: Receiver, bytes: seq<byte>): Receiver
    decreases |bytes|, 0
  {
    if bytes == [] then r else Byte(Feed(r, bytes[..|bytes| - 1]), bytes[|bytes| - 1])
  }

  lemma FeedUnfold(r: Receiver, bytes: seq<byte>)
    ensures Feed(r, bytes) == if bytes == [] then r else Byte(Feed(r, bytes[..|bytes| - 1]), bytes[|bytes| - 1])
  {
    assert Feed(r, bytes) == FeedStep(r, bytes);
  }

  lemma {:induction false} FeedConcat(r: Receiver, a: seq<byte>, b: seq<byte>)
    ensures Feed(r, a + b) == Feed(Feed(r, a), b)
  {
    FeedUnfold(r, a + b);
    FeedUnfold(Feed(r, a), b);
    if b == [] {
      assert a + b == a;
    } else {
      FeedConcat(r, a, b[..|b| - 1]);
      assert (a + b)[..|a + b| - 1] == a + b[..|b| - 1];
    }
  }

  lemma FeedOne(r: Receiver, b: byte)
    ensures Feed(r, [b]) == Byte(r, b)
  {
    FeedUnfold(r, [b]);
    FeedUnfold(r, []);
    assert [b][..0] == [];
  }

  /** What a receiver has told its user stays told. */
  lemma {:induction false} FeedEvents(r: Receiver, bytes: seq<byte>)
    ensures r.events <= Feed(r, bytes).events
  {
    FeedUnfold(r, bytes);
    if bytes != [] { FeedEvents(r, bytes[..|bytes| - 1]); }
  }

  /** The length of the packet so far, with its start character. */
  function Load(r: Receiver): nat {
    |r.pkt| + (if r.phase == Outside then 0 else 1)
  }

  lemma {:induction false} FeedLoad(r: Receiver, bytes: seq<byte>)
    ensures Load(Feed(r, bytes)) <= Load(r) + |bytes|
  {
    FeedUnfold(r, bytes);
    if bytes != [] { FeedLoad(r, bytes[..|bytes| - 1]); }
  }

  /** Whether the last of `bytes` is an escape character in force; `None` if an unescaped `#` is among them. */
  function Scan(escaped: bool, bytes: seq<byte>): Option<bool> {
    if bytes == [] then Some(escaped)
    else
      var e, b := Scan(escaped, bytes[..|bytes| - 1]), bytes[|bytes| - 1];
      if e.None? || (!e.value && b == HASH) then None else Some(!e.value && b == BRACE)
  }

  lemma {:induction false} ScanFeeds(r: Receiver, bytes: seq<byte>)
    requires r.phase == Inside && Scan(r.escaped, bytes).Some?
    ensures Feed(r, bytes) == r.(pkt := r.pkt + bytes, escaped := Scan(r.escaped, bytes).value)
  {
    FeedUnfold(r, bytes);
    if bytes != [] {
      ScanFeeds(r, bytes[..|bytes| - 1]);
      assert bytes == bytes[..|bytes| - 1] + [bytes[|bytes| - 1]];
    } else {
      assert r.pkt + bytes == r.pkt;
    }
  }

  /** A packet without an unescaped `#` has none in its beginning. */
  lemma {:induction false} ScanPrefix(escaped: bool, bytes: seq<byte>, j: nat)
    requires Scan(escaped, bytes).Some? && j <= |bytes|
    ensures Scan(escaped, bytes[..j]).Some?
  {
    if j < |bytes| {
      ScanPrefix(escaped, bytes[..|bytes| - 1], j);
      assert bytes[..|bytes| - 1][..j] == bytes[..j];
    } else {
      assert bytes[..j] == bytes;
    }
  }

  // ---------------------------------------------------------------- the round trip

  lemma FlipTwice(b: byte)
    ensures Flip(Flip(b)) == b
  {}

  lemma UnescapeStep(bytes: seq<byte>, b: byte)
    ensures var u := Unescape(bytes);
            Unescape(bytes + [b]) ==
            if u.escaped then Unescaping(u.bytes + [Flip(b)], false)
            else if b == BRACE then Unescaping(u.bytes, true)
            else Unescaping(u.bytes + [b], false)
  {
    assert (bytes + [b])[..|bytes|] == bytes;
    assert Unescape(bytes + [b]) == UnescapeLast(bytes + [b]);
  }

  lemma UnescapeEmpty()
    ensures Unescape([]) == Unescaping([], false)
  {
    assert Unescape([]) == UnescapeLast([]);
  }

  lemma UnescapeEscaped(bytes: seq<byte>, b: byte)
    requires !Unescape(bytes).escaped
    ensures Unescape(bytes + [BRACE, Flip(b)]) == Unescaping(Unescape(bytes).bytes + [b], false)
  {
    UnescapeStep(bytes, BRACE);
    UnescapeStep(bytes + [BRACE], Flip(b));
    FlipTwice(b);
    assert bytes + [BRACE, Flip(b)] == bytes + [BRACE] + [Flip(b)];
  }

  lemma UnescapeNext(bytes: seq<byte>, payload: seq<byte>, b: byte)
    requires Unescape(bytes) == Unescaping(payload, false)
    ensures Unescape(bytes + EscapeByte(b)) == Unescaping(payload + [b], false)
  {
    if MustEscape(b) { UnescapeEscaped(bytes, b); } else { UnescapeStep(bytes, b); }
  }

  lemma UnescapeGrown(payload: seq<byte>, rest: seq<byte>, b: byte)
    requires payload == rest + [b] && Unescape(Escape(rest)) == Unescaping(rest, false)
    ensures Unescape(Escape(payload)) == Unescaping(payload, false)
  {
    EscapeUnfold(payload);
    assert payload[..|rest|] == rest;
    UnescapeNext(Escape(rest), rest, b);
  }

  /** Unescaping undoes escaping. */
  lemma {:induction false} UnescapeEscape(payload: seq<byte>)
    ensures Unescape(Escape(payload)) == Unescaping(payload, false)
  {
    if payload == [] {
      EscapeUnfold([]);
      UnescapeEmpty();
    } else {
      var n := |payload| - 1;
      UnescapeEscape(payload[..n]);
      UnescapeGrown(payload, payload[..n], payload[n]);
    }
  }

  lemma ScanStep(escaped: bool, bytes: seq<byte>, b: byte)
    ensures var e := Scan(escaped, bytes);
            Scan(escaped, bytes + [b]) == if e.None? || (!e.value && b == HASH) then None
              else Some(!e.value && b == BRACE)
  {
    assert (bytes + [b])[..|bytes|] == bytes;
  }

  /** An escaped payload holds no unescaped `#` and no open escape. */
  lemma {:induction false} EscapeScans(payload: seq<byte>)
    ensures Scan(false, Escape(payload)) == Some(false)
  {
    EscapeUnfold(payload);
    if payload != [] {
      var rest, b := payload[..|payload| - 1], payload[|payload| - 1];
      EscapeScans(rest);
      ScanEscaped(Escape(rest), b);
    }
  }

  lemma ScanEscaped(bytes: seq<byte>, b: byte)
    requires Scan(false, bytes) == Some(false)
    ensures Scan(false, bytes + EscapeByte(b)) == Some(false)
  {
    ScanStep(false, bytes, BRACE);
    ScanStep(false, bytes + [BRACE], Flip(b));
    ScanStep(false, bytes, b);
    assert bytes + [BRACE, Flip(b)] == bytes + [BRACE] + [Flip(b)];
  }

  /** A start character, a packet without an unescaped `#`, and a `#`. */
  lemma FeedPacket(events: seq<Event>, body: seq<byte>)
    requires Scan(false, body) == Some(false)
    ensures Feed(Idle(events), [DOLLAR] + body + [HASH]) == Receiver(Trailer, body, false, [], events)
  {
    FeedOne(Idle(events), DOLLAR);
    FeedConcat(Idle(events), [DOLLAR], body);
    FeedBody(events, body);
    FeedOne(Receiver(Inside, body, false, [], events), HASH);
    FeedConcat(Idle(events), [DOLLAR] + body, [HASH]);
  }

  lemma FeedBody(events: seq<Event>, body: seq<byte>)
    requires Scan(false, body) == Some(false)
    ensures Feed(Receiver(Inside, [], false, [], events), body) == Receiver(Inside, body, false, [], events)
  {
    ScanFeeds(Receiver(Inside, [], false, [], events), body);
    assert [] + body == body;
  }

  lemma TrailerDigits(r: Receiver, a: byte, b: byte)
    requires r.phase == Trailer && r.digit == []
    ensures Byte(Byte(r, a), b) ==
            if [a, b] == Hex(ChecksumOf(r.pkt)) then Idle(r.events + [Packet(Unescape(r.pkt).bytes)])
            else Idle(r.events + [Error(BadChecksum)])
  {
    assert [a] + [b] == [a, b];
    assert Byte(r, a) == r.(digit := [a]);
  }

  lemma FeedTwo(r: Receiver, digits: seq<byte>)
    requires |digits| == 2
    ensures Feed(r, digits) == Byte(Byte(r, digits[0]), digits[1])
  {
    FeedUnfold(r, digits);
    FeedOne(r, digits[0]);
    assert digits[..1] == [digits[0]];
  }

  /** The digits that close a packet. */
  lemma FeedDigits(events: seq<Event>, pkt: seq<byte>)
    ensures Feed(Receiver(Trailer, pkt, false, [], events), Hex(ChecksumOf(pkt))) ==
            Idle(events + [Packet(Unescape(pkt).bytes)])
  {
    var digits := Hex(ChecksumOf(pkt));
    FeedTwo(Receiver(Trailer, pkt, false, [], events), digits);
    assert [digits[0]] + [digits[1]] == digits;
  }

  /** A receiver that is fed what is sent for a payload tells its user that payload, once, and is ready for the next. */
  lemma RoundTrip(events: seq<Event>, payload: seq<byte>)
    ensures Feed(Idle(events), Encoded(payload)) == Idle(events + [Packet(payload)])
  {
    EscapeScans(payload);
    FeedPacket(events, Escape(payload));
    FeedDigits(events, Escape(payload));
    UnescapeEscape(payload);
    FeedConcat(Idle(events), [DOLLAR] + Escape(payload) + [HASH], Hex(ChecksumOf(Escape(payload))));
  }

  // ---------------------------------------------------------------- what is on the wire

  /** `#`, `%`, `}` and `*`. */
  predicate IsSpecial(b: byte) {
    b == 0x23 || b == 0x25 || b == 0x7D || b == 0x2A
  }

  function Specials(payload: seq<byte>): nat {
    if payload == [] then 0
    else Specials(payload[..|payload| - 1]) + (if IsSpecial(payload[|payload| - 1]) then 1 else 0)
  }

  /** Of the special characters only `}` is left in an escaped payload, and nothing but these is escaped. */
  lemma {:induction false} EscapeClean(payload: seq<byte>)
    ensures forall i :: 0 <= i < |Escape(payload)| ==> !IsSpecial(Escape(payload)[i]) || Escape(payload)[i] == 0x7D
    ensures |Escape(payload)| == |payload| + Specials(payload)
  {
    EscapeUnfold(payload);
    if payload != [] { EscapeClean(payload[..|payload| - 1]); }
  }

  /** `$`, a body that unescapes to the payload, `#`, and two characters that read as the sum of the body. */
  ghost predicate IsPacketFor(e: seq<byte>, payload: seq<byte>) {
    && |e| == |payload| + Specials(payload) + 4
    && var body := e[1..|e| - 3];
       && e[0] == 0x24 && e[|e| - 3] == 0x23 && ReadsAs(e[|e| - 2..], Sum(body))
       && Unescape(body) == Unescaping(payload, false)
       && forall i :: 0 <= i < |body| ==> !IsSpecial(body[i]) || body[i] == 0x7D
  }

  /** What is sent for a payload. */
  lemma EncodedIsPacket(payload: seq<byte>)
    ensures IsPacketFor(Encoded(payload), payload)
  {
    var body, e := Escape(payload), Encoded(payload);
    EscapeClean(payload);
    UnescapeEscape(payload);
    ChecksumReads(body, Hex(ChecksumOf(body)));
    Parts(DOLLAR, body, HASH, Hex(ChecksumOf(body)));
  }

  lemma Parts(a: byte, body: seq<byte>, h: byte, digits: seq<byte>)
    requires |digits| == 2
    ensures var e := [a] + body + [h] + digits;
            |e| == |body| + 4 && e[0] == a && e[1..|e| - 3] == body && e[|e| - 3] == h && e[|e| - 2..] == digits
  {}

  /** A packet from the other side is reported if its two characters read as the sum of its body, and as bad if not. */
  lemma PacketTells(events: seq<Event>, body: seq<byte>, digits: seq<byte>)
    requires Scan(false, body) == Some(false) && |digits| == 2
    ensures Feed(Idle(events), [0x24] + body + [0x23] + digits) ==
            Idle(events + [if ReadsAs(digits, Sum(body)) then Packet(Unescape(body).bytes) else Error(BadChecksum)])
  {
    var r := Receiver(Trailer, body, false, [], events);
    FeedPacket(events, body);
    FeedConcat(Idle(events), [DOLLAR] + body + [HASH], digits);
    FeedTwo(r, digits);
    TrailerDigits(r, digits[0], digits[1]);
    assert [digits[0], digits[1]] == digits;
    ChecksumReads(body, digits);
  }

  /** Outside of packets: an interrupt for each 0x03 and an acknowledgement for each `+`, in order, and nothing else. */
  function Signals(bytes: seq<byte>): seq<Event> {
    if bytes == [] then []
    else
      var b := bytes[|bytes| - 1];
      Signals(bytes[..|bytes| - 1]) + (if b == 0x03 then [Interrupt] else if b == 0x2B then [Ack] else [])
  }

  lemma {:induction false} NoiseTells(events: seq<Event>, bytes: seq<byte>)
    requires forall i :: 0 <= i < |bytes| ==> bytes[i] != 0x24
    ensures Feed(Idle(events), bytes) == Idle(events + Signals(bytes))
  {
    FeedUnfold(Idle(events), bytes);
    if bytes == [] {
      assert events + [] == events;
    } else {
      var rest := bytes[..|bytes| - 1];
      NoiseTells(events, rest);
      SignalGrows(events, rest, bytes);
    }
  }

  lemma SignalGrows(events: seq<Event>, rest: seq<byte>, bytes: seq<byte>)
    requires bytes != [] && rest == bytes[..|bytes| - 1] && bytes[|bytes| - 1] != 0x24
    ensures Byte(Idle(events + Signals(rest)), bytes[|bytes| - 1]) == Idle(events + Signals(bytes))
  {
    var b := bytes[|bytes| - 1];
    var more := if b == 0x03 then [Interrupt] else if b == 0x2B then [Ack] else [];
    assert events + Signals(bytes) == events + Signals(rest) + more;
    assert events + Signals(rest) + [] == events + Signals(rest);
  }

  /** A payload of which the chosen characters are escaped. */
  function EscapedBy(payload: seq<byte>, choice: seq<bool>): seq<byte>
    requires |choice| == |payload|
    decreases |payload|, 1
  {
    EscapedByStep(payload, choice)
  }

  function EscapedByStep(payload: seq<byte>, choice: seq<bool>): seq<byte>
    requires |choice| == |payload|
    decreases |payload|, 0
  {
    if payload == [] then []
    else
      var n := |payload| - 1;
      EscapedBy(payload[..n], choice[..n]) + (if choice[n] then [0x7D, Flip(payload[n])] else [payload[n]])
  }

  /** The sender may escape what it likes, if only `#` and `}` are among it. */
  ghost predicate Chosen(payload: seq<byte>, choice: seq<bool>) {
    |choice| == |payload| && forall i :: 0 <= i < |payload| && (payload[i] == 0x23 || payload[i] == 0x7D) ==> choice[i]
  }

  lemma {:induction false} UnescapeAny(payload: seq<byte>, choice: seq<bool>)
    requires Chosen(payload, choice)
    ensures var body := EscapedBy(payload, choice);
            Unescape(body) == Unescaping(payload, false) && Scan(false, body) == Some(false)
  {
    assert EscapedBy(payload, choice) == EscapedByStep(payload, choice);
    if payload == [] {
      UnescapeEmpty();
    } else {
      var n := |payload| - 1;
      UnescapeAny(payload[..n], choice[..n]);
      assert payload[..n] + [payload[n]] == payload;
      AnyGrows(EscapedBy(payload[..n], choice[..n]), payload[..n], payload[n], choice[n]);
    }
  }

  lemma AnyGrows(body: seq<byte>, payload: seq<byte>, b: byte, escape: bool)
    requires Unescape(body) == Unescaping(payload, false) && Scan(false, body) == Some(false)
    requires b == 0x23 || b == 0x7D ==> escape
    ensures var body' := body + (if escape then [0x7D, Flip(b)] else [b]);
            Unescape(body') == Unescaping(payload + [b], false) && Scan(false, body') == Some(false)
  {
    if escape {
      UnescapeEscaped(body, b);
      ScanStep(false, body, BRACE);
      ScanStep(false, body + [BRACE], Flip(b));
      assert body + [BRACE, Flip(b)] == body + [BRACE] + [Flip(b)];
    } else {
      UnescapeStep(body, b);
      ScanStep(false, body, b);
    }
  }

  /** Whatever the sender chooses to escape, the payload is reported. */
  lemma ForeignRoundTrip(events: seq<Event>, payload: seq<byte>, choice: seq<bool>, digits: seq<byte>)
    requires Chosen(payload, choice) && ReadsAs(digits, Sum(EscapedBy(payload, choice)))
    ensures Feed(Idle(events), [0x24] + EscapedBy(payload, choice) + [0x23] + digits) ==
            Idle(events + [Packet(payload)])
  {
    UnescapeAny(payload, choice);
    PacketTells(events, EscapedBy(payload, choice), digits);
  }

  // ---------------------------------------------------------------- reports

  /** How many packets, good or bad, have been reported. */
  function Reports(events: seq<Event>): nat {
    if events == [] then 0
    else
      var e := events[|events| - 1];
      Reports(events[..|events| - 1]) + (if e.Packet? || e == Error(BadChecksum) then 1 else 0)
  }

  lemma ReportsAppend(events: seq<Event>, e: Event)
    ensures Reports(events + [e]) == Reports(events) + (if e.Packet? || e == Error(BadChecksum) then 1 else 0)
  {
    assert (events + [e])[..|events|] == events;
  }
}
