/** The packet codec: an encoder into a ring, an incremental decoder out of one, and the loop that feeds it. */
module RspPacketCodec {
  import opened Bytes
  import opened IoV2
  import opened Rsp
  import opened CircularBuffer
  import opened RspDecoding
  import opened RspStream

  /** The first `i` characters are unescaped into the first `cur` places; the others are still in theirs. */
  ghost predicate DeescapedUpTo(pkt: seq<byte>, buf: seq<byte>, i: nat, cur: nat, escaped: bool) {
    && cur <= i <= |pkt| == |buf| && Unescape(pkt[..i]) == Unescaping(buf[..cur], escaped)
    && forall k :: i <= k < |pkt| ==> buf[k] == pkt[k]
  }

  lemma NextDeescaped(pkt: seq<byte>, buf: seq<byte>, i: nat, cur: nat, escaped: bool)
    requires DeescapedUpTo(pkt, buf, i, cur, escaped) && i < |pkt|
    ensures if escaped then DeescapedUpTo(pkt, buf[cur := Flip(buf[i])], i + 1, cur + 1, false)
            else if buf[i] == BRACE then DeescapedUpTo(pkt, buf, i + 1, cur, true)
            else DeescapedUpTo(pkt, buf[cur := buf[i]], i + 1, cur + 1, false)
  {
    UnescapeStep(pkt[..i], pkt[i]);
    assert pkt[..i + 1] == pkt[..i] + [pkt[i]];
    assert buf[cur := Flip(buf[i])][..cur + 1] == buf[..cur] + [Flip(buf[i])];
    assert buf[cur := buf[i]][..cur + 1] == buf[..cur] + [buf[i]];
  }

  method Deescape(pkt: seq<byte>) returns (buf: seq<byte>, cur: nat)
    ensures cur <= |buf| == |pkt| && buf[..cur] == Unescape(pkt).bytes
  {
    buf, cur := pkt, 0;
    var i := 0;
    var escaped := false;
    assert pkt[..0] == [];
    UnescapeEmpty();
    while i < |pkt|
      invariant DeescapedUpTo(pkt, buf, i, cur, escaped)
    {
      NextDeescaped(pkt, buf, i, cur, escaped);
      assert i == cur ==> buf[cur := buf[i]] == buf;
      if escaped {
        escaped := false;
        buf := buf[cur := Flip(buf[i])];
        cur := cur + 1;
      } else if buf[i] == BRACE {
        escaped := true;
      } else {
        if i != cur { buf := buf[cur := buf[i]]; }
        cur := cur + 1;
      }
      i := i + 1;
    }
    assert pkt[..|pkt|] == pkt;
  }

  /** Looks for a `#` that is not escaped. */
  method ScanForHash(pkt: seq<byte>, escaped0: bool) returns (found: bool, cur: nat, escaped: bool)
    ensures cur == HashAt(escaped0, pkt) && found == (cur < |pkt|)
    ensures Scan(escaped0, pkt[..cur]) == Some(escaped)
  {
    cur, escaped := 0, escaped0;
    while cur < |pkt|
      invariant 0 <= cur <= |pkt| && Scan(escaped0, pkt[..cur]) == Some(escaped)
    {
      ScanStep(escaped0, pkt[..cur], pkt[cur]);
      assert pkt[..cur + 1] == pkt[..cur] + [pkt[cur]];
      if escaped {
        escaped := false;
      } else if pkt[cur] == BRACE {
        escaped := true;
      } else if pkt[cur] == HASH {
        ScanOn(escaped0, pkt, cur);
        return true, cur, escaped;
      }
      cur := cur + 1;
    }
    ScanOn(escaped0, pkt, cur);
    found := false;
  }

  method VerifyChecksum(buf: seq<byte>, crc: seq<byte>) returns (ok: bool)
    requires |crc| == 2
    ensures ok == (crc == Hex(ChecksumOf(buf))) && ok == ReadsAs(crc, Sum(buf))
  {
    var checksum := 0;
    var i := 0;
    assert buf[..0] == [];
    while i < |buf|
      invariant 0 <= i <= |buf| && checksum == ChecksumOf(buf[..i])
    {
      assert buf[..i + 1][..i] == buf[..i];
      checksum := Added(checksum, buf[i]);
      i := i + 1;
    }
    assert buf[..|buf|] == buf;
    ChecksumReads(buf, crc);
    var digits := Hex(checksum);
    ok := crc[0] == digits[0] && crc[1] == digits[1];
  }

  /** The packet and its checksum once the first `i` characters of a payload are escaped. */
  ghost predicate EscapedUpTo(raw0: seq<byte>, data: seq<byte>, i: nat, raw: seq<byte>, crc: int)
    requires i <= |data|
  {
    raw == raw0 + Escape(data[..i]) && crc == ChecksumOf(Escape(data[..i]))
  }

  /** Escapes a payload into a packet and sums it up. */
  method EscapeInto(data: seq<byte>, raw0: seq<byte>) returns (raw: seq<byte>, crc: int)
    ensures raw == raw0 + Escape(data) && crc == ChecksumOf(Escape(data))
  {
    raw, crc := raw0, 0;
    var i: nat := 0;
    assert data[..0] == [] && raw0 + [] == raw0;
    EscapeUnfold([]);
    while i < |data|
      invariant i <= |data| && EscapedUpTo(raw0, data, i, raw, crc)
    {
      raw, crc := EscapeCharacter(raw0, data, i, raw, crc);
      i := i + 1;
    }
    assert data[..|data|] == data;
  }

  /** The body of the loop: one more character, escaped if need be. */
  method EscapeCharacter(ghost raw0: seq<byte>, data: seq<byte>, i: nat, raw: seq<byte>, crc: int)
    returns (raw': seq<byte>, crc': int)
    requires i < |data| && EscapedUpTo(raw0, data, i, raw, crc)
    ensures EscapedUpTo(raw0, data, i + 1, raw', crc')
  {
    NextCharacter(raw0, data, i, raw, crc);
    var c := data[i];
    if c == HASH || c == PERCENT || c == BRACE || c == STAR {
      raw' := raw + [BRACE];
      raw' := raw' + [Flip(c)];
      crc' := Added(crc, BRACE);
      crc' := Added(crc', Flip(c));
    } else {
      raw' := raw + [c];
      crc' := Added(crc, c);
    }
  }

  lemma NextCharacter(raw0: seq<byte>, data: seq<byte>, i: nat, raw: seq<byte>, crc: int)
    requires i < |data| && EscapedUpTo(raw0, data, i, raw, crc)
    ensures var c := data[i];
            if MustEscape(c) then
              EscapedUpTo(raw0, data, i + 1, raw + [BRACE] + [Flip(c)], Added(Added(crc, BRACE), Flip(c)))
            else EscapedUpTo(raw0, data, i + 1, raw + [c], Added(crc, c))
  {
    var c := data[i];
    EscapeUnfold(data[..i + 1]);
    assert data[..i + 1][..i] == data[..i];
    PlainGrows(raw0, Escape(data[..i]), c);
    EscapedGrows(raw0, Escape(data[..i]), Flip(c));
  }

  lemma PlainGrows(raw0: seq<byte>, esc: seq<byte>, c: byte)
    ensures raw0 + (esc + [c]) == raw0 + esc + [c]
    ensures ChecksumOf(esc + [c]) == Added(ChecksumOf(esc), c)
  {
    CrcStep(esc, c);
  }

  lemma EscapedGrows(raw0: seq<byte>, esc: seq<byte>, f: byte)
    ensures raw0 + (esc + [BRACE, f]) == raw0 + esc + [BRACE] + [f]
    ensures ChecksumOf(esc + [BRACE, f]) == Added(Added(ChecksumOf(esc), BRACE), f)
  {
    assert esc + [BRACE, f] == esc + [BRACE] + [f];
    CrcStep(esc, BRACE);
    CrcStep(esc + [BRACE], f);
  }

  lemma CrcStep(bytes: seq<byte>, b: byte)
    ensures ChecksumOf(bytes + [b]) == Added(ChecksumOf(bytes), b)
  {
    assert (bytes + [b])[..|bytes|] == bytes;
  }

  /**
    Sends a payload, without run lengths. What goes out is the packet exactly if it fits the block behind the ring's
    tail; `ok` says so, but also if the packet is as long as all that is free in the ring.
   */
  method Encode(payload: seq<byte>, ring: CircularCharBuffer) returns (ok: bool)
    requires ring.Valid() && |Encoded(payload)| <= MAX_LEN
    modifies ring, ring.buf
    ensures ring.Valid()
    ensures var sent := Copied(Encoded(payload), old(ring.FirstBlock()), old(ring.SecondBlock()));
            ring.Contents() == old(ring.Contents()) + sent && ok == (|sent| == |Encoded(payload)|)
    ensures ring.Contents() == old(ring.Contents()) + Encoded(payload) <==>
            |Encoded(payload)| <= old(ring.FirstBlock())
    ensures |Encoded(payload)| <= old(ring.FirstBlock()) ==>
              IsPacketFor(ring.Contents()[|old(ring.Contents())|..], payload)
    ensures var free := old(ring.FirstBlock()) + old(ring.SecondBlock());
            ok <==> |Encoded(payload)| <= old(ring.FirstBlock()) || |Encoded(payload)| == free
  {
    EncodeExact(payload, ring.FirstBlock(), ring.SecondBlock());
    ghost var was := ring.Contents();
    var pkt, crc := EscapeInto(payload, [DOLLAR]);
    var digits := Hex(crc);
    pkt := pkt + [HASH];
    pkt := pkt + digits;
    var n := ring.WriteCopy(pkt);
    ok := n == |pkt|;
    EncodedIsPacket(payload);
    SameEnd(was, ring.Contents(), Copied(pkt, old(ring.FirstBlock()), old(ring.SecondBlock())), pkt);
  }

  lemma SameEnd(was: seq<byte>, now: seq<byte>, sent: seq<byte>, pkt: seq<byte>)
    requires now == was + sent
    ensures (now == was + pkt <==> sent == pkt) && now[|was|..] == sent
  {
    assert (was + sent)[|was|..] == sent && (was + pkt)[|was|..] == pkt;
  }

  lemma {:induction false} NoHashEscaped(payload: seq<byte>)
    ensures forall i :: 0 <= i < |Escape(payload)| ==> Escape(payload)[i] != HASH
  {
    EscapeUnfold(payload);
    if payload != [] { NoHashEscaped(payload[..|payload| - 1]); }
  }

  /** No packet goes on as it began: its only `#` is before its two digits, which are no start character. */
  lemma NotPeriodic(payload: seq<byte>, b: nat)
    requires 0 < b < |Encoded(payload)|
    ensures Encoded(payload)[..|Encoded(payload)| - b] != Encoded(payload)[b..]
  {
    var e, n := Encoded(payload), |Encoded(payload)| - b;
    NoHashEscaped(payload);
    assert forall i :: 0 <= i < |e| - 3 ==> e[i] == if i == 0 then DOLLAR else Escape(payload)[i - 1];
    if n >= 3 {
      assert e[b..][n - 3] == e[|e| - 3] == HASH && e[..n][n - 3] == e[n - 3] != HASH;
    } else {
      assert e[b..][0] == e[b] != DOLLAR && e[..n][0] == DOLLAR;
    }
  }

  /**
    With `b1` free bytes behind the tail and `b2` more at the start of the ring: what goes out is the packet exactly
    if it fits the first ones, and as many bytes as it has go out also if it has as many as both together.
   */
  lemma EncodeExact(payload: seq<byte>, b1: nat, b2: nat)
    requires b1 == 0 ==> b2 == 0
    ensures var e := Encoded(payload);
            && (Copied(e, b1, b2) == e <==> |e| <= b1)
            && (|Copied(e, b1, b2)| == |e| <==> |e| <= b1 || |e| == b1 + b2)
  {
    var e := Encoded(payload);
    if |e| > b1 > 0 && |e| == b1 + b2 {
      NotPeriodic(payload, b1);
      assert Copied(e, b1, b2)[b1..] == e[..b2];
    }
  }

  /** So the result misleads exactly if the packet does not fit the first block and fills both. */
  lemma EncodeMisleads(payload: seq<byte>, b1: nat, b2: nat)
    requires b1 == 0 ==> b2 == 0
    ensures var e := Encoded(payload);
            (|Copied(e, b1, b2)| == |e| <==> Copied(e, b1, b2) == e) <==> !(b1 < |e| == b1 + b2)
  {
    EncodeExact(payload, b1, b2);
  }

  /** The packet of an empty payload, with one free byte behind the tail and three at the start, goes out garbled. */
  lemma EncodeGarbles()
    ensures var e := Encoded([]); |Copied(e, 1, 3)| == |e| && Copied(e, 1, 3) != e
  {
    EscapeUnfold([]);
    EncodeExact([], 1, 3);
  }

  // ---------------------------------------------------------------- the decoder

  ghost function ViewOf(ring: CircularCharBuffer): (v: View)
    requires ring.Valid()
    reads ring, ring.buf
    ensures InRing(v, ring.buf.Length)
  {
    View(ring.Contents(), ring.head)
  }

  method Peek(ring: CircularCharBuffer) returns (block: seq<byte>)
    requires ring.Valid()
    ensures block == FirstBlockOf(ViewOf(ring), ring.buf.Length)
  {
    var start, len := ring.ReadBlock();
    block := ring.buf[start..start + len];
  }

  method Consume(ring: CircularCharBuffer, n: nat)
    requires ring.Valid() && n <= ring.Size()
    modifies ring
    ensures ring.Valid() && ViewOf(ring) == Drop(old(ViewOf(ring)), n, ring.buf.Length)
  {
    ring.CommitRead(n);
  }

  class Codec {
    var st: Decoder

    ghost predicate Valid()
      reads this
    {
      Sound(st)
    }

    constructor ()
      ensures Valid() && st.state == Leadin && Meaning(st) == Idle([]) && st.written == 0
    {
      st := Decoder(Leadin, [], false, [], 0);
    }

    /** Skips to what may begin in a block: an interrupt, an acknowledgement or a packet. */
    method SkipTo(block: seq<byte>) returns (n: nat)
      modifies this
      ensures Outcome(st, n, block != []) == Skipped(old(st), block)
    {
      n := 0;
      assert block[0..] == block;
      while n < |block|
        invariant 0 <= n <= |block| && st == old(st) && StartAt(block) == n + StartAt(block[n..])
      {
        assert block[n..][0] == block[n] && block[n..][1..] == block[n + 1..];
        var b := block[n];
        n := n + 1;
        if b == CTRL_C {
          st := st.(events := st.events + [Interrupt]);
          return;
        } else if b == PLUS {
          st := st.(events := st.events + [Ack]);
          return;
        } else if b == DOLLAR {
          st := st.(state := Body);
          return;
        }
      }
    }

    /** Collects the packet up to its `#`. Its length is looked at only when the block has been copied. */
    method Collect(block: seq<byte>) returns (more: bool, n: nat)
      requires st.state == Body
      modifies this
      ensures Outcome(st, n, more) == Collected(old(st), block)
    {
      var found, cur, escaped := ScanForHash(block, st.escaped);
      ScanFeeds(Meaning(st), block[..cur]);
      st := st.(pkt := st.pkt + block[..cur], escaped := escaped, written := Max(st.written, |st.pkt| + cur));
      if found {
        st := st.(state := Crc);
        return true, cur + 1;
      }
      n, more := cur, |block| > 0;
      if |st.pkt| >= MAX_LEN {
        st := st.(state := Init);
        st := st.(events := st.events + [Error(TooManyCharacters)]);
        more := true;
      }
    }

    /** Checks the two digits behind the packet, and tells the user of it. */
    method Conclude(block: seq<byte>) returns (n: nat)
      requires st.state == Crc
      modifies this
      ensures Outcome(st, n, false) == Concluded(old(st), block)
    {
      if |block| < 2 {
        return 0;
      }
      var ok := VerifyChecksum(st.pkt, block[..2]);
      if ok {
        var buf, cur := Deescape(st.pkt);
        st := st.(pkt := buf[..cur], state := Init);
        st := st.(events := st.events + [Packet(st.pkt)]);
      } else {
        st := st.(state := Init);
        st := st.(events := st.events + [Error(BadChecksum)]);
      }
      n := 2;
    }

    /** What the decoder makes of the block at the head of the ring, depending on its state. */
    method Dispatch(block: seq<byte>) returns (more: bool, n: nat)
      modifies this
      ensures Outcome(st, n, more) == StepOf(old(st), block)
    {
      more, n := false, 0;
      match st.state {
        case Init =>
          st := Decoder(Leadin, [], false, st.events, st.written);
          more := true;
        case Leadin =>
          n := SkipTo(block);
          more := |block| > 0;
        case Body =>
          more, n := Collect(block);
        case Crc =>
          n := Conclude(block);
      }
    }

    /**
      One step of the decoder; `more` says whether to take another. It has read the first `n` bytes. Two
      checksum digits are read exactly if they lie in one block.
     */
    method Step(ring: CircularCharBuffer) returns (more: bool, n: nat)
      requires Valid() && ring.Valid()
      modifies this, ring
      ensures Valid() && ring.Valid()
      ensures Outcome(st, n, more) == StepOf(old(st), FirstBlockOf(old(ViewOf(ring)), ring.buf.Length))
      ensures ViewOf(ring) == Drop(old(ViewOf(ring)), n, ring.buf.Length)
      ensures old(st).state == Crc && old(ring.Size()) >= 2 ==> (n == 2 <==> old(ring.head) + 2 <= ring.buf.Length)
    {
      var block := Peek(ring);
      StepMeaning(st, block);
      more, n := Dispatch(block);
      Consume(ring, n);
    }

    /** Decodes what the ring holds, up to the end of a packet. */
    method Decode(ring: CircularCharBuffer)
      requires Valid() && ring.Valid()
      modifies this, ring
      ensures Valid() && ring.Valid()
      ensures Link(st, ViewOf(ring)) == DecodeOf(old(Link(st, ViewOf(ring))), ring.buf.Length)
    {
      ghost var end := DecodeOf(Link(st, ViewOf(ring)), ring.buf.Length);
      var more := true;
      while more
        invariant Valid() && ring.Valid() && Leads(Link(st, ViewOf(ring)), more, end, ring.buf.Length)
        decreases ring.Size(), Rank(st.state), more
      {
        ghost var l := Link(st, ViewOf(ring));
        var n;
        more, n := Step(ring);
        StepLeads(l, end, Link(st, ViewOf(ring)), more, n, ring.buf.Length);
      }
    }
  }

  /** Decoding, should there be more to do, leads to `end`. */
  ghost predicate Leads(l: Link, more: bool, end: Link, max: nat) {
    InRing(l.v, max) && end == if more then DecodeOf(l, max) else l
  }

  lemma StepLeads(l: Link, end: Link, l1: Link, more: bool, n: nat, max: nat)
    requires Leads(l, true, end, max)
    requires Outcome(l1.d, n, more) == StepOf(l.d, FirstBlockOf(l.v, max)) && l1.v == Drop(l.v, n, max)
    ensures Leads(l1, more, end, max)
    ensures |l1.v.bytes| == |l.v.bytes| - n && (more ==> n > 0 || Rank(l1.d.state) < Rank(l.d.state))
  {
    DecodeUnfold(l, max);
  }

  // ---------------------------------------------------------------- the loop of the server

  /** A slice goes into the block that the ring offers; an empty ring is rewound first. */
  method Accept(ring: CircularCharBuffer, slice: seq<byte>)
    requires ring.Valid() && |slice| <= RoomOf(ViewOf(ring), ring.buf.Length)
    modifies ring, ring.buf
    ensures ring.Valid() && ViewOf(ring) == Accepted(old(ViewOf(ring)), slice, ring.buf.Length)
  {
    var start, len := ring.WriteBlock();
    ring.Fill(slice);
    ring.CommitWrite(|slice|);
  }

  /** One read from the socket: a slice arrives and is decoded. */
  method Receive(codec: Codec, ring: CircularCharBuffer, slice: seq<byte>)
    requires codec.Valid() && ring.Valid() && |slice| <= RoomOf(ViewOf(ring), ring.buf.Length)
    modifies codec, ring, ring.buf
    ensures codec.Valid() && ring.Valid()
    ensures Link(codec.st, ViewOf(ring)) == Arrived(old(Link(codec.st, ViewOf(ring))), slice, ring.buf.Length)
  {
    Accept(ring, slice);
    codec.Decode(ring);
  }

  /** Reads from the socket, one after another. */
  method ReceiveStream(codec: Codec, ring: CircularCharBuffer, slices: seq<seq<byte>>)
    requires codec.Valid() && ring.Valid()
    requires AllArrived(Link(codec.st, ViewOf(ring)), slices, ring.buf.Length).Some?
    modifies codec, ring, ring.buf
    ensures codec.Valid() && ring.Valid()
    ensures Some(Link(codec.st, ViewOf(ring))) == AllArrived(old(Link(codec.st, ViewOf(ring))), slices, ring.buf.Length)
  {
    ghost var l, max := Link(codec.st, ViewOf(ring)), ring.buf.Length;
    var i := 0;
    ArrivedUnfold(l, [], max);
    assert slices[..0] == [];
    while i < |slices|
      invariant 0 <= i <= |slices| && codec.Valid() && ring.Valid()
      invariant Some(Link(codec.st, ViewOf(ring))) == AllArrived(l, slices[..i], max)
    {
      NextSlice(l, slices, i, max);
      Receive(codec, ring, slices[i]);
      i := i + 1;
    }
    assert slices[..|slices|] == slices;
  }

  lemma NextSlice(l: Link, slices: seq<seq<byte>>, i: nat, max: nat)
    requires InRing(l.v, max) && i < |slices| && AllArrived(l, slices, max).Some?
    ensures var r := AllArrived(l, slices[..i], max);
            && r.Some? && |slices[i]| <= RoomOf(r.value.v, max)
            && AllArrived(l, slices[..i + 1], max) == Some(Arrived(r.value, slices[i], max))
  {
    ArrivedBefore(l, slices, i + 1, max);
    ArrivedUnfold(l, slices[..i + 1], max);
    assert slices[..i + 1][..i] == slices[..i];
  }

  lemma {:induction false} ArrivedBefore(l: Link, slices: seq<seq<byte>>, i: nat, max: nat)
    requires InRing(l.v, max) && i <= |slices| && AllArrived(l, slices, max).Some?
    ensures AllArrived(l, slices[..i], max).Some?
    decreases |slices|
  {
    if i == |slices| {
      assert slices[..i] == slices;
    } else {
      var n := |slices| - 1;
      ArrivedUnfold(l, slices, max);
      ArrivedBefore(l, slices[..n], i, max);
      assert slices[..n][..i] == slices[..i];
    }
  }

  /**
    The round trip under fragmentation: what is sent for a payload, cut into any slices and decoded after each of
    them, tells the user of that payload, once, and of nothing else, and leaves ring and decoder ready for the next
    packet. This is so exactly if no slice straddles, as in a ring that is at least as long as the packet; otherwise
    the user is told nothing.
   */
  method ReceiveAll(codec: Codec, ring: CircularCharBuffer, slices: seq<seq<byte>>, ghost payload: seq<byte>)
    requires codec.Valid() && (codec.st.state == Leadin || codec.st.state == Init)
    requires ring.Valid() && ring.Contents() == [] && ring.buf.Length > 1
    requires Joined(slices) == Encoded(payload) && Sendable(payload)
    requires forall i :: 0 <= i < |slices| ==> |slices[i]| <= ring.buf.Length
    modifies codec, ring, ring.buf
    ensures codec.Valid() && ring.Valid()
    ensures if Straddles(slices, |Encoded(payload)|, ring.buf.Length)
            then codec.st.events == old(codec.st.events)
            else ring.Contents() == [] && Meaning(codec.st) == Idle(old(codec.st.events) + [Packet(payload)])
    ensures |Encoded(payload)| <= ring.buf.Length ==> !Straddles(slices, |Encoded(payload)|, ring.buf.Length)
  {
    ghost var l, max := Link(codec.st, ViewOf(ring)), ring.buf.Length;
    PayloadArrives(l, slices, codec.st.events, payload, max);
    ReceiveStream(codec, ring, slices);
  }

  /** A packet for a payload, in any slices. */
  lemma PayloadArrives(l: Link, slices: seq<seq<byte>>, events: seq<Event>, payload: seq<byte>, max: nat)
    requires Sound(l.d) && InRing(l.v, max) && l.v.bytes == [] && Meaning(l.d) == Idle(events) && 1 < max
    requires Joined(slices) == Encoded(payload) && Sendable(payload)
    requires forall i :: 0 <= i < |slices| ==> |slices[i]| <= max
    ensures AllArrived(l, slices, max).Some?
    ensures var l' := AllArrived(l, slices, max).value;
            if Straddles(slices, |Encoded(payload)|, max) then l'.d.events == events
            else l'.v.bytes == [] && Meaning(l'.d) == Idle(events + [Packet(payload)])
    ensures |Encoded(payload)| <= max ==> !Straddles(slices, |Encoded(payload)|, max)
  {
    var body, digits := Escape(payload), Hex(ChecksumOf(Escape(payload)));
    EncodedFramed(payload);
    UnescapeEscape(payload);
    PacketArrives(l, slices, events, body, digits, max);
    if |Encoded(payload)| <= max { LongRing(slices, |Encoded(payload)|, max); }
  }
}
