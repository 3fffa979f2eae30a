/** What a decoder makes of a stream that arrives in slices, each of which goes into the ring and is decoded. */
module RspStream {
  import opened Bytes
  import opened IoV2
  import opened Rsp
  import opened CircularBuffer
  import opened RspDecoding

  /** The free bytes in one block behind what is in the ring; an empty ring is rewound first. */
  function RoomOf(v: View, max: nat): nat
    requires InRing(v, max)
  {
    if v.bytes == [] then max
    else if v.head + |v.bytes| < max then max - v.head - |v.bytes| else max - |v.bytes|
  }

  function Accepted(v: View, slice: seq<byte>, max: nat): (v': View)
    requires InRing(v, max) && |slice| <= RoomOf(v, max)
    ensures InRing(v', max)
  {
    View(v.bytes + slice, if v.bytes == [] then 0 else v.head)
  }

  /** One read from the socket: a slice arrives and is decoded. */
  function Arrived(l: Link, slice: seq<byte>, max: nat): (l': Link)
    requires InRing(l.v, max) && |slice| <= RoomOf(l.v, max)
    ensures InRing(l'.v, max)
  {
    DecodeOf(Link(l.d, Accepted(l.v, slice, max)), max)
  }

  /** Slices arrive one after another; `None` if one of them finds too little room. */
  function AllArrived(l: Link, slices: seq<seq<byte>>, max: nat): (r: Option<Link>)
    requires InRing(l.v, max)
    ensures r.Some? ==> InRing(r.value.v, max)
    decreases |slices|, 1
  {
    LastArrived(l, slices, max)
  }

  // As in Arith, one step of the definition.
  function LastArrived(l: Link, slices: seq<seq<byte>>, max: nat): (r: Option<Link>)
    requires InRing(l.v, max)
    ensures r.Some? ==> InRing(r.value.v, max)
    decreases |slices|, 0
  {
    if slices == [] then Some(l)
    else
      var r, slice := AllArrived(l, slices[..|slices| - 1], max), slices[|slices| - 1];
      if r.Some? && |slice| <= RoomOf(r.value.v, max) then Some(Arrived(r.value, slice, max)) else None
  }

  lemma ArrivedUnfold(l: Link, slices: seq<seq<byte>>, max: nat)
    requires InRing(l.v, max)
    ensures slices == [] ==> AllArrived(l, slices, max) == Some(l)
    ensures slices != [] ==>
              var r, slice := AllArrived(l, slices[..|slices| - 1], max), slices[|slices| - 1];
              AllArrived(l, slices, max) ==
              if r.Some? && |slice| <= RoomOf(r.value.v, max) then Some(Arrived(r.value, slice, max)) else None
  {
    assert AllArrived(l, slices, max) == LastArrived(l, slices, max);
  }

  lemma OneMoreSlice(l: Link, slices: seq<seq<byte>>, slice: seq<byte>, max: nat)
    requires InRing(l.v, max) && AllArrived(l, slices, max).Some?
    requires |slice| <= RoomOf(AllArrived(l, slices, max).value.v, max)
    ensures AllArrived(l, slices + [slice], max) == Some(Arrived(AllArrived(l, slices, max).value, slice, max))
    ensures Joined(slices + [slice]) == Joined(slices) + slice
  {
    assert (slices + [slice])[..|slices|] == slices;
    ArrivedUnfold(l, slices + [slice], max);
  }

  function Joined(slices: seq<seq<byte>>): seq<byte> {
    if slices == [] then [] else Joined(slices[..|slices| - 1]) + slices[|slices| - 1]
  }

  // ---------------------------------------------------------------- any stream

  /** Of `whole` the decoder has read all but what is in the ring, and stands for the receiver that was fed that. */
  ghost predicate HasRead(r: Receiver, whole: seq<byte>, l: Link) {
    && Sound(l.d) && |l.v.bytes| <= |whole|
    && var c := |whole| - |l.v.bytes|; l.v.bytes == whole[c..] && Meaning(l.d) == Feed(r, whole[..c])
  }

  lemma ReadOn(r: Receiver, whole: seq<byte>, l: Link, slice: seq<byte>, max: nat)
    requires HasRead(r, whole, l) && InRing(l.v, max) && |slice| <= RoomOf(l.v, max) && Roomy(r, whole + slice)
    ensures HasRead(r, whole + slice, Arrived(l, slice, max))
  {
    var all, c := whole + slice, |whole| - |l.v.bytes|;
    var l1 := Link(l.d, Accepted(l.v, slice, max));
    assert all[c..] == l1.v.bytes && all[..c] == whole[..c];
    RoomySuffix(r, all, c);
    DecodeReads(l1, max);
    var n := Takes(Meaning(l.d), l1.v, max);
    FeedSuffix(r, all, c, n);
    assert all[c..][n..] == all[c + n..];
  }

  lemma RoomyPrefix(r: Receiver, bytes: seq<byte>, more: seq<byte>)
    requires Roomy(r, bytes + more)
    ensures Roomy(r, bytes)
  {
    forall c | 0 <= c <= |bytes| ensures ShortAt(r, bytes, c) {
      assert ShortAt(r, bytes + more, c) && (bytes + more)[..c] == bytes[..c];
    }
  }

  /**
    Any stream of packets, interrupts, acknowledgements and noise, in any slices, as long as packets are below the
    limit: what has been read is a prefix of the stream, its user has been told exactly what a receiver of that prefix
    tells, and the rest is in the ring.
   */
  lemma {:induction false} StreamRead(l: Link, slices: seq<seq<byte>>, max: nat)
    requires Sound(l.d) && InRing(l.v, max) && Roomy(Meaning(l.d), l.v.bytes + Joined(slices))
    requires AllArrived(l, slices, max).Some?
    ensures HasRead(Meaning(l.d), l.v.bytes + Joined(slices), AllArrived(l, slices, max).value)
  {
    var r, whole := Meaning(l.d), l.v.bytes + Joined(slices);
    ArrivedUnfold(l, slices, max);
    if slices == [] {
      FeedUnfold(r, []);
      assert whole == l.v.bytes && whole[..0] == [];
    } else {
      var n := |slices| - 1;
      var before := l.v.bytes + Joined(slices[..n]);
      assert whole == before + slices[n];
      RoomyPrefix(r, before, slices[n]);
      StreamRead(l, slices[..n], max);
      ReadOn(r, before, AllArrived(l, slices[..n], max).value, slices[n], max);
    }
  }

  /** How much of the ring is read when a slice arrives: exactly what `Takes` says. */
  lemma SliceRead(l: Link, slice: seq<byte>, max: nat)
    requires Sound(l.d) && InRing(l.v, max) && |slice| <= RoomOf(l.v, max) && Roomy(Meaning(l.d), l.v.bytes + slice)
    ensures var v := Accepted(l.v, slice, max);
            var n := Takes(Meaning(l.d), v, max);
            Reads(Link(l.d, v), Arrived(l, slice, max), n, max) && |Arrived(l, slice, max).v.bytes| == |v.bytes| - n
  {
    DecodeReads(Link(l.d, Accepted(l.v, slice, max)), max);
  }

  /**
    And what is left in the ring, whatever the stream: nothing, or a lone digit, or what follows a packet that has
    just been reported, or a decoder that is stuck; no more than one packet is reported.
   */
  lemma SliceLeaves(l: Link, slice: seq<byte>, max: nat)
    requires Sound(l.d) && InRing(l.v, max) && |slice| <= RoomOf(l.v, max)
    ensures var l' := Arrived(l, slice, max);
            && Reports(l'.d.events) <= Reports(l.d.events) + 1
            && (Told(l.d, l'.d) || l'.v.bytes == [] || (l'.d.state == Crc && |l'.v.bytes| < 2) || Stuck(l', max))
  {
    DecodeMeans(Link(l.d, Accepted(l.v, slice, max)), max);
  }

  // ---------------------------------------------------------------- a decoder that is stuck

  /** The first digit of a checksum is waiting in the last place of the ring. */
  predicate Stuck(l: Link, max: nat) {
    l.d.state == Crc && l.v.bytes != [] && l.v.head + 1 == max
  }

  /** The slice ends a packet so that its first digit has arrived and lies in the last place of the ring. */
  predicate HitsEnd(l: Link, slice: seq<byte>, max: nat)
    requires InRing(l.v, max) && |slice| <= RoomOf(l.v, max)
  {
    var v := Accepted(l.v, slice, max);
    var c := Until(Meaning(l.d), v.bytes);
    c < |v.bytes| && At(v.head, c, max) + 1 == max
  }

  lemma {:induction false} UntilTrailer(r: Receiver, bytes: seq<byte>)
    ensures Until(r, bytes) < |bytes| ==> PhaseAt(r, bytes, Until(r, bytes)) == Trailer
    decreases |bytes|
  {
    FeedUnfold(r, []);
    assert bytes[..0] == [];
    if r.phase != Trailer && bytes != [] {
      UntilTrailer(Byte(r, bytes[0]), bytes[1..]);
      FeedFirst(r, bytes, Until(r, bytes));
    }
  }

  lemma {:induction false} UntilDigits(r: Receiver, bytes: seq<byte>)
    requires r.digit == []
    ensures Feed(r, bytes[..Until(r, bytes)]).digit == []
    decreases |bytes|
  {
    FeedUnfold(r, []);
    assert bytes[..0] == [];
    if r.phase != Trailer && bytes != [] {
      UntilDigits(Byte(r, bytes[0]), bytes[1..]);
      FeedFirst(r, bytes, Until(r, bytes));
    }
  }

  /** The two digits of a checksum end a packet. */
  lemma DigitsEnd(r: Receiver, bytes: seq<byte>, c: nat)
    requires c + 2 <= |bytes| && PhaseAt(r, bytes, c) == Trailer && Feed(r, bytes[..c]).digit == []
    ensures PhaseAt(r, bytes, c + 2) == Outside
  {
    var digits := bytes[c..][..2];
    FeedSuffix(r, bytes, c, 2);
    FeedTwo(Feed(r, bytes[..c]), digits);
  }

  /** A slice gets the decoder stuck exactly so. */
  lemma StuckIff(l: Link, slice: seq<byte>, max: nat)
    requires Sound(l.d) && InRing(l.v, max) && |slice| <= RoomOf(l.v, max) && Roomy(Meaning(l.d), l.v.bytes + slice)
    ensures Stuck(Arrived(l, slice, max), max) <==> HitsEnd(l, slice, max)
  {
    var r, v := Meaning(l.d), Accepted(l.v, slice, max);
    var c := Until(r, v.bytes);
    SliceRead(l, slice, max);
    UntilTrailer(r, v.bytes);
    UntilDigits(r, v.bytes);
    if PhaseAt(r, v.bytes, c) == Trailer && c + 2 <= |v.bytes| { DigitsEnd(r, v.bytes, c); }
  }

  lemma StuckStep(l: Link, slice: seq<byte>, max: nat)
    requires Stuck(l, max) && InRing(l.v, max) && |slice| <= RoomOf(l.v, max)
    ensures Arrived(l, slice, max) == Link(l.d, View(l.v.bytes + slice, l.v.head))
  {
    var l1 := Link(l.d, Accepted(l.v, slice, max));
    DecodeUnfold(l1, max);
    BlockPrefix(l1.v, max, 0);
    assert l1.v.bytes[0..] == l1.v.bytes;
  }

  /** Nothing is read any more, and nobody is told anything. */
  lemma {:induction false} StuckForever(l: Link, slices: seq<seq<byte>>, max: nat)
    requires Stuck(l, max) && InRing(l.v, max) && AllArrived(l, slices, max).Some?
    ensures AllArrived(l, slices, max).value == Link(l.d, View(l.v.bytes + Joined(slices), l.v.head))
  {
    ArrivedUnfold(l, slices, max);
    if slices != [] {
      var n := |slices| - 1;
      StuckForever(l, slices[..n], max);
      var l1 := AllArrived(l, slices[..n], max).value;
      StuckStep(l1, slices[n], max);
      assert l1.v.bytes + slices[n] == l.v.bytes + Joined(slices);
    } else {
      assert l.v.bytes + [] == l.v.bytes;
    }
  }

  /** Slice number `i` does so. */
  ghost predicate SticksAt(l: Link, slices: seq<seq<byte>>, i: nat, max: nat)
    requires InRing(l.v, max) && i < |slices|
  {
    var r := AllArrived(l, slices[..i], max);
    r.Some? && |slices[i]| <= RoomOf(r.value.v, max) && HitsEnd(r.value, slices[i], max)
  }

  lemma RoomyAhead(r: Receiver, before: seq<byte>, l: Link, slice: seq<byte>)
    requires HasRead(r, before, l) && Roomy(r, before + slice)
    ensures Roomy(Meaning(l.d), l.v.bytes + slice)
  {
    var c := |before| - |l.v.bytes|;
    RoomySuffix(r, before + slice, c);
    assert (before + slice)[c..] == l.v.bytes + slice && (before + slice)[..c] == before[..c];
  }

  /** In a run the decoder gets stuck exactly if some slice does so. */
  lemma {:induction false} RunSticks(l: Link, slices: seq<seq<byte>>, max: nat)
    requires Sound(l.d) && InRing(l.v, max) && Roomy(Meaning(l.d), l.v.bytes + Joined(slices)) && !Stuck(l, max)
    requires AllArrived(l, slices, max).Some?
    ensures Stuck(AllArrived(l, slices, max).value, max) <==>
            exists i :: 0 <= i < |slices| && SticksAt(l, slices, i, max)
  {
    ArrivedUnfold(l, slices, max);
    if slices != [] {
      var n, r := |slices| - 1, Meaning(l.d);
      var before := l.v.bytes + Joined(slices[..n]);
      assert l.v.bytes + Joined(slices) == before + slices[n];
      RoomyPrefix(r, before, slices[n]);
      RunSticks(l, slices[..n], max);
      StreamRead(l, slices[..n], max);
      var l1 := AllArrived(l, slices[..n], max).value;
      RoomyAhead(r, before, l1, slices[n]);
      StuckIff(l1, slices[n], max);
      SticksBefore(l, slices, max);
      if Stuck(l1, max) { StuckStep(l1, slices[n], max); }
    }
  }

  lemma SticksBefore(l: Link, slices: seq<seq<byte>>, max: nat)
    requires InRing(l.v, max) && slices != []
    ensures var n := |slices| - 1;
            (exists i :: 0 <= i < |slices| && SticksAt(l, slices, i, max)) <==>
            SticksAt(l, slices, n, max) || exists i :: 0 <= i < n && SticksAt(l, slices[..n], i, max)
  {
    var n := |slices| - 1;
    forall i | 0 <= i < n ensures SticksAt(l, slices, i, max) <==> SticksAt(l, slices[..n], i, max) {
      assert slices[..n][..i] == slices[..i];
    }
    if i :| 0 <= i < |slices| && SticksAt(l, slices, i, max) {
      assert i == n || SticksAt(l, slices[..n], i, max);
    }
    if i :| 0 <= i < n && SticksAt(l, slices[..n], i, max) { assert SticksAt(l, slices, i, max); }
  }

  // ---------------------------------------------------------------- one packet

  /** A packet as it is sent: a start character, a body without an unescaped `#`, a `#`, and two digits. */
  function Framed(body: seq<byte>, digits: seq<byte>): seq<byte> {
    [DOLLAR] + body + [HASH] + digits
  }

  ghost predicate IsBody(body: seq<byte>) {
    Scan(false, body) == Some(false)
  }

  /** Where a receiver is when it has been fed the first `c` bytes of a packet. */
  function FramedAt(events: seq<Event>, body: seq<byte>, digits: seq<byte>, c: nat): Receiver {
    if c == 0 then Idle(events)
    else if c <= |body| + 1 then
      var escaped := Scan(false, body[..c - 1]);
      Receiver(Inside, body[..c - 1], escaped.Some? && escaped.value, [], events)
    else if c == |body| + 2 then Receiver(Trailer, body, false, [], events)
    else if c == |body| + 3 && digits != [] then Receiver(Trailer, body, false, digits[..1], events)
    else Idle(events + [if digits == Hex(ChecksumOf(body)) then Packet(Unescape(body).bytes) else Error(BadChecksum)])
  }

  lemma FramedFeed(events: seq<Event>, body: seq<byte>, digits: seq<byte>, c: nat)
    requires IsBody(body) && |digits| == 2 && c <= |body| + 4
    ensures Feed(Idle(events), Framed(body, digits)[..c]) == FramedAt(events, body, digits, c)
  {
    var stream := Framed(body, digits);
    if c == 0 {
      FeedUnfold(Idle(events), []);
      assert stream[..0] == [];
    } else if c <= |body| + 1 {
      FramedInside(events, body, c - 1);
      assert stream[..c] == [DOLLAR] + body[..c - 1];
    } else {
      FeedPacket(events, body);
      var head, r := [DOLLAR] + body + [HASH], Receiver(Trailer, body, false, [], events);
      assert stream[..c] == head + digits[..c - |head|];
      FeedConcat(Idle(events), head, digits[..c - |head|]);
      FramedDigits(r, digits, c - |head|);
    }
  }

  lemma FramedInside(events: seq<Event>, body: seq<byte>, n: nat)
    requires IsBody(body) && n <= |body|
    ensures Scan(false, body[..n]).Some?
    ensures Feed(Idle(events), [DOLLAR] + body[..n]) ==
            Receiver(Inside, body[..n], Scan(false, body[..n]).value, [], events)
  {
    ScanPrefix(false, body, n);
    FeedOne(Idle(events), DOLLAR);
    FeedConcat(Idle(events), [DOLLAR], body[..n]);
    ScanFeeds(Receiver(Inside, [], false, [], events), body[..n]);
    assert [] + body[..n] == body[..n];
  }

  lemma FramedDigits(r: Receiver, digits: seq<byte>, n: nat)
    requires r.phase == Trailer && r.digit == [] && |digits| == 2 && n <= 2
    ensures Feed(r, digits[..n]) ==
            if n == 0 then r
            else if n == 1 then r.(digit := digits[..1])
            else Idle(r.events + [if digits == Hex(ChecksumOf(r.pkt)) then Packet(Unescape(r.pkt).bytes)
                                  else Error(BadChecksum)])
  {
    if n == 0 {
      FeedUnfold(r, []);
    } else if n == 1 {
      FeedOne(r, digits[0]);
      assert digits[..1] == [digits[0]];
    } else {
      FeedTwo(r, digits);
      TrailerDigits(r, digits[0], digits[1]);
      assert digits[..2] == digits == [digits[0], digits[1]];
    }
  }

  lemma {:induction false} UntilIs(r: Receiver, bytes: seq<byte>, n: nat)
    requires n <= |bytes| && NoTrailer(r, bytes, n) && (n == |bytes| || PhaseAt(r, bytes, n) == Trailer)
    ensures Until(r, bytes) == n
  {
    UntilSkips(r, bytes, n);
  }

  /** The first `n` of these bytes are those of a packet, from its byte `c` on. */
  ghost predicate Agrees(bytes: seq<byte>, body: seq<byte>, digits: seq<byte>, c: nat, n: nat) {
    && |digits| == 2 && n <= |bytes| && c + n <= |body| + 4
    && bytes[..n] == Framed(body, digits)[c..c + n]
  }

  lemma AgreesUpTo(bytes: seq<byte>, stream: seq<byte>, c: nat, n: nat, i: nat)
    requires i <= n <= |bytes| && c + n <= |stream| && bytes[..n] == stream[c..c + n]
    ensures stream[..c] + bytes[..i] == stream[..c + i]
  {
    assert bytes[..i] == bytes[..n][..i] == stream[c..c + i];
  }

  lemma FeedFrom(events: seq<Event>, body: seq<byte>, digits: seq<byte>, c: nat, bytes: seq<byte>, n: nat, i: nat)
    requires IsBody(body) && Agrees(bytes, body, digits, c, n) && i <= n
    ensures Feed(FramedAt(events, body, digits, c), bytes[..i]) == FramedAt(events, body, digits, c + i)
  {
    var stream := Framed(body, digits);
    FramedFeed(events, body, digits, c);
    FramedFeed(events, body, digits, c + i);
    FeedConcat(Idle(events), stream[..c], bytes[..i]);
    AgreesUpTo(bytes, stream, c, n, i);
  }

  /** From any place before its digits, a packet is read up to them. */
  lemma UntilFrom(events: seq<Event>, body: seq<byte>, digits: seq<byte>, c: nat, bytes: seq<byte>, n: nat)
    requires IsBody(body) && Agrees(bytes, body, digits, c, n) && c <= |body| + 2
    requires n == |bytes| || c + n >= |body| + 2
    ensures Until(FramedAt(events, body, digits, c), bytes) == Min(n, |body| + 2 - c)
  {
    var r, m := FramedAt(events, body, digits, c), Min(n, |body| + 2 - c);
    forall i | 0 <= i < m ensures PhaseAt(r, bytes, i) != Trailer { FeedFrom(events, body, digits, c, bytes, n, i); }
    FeedFrom(events, body, digits, c, bytes, n, m);
    UntilIs(r, bytes, m);
  }

  /** And so are its digits, if both are there and in one block. */
  lemma TakesFrom(events: seq<Event>, body: seq<byte>, digits: seq<byte>, c: nat, v: View, n: nat, max: nat)
    requires IsBody(body) && Agrees(v.bytes, body, digits, c, n) && c <= |body| + 2 && InRing(v, max)
    requires n == |v.bytes| || c + n == |body| + 4
    ensures Takes(FramedAt(events, body, digits, c), v, max) ==
            if c + n <= |body| + 2 then n
            else if c + n == |body| + 4 && At(v.head, |body| + 2 - c, max) + 1 < max then n
            else |body| + 2 - c
  {
    UntilFrom(events, body, digits, c, v.bytes, n);
    FeedFrom(events, body, digits, c, v.bytes, n, Min(n, |body| + 2 - c));
  }

  lemma RoomyFrom(events: seq<Event>, body: seq<byte>, digits: seq<byte>, c: nat, bytes: seq<byte>)
    requires IsBody(body) && |body| < MAX_LEN && Agrees(bytes, body, digits, c, |bytes|)
    ensures Roomy(FramedAt(events, body, digits, c), bytes)
  {
    var r := FramedAt(events, body, digits, c);
    forall i | 0 <= i <= |bytes| ensures ShortAt(r, bytes, i) {
      FeedFrom(events, body, digits, c, bytes, |bytes|, i);
    }
  }

  lemma EncodedFramed(payload: seq<byte>)
    ensures IsBody(Escape(payload)) && Encoded(payload) == Framed(Escape(payload), Hex(ChecksumOf(Escape(payload))))
  {
    EscapeScans(payload);
  }

  /** A slice fills the ring and ends between the digits of a packet of `total` bytes, `fed` of which came before. */
  predicate Fills(slice: seq<byte>, fed: nat, total: nat, max: nat) {
    |slice| == max && fed + max + 1 == total
  }

  /** One of the slices of a packet does, so that the second digit comes to lie at the start of the ring. */
  predicate Straddles(slices: seq<seq<byte>>, total: nat, max: nat) {
    slices != [] &&
    (var n := |slices| - 1;
     Straddles(slices[..n], total, max) || Fills(slices[n], |Joined(slices[..n])|, total, max))
  }

  /** A ring that is at least as long as the packet is never filled before its end. */
  lemma {:induction false} LongRing(slices: seq<seq<byte>>, total: nat, max: nat)
    requires total <= max
    ensures !Straddles(slices, total, max)
  {
    if slices != [] { LongRing(slices[..|slices| - 1], total, max); }
  }

  /** Where a decoder is when the first `fed` bytes of a packet have arrived. */
  ghost predicate PacketAt(l: Link, events: seq<Event>, body: seq<byte>, digits: seq<byte>, fed: nat, stuck: bool,
                           max: nat) {
    var stream, t := Framed(body, digits), |body| + 2;
    && Sound(l.d) && InRing(l.v, max) && |digits| == 2 && fed <= t + 2
    && if fed <= t then !stuck && l.v.bytes == [] && Meaning(l.d) == FramedAt(events, body, digits, fed)
       else if stuck || fed == t + 1 then
         && l.v.bytes == stream[t..fed] && Meaning(l.d) == FramedAt(events, body, digits, t)
         && stuck == (l.v.head + 1 == max)
       else l.v.bytes == [] && Meaning(l.d) == FramedAt(events, body, digits, fed)
  }

  /** What a slice of a packet does, told by where it begins and ends. */
  lemma PacketRead(l: Link, events: seq<Event>, body: seq<byte>, digits: seq<byte>, c: nat, slice: seq<byte>, max: nat)
    requires IsBody(body) && |body| < MAX_LEN && Sound(l.d) && InRing(l.v, max) && |slice| <= RoomOf(l.v, max)
    requires Meaning(l.d) == FramedAt(events, body, digits, c)
    requires Agrees(l.v.bytes + slice, body, digits, c, |l.v.bytes| + |slice|)
    ensures var v := Accepted(l.v, slice, max);
            var n := Takes(Meaning(l.d), v, max);
            && Reads(Link(l.d, v), Arrived(l, slice, max), n, max)
            && Meaning(Arrived(l, slice, max).d) == FramedAt(events, body, digits, c + n)
  {
    var v := Accepted(l.v, slice, max);
    RoomyFrom(events, body, digits, c, v.bytes);
    SliceRead(l, slice, max);
    FeedFrom(events, body, digits, c, v.bytes, |v.bytes|, Takes(Meaning(l.d), v, max));
  }

  /** No digits have arrived yet: the ring is empty, and rewound. */
  lemma BodyStep(l: Link, events: seq<Event>, body: seq<byte>, digits: seq<byte>, fed: nat, slice: seq<byte>, max: nat)
    requires IsBody(body) && |body| < MAX_LEN && PacketAt(l, events, body, digits, fed, false, max) && fed <= |body| + 2
    requires |slice| <= max && Agrees(slice, body, digits, fed, |slice|)
    ensures PacketAt(Arrived(l, slice, max), events, body, digits, fed + |slice|, Fills(slice, fed, |body| + 4, max),
                     max)
  {
    BodyRead(l, events, body, digits, fed, slice, max);
    BodyLeft(body, digits, fed, slice);
    BodyEnds(Arrived(l, slice, max), events, body, digits, fed, slice, max);
  }

  /** After a slice that was read up to the first digit, or as a whole. */
  ghost predicate ReadUpTo(l': Link, events: seq<Event>, body: seq<byte>, digits: seq<byte>, fed: nat,
                           slice: seq<byte>, max: nat)
    requires |slice| <= max && 0 < max
  {
    var n := if fed + |slice| == |body| + 3 && slice != [] then |slice| - 1 else |slice|;
    && Sound(l'.d) && InRing(l'.v, max) && l'.v == Drop(View(slice, 0), n, max)
    && Meaning(l'.d) == FramedAt(events, body, digits, fed + n)
  }

  lemma BodyRead(l: Link, events: seq<Event>, body: seq<byte>, digits: seq<byte>, fed: nat, slice: seq<byte>, max: nat)
    requires IsBody(body) && |body| < MAX_LEN && Sound(l.d) && InRing(l.v, max) && l.v.bytes == []
    requires |slice| <= max && Agrees(slice, body, digits, fed, |slice|) && fed <= |body| + 2
    requires Meaning(l.d) == FramedAt(events, body, digits, fed)
    ensures ReadUpTo(Arrived(l, slice, max), events, body, digits, fed, slice, max)
  {
    BodyTakes(events, body, digits, fed, slice, max);
    BodyReads(l, events, body, digits, fed, slice, max);
  }

  lemma BodyTakes(events: seq<Event>, body: seq<byte>, digits: seq<byte>, fed: nat, slice: seq<byte>, max: nat)
    requires IsBody(body) && Agrees(slice, body, digits, fed, |slice|) && fed <= |body| + 2
    requires |slice| <= max && 0 < max
    ensures Takes(FramedAt(events, body, digits, fed), View(slice, 0), max)
            == if fed + |slice| == |body| + 3 then |slice| - 1 else |slice|
  {
    TakesFrom(events, body, digits, fed, View(slice, 0), |slice|, max);
  }

  lemma BodyReads(l: Link, events: seq<Event>, body: seq<byte>, digits: seq<byte>, fed: nat, slice: seq<byte>, max: nat)
    requires IsBody(body) && |body| < MAX_LEN && Sound(l.d) && InRing(l.v, max) && l.v.bytes == []
    requires |slice| <= max && Agrees(slice, body, digits, fed, |slice|)
    requires Meaning(l.d) == FramedAt(events, body, digits, fed)
    ensures var n, l' := Takes(FramedAt(events, body, digits, fed), View(slice, 0), max), Arrived(l, slice, max);
            && Sound(l'.d) && l'.v == Drop(View(slice, 0), n, max)
            && Meaning(l'.d) == FramedAt(events, body, digits, fed + n)
  {
    var r, v := Meaning(l.d), Accepted(l.v, slice, max);
    assert v.bytes == slice;
    assert v == View(slice, 0);
    PacketRead(l, events, body, digits, fed, slice, max);
    assert r == FramedAt(events, body, digits, fed);
    assert Takes(r, v, max) == Takes(FramedAt(events, body, digits, fed), View(slice, 0), max);
  }

  lemma BodyEnds(l': Link, events: seq<Event>, body: seq<byte>, digits: seq<byte>, fed: nat, slice: seq<byte>, max: nat)
    requires |digits| == 2 && fed <= |body| + 2 && fed + |slice| <= |body| + 4 && |slice| <= max && 0 < max
    requires ReadUpTo(l', events, body, digits, fed, slice, max)
    requires var t, m := |body| + 2, fed + |slice|; m == t + 1 ==> slice[t - fed..] == Framed(body, digits)[t..m]
    ensures PacketAt(l', events, body, digits, fed + |slice|, Fills(slice, fed, |body| + 4, max), max)
  {}

  lemma BodyLeft(body: seq<byte>, digits: seq<byte>, fed: nat, slice: seq<byte>)
    requires Agrees(slice, body, digits, fed, |slice|) && fed <= |body| + 2
    ensures var t := |body| + 2;
            fed + |slice| == t + 1 ==> slice[t - fed..] == Framed(body, digits)[t..fed + |slice|]
  {
    var t := |body| + 2;
    assert slice[..|slice|] == slice;
    if fed + |slice| == t + 1 {
      assert slice[t - fed..] == Framed(body, digits)[fed..fed + |slice|][t - fed..];
    }
  }

  /** The first digit is waiting, with room behind it. */
  lemma DigitStep(l: Link, events: seq<Event>, body: seq<byte>, digits: seq<byte>, slice: seq<byte>, max: nat)
    requires IsBody(body) && |body| < MAX_LEN && PacketAt(l, events, body, digits, |body| + 3, false, max)
    requires Agrees(slice, body, digits, |body| + 3, |slice|) && |slice| <= RoomOf(l.v, max)
    ensures PacketAt(Arrived(l, slice, max), events, body, digits, |body| + 3 + |slice|, false, max)
  {
    var t, stream := |body| + 2, Framed(body, digits);
    assert l.v.bytes + slice == stream[t..t + 1 + |slice|];
    PacketRead(l, events, body, digits, t, slice, max);
    TakesFrom(events, body, digits, t, Accepted(l.v, slice, max), 1 + |slice|, max);
  }

  lemma PacketStep(l: Link, events: seq<Event>, body: seq<byte>, digits: seq<byte>, fed: nat, stuck: bool,
                   slice: seq<byte>, max: nat)
    requires IsBody(body) && |body| < MAX_LEN && 1 < max && PacketAt(l, events, body, digits, fed, stuck, max)
    requires |slice| <= max && Agrees(slice, body, digits, fed, |slice|)
    ensures |slice| <= RoomOf(l.v, max)
    ensures PacketAt(Arrived(l, slice, max), events, body, digits, fed + |slice|,
                     stuck || Fills(slice, fed, |body| + 4, max), max)
  {
    var stream, t := Framed(body, digits), |body| + 2;
    if stuck {
      assert stream[t..fed] + slice == stream[t..fed + |slice|];
      StuckStep(l, slice, max);
    } else if fed <= t {
      BodyStep(l, events, body, digits, fed, slice, max);
    } else if fed == t + 1 {
      DigitStep(l, events, body, digits, slice, max);
    } else {
      IdleStep(l, max);
      assert slice == [];
    }
  }

  lemma IdleStep(l: Link, max: nat)
    requires l.v.bytes == [] && Meaning(l.d).phase == Outside && Sound(l.d) && InRing(l.v, max)
    ensures var l' := Arrived(l, [], max); l'.v.bytes == [] && Meaning(l'.d) == Meaning(l.d) && Sound(l'.d)
  {
    var r := Meaning(l.d);
    assert l.v.bytes + [] == [];
    forall c | 0 <= c <= |l.v.bytes| ensures ShortAt(r, [], c) { FeedUnfold(r, []); }
    SliceRead(l, [], max);
    FeedUnfold(r, []);
  }

  lemma SliceAgrees(before: seq<byte>, slice: seq<byte>, body: seq<byte>, digits: seq<byte>)
    requires before + slice <= Framed(body, digits) && |digits| == 2
    ensures before <= Framed(body, digits) && Agrees(slice, body, digits, |before|, |slice|)
  {
    assert Framed(body, digits)[|before|..|before| + |slice|] == (before + slice)[|before|..] == slice;
    assert Framed(body, digits)[..|before|] == (before + slice)[..|before|] == before;
  }

  /**
    A packet in any slices: what is left to read, what the user has been told, and whether the decoder is stuck, as
    the slices have come.
   */
  lemma {:induction false} PacketArrives(l: Link, slices: seq<seq<byte>>, events: seq<Event>, body: seq<byte>,
                                         digits: seq<byte>, max: nat)
    requires IsBody(body) && |body| < MAX_LEN && 1 < max && PacketAt(l, events, body, digits, 0, false, max)
    requires Joined(slices) <= Framed(body, digits) && forall i :: 0 <= i < |slices| ==> |slices[i]| <= max
    ensures AllArrived(l, slices, max).Some?
    ensures PacketAt(AllArrived(l, slices, max).value, events, body, digits, |Joined(slices)|,
                     Straddles(slices, |body| + 4, max), max)
  {
    ArrivedUnfold(l, slices, max);
    if slices != [] {
      var n := |slices| - 1;
      var before := Joined(slices[..n]);
      SliceAgrees(before, slices[n], body, digits);
      PacketArrives(l, slices[..n], events, body, digits, max);
      var l1 := AllArrived(l, slices[..n], max).value;
      PacketStep(l1, events, body, digits, |before|, Straddles(slices[..n], |body| + 4, max), slices[n], max);
    }
  }

  // ---------------------------------------------------------------- two packets

  lemma RoomyConcat(r: Receiver, a: seq<byte>, b: seq<byte>)
    requires Roomy(r, a) && Roomy(Feed(r, a), b)
    ensures Roomy(r, a + b)
  {
    forall c | 0 <= c <= |a + b| ensures ShortAt(r, a + b, c) {
      if c <= |a| {
        assert ShortAt(r, a, c) && (a + b)[..c] == a[..c];
      } else {
        FeedConcat(r, a, b[..c - |a|]);
        assert ShortAt(Feed(r, a), b, c - |a|) && (a + b)[..c] == a + b[..c - |a|];
      }
    }
  }

  /** A stream that is shorter than the limit holds no packet that is not. */
  lemma ShortRoomy(events: seq<Event>, bytes: seq<byte>)
    requires |bytes| < MAX_LEN
    ensures Roomy(Idle(events), bytes)
  {
    forall c | 0 <= c <= |bytes| ensures ShortAt(Idle(events), bytes, c) { FeedLoad(Idle(events), bytes[..c]); }
  }

  /** What is sent for a payload that is short enough. */
  ghost predicate Sendable(payload: seq<byte>) {
    |Escape(payload)| < MAX_LEN
  }

  lemma EncodedRoomy(events: seq<Event>, payload: seq<byte>, n: nat)
    requires Sendable(payload) && n <= |Encoded(payload)|
    ensures Roomy(Idle(events), Encoded(payload)[..n])
  {
    EncodedFramed(payload);
    RoomyFrom(events, Escape(payload), Hex(ChecksumOf(Escape(payload))), 0, Encoded(payload)[..n]);
  }

  /** A packet is at the head of the ring, its digits in one block, and more behind it: the packet alone is read. */
  lemma FirstPacket(d: Decoder, v: View, events: seq<Event>, payload: seq<byte>, more: seq<byte>, max: nat)
    requires Sound(d) && InRing(v, max) && Meaning(d) == Idle(events) && v.bytes == Encoded(payload) + more
    requires Sendable(payload) && Roomy(Idle(events + [Packet(payload)]), more)
    requires At(v.head, |Encoded(payload)| - 2, max) + 1 < max
    ensures var l := DecodeOf(Link(d, v), max);
            && Sound(l.d) && Meaning(l.d) == Idle(events + [Packet(payload)])
            && l.v == View(more, At(v.head, |Encoded(payload)|, max))
  {
    var packet, body, digits := Encoded(payload), Escape(payload), Hex(ChecksumOf(Escape(payload)));
    EncodedFramed(payload);
    RoundTrip(events, payload);
    EncodedRoomy(events, payload, |packet|);
    assert packet[..|packet|] == packet && v.bytes[..|packet|] == packet && v.bytes[|packet|..] == more;
    RoomyConcat(Idle(events), packet, more);
    TakesFrom(events, body, digits, 0, v, |packet|, max);
    DecodeReads(Link(d, v), max);
  }

  /**
    Two packets in one slice: the first one is reported, and the second one waits until the next slice, whatever that
    is, has arrived.
   */
  lemma SecondWaits(l: Link, events: seq<Event>, p: seq<byte>, q: seq<byte>, next: seq<byte>, max: nat)
    requires Sound(l.d) && InRing(l.v, max) && l.v.bytes == [] && Meaning(l.d) == Idle(events)
    requires Sendable(p) && Sendable(q) && |Encoded(p)| + |Encoded(q)| <= max
    ensures var l1 := Arrived(l, Encoded(p) + Encoded(q), max);
            && Meaning(l1.d) == Idle(events + [Packet(p)]) && l1.v.bytes == Encoded(q)
            && (|next| <= RoomOf(l1.v, max) && |next| < MAX_LEN ==>
                  var l2 := Arrived(l1, next, max);
                  Meaning(l2.d) == Idle(events + [Packet(p)] + [Packet(q)]) && l2.v.bytes == next)
  {
    var told := events + [Packet(p)];
    EncodedRoomy(told, q, |Encoded(q)|);
    assert Encoded(q)[..|Encoded(q)|] == Encoded(q);
    assert [] + (Encoded(p) + Encoded(q)) == Encoded(p) + Encoded(q);
    FirstPacket(l.d, Accepted(l.v, Encoded(p) + Encoded(q), max), events, p, Encoded(q), max);
    var l1 := Arrived(l, Encoded(p) + Encoded(q), max);
    if |next| <= RoomOf(l1.v, max) && |next| < MAX_LEN {
      ShortRoomy(told + [Packet(q)], next);
      FirstPacket(l1.d, Accepted(l1.v, next, max), told, q, next, max);
    }
  }

  /**
    Two packets that are one byte too many for the ring, in two slices, the first one filling the ring: the first
    packet is reported, and the decoder is stuck in the second one, although each of them is shorter than the ring.
   */
  lemma SecondSticks(l: Link, events: seq<Event>, p: seq<byte>, q: seq<byte>, max: nat)
    requires Sound(l.d) && InRing(l.v, max) && l.v.bytes == [] && Meaning(l.d) == Idle(events)
    requires Sendable(p) && Sendable(q) && |Encoded(p)| + |Encoded(q)| == max + 1
    ensures var all := Encoded(p) + Encoded(q);
            var r := AllArrived(l, [all[..max], all[max..]], max);
            r.Some? && Stuck(r.value, max) && r.value.d.events == events + [Packet(p)]
  {
    var all, told, n := Encoded(p) + Encoded(q), events + [Packet(p)], |Encoded(q)| - 1;
    var rest := Encoded(q)[..n];
    EncodedRoomy(told, q, n);
    assert all[..max] == Encoded(p) + rest && [] + all[..max] == all[..max];
    FirstPacket(l.d, Accepted(l.v, all[..max], max), events, p, rest, max);
    var l1 := Arrived(l, all[..max], max);
    SecondHits(l1, told, q, all[max..], max);
    TwoSlices(l, all[..max], all[max..], max);
  }

  lemma TwoSlices(l: Link, a: seq<byte>, b: seq<byte>, max: nat)
    requires InRing(l.v, max) && |a| <= RoomOf(l.v, max) && |b| <= RoomOf(Arrived(l, a, max).v, max)
    ensures AllArrived(l, [a, b], max) == Some(Arrived(Arrived(l, a, max), b, max))
  {
    ArrivedUnfold(l, [], max);
    OneMoreSlice(l, [], a, max);
    OneMoreSlice(l, [a], b, max);
    assert [] + [a] == [a] && [a] + [b] == [a, b];
  }

  /** All of a packet but its last digit is in the ring, up to its end, and the last digit arrives. */
  lemma SecondHits(l: Link, events: seq<Event>, q: seq<byte>, last: seq<byte>, max: nat)
    requires Sound(l.d) && InRing(l.v, max) && Meaning(l.d) == Idle(events) && Sendable(q)
    requires l.v.bytes + last == Encoded(q) && |last| == 1 && l.v.head + |l.v.bytes| == max
    requires |last| <= RoomOf(l.v, max)
    ensures var l' := Arrived(l, last, max); Stuck(l', max) && l'.d.events == events
  {
    var body, digits, v := Escape(q), Hex(ChecksumOf(Escape(q))), Accepted(l.v, last, max);
    EncodedFramed(q);
    EncodedRoomy(events, q, |Encoded(q)|);
    assert v.bytes[..|v.bytes|] == v.bytes == Encoded(q)[..|Encoded(q)|];
    UntilFrom(events, body, digits, 0, v.bytes, |v.bytes|);
    TakesFrom(events, body, digits, 0, v, |v.bytes|, max);
    StuckIff(l, last, max);
    SliceRead(l, last, max);
    FeedFrom(events, body, digits, 0, v.bytes, |v.bytes|, |body| + 2);
  }

  // ---------------------------------------------------------------- the packet buffer

  /** However the beginning of a packet is cut into slices, the packet buffer is not overrun. */
  ghost predicate AlwaysFits(l: Link, stream: seq<byte>, max: nat)
    requires InRing(l.v, max)
  {
    forall slices :: Joined(slices) <= stream && AllArrived(l, slices, max).Some? ==>
      AllArrived(l, slices, max).value.d.written <= MAX_LEN
  }

  lemma FramedTame(events: seq<Event>, body: seq<byte>, digits: seq<byte>)
    requires IsBody(body) && |digits| == 2 && |body| <= MAX_LEN
    ensures Tame(Idle(events), Framed(body, digits))
  {
    var stream := Framed(body, digits);
    forall c | 0 <= c <= |stream| ensures TameAt(Idle(events), stream, c) { FramedFeed(events, body, digits, c); }
  }

  /** Whatever the stream and the slices: if packets are no longer than the buffer, it is not overrun. */
  lemma {:induction false} StreamSafe(l: Link, slices: seq<seq<byte>>, later: seq<byte>, max: nat)
    requires InRing(l.v, max) && Safe(l, Joined(slices) + later) && AllArrived(l, slices, max).Some?
    ensures Safe(AllArrived(l, slices, max).value, later)
  {
    ArrivedUnfold(l, slices, max);
    if slices == [] {
      assert [] + later == later;
    } else {
      var n := |slices| - 1;
      assert Joined(slices) + later == Joined(slices[..n]) + (slices[n] + later);
      StreamSafe(l, slices[..n], slices[n] + later, max);
      var l1 := AllArrived(l, slices[..n], max).value;
      assert l1.v.bytes + (slices[n] + later) == l1.v.bytes + slices[n] + later;
      DecodeSafe(Link(l1.d, Accepted(l1.v, slices[n], max)), max, later);
    }
  }

  lemma {:induction false} RoomyTame(r: Receiver, bytes: seq<byte>)
    requires Roomy(r, bytes)
    ensures Tame(r, bytes)
  {
    forall c | 0 <= c <= |bytes| ensures TameAt(r, bytes, c) { assert ShortAt(r, bytes, c); }
  }

  /** A stream of packets below the limit never overruns the buffer. */
  lemma StreamFits(l: Link, slices: seq<seq<byte>>, max: nat)
    requires Sound(l.d) && InRing(l.v, max) && Roomy(Meaning(l.d), l.v.bytes + Joined(slices)) && l.d.written <= MAX_LEN
    requires AllArrived(l, slices, max).Some?
    ensures AllArrived(l, slices, max).value.d.written <= MAX_LEN
  {
    RoomyTame(Meaning(l.d), l.v.bytes + Joined(slices));
    assert Joined(slices) + [] == Joined(slices);
    StreamSafe(l, slices, [], max);
  }

  lemma StepWrites(l: Link, max: nat) returns (more: bool, l1: Link)
    requires InRing(l.v, max)
    ensures InRing(l1.v, max) && l.d.written <= l1.d.written
    ensures DecodeOf(l, max) == if more then DecodeOf(l1, max) else l1
    ensures more ==> |l1.v.bytes| < |l.v.bytes| || (l1.v == l.v && Rank(l1.d.state) < Rank(l.d.state))
  {
    var o := StepOf(l.d, FirstBlockOf(l.v, max));
    DecodeUnfold(l, max);
    more, l1 := o.more, Link(o.d, Drop(l.v, o.n, max));
    assert l.v.bytes[0..] == l.v.bytes;
  }

  /** What has been written stays written. */
  lemma {:induction false} WrittenGrows(l: Link, max: nat)
    requires InRing(l.v, max)
    ensures l.d.written <= DecodeOf(l, max).d.written
    decreases |l.v.bytes|, Rank(l.d.state)
  {
    var more, l1 := StepWrites(l, max);
    if more { WrittenGrows(l1, max); }
  }

  /** The first bytes of a stream, each in a slice of its own. */
  function Singly(stream: seq<byte>, n: nat): seq<seq<byte>>
    requires n <= |stream|
  {
    if n == 0 then [] else Singly(stream, n - 1) + [[stream[n - 1]]]
  }

  lemma {:induction false} SinglyArrives(l: Link, events: seq<Event>, body: seq<byte>, digits: seq<byte>, n: nat,
                                         max: nat)
    requires IsBody(body) && |digits| == 2 && n <= MAX_LEN < |body| && 1 < max
    requires Sound(l.d) && InRing(l.v, max) && l.v.bytes == [] && Meaning(l.d) == Idle(events)
    ensures var slices := Singly(Framed(body, digits), n);
            && Joined(slices) == Framed(body, digits)[..n] && AllArrived(l, slices, max).Some?
            && var l' := AllArrived(l, slices, max).value;
               Sound(l'.d) && l'.v.bytes == [] && Meaning(l'.d) == FramedAt(events, body, digits, n)
  {
    ArrivedUnfold(l, [], max);
    if n > 0 {
      var stream := Framed(body, digits);
      var before := Singly(stream, n - 1);
      SinglyArrives(l, events, body, digits, n - 1, max);
      assert stream[..n] == stream[..n - 1] + [stream[n - 1]];
      OneByte(AllArrived(l, before, max).value, events, body, digits, n - 1, max);
      OneMoreSlice(l, before, [stream[n - 1]], max);
    }
  }

  lemma OneByte(l: Link, events: seq<Event>, body: seq<byte>, digits: seq<byte>, c: nat, max: nat)
    requires IsBody(body) && |digits| == 2 && c < MAX_LEN < |body| && 1 < max
    requires Sound(l.d) && InRing(l.v, max) && l.v.bytes == [] && Meaning(l.d) == FramedAt(events, body, digits, c)
    ensures var l' := Arrived(l, [Framed(body, digits)[c]], max);
            Sound(l'.d) && l'.v.bytes == [] && Meaning(l'.d) == FramedAt(events, body, digits, c + 1)
  {
    var stream, r := Framed(body, digits), Meaning(l.d);
    var slice := [stream[c]];
    assert l.v.bytes + slice == slice && slice[..1] == stream[c..c + 1];
    forall i | 0 <= i <= 1 ensures ShortAt(r, slice, i) { FeedFrom(events, body, digits, c, slice, 1, i); }
    SliceRead(l, slice, max);
    TakesFrom(events, body, digits, c, View(slice, 0), 1, max);
    FeedFrom(events, body, digits, c, slice, 1, 1);
  }

  /** Two more characters where only one has room. */
  lemma TwoMore(l: Link, events: seq<Event>, body: seq<byte>, digits: seq<byte>, max: nat)
    requires IsBody(body) && |digits| == 2 && MAX_LEN < |body| && 1 < max
    requires Sound(l.d) && InRing(l.v, max) && l.v.bytes == []
    requires Meaning(l.d) == FramedAt(events, body, digits, MAX_LEN)
    ensures Arrived(l, Framed(body, digits)[MAX_LEN..MAX_LEN + 2], max).d.written > MAX_LEN
  {
    var n, slice := MAX_LEN - 1, Framed(body, digits)[MAX_LEN..MAX_LEN + 2];
    assert l.v.bytes + slice == slice && slice == body[n..n + 2];
    NoHashWithin(body, n, n + 2);
    TwoCollected(l.d, slice, max);
  }

  lemma TwoCollected(d: Decoder, slice: seq<byte>, max: nat)
    requires d.state == Body && |d.pkt| == MAX_LEN - 1 && |slice| == 2 && HashAt(d.escaped, slice) == 2 && 1 < max
    ensures DecodeOf(Link(d, View(slice, 0)), max).d.written > MAX_LEN
  {
    var l := Link(d, View(slice, 0));
    var o := StepOf(d, slice);
    assert FirstBlockOf(l.v, max) == slice;
    DecodeUnfold(l, max);
    WrittenGrows(Link(o.d, Drop(l.v, o.n, max)), max);
  }

  lemma NoHashWithin(body: seq<byte>, n: nat, m: nat)
    requires IsBody(body) && n <= m <= |body|
    ensures Scan(false, body[..n]).Some? && HashAt(Scan(false, body[..n]).value, body[n..m]) == m - n
  {
    var bytes := body[..m];
    assert bytes[..m] == bytes;
    ScanPrefix(false, body, m);
    ScanPrefix(false, bytes, n);
    ScanOn(false, bytes, n);
    ScanOn(false, bytes, m);
    assert bytes[..n] == body[..n] && bytes[n..] == body[n..m] && bytes[m..] == [];
  }

  /**
    The packet buffer suffices for a packet, in whatever slices it comes, exactly if its body is not longer than the
    buffer.
   */
  lemma PacketFits(l: Link, events: seq<Event>, body: seq<byte>, digits: seq<byte>, max: nat)
    requires IsBody(body) && |digits| == 2 && 1 < max
    requires Sound(l.d) && InRing(l.v, max) && l.v.bytes == [] && Meaning(l.d) == Idle(events) && l.d.written <= MAX_LEN
    ensures AlwaysFits(l, Framed(body, digits), max) <==> |body| <= MAX_LEN
  {
    var stream := Framed(body, digits);
    if |body| <= MAX_LEN {
      forall slices | Joined(slices) <= stream && AllArrived(l, slices, max).Some?
        ensures AllArrived(l, slices, max).value.d.written <= MAX_LEN
      {
        var later := stream[|Joined(slices)|..];
        FramedTame(events, body, digits);
        assert Joined(slices) + later == stream && l.v.bytes + stream == stream;
        StreamSafe(l, slices, later, max);
      }
    } else {
      var slices := Overrun(l, events, body, digits, max);
    }
  }

  lemma Overrun(l: Link, events: seq<Event>, body: seq<byte>, digits: seq<byte>, max: nat)
    returns (slices: seq<seq<byte>>)
    requires IsBody(body) && |digits| == 2 && 1 < max && |body| > MAX_LEN
    requires Sound(l.d) && InRing(l.v, max) && l.v.bytes == [] && Meaning(l.d) == Idle(events)
    ensures Joined(slices) <= Framed(body, digits) && AllArrived(l, slices, max).Some?
    ensures AllArrived(l, slices, max).value.d.written > MAX_LEN
  {
    var stream := Framed(body, digits);
    var singly, two := Singly(stream, MAX_LEN), stream[MAX_LEN..MAX_LEN + 2];
    slices := singly + [two];
    SinglyArrives(l, events, body, digits, MAX_LEN, max);
    assert stream[..MAX_LEN] + two == stream[..MAX_LEN + 2];
    TwoMore(AllArrived(l, singly, max).value, events, body, digits, max);
    OneMoreSlice(l, singly, two, max);
  }
}
