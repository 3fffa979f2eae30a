/** The incremental packet decoder on values: what it makes of a ring of bytes, block by block. */
module RspDecoding {
  import opened Bytes
  import opened IoV2
  import opened Rsp
  import opened CircularBuffer

  datatype DecodeState = Init | Leadin | Body | Crc

  /** The decoder's fields, what it has told its user, and how far it has written its packet buffer. */
  datatype Decoder = Decoder(state: DecodeState, pkt: seq<byte>, escaped: bool, events: seq<Event>, written: nat)

  /** The receiver that a decoder between two steps stands for; one in its initial state is about to be reset. */
  function Meaning(d: Decoder): Receiver {
    match d.state
    case Init => Idle(d.events)
    case Leadin => Receiver(Outside, d.pkt, d.escaped, [], d.events)
    case Body => Receiver(Inside, d.pkt, d.escaped, [], d.events)
    case Crc => Receiver(Trailer, d.pkt, d.escaped, [], d.events)
  }

  /** Before a packet nothing has been collected. */
  predicate Sound(d: Decoder) {
    d.state == Leadin ==> d.pkt == [] && !d.escaped
  }

  /** What a step makes of what it has read: a packet that has grown too long is given up. */
  function Limited(state: DecodeState, r: Receiver): Receiver {
    if state == Body && r.phase == Inside && |r.pkt| >= MAX_LEN then Idle(r.events + [Error(TooManyCharacters)]) else r
  }

  /** A packet has ended, good or bad, and its user has been told of it. */
  predicate Told(was: Decoder, d: Decoder) {
    d.state == Init && |was.events| < |d.events|
  }

  function Rank(s: DecodeState): nat {
    match s case Body => 2 case Init => 1 case _ => 0
  }

  // ---------------------------------------------------------------- what a decoder looks for

  predicate IsStart(b: byte) {
    b == CTRL_C || b == PLUS || b == DOLLAR
  }

  /** Where an interrupt, an acknowledgement or a packet begins; the length of `bytes` if nowhere. */
  function StartAt(bytes: seq<byte>): (n: nat)
    ensures n <= |bytes|
  {
    if bytes == [] || IsStart(bytes[0]) then 0 else 1 + StartAt(bytes[1..])
  }

  /** Where the first `#` is that is not escaped; the length of `bytes` if nowhere. */
  function HashAt(escaped: bool, bytes: seq<byte>): (n: nat)
    ensures n <= |bytes|
    decreases |bytes|
  {
    if bytes == [] || (!escaped && bytes[0] == HASH) then 0
    else 1 + HashAt(!escaped && bytes[0] == BRACE, bytes[1..])
  }

  /** Up to its start, bytes mean nothing to a receiver that is outside of a packet. */
  lemma {:induction false} FeedStart(r: Receiver, bytes: seq<byte>, c: nat)
    requires r.phase == Outside && c <= StartAt(bytes)
    ensures Feed(r, bytes[..c]) == r
  {
    if c == 0 {
      FeedUnfold(r, []);
    } else {
      FeedFirst(r, bytes, c);
      FeedStart(r, bytes[1..], c - 1);
    }
  }

  lemma {:induction false} StartIs(bytes: seq<byte>)
    ensures StartAt(bytes) < |bytes| ==> IsStart(bytes[StartAt(bytes)])
  {
    if bytes != [] && !IsStart(bytes[0]) { StartIs(bytes[1..]); }
  }

  lemma FirstAndRest(bytes: seq<byte>, c: nat)
    requires 0 < c <= |bytes|
    ensures bytes[..c] == [bytes[0]] + bytes[1..][..c - 1] && bytes[1..][c - 1..] == bytes[c..]
  {}

  /** The first byte of a packet is collected, and then the others. */
  lemma FeedFirst(r: Receiver, bytes: seq<byte>, c: nat)
    requires 0 < c <= |bytes|
    ensures Feed(r, bytes[..c]) == Feed(Byte(r, bytes[0]), bytes[1..][..c - 1])
  {
    FirstAndRest(bytes, c);
    FeedOne(r, bytes[0]);
    FeedConcat(r, [bytes[0]], bytes[1..][..c - 1]);
  }

  lemma GrowsBy(pkt: seq<byte>, bytes: seq<byte>, c: nat)
    requires 0 < c <= |bytes|
    ensures pkt + [bytes[0]] + bytes[1..][..c - 1] == pkt + bytes[..c]
  {
    FirstAndRest(bytes, c);
  }

  /** Up to its `#`, a packet is collected. */
  lemma {:induction false} FeedHash(r: Receiver, bytes: seq<byte>, c: nat)
    requires r.phase == Inside && c <= HashAt(r.escaped, bytes)
    ensures var r' := Feed(r, bytes[..c]); r' == r.(pkt := r.pkt + bytes[..c], escaped := r'.escaped)
    ensures HashAt(r.escaped, bytes) == c + HashAt(Feed(r, bytes[..c]).escaped, bytes[c..])
    decreases c
  {
    if c == 0 {
      FeedUnfold(r, []);
      assert bytes[..0] == [] && bytes[0..] == bytes && r.pkt + [] == r.pkt;
    } else {
      var r1 := Byte(r, bytes[0]);
      FeedFirst(r, bytes, c);
      FeedHash(r1, bytes[1..], c - 1);
      FirstAndRest(bytes, c);
      GrowsBy(r.pkt, bytes, c);
    }
  }

  lemma {:induction false} HashIs(escaped: bool, bytes: seq<byte>)
    ensures HashAt(escaped, bytes) < |bytes| ==> bytes[HashAt(escaped, bytes)] == HASH
    decreases |bytes|
  {
    if bytes != [] && (escaped || bytes[0] != HASH) { HashIs(!escaped && bytes[0] == BRACE, bytes[1..]); }
  }

  /** A scan that has found no `#` in the first `i` bytes goes on behind them. */
  lemma {:induction false} ScanOn(escaped: bool, bytes: seq<byte>, i: nat)
    requires i <= |bytes| && Scan(escaped, bytes[..i]).Some?
    ensures HashAt(escaped, bytes) == i + HashAt(Scan(escaped, bytes[..i]).value, bytes[i..])
  {
    if i == 0 {
      assert bytes[0..] == bytes;
    } else {
      assert bytes[..i][..i - 1] == bytes[..i - 1] && bytes[i - 1..][1..] == bytes[i..];
      ScanOn(escaped, bytes, i - 1);
    }
  }

  // ---------------------------------------------------------------- one step

  /** What a step comes to: the decoder afterwards, how many bytes it has read, and whether another is to follow. */
  datatype Outcome = Outcome(d: Decoder, n: nat, more: bool)

  /** A byte that may begin something, outside of a packet. */
  function Started(d: Decoder, b: byte): Decoder {
    if b == CTRL_C then d.(events := d.events + [Interrupt])
    else if b == PLUS then d.(events := d.events + [Ack])
    else d.(state := Body)
  }

  function Skipped(d: Decoder, block: seq<byte>): Outcome {
    var n := StartAt(block);
    if n == |block| then Outcome(d, n, block != []) else Outcome(Started(d, block[n]), n + 1, true)
  }

  /** The packet goes on up to its `#`; it is copied into the buffer before its length is looked at. */
  function Collected(d: Decoder, block: seq<byte>): Outcome {
    var n := HashAt(d.escaped, block);
    var pkt := d.pkt + block[..n];
    var d1 := d.(pkt := pkt, escaped := Feed(Meaning(d), block[..n]).escaped, written := Max(d.written, |pkt|));
    if n < |block| then Outcome(d1.(state := Crc), n + 1, true)
    else if |pkt| >= MAX_LEN then Outcome(d1.(state := Init, events := d.events + [Error(TooManyCharacters)]), n, true)
    else Outcome(d1, n, block != [])
  }

  /** What the two digits behind a packet make of it. */
  function Verdict(d: Decoder, digits: seq<byte>): Event {
    if digits == Hex(ChecksumOf(d.pkt)) then Packet(Unescape(d.pkt).bytes) else Error(BadChecksum)
  }

  function Concluded(d: Decoder, block: seq<byte>): Outcome {
    if |block| < 2 then Outcome(d, 0, false)
    else
      var e := Verdict(d, block[..2]);
      var pkt := if e.Packet? then e.payload else d.pkt;
      Outcome(d.(state := Init, pkt := pkt, events := d.events + [e]), 2, false)
  }

  /** One step on the block at the head of the ring. */
  function StepOf(d: Decoder, block: seq<byte>): (o: Outcome)
    ensures o.n <= |block| && d.written <= o.d.written
    ensures o.more ==> o.n > 0 || Rank(o.d.state) < Rank(d.state)
  {
    match d.state
    case Init => Outcome(Decoder(Leadin, [], false, d.events, d.written), 0, true)
    case Leadin => Skipped(d, block)
    case Body => Collected(d, block)
    case Crc => Concluded(d, block)
  }

  // ---------------------------------------------------------------- the whole of the ring

  /** What a decoder can see of a ring: its bytes, and where in the ring they begin. */
  datatype View = View(bytes: seq<byte>, head: nat)

  predicate InRing(v: View, max: nat) {
    v.head < max && |v.bytes| <= max
  }

  /** The bytes in the block at the head of the ring. */
  function FirstBlockOf(v: View, max: nat): seq<byte> {
    if v.head + |v.bytes| <= max || v.head > max then v.bytes else v.bytes[..max - v.head]
  }

  /** The first `n` bytes are read. */
  function Drop(v: View, n: nat, max: nat): (v': View)
    requires InRing(v, max) && n <= |v.bytes|
    ensures InRing(v', max)
  {
    View(v.bytes[n..], At(v.head, n, max))
  }

  /** A decoder and what is in the ring before it. */
  datatype Link = Link(d: Decoder, v: View)

  // As in Arith, a name and one step of the definition.

  /** Steps are taken as long as more are to follow. */
  function DecodeOf(l: Link, max: nat): (l': Link)
    requires InRing(l.v, max)
    ensures InRing(l'.v, max)
    decreases |l.v.bytes|, Rank(l.d.state), 1
  {
    DecodeStep(l, max)
  }

  function DecodeStep(l: Link, max: nat): (l': Link)
    requires InRing(l.v, max)
    ensures InRing(l'.v, max)
    decreases |l.v.bytes|, Rank(l.d.state), 0
  {
    var o := StepOf(l.d, FirstBlockOf(l.v, max));
    var l1 := Link(o.d, Drop(l.v, o.n, max));
    if o.more then DecodeOf(l1, max) else l1
  }

  lemma DecodeUnfold(l: Link, max: nat)
    requires InRing(l.v, max)
    ensures var o := StepOf(l.d, FirstBlockOf(l.v, max));
            var l1 := Link(o.d, Drop(l.v, o.n, max));
            DecodeOf(l, max) == if o.more then DecodeOf(l1, max) else l1
  {
    assert DecodeOf(l, max) == DecodeStep(l, max);
  }

  // ---------------------------------------------------------------- what a step means

  lemma ConcludeMeans(d: Decoder, digits: seq<byte>)
    requires d.state == Crc && |digits| == 2
    ensures Feed(Meaning(d), digits) == Idle(d.events + [Verdict(d, digits)])
    ensures Reports(d.events + [Verdict(d, digits)]) == Reports(d.events) + 1
  {
    FeedTwo(Meaning(d), digits);
    TrailerDigits(Meaning(d), digits[0], digits[1]);
    assert [digits[0], digits[1]] == digits;
    ReportsAppend(d.events, Verdict(d, digits));
  }

  /** What every step does, for the receiver that the decoder stands for and for its user. */
  ghost predicate StepMeans(d: Decoder, block: seq<byte>, o: Outcome)
    requires o.n <= |block|
  {
    && Sound(o.d) && Meaning(o.d) == Limited(d.state, Feed(Meaning(d), block[..o.n]))
    && |d.events| <= |o.d.events| && Reports(o.d.events) <= Reports(d.events) + (if o.more then 0 else 1)
    && (!o.more ==> Told(d, o.d) || block == [] || (o.d.state == Crc && |block| < 2))
  }

  lemma SkipMeans(d: Decoder, block: seq<byte>)
    requires Sound(d) && d.state == Leadin
    ensures StepMeans(d, block, StepOf(d, block))
  {
    var n, r := StartAt(block), Meaning(d);
    StartIs(block);
    FeedStart(r, block, n);
    ReportsAppend(d.events, Interrupt);
    ReportsAppend(d.events, Ack);
    if n < |block| {
      FeedUnfold(r, block[..n + 1]);
      assert block[..n + 1][..n] == block[..n];
    }
  }

  lemma CollectMeans(d: Decoder, block: seq<byte>)
    requires Sound(d) && d.state == Body
    ensures StepMeans(d, block, StepOf(d, block))
  {
    var n, r := HashAt(d.escaped, block), Meaning(d);
    HashIs(d.escaped, block);
    FeedHash(r, block, n);
    ReportsAppend(d.events, Error(TooManyCharacters));
    if n < |block| {
      assert block[n..][0] == block[n];
      FeedUnfold(r, block[..n + 1]);
      assert block[..n + 1][..n] == block[..n];
    }
  }

  lemma StepMeaning(d: Decoder, block: seq<byte>)
    requires Sound(d)
    ensures StepMeans(d, block, StepOf(d, block))
  {
    match d.state
    case Init =>
      FeedUnfold(Meaning(d), []);
      assert block[..0] == [];
    case Leadin => SkipMeans(d, block);
    case Body => CollectMeans(d, block);
    case Crc =>
      if |block| >= 2 {
        ConcludeMeans(d, block[..2]);
      } else {
        FeedUnfold(Meaning(d), []);
        assert block[..0] == [];
      }
  }

  // ---------------------------------------------------------------- how much is read

  /** Where the digits behind a packet begin; the length of `bytes` if nowhere. */
  function Until(r: Receiver, bytes: seq<byte>): (n: nat)
    ensures n <= |bytes|
    decreases |bytes|
  {
    if r.phase == Trailer || bytes == [] then 0 else 1 + Until(Byte(r, bytes[0]), bytes[1..])
  }

  /**
    How many of the bytes in the ring are read: all up to the digits behind a packet, and the two digits, if they are
    there and lie in one block.
   */
  function Takes(r: Receiver, v: View, max: nat): (n: nat)
    requires InRing(v, max)
    ensures n <= |v.bytes|
  {
    var n := Until(r, v.bytes);
    if Feed(r, v.bytes[..n]).phase == Trailer && n + 2 <= |v.bytes| && At(v.head, n, max) + 1 < max then n + 2 else n
  }

  /** Packets stay below the limit on their length. */
  ghost predicate Roomy(r: Receiver, bytes: seq<byte>) {
    forall c :: 0 <= c <= |bytes| ==> ShortAt(r, bytes, c)
  }

  ghost predicate ShortAt(r: Receiver, bytes: seq<byte>, c: nat)
    requires c <= |bytes|
  {
    |Feed(r, bytes[..c]).pkt| < MAX_LEN
  }

  lemma FeedSuffix(r: Receiver, bytes: seq<byte>, n: nat, c: nat)
    requires n + c <= |bytes|
    ensures Feed(Feed(r, bytes[..n]), bytes[n..][..c]) == Feed(r, bytes[..n + c])
  {
    FeedConcat(r, bytes[..n], bytes[n..][..c]);
    assert bytes[..n] + bytes[n..][..c] == bytes[..n + c];
  }

  lemma RoomySuffix(r: Receiver, bytes: seq<byte>, n: nat)
    requires Roomy(r, bytes) && n <= |bytes|
    ensures Roomy(Feed(r, bytes[..n]), bytes[n..])
  {
    forall c | 0 <= c <= |bytes[n..]| ensures ShortAt(Feed(r, bytes[..n]), bytes[n..], c) {
      FeedSuffix(r, bytes, n, c);
      assert ShortAt(r, bytes, n + c);
    }
  }

  /** Before its `n`th byte no digits begin. */
  ghost predicate NoTrailer(r: Receiver, bytes: seq<byte>, n: nat)
    requires n <= |bytes|
  {
    forall c :: 0 <= c < n ==> PhaseAt(r, bytes, c) != Trailer
  }

  function PhaseAt(r: Receiver, bytes: seq<byte>, c: nat): Phase
    requires c <= |bytes|
  {
    Feed(r, bytes[..c]).phase
  }

  lemma NoTrailerRest(r: Receiver, bytes: seq<byte>, n: nat)
    requires 0 < n <= |bytes| && NoTrailer(r, bytes, n)
    ensures r.phase != Trailer && NoTrailer(Byte(r, bytes[0]), bytes[1..], n - 1)
  {
    FeedUnfold(r, []);
    assert bytes[..0] == [] && PhaseAt(r, bytes, 0) != Trailer;
    forall c | 0 <= c < n - 1 ensures PhaseAt(Byte(r, bytes[0]), bytes[1..], c) != Trailer {
      FeedFirst(r, bytes, c + 1);
      assert PhaseAt(r, bytes, c + 1) != Trailer;
    }
  }

  lemma {:induction false} UntilSkips(r: Receiver, bytes: seq<byte>, n: nat)
    requires n <= |bytes| && NoTrailer(r, bytes, n)
    ensures Until(r, bytes) == n + Until(Feed(r, bytes[..n]), bytes[n..])
    decreases n
  {
    if n == 0 {
      FeedUnfold(r, []);
      assert bytes[..0] == [] && bytes[0..] == bytes;
    } else {
      NoTrailerRest(r, bytes, n);
      UntilSkips(Byte(r, bytes[0]), bytes[1..], n - 1);
      FeedFirst(r, bytes, n);
      FirstAndRest(bytes, n);
    }
  }

  /** No digits begin in what a step reads before a packet or in it. */
  lemma StepNoTrailer(d: Decoder, block: seq<byte>)
    requires d.state == Leadin || d.state == Body
    ensures NoTrailer(Meaning(d), block, StepOf(d, block).n)
  {
    var r := Meaning(d);
    forall c | 0 <= c < StepOf(d, block).n ensures PhaseAt(r, block, c) != Trailer {
      if d.state == Leadin { FeedStart(r, block, c); } else { FeedHash(r, block, c); }
    }
  }

  lemma DropOn(v: View, n: nat, k: nat, max: nat)
    requires InRing(v, max) && n + k <= |v.bytes|
    ensures Drop(Drop(v, n, max), k, max) == Drop(v, n + k, max)
    ensures At(At(v.head, n, max), k, max) == At(v.head, n + k, max)
  {
    assert v.bytes[n..][k..] == v.bytes[n + k..];
  }

  lemma TakesOn(r: Receiver, v: View, n: nat, max: nat)
    requires InRing(v, max) && n <= |v.bytes| && NoTrailer(r, v.bytes, n)
    ensures Takes(r, v, max) == n + Takes(Feed(r, v.bytes[..n]), Drop(v, n, max), max)
  {
    var k := Until(Feed(r, v.bytes[..n]), v.bytes[n..]);
    UntilSkips(r, v.bytes, n);
    FeedSuffix(r, v.bytes, n, k);
    DropOn(v, n, k, max);
  }

  /** What is left of the block is what the ring holds. */
  lemma BlockPrefix(v: View, max: nat, n: nat)
    requires InRing(v, max) && n <= |FirstBlockOf(v, max)|
    ensures FirstBlockOf(v, max)[..n] == v.bytes[..n]
    ensures FirstBlockOf(v, max) == [] <==> v.bytes == []
    ensures |FirstBlockOf(v, max)| >= 2 <==> |v.bytes| >= 2 && v.head + 1 < max
  {}

  lemma NoTrailerBlock(r: Receiver, v: View, max: nat, n: nat)
    requires InRing(v, max) && n <= |FirstBlockOf(v, max)| && NoTrailer(r, FirstBlockOf(v, max), n)
    ensures NoTrailer(r, v.bytes, n)
  {
    forall c | 0 <= c < n ensures PhaseAt(r, v.bytes, c) != Trailer {
      BlockPrefix(v, max, c);
      assert PhaseAt(r, FirstBlockOf(v, max), c) != Trailer;
    }
  }

  /** The receiver has been fed, and the ring has lost, the first `n` bytes. */
  ghost predicate Reads(l: Link, l': Link, n: nat, max: nat)
    requires InRing(l.v, max) && n <= |l.v.bytes|
  {
    Sound(l'.d) && l'.v == Drop(l.v, n, max) && Meaning(l'.d) == Feed(Meaning(l.d), l.v.bytes[..n])
  }

  lemma StepReads(l: Link, max: nat)
    requires Sound(l.d) && InRing(l.v, max) && Roomy(Meaning(l.d), l.v.bytes)
    ensures var o := StepOf(l.d, FirstBlockOf(l.v, max)); Reads(l, Link(o.d, Drop(l.v, o.n, max)), o.n, max)
  {
    var block := FirstBlockOf(l.v, max);
    var o := StepOf(l.d, block);
    StepMeaning(l.d, block);
    BlockPrefix(l.v, max, o.n);
    assert ShortAt(Meaning(l.d), l.v.bytes, o.n);
  }

  lemma ReadsOn(l: Link, l1: Link, l2: Link, n: nat, k: nat, max: nat)
    requires InRing(l.v, max) && n <= |l.v.bytes| && Reads(l, l1, n, max)
    requires k <= |l1.v.bytes| && Reads(l1, l2, k, max)
    ensures Reads(l, l2, n + k, max)
  {
    DropOn(l.v, n, k, max);
    FeedSuffix(Meaning(l.d), l.v.bytes, n, k);
  }

  /** A step that is to be followed by another has read nothing behind which digits begin. */
  lemma StepBefore(l: Link, max: nat)
    requires InRing(l.v, max) && StepOf(l.d, FirstBlockOf(l.v, max)).more
    ensures NoTrailer(Meaning(l.d), l.v.bytes, StepOf(l.d, FirstBlockOf(l.v, max)).n)
  {
    var block := FirstBlockOf(l.v, max);
    if l.d.state != Init {
      StepNoTrailer(l.d, block);
      NoTrailerBlock(Meaning(l.d), l.v, max, StepOf(l.d, block).n);
    }
  }

  lemma TakesOver(l: Link, l1: Link, l2: Link, n: nat, max: nat)
    requires InRing(l.v, max) && n <= |l.v.bytes| && Reads(l, l1, n, max) && NoTrailer(Meaning(l.d), l.v.bytes, n)
    requires Reads(l1, l2, Takes(Meaning(l1.d), l1.v, max), max)
    ensures Reads(l, l2, Takes(Meaning(l.d), l.v, max), max)
  {
    TakesOn(Meaning(l.d), l.v, n, max);
    ReadsOn(l, l1, l2, n, Takes(Meaning(l1.d), l1.v, max), max);
  }

  /** Decoding reads exactly what `Takes` says. */
  lemma {:induction false} DecodeReads(l: Link, max: nat)
    requires Sound(l.d) && InRing(l.v, max) && Roomy(Meaning(l.d), l.v.bytes)
    ensures Reads(l, DecodeOf(l, max), Takes(Meaning(l.d), l.v, max), max)
    decreases |l.v.bytes|, Rank(l.d.state)
  {
    var o := StepOf(l.d, FirstBlockOf(l.v, max));
    var l1 := Link(o.d, Drop(l.v, o.n, max));
    StepReads(l, max);
    DecodeUnfold(l, max);
    if o.more {
      StepBefore(l, max);
      RoomySuffix(Meaning(l.d), l.v.bytes, o.n);
      DecodeReads(l1, max);
      TakesOver(l, l1, DecodeOf(l1, max), o.n, max);
    } else {
      StopTakes(l, max);
    }
  }

  /** A last step reads what is left to read. */
  lemma StopTakes(l: Link, max: nat)
    requires Sound(l.d) && InRing(l.v, max) && Roomy(Meaning(l.d), l.v.bytes)
    requires !StepOf(l.d, FirstBlockOf(l.v, max)).more
    ensures StepOf(l.d, FirstBlockOf(l.v, max)).n == Takes(Meaning(l.d), l.v, max)
  {
    BlockPrefix(l.v, max, 0);
    FeedUnfold(Meaning(l.d), []);
    assert l.v.bytes[..0] == [];
  }

  // ---------------------------------------------------------------- what is told, whatever is read

  /** The decoder is sound, no more than one packet is reported, and nothing is left to do for now. */
  ghost predicate Decodes(l: Link, l': Link, max: nat) {
    && Sound(l'.d) && |l.d.events| <= |l'.d.events| && Reports(l'.d.events) <= Reports(l.d.events) + 1
    && (Told(l.d, l'.d) || l'.v.bytes == [] || (l'.d.state == Crc && (|l'.v.bytes| < 2 || l'.v.head + 1 == max)))
  }

  lemma {:induction false} DecodeMeans(l: Link, max: nat)
    requires Sound(l.d) && InRing(l.v, max)
    ensures Decodes(l, DecodeOf(l, max), max)
    decreases |l.v.bytes|, Rank(l.d.state)
  {
    var block := FirstBlockOf(l.v, max);
    var o := StepOf(l.d, block);
    StepMeaning(l.d, block);
    DecodeUnfold(l, max);
    BlockPrefix(l.v, max, 0);
    if o.more { DecodeMeans(Link(o.d, Drop(l.v, o.n, max)), max); }
  }

  // ---------------------------------------------------------------- the packet buffer

  /**
    The buffer is written no further than it is long, in the step that collects a block, exactly if the packet so far
    and the block up to its `#` fit it.
   */
  lemma BlockFits(d: Decoder, block: seq<byte>)
    requires d.state == Body && d.written <= MAX_LEN
    ensures StepOf(d, block).d.written <= MAX_LEN <==> |d.pkt| + HashAt(d.escaped, block) <= MAX_LEN
  {}

  /** A packet is given up, and its user told so, exactly if it has reached the limit at the end of a block. */
  lemma GivesUpIff(d: Decoder, block: seq<byte>)
    requires d.state == Body && HashAt(d.escaped, block) == |block|
    ensures var d' := StepOf(d, block).d;
            && (d'.state == Init <==> |d.pkt| + |block| >= 16384)
            && d'.events == d.events + (if |d.pkt| + |block| >= 16384 then [Error(TooManyCharacters)] else [])
  {
    assert block[..|block|] == block && d.events + [] == d.events;
  }

  /** One character short of its end, the buffer is overrun by a block of two, with or without a `#` behind them. */
  lemma BlockOverruns(d: Decoder, a: byte, b: byte, rest: seq<byte>)
    requires d.state == Body && !d.escaped && |d.pkt| == MAX_LEN - 1
    requires a != HASH && a != BRACE && b != HASH && b != BRACE && (rest == [] || rest == [HASH])
    ensures var d' := StepOf(d, [a, b] + rest).d;
            d'.written > MAX_LEN && |d'.pkt| == MAX_LEN + 1 && d'.state == if rest == [] then Init else Crc
  {
    var block := [a, b] + rest;
    assert block[0] == a && block[1..] == [b] + rest && block[1..][1..] == rest;
    assert HashAt(false, block) == 1 + HashAt(false, [b] + rest) == 2 + HashAt(false, rest);
  }

  /** What a decoder holds of a packet. */
  function Held(d: Decoder): nat {
    if d.state == Body || d.state == Crc then |d.pkt| else 0
  }

  /** Packets are no longer than the buffer; when one fills it, what follows would fit it as well. */
  ghost predicate Tame(r: Receiver, bytes: seq<byte>) {
    forall c :: 0 <= c <= |bytes| ==> TameAt(r, bytes, c)
  }

  ghost predicate TameAt(r: Receiver, bytes: seq<byte>, c: nat)
    requires c <= |bytes|
  {
    var n := |Feed(r, bytes[..c]).pkt|;
    n < MAX_LEN || (n == MAX_LEN && |bytes| - c <= MAX_LEN)
  }

  /** The buffer has not been overrun and will not be by the bytes in the ring and those to come. */
  ghost predicate Safe(l: Link, later: seq<byte>) {
    l.d.written <= MAX_LEN && Sound(l.d)
    && (Tame(Meaning(l.d), l.v.bytes + later) || Held(l.d) + |l.v.bytes| + |later| <= MAX_LEN)
  }

  lemma TameSuffix(r: Receiver, bytes: seq<byte>, n: nat)
    requires Tame(r, bytes) && n <= |bytes|
    ensures Tame(Feed(r, bytes[..n]), bytes[n..])
  {
    forall c | 0 <= c <= |bytes[n..]| ensures TameAt(Feed(r, bytes[..n]), bytes[n..], c) {
      FeedSuffix(r, bytes, n, c);
      assert TameAt(r, bytes, n + c);
    }
  }

  /** A step writes no further than the packet it has collected reaches, and holds no more than it has read. */
  lemma StepHolds(d: Decoder, block: seq<byte>)
    requires Sound(d)
    ensures var o := StepOf(d, block);
            && Held(o.d) <= Held(d) + o.n
            && o.d.written <= Max(d.written, if d.state == Body then |d.pkt| + o.n else 0)
            && (d.state == Body ==> o.d.written <= Max(d.written, |Feed(Meaning(d), block[..o.n]).pkt|))
  {
    if d.state == Body {
      var n := HashAt(d.escaped, block);
      HashIs(d.escaped, block);
      FeedHash(Meaning(d), block, n);
      if n < |block| {
        FeedUnfold(Meaning(d), block[..n + 1]);
        assert block[..n + 1][..n] == block[..n];
      }
    }
  }

  lemma StepSafe(l: Link, max: nat, later: seq<byte>)
    requires InRing(l.v, max) && Safe(l, later)
    ensures var o := StepOf(l.d, FirstBlockOf(l.v, max)); Safe(Link(o.d, Drop(l.v, o.n, max)), later)
  {
    var block := FirstBlockOf(l.v, max);
    var o, r, bytes := StepOf(l.d, block), Meaning(l.d), l.v.bytes + later;
    StepMeaning(l.d, block);
    StepHolds(l.d, block);
    BlockPrefix(l.v, max, o.n);
    assert bytes[..o.n] == block[..o.n] && bytes[o.n..] == l.v.bytes[o.n..] + later;
    if Tame(r, bytes) {
      assert TameAt(r, bytes, o.n);
      TameSuffix(r, bytes, o.n);
    }
  }

  /** Decoding does not overrun the buffer. */
  lemma {:induction false} DecodeSafe(l: Link, max: nat, later: seq<byte>)
    requires InRing(l.v, max) && Safe(l, later)
    ensures Safe(DecodeOf(l, max), later)
    decreases |l.v.bytes|, Rank(l.d.state)
  {
    var o := StepOf(l.d, FirstBlockOf(l.v, max));
    StepSafe(l, max, later);
    DecodeUnfold(l, max);
    if o.more { DecodeSafe(Link(o.d, Drop(l.v, o.n, max)), max, later); }
  }
}
