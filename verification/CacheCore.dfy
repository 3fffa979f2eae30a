/** What one cached access does to the lines: lookup, replacement, refill and copy. */
module CacheCore {
  import opened Arith
  import opened Bits
  import opened Bytes
  import opened IoV2
  import opened CacheLines

  /** The lines and what steers their replacement; with the line traffic and the refill addresses so far. */
  datatype Core = Core(lines: seq<seq<Line>>, lru: nat, refillTimestamp: int, log: seq<Entry>, refills: seq<nat>)

  /** How an access fared: for a completed read, with the bytes it got; with the refill it waits for, if any. */
  datatype Service = Service(core: Core, status: ReqStatus, latency: int, bytes: seq<byte>, refill: Option<Refill>)

  ghost predicate Sound(cfg: Config, c: Core, refill: Option<Refill>) {
    Coherent(cfg, c.lines, c.log, refill)
  }

  /** The replacement generator: an 8-bit shift register fed back from its bits 7, 3, 2 and 1. */
  function StepLru(lru: nat): nat {
    Low(Or(Shl(lru, 1), if Feedback(lru) then 1 else 0), 8)
  }

  predicate Feedback(lru: nat) {
    ((Bit(lru, 7) != Bit(lru, 3)) != Bit(lru, 2)) == Bit(lru, 1)
  }

  /** Each bit moves up by one, the highest is lost, and the lowest is fed back. */
  lemma StepLruBits(lru: nat, i: nat)
    ensures Bit(StepLru(lru), i) == (i < 8 && if i == 0 then Feedback(lru) else Bit(lru, i - 1))
  {
    ShiftedIn(lru, if Feedback(lru) then 1 else 0, i);
  }

  lemma ShiftedIn(lru: nat, b: nat, i: nat)
    requires b <= 1
    ensures Bit(Low(Or(Shl(lru, 1), b), 8), i) == (i < 8 && if i == 0 then b == 1 else Bit(lru, i - 1))
  {
    BitLow(Or(Shl(lru, 1), b), 8, i);
    BitOr(Shl(lru, 1), b, i);
    BitShl(lru, 1, i);
    if i > 0 { BitZero(i - 1); }
  }

  /** No two states of the generator have the same successor: it runs in cycles. */
  lemma StepLruInjective(x: nat, y: nat)
    requires x < Pow2(8) && y < Pow2(8) && StepLru(x) == StepLru(y)
    ensures x == y
  {
    LowSmall(x, 8);
    LowSmall(y, 8);
    StepLruBits(x, 0);
    StepLruBits(y, 0);
    forall i: nat ensures i != 7 ==> Bit(x, i) == Bit(y, i) {
      BitLow(x, 8, i);
      BitLow(y, 8, i);
      StepLruBits(x, i + 1);
      StepLruBits(y, i + 1);
    }
    assert Bit(x, 3) == Bit(y, 3) && Bit(x, 2) == Bit(y, 2) && Bit(x, 1) == Bit(y, 1);
    assert Bit(x, 7) == Bit(y, 7);
    SameBits(x, y);
  }

  function VictimWay(cfg: Config, lru: nat): (j: nat)
    ensures j < cfg.ways
  {
    Rem(And(Shr(lru, 1), cfg.ways - 1), cfg.ways)
  }

  /** With `2^k` ways, the victim is told by `k` bits of the generator, from its second one on. */
  lemma VictimBits(cfg: Config, lru: nat, k: nat)
    requires cfg.ways == Pow2(k)
    ensures VictimWay(cfg, lru) == Low(Shr(lru, 1), k)
  {
    MaskIsLow(Shr(lru, 1), k);
    QuotUnfold(Low(Shr(lru, 1), k), cfg.ways);
  }

  /** The first way, from way `j` on, whose line carries `tag`. */
  function FindWay(ways: seq<Line>, tag: nat, j: nat): (r: Option<nat>)
    requires j <= |ways|
    ensures r.Some? ==> j <= r.value < |ways| && ways[r.value].tag == tag
    ensures r.None? ==> forall k :: j <= k < |ways| ==> ways[k].tag != tag
    decreases |ways| - j
  {
    if j == |ways| then None else if ways[j].tag == tag then Some(j) else FindWay(ways, tag, j + 1)
  }

  predicate LineAt(cfg: Config, c: Core, req: Access, i: nat, j: nat) {
    && i < |c.lines| && j < |c.lines[i]| && |c.lines[i][j].bytes| == LineSize(cfg)
    && c.lines[i][j].tag == TagOf(cfg, req.addr)
    && InLine(cfg, req)
  }

  /** Bytes are copied between a request and the line it addresses. */
  function Copied(cfg: Config, c: Core, req: Access, i: nat, j: nat): Core
    requires LineAt(cfg, c, req, i, j)
  {
    var line, at := c.lines[i][j], OffsetOf(cfg, req.addr);
    if req.isWrite then
      c.(lines := Put(c.lines, i, j, line.(bytes := Patch(line.bytes, at, req.bytes))),
         log := c.log + [Wrote(line.tag, at, req.bytes)])
    else
      c.(log := c.log + [Returned(req.id, line.tag, at, line.bytes[at..at + req.size])])
  }

  /** A line is loaded. */
  function Fetched(cfg: Config, c: Core, tag: nat, j: nat, timestamp: int, bytes: seq<byte>): Core
    requires SetOf(cfg, tag) < |c.lines| && j < |c.lines[SetOf(cfg, tag)]|
  {
    c.(lines := Put(c.lines, SetOf(cfg, tag), j, Line(tag, bytes, timestamp)),
       log := c.log + [Filled(tag, bytes)])
  }

  /** A line is loaded for a request, which is served from it. */
  function Supplied(cfg: Config, c: Core, req: Access, j: nat, timestamp: int, bytes: seq<byte>): Core
    requires Shaped(cfg, c.lines) && InLine(cfg, req) && j < cfg.ways && |bytes| == LineSize(cfg)
  {
    var tag := TagOf(cfg, req.addr);
    Copied(cfg, Fetched(cfg, c, tag, j, timestamp, bytes), req, SetOf(cfg, tag), j)
  }

  /** The cycles until a refill that takes `latency` cycles is over: refills follow one another. */
  function RefillLatency(cfg: Config, c: Core, now: int, latency: int): int {
    Max(0, c.refillTimestamp - now) + latency + cfg.refillLatency
  }

  /** A refill goes out for the line around `addr`; a new victim is drawn for it. */
  function Asked(cfg: Config, c: Core, addr: nat): Core
    requires cfg.lineBits <= WORD_BITS
  {
    c.(lru := StepLru(c.lru), refills := c.refills + [RefillAddr(cfg, addr)])
  }

  /** A miss; `a` is the refill port's answer. */
  function Missed(cfg: Config, c: Core, req: Access, now: int, a: Reply): Service
    requires Shaped(cfg, c.lines) && InLine(cfg, req)
  {
    var tag := TagOf(cfg, req.addr);
    var c1 := Asked(cfg, c, req.addr);
    var j := VictimWay(cfg, c1.lru);
    match a.status
    case Granted => Service(c1, Granted, 0, [], Some(Refill(SetOf(cfg, tag), j, tag, OffsetOf(cfg, req.addr))))
    case Denied => Service(c1, Denied, 0, [], None)
    case Done =>
      var latency := RefillLatency(cfg, c, now, a.latency);
      var bytes := Delivered(cfg, a.data);
      Service(SuppliedAt(cfg, c1, req, now + latency, bytes), Done, latency, Part(cfg, req, bytes), None)
  }

  /** The bytes of a line that a read asks for. */
  function Part(cfg: Config, req: Access, line: seq<byte>): seq<byte>
    requires InLine(cfg, req) && |line| == LineSize(cfg)
  {
    var at := OffsetOf(cfg, req.addr);
    if req.isWrite then [] else line[at..at + req.size]
  }

  /** The refill is over at cycle `until`. */
  function SuppliedAt(cfg: Config, c: Core, req: Access, until: int, bytes: seq<byte>): Core
    requires Shaped(cfg, c.lines) && InLine(cfg, req) && |bytes| == LineSize(cfg)
  {
    Supplied(cfg, c.(refillTimestamp := until), req, VictimWay(cfg, c.lru), until, bytes)
  }

  /** A hit in way `j`, which may have to wait for the line's own refill. */
  function HitIn(cfg: Config, c: Core, req: Access, now: int, i: nat, j: nat): Service
    requires LineAt(cfg, c, req, i, j)
  {
    Service(Copied(cfg, c, req, i, j), Done, Max(0, c.lines[i][j].timestamp - now), Part(cfg, req, c.lines[i][j].bytes),
            None)
  }

  /** A cached request is looked up; `a` is the refill port's answer should it miss. */
  function Serve(cfg: Config, c: Core, req: Access, now: int, a: Reply): Service
    requires Shaped(cfg, c.lines) && InLine(cfg, req)
  {
    var tag := TagOf(cfg, req.addr);
    var w := FindWay(c.lines[SetOf(cfg, tag)], tag, 0);
    if w.Some? then HitIn(cfg, c, req, now, SetOf(cfg, tag), w.value) else Missed(cfg, c, req, now, a)
  }

  // ---------------------------------------------------------------- what an access preserves

  lemma CopyKeeps(cfg: Config, c: Core, req: Access, i: nat, j: nat)
    requires Sound(cfg, c, None) && LineAt(cfg, c, req, i, j)
    ensures Sound(cfg, Copied(cfg, c, req, i, j), None)
  {
    if req.isWrite {
      WriteKeeps(cfg, c.lines, c.log, i, j, OffsetOf(cfg, req.addr), req.bytes);
    } else {
      ReadKeeps(cfg, c.lines, c.log, i, j, req.id, OffsetOf(cfg, req.addr), req.size);
    }
  }

  lemma SupplyKeeps(cfg: Config, c: Core, refill: Option<Refill>, req: Access, j: nat, timestamp: int,
                    bytes: seq<byte>)
    requires Sound(cfg, c, refill) && InLine(cfg, req) && Absent(c.lines, TagOf(cfg, req.addr)) && j < cfg.ways
    requires (refill.None? || IsVictim(refill, SetOf(cfg, TagOf(cfg, req.addr)), j)) && |bytes| == LineSize(cfg)
    ensures Sound(cfg, Supplied(cfg, c, req, j, timestamp, bytes), None)
  {
    var tag := TagOf(cfg, req.addr);
    FillKeeps(cfg, c.lines, c.log, refill, j, tag, timestamp, bytes);
    CopyKeeps(cfg, Fetched(cfg, c, tag, j, timestamp, bytes), req, SetOf(cfg, tag), j);
  }

  lemma LendVictim(cfg: Config, c: Core, req: Access, j: nat)
    requires Sound(cfg, c, None) && InLine(cfg, req) && Absent(c.lines, TagOf(cfg, req.addr)) && j < cfg.ways
    ensures var tag := TagOf(cfg, req.addr);
            Sound(cfg, c, Some(Refill(SetOf(cfg, tag), j, tag, OffsetOf(cfg, req.addr))))
  {
    var tag := TagOf(cfg, req.addr);
    LendKeeps(cfg, c.lines, c.log, Refill(SetOf(cfg, tag), j, tag, OffsetOf(cfg, req.addr)));
  }

  lemma MissGranted(cfg: Config, c: Core, req: Access, now: int, a: Reply)
    requires Sound(cfg, c, None) && InLine(cfg, req) && Absent(c.lines, TagOf(cfg, req.addr)) && a.status == Granted
    ensures var v := Missed(cfg, c, req, now, a); Sound(cfg, v.core, v.refill)
  {
    LendVictim(cfg, Asked(cfg, c, req.addr), req, VictimWay(cfg, Asked(cfg, c, req.addr).lru));
  }

  lemma SupplyAtKeeps(cfg: Config, c: Core, req: Access, until: int, bytes: seq<byte>)
    requires Sound(cfg, c, None) && InLine(cfg, req) && Absent(c.lines, TagOf(cfg, req.addr))
             && |bytes| == LineSize(cfg)
    ensures Sound(cfg, SuppliedAt(cfg, c, req, until, bytes), None)
  {
    SupplyKeeps(cfg, c.(refillTimestamp := until), None, req, VictimWay(cfg, c.lru), until, bytes);
  }

  lemma AskKeeps(cfg: Config, c: Core, addr: nat)
    requires Sound(cfg, c, None)
    ensures Sound(cfg, Asked(cfg, c, addr), None)
  {}

  /** A tag found in no way of its set is in no set. */
  lemma MissIsAbsent(cfg: Config, lines: seq<seq<Line>>, tag: nat)
    requires Shaped(cfg, lines) && Placed(cfg, lines) && tag != NO_TAG && FindWay(lines[SetOf(cfg, tag)], tag, 0).None?
    ensures Absent(lines, tag)
  {}

  lemma MissDone(cfg: Config, c: Core, req: Access, now: int, a: Reply)
    requires Sound(cfg, c, None) && InLine(cfg, req) && Absent(c.lines, TagOf(cfg, req.addr)) && a.status == Done
    ensures Sound(cfg, Missed(cfg, c, req, now, a).core, None)
  {
    AskKeeps(cfg, c, req.addr);
    MissSupplies(cfg, c, req, now, a);
    MissDoneFrom(cfg, Asked(cfg, c, req.addr), req, now + RefillLatency(cfg, c, now, a.latency),
                 Delivered(cfg, a.data), Missed(cfg, c, req, now, a).core);
  }

  lemma MissDoneFrom(cfg: Config, c1: Core, req: Access, until: int, bytes: seq<byte>, c2: Core)
    requires Sound(cfg, c1, None) && InLine(cfg, req) && Absent(c1.lines, TagOf(cfg, req.addr))
    requires |bytes| == LineSize(cfg) && c2 == SuppliedAt(cfg, c1, req, until, bytes)
    ensures Sound(cfg, c2, None)
  {
    SupplyAtKeeps(cfg, c1, req, until, bytes);
  }

  lemma MissSupplies(cfg: Config, c: Core, req: Access, now: int, a: Reply)
    requires Shaped(cfg, c.lines) && InLine(cfg, req) && a.status == Done
    ensures Missed(cfg, c, req, now, a).core ==
            SuppliedAt(cfg, Asked(cfg, c, req.addr), req, now + RefillLatency(cfg, c, now, a.latency),
                       Delivered(cfg, a.data))
  {}

  /** What `Serve` promises of its result. */
  ghost predicate Served(cfg: Config, c: Core, req: Access, v: Service) {
    && Sound(cfg, v.core, v.refill) && v.refill.Some? == (v.status == Granted)
    && (v.status == Granted ==>
        v.refill.value.tag == TagOf(cfg, req.addr) && v.refill.value.offset == OffsetOf(cfg, req.addr))
  }

  lemma ServeKeeps(cfg: Config, c: Core, req: Access, now: int, a: Reply)
    requires Sound(cfg, c, None) && InLine(cfg, req)
    ensures Served(cfg, c, req, Serve(cfg, c, req, now, a))
  {
    var tag := TagOf(cfg, req.addr);
    var w := FindWay(c.lines[SetOf(cfg, tag)], tag, 0);
    if w.Some? {
      CopyKeeps(cfg, c, req, SetOf(cfg, tag), w.value);
    } else {
      MissIsAbsent(cfg, c.lines, tag);
      MissKeeps(cfg, c, req, now, a);
    }
  }

  lemma MissKeeps(cfg: Config, c: Core, req: Access, now: int, a: Reply)
    requires Sound(cfg, c, None) && InLine(cfg, req) && Absent(c.lines, TagOf(cfg, req.addr))
    ensures Served(cfg, c, req, Missed(cfg, c, req, now, a))
  {
    match a.status
    case Granted => MissGranted(cfg, c, req, now, a);
    case Denied =>
    case Done => MissDone(cfg, c, req, now, a);
  }

  ghost predicate Cached(cfg: Config, c: Core, tag: nat) {
    Shaped(cfg, c.lines) && FindWay(c.lines[SetOf(cfg, tag)], tag, 0).Some?
  }

  lemma SupplyCaches(cfg: Config, c: Core, req: Access, j: nat, timestamp: int, bytes: seq<byte>)
    requires Shaped(cfg, c.lines) && InLine(cfg, req) && j < cfg.ways && |bytes| == LineSize(cfg)
    ensures Cached(cfg, Supplied(cfg, c, req, j, timestamp, bytes), TagOf(cfg, req.addr))
  {
    var tag := TagOf(cfg, req.addr);
    assert Supplied(cfg, c, req, j, timestamp, bytes).lines[SetOf(cfg, tag)][j].tag == tag;
  }

  lemma HitIsCached(cfg: Config, c: Core, req: Access, i: nat, j: nat)
    requires Shaped(cfg, c.lines) && LineAt(cfg, c, req, i, j) && i == SetOf(cfg, TagOf(cfg, req.addr))
    ensures Cached(cfg, Copied(cfg, c, req, i, j), TagOf(cfg, req.addr))
  {
    assert Copied(cfg, c, req, i, j).lines[i][j].tag == TagOf(cfg, req.addr);
  }

  lemma MissIsCached(cfg: Config, c: Core, req: Access, now: int, a: Reply)
    requires Shaped(cfg, c.lines) && InLine(cfg, req) && a.status == Done
    ensures Cached(cfg, Missed(cfg, c, req, now, a).core, TagOf(cfg, req.addr))
  {
    var c1, t := Asked(cfg, c, req.addr), now + RefillLatency(cfg, c, now, a.latency);
    MissSupplies(cfg, c, req, now, a);
    SupplyCaches(cfg, c1.(refillTimestamp := t), req, VictimWay(cfg, c1.lru), t, Delivered(cfg, a.data));
  }

  /** A completed access leaves its line in the cache. */
  lemma ServedIsCached(cfg: Config, c: Core, req: Access, now: int, a: Reply)
    requires Shaped(cfg, c.lines) && InLine(cfg, req) && Serve(cfg, c, req, now, a).status == Done
    ensures Cached(cfg, Serve(cfg, c, req, now, a).core, TagOf(cfg, req.addr))
  {
    var tag := TagOf(cfg, req.addr);
    var w := FindWay(c.lines[SetOf(cfg, tag)], tag, 0);
    if w.Some? { HitIsCached(cfg, c, req, SetOf(cfg, tag), w.value); } else { MissIsCached(cfg, c, req, now, a); }
  }

  /** An access to a cached line is completed inline, without a refill, whatever the refill port would answer. */
  lemma CachedHits(cfg: Config, c: Core, req: Access, now: int, a: Reply)
    requires InLine(cfg, req) && Cached(cfg, c, TagOf(cfg, req.addr))
    ensures Serve(cfg, c, req, now, a).status == Done && Serve(cfg, c, req, now, a).core.refills == c.refills
  {}

  /**
    A refill that is answered inline is over `latency` cycles after those before it, and only then can its line be
    read.
   */
  lemma RefillsFollow(cfg: Config, c: Core, req: Access, now: int, a: Reply, next: Access, later: int,
                      b: Reply)
    requires Shaped(cfg, c.lines) && InLine(cfg, req) && InLine(cfg, next)
             && TagOf(cfg, next.addr) == TagOf(cfg, req.addr)
    requires FindWay(c.lines[SetOf(cfg, TagOf(cfg, req.addr))], TagOf(cfg, req.addr), 0).None? && a.status == Done
    ensures var v := Serve(cfg, c, req, now, a);
            var until := Max(now, c.refillTimestamp) + a.latency + cfg.refillLatency;
            && v.core.refillTimestamp == until == now + v.latency
            && Shaped(cfg, v.core.lines)
            && later + Serve(cfg, v.core, next, later, b).latency == Max(later, until)
  {
    var t := now + RefillLatency(cfg, c, now, a.latency);
    SupplyPlaces(cfg, Asked(cfg, c, req.addr), req, t, Delivered(cfg, a.data));
    FoundAt(cfg, Serve(cfg, c, req, now, a).core, next, later, b, VictimWay(cfg, Asked(cfg, c, req.addr).lru));
  }

  lemma SupplyPlaces(cfg: Config, c: Core, req: Access, until: int, bytes: seq<byte>)
    requires Shaped(cfg, c.lines) && InLine(cfg, req) && |bytes| == LineSize(cfg)
    requires FindWay(c.lines[SetOf(cfg, TagOf(cfg, req.addr))], TagOf(cfg, req.addr), 0).None?
    ensures var tag, c', j := TagOf(cfg, req.addr), SuppliedAt(cfg, c, req, until, bytes), VictimWay(cfg, c.lru);
            && Shaped(cfg, c'.lines) && FindWay(c'.lines[SetOf(cfg, tag)], tag, 0) == Some(j)
            && c'.lines[SetOf(cfg, tag)][j].timestamp == until && c'.refillTimestamp == until
  {
    var tag, c', j := TagOf(cfg, req.addr), SuppliedAt(cfg, c, req, until, bytes), VictimWay(cfg, c.lru);
    assert c'.lines[SetOf(cfg, tag)][j].tag == tag;
    OnlyWay(c.lines[SetOf(cfg, tag)], c'.lines[SetOf(cfg, tag)], tag, j);
  }

  lemma FoundAt(cfg: Config, c: Core, req: Access, now: int, a: Reply, j: nat)
    requires Shaped(cfg, c.lines) && InLine(cfg, req)
    requires FindWay(c.lines[SetOf(cfg, TagOf(cfg, req.addr))], TagOf(cfg, req.addr), 0) == Some(j)
    ensures now + Serve(cfg, c, req, now, a).latency == Max(now, c.lines[SetOf(cfg, TagOf(cfg, req.addr))][j].timestamp)
  {}

  /** A tag that was in no way of a set is found where it was put. */
  lemma OnlyWay(ways: seq<Line>, ways': seq<Line>, tag: nat, j: nat)
    requires FindWay(ways, tag, 0).None? && j < |ways| == |ways'| && ways'[j].tag == tag
    requires forall k :: 0 <= k < |ways| && k != j ==> ways'[k].tag == ways[k].tag
    ensures FindWay(ways', tag, 0) == Some(j)
  {}
}
