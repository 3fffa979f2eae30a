/** What the core sees of a cache in every run: each request it makes is served once, at its own address. */
module CacheAccess {
  import opened Arith
  import opened Bits
  import opened Bytes
  import opened IoV2
  import opened CacheLines
  import opened CacheCore
  import opened CacheSpec

  // ---------------------------------------------------------------- addresses

  /** Sets, places in a line and, for 32-bit addresses, tags are remainders and quotients. */
  lemma AddressParts(cfg: Config, addr: nat, tag: nat)
    ensures SetOf(cfg, tag) == Rem(tag, Sets(cfg)) && OffsetOf(cfg, addr) == Rem(addr, LineSize(cfg))
    ensures Quot(addr, LineSize(cfg)) < Pow2(WORD_BITS) ==> TagOf(cfg, addr) == Quot(addr, LineSize(cfg))
  {
    ShiftsAreArithmetic(tag, cfg.setBits);
    ShiftsAreArithmetic(addr, cfg.lineBits);
    if Quot(addr, LineSize(cfg)) < Pow2(WORD_BITS) { LowSmall(Shr(addr, cfg.lineBits), WORD_BITS); }
  }

  /**
    With lines from the same address on in the store as in the cache, and no overflow, a byte of a line is the byte of
    the store at the address of the access.
   */
  lemma SameAddress(cfg: Config, addr: nat)
    requires cfg.lineBits <= WORD_BITS && cfg.refillShift == 0 && cfg.refillOffset == 0 && addr < Pow2(WORD_BITS)
    ensures LineBase(cfg, TagOf(cfg, addr)) + OffsetOf(cfg, addr) == addr
  {
    RefillAddrOfTag(cfg, addr);
    LineStart(cfg, addr, WORD_BITS);
  }

  lemma LineStart(cfg: Config, addr: nat, w: nat)
    requires cfg.lineBits <= w && cfg.refillShift == 0 && cfg.refillOffset == 0 && addr < Pow2(w)
    ensures RefillIn(cfg, addr, w) + Low(addr, cfg.lineBits) == addr
  {
    LowSmall(addr, w);
    var low := Low(addr, cfg.lineBits);
    SplitBits(addr, cfg.lineBits);
    assert RefillIn(cfg, addr, w) == Low(Shl(addr - low, 0) + 0, w);
    InPlace(addr - low, addr, w);
  }

  lemma InPlace(x: nat, y: nat, w: nat)
    requires x <= y < Pow2(w)
    ensures Low(Shl(x, 0) + 0, w) == x
  {
    ShlUnfold(x, 0);
    LowSmall(x, w);
  }

  // ---------------------------------------------------------------- one access

  /** What a completed access leaves in the log: bytes to or from its own address, of its own size. */
  ghost predicate IsEntryOf(cfg: Config, e: Entry, req: Access) {
    if req.isWrite then e == Wrote(TagOf(cfg, req.addr), OffsetOf(cfg, req.addr), req.bytes)
    else e.Returned? && e.id == req.id && e.tag == TagOf(cfg, req.addr) && e.at == OffsetOf(cfg, req.addr)
         && |e.bytes| == req.size
  }

  /** An access completes: exactly one entry of its own, behind the fill of its line if there is one. */
  ghost predicate Accessed(cfg: Config, before: seq<Entry>, after: seq<Entry>, req: Access, fill: Option<seq<byte>>) {
    && |after| == |before| + (if fill.Some? then 2 else 1) && before <= after
    && IsEntryOf(cfg, after[|after| - 1], req)
    && (fill.Some? ==> after[|before|] == Filled(TagOf(cfg, req.addr), fill.value))
  }

  /** The refill port has written these bytes. */
  ghost predicate Brought(cfg: Config, bytes: seq<byte>, data: nat -> byte) {
    |bytes| == LineSize(cfg) && forall i :: 0 <= i < |bytes| ==> bytes[i] == data(i)
  }

  function FillOf(cfg: Config, hit: bool, a: Reply): Option<seq<byte>> {
    if hit then None else Some(Delivered(cfg, a.data))
  }

  /** The bytes handed to the core are the values at its own address. */
  ghost predicate Handed(cfg: Config, log: seq<Entry>, req: Access, bytes: seq<byte>) {
    if req.isWrite then bytes == []
    else
      && |bytes| == req.size
      && forall i :: 0 <= i < |bytes| ==>
         Value(log, TagOf(cfg, req.addr), OffsetOf(cfg, req.addr) + i) == Some(bytes[i])
  }

  lemma CopyAccesses(cfg: Config, c: Core, req: Access, i: nat, j: nat)
    requires LineAt(cfg, c, req, i, j)
    ensures Accessed(cfg, c.log, Copied(cfg, c, req, i, j).log, req, None)
  {}

  lemma CopyHands(cfg: Config, c: Core, req: Access, i: nat, j: nat)
    requires LineAt(cfg, c, req, i, j) && Holds(c.lines[i][j].bytes, c.log, TagOf(cfg, req.addr))
    ensures Handed(cfg, Copied(cfg, c, req, i, j).log, req, Part(cfg, req, c.lines[i][j].bytes))
  {
    if !req.isWrite {
      var line, at := c.lines[i][j], OffsetOf(cfg, req.addr);
      var e := Returned(req.id, line.tag, at, line.bytes[at..at + req.size]);
      forall b | 0 <= b < |e.bytes| ensures Value(c.log + [e], TagOf(cfg, req.addr), at + b) == Some(e.bytes[b]) {
        ValueAppend(c.log, e, TagOf(cfg, req.addr), at + b);
      }
    }
  }

  lemma SupplyAccesses(cfg: Config, c: Core, req: Access, j: nat, timestamp: int, bytes: seq<byte>)
    requires Shaped(cfg, c.lines) && InLine(cfg, req) && j < cfg.ways && |bytes| == LineSize(cfg)
    ensures Accessed(cfg, c.log, Supplied(cfg, c, req, j, timestamp, bytes).log, req, Some(bytes))
  {
    var tag := TagOf(cfg, req.addr);
    CopyAccesses(cfg, Fetched(cfg, c, tag, j, timestamp, bytes), req, SetOf(cfg, tag), j);
  }

  lemma SupplyHands(cfg: Config, c: Core, req: Access, j: nat, timestamp: int, bytes: seq<byte>)
    requires Shaped(cfg, c.lines) && InLine(cfg, req) && j < cfg.ways && |bytes| == LineSize(cfg)
    ensures Handed(cfg, Supplied(cfg, c, req, j, timestamp, bytes).log, req, Part(cfg, req, bytes))
  {
    var tag := TagOf(cfg, req.addr);
    FillHolds(c.log, tag, bytes);
    CopyHands(cfg, Fetched(cfg, c, tag, j, timestamp, bytes), req, SetOf(cfg, tag), j);
  }

  /** How a lookup fares, told by what it leaves in the log and which refills it sends. */
  ghost predicate ServedAtOwnAddress(cfg: Config, c: Core, req: Access, a: Reply, v: Service) {
    var hit := Cached(cfg, c, TagOf(cfg, req.addr));
    && (v.status == Done ==>
          Accessed(cfg, c.log, v.core.log, req, FillOf(cfg, hit, a)) && Handed(cfg, v.core.log, req, v.bytes))
    && Brought(cfg, Delivered(cfg, a.data), a.data)
    && (v.status != Done ==> v.core.log == c.log && v.core.lines == c.lines)
    && v.core.refills == c.refills + (if hit then [] else [LineBase(cfg, TagOf(cfg, req.addr))])
    && v.status == if hit then Done else a.status
  }

  lemma MissAccesses(cfg: Config, c: Core, req: Access, now: int, a: Reply)
    requires Shaped(cfg, c.lines) && InLine(cfg, req) && a.status == Done
    ensures var v := Missed(cfg, c, req, now, a);
            Accessed(cfg, c.log, v.core.log, req, Some(Delivered(cfg, a.data))) && Handed(cfg, v.core.log, req, v.bytes)
  {
    var c1, until := Asked(cfg, c, req.addr), now + RefillLatency(cfg, c, now, a.latency);
    var bytes := Delivered(cfg, a.data);
    MissSupplies(cfg, c, req, now, a);
    SupplyAccesses(cfg, c1.(refillTimestamp := until), req, VictimWay(cfg, c1.lru), until, bytes);
    SupplyHands(cfg, c1.(refillTimestamp := until), req, VictimWay(cfg, c1.lru), until, bytes);
  }

  lemma HitAccesses(cfg: Config, c: Core, req: Access, now: int, i: nat, j: nat)
    requires Sound(cfg, c, None) && LineAt(cfg, c, req, i, j)
    ensures var v := HitIn(cfg, c, req, now, i, j);
            Accessed(cfg, c.log, v.core.log, req, None) && Handed(cfg, v.core.log, req, v.bytes)
  {
    CopyAccesses(cfg, c, req, i, j);
    CopyHands(cfg, c, req, i, j);
  }

  /** A completed access moves the bytes at its own address, once; a miss asks for the line around it. */
  lemma ServeAccesses(cfg: Config, c: Core, req: Access, now: int, a: Reply)
    requires Sound(cfg, c, None) && InLine(cfg, req)
    ensures ServedAtOwnAddress(cfg, c, req, a, Serve(cfg, c, req, now, a))
  {
    var tag := TagOf(cfg, req.addr);
    var w := FindWay(c.lines[SetOf(cfg, tag)], tag, 0);
    RefillAddrOfTag(cfg, req.addr);
    if w.Some? {
      HitAccesses(cfg, c, req, now, SetOf(cfg, tag), w.value);
    } else if a.status == Done {
      MissAccesses(cfg, c, req, now, a);
    }
  }

  /** A cache that is disabled answers what the port answers, and touches nothing of its own. */
  lemma BypassAnswers(cfg: Config, s: State, req: Access, now: int, a: Reply)
    requires Shaped(cfg, s.core.lines) && !s.enabled
    ensures var o := Entered(cfg, s, req, now, a);
            && o.status == a.status && o.latency == (if a.status == Done then a.latency else 0)
            && o.st.core == s.core && o.st.queue == s.queue && o.st.refill == s.refill
  {}

  // ---------------------------------------------------------------- invalidation

  /** Exactly the line that holds the address is invalidated, and an access to it misses. */
  lemma LineFlushExact(cfg: Config, lines: seq<seq<Line>>, addr: nat)
    requires Shaped(cfg, lines) && Placed(cfg, lines) && Shr(addr, cfg.lineBits) != NO_TAG
    ensures var tag, lines' := Shr(addr, cfg.lineBits), LineFlushed(cfg, lines, addr);
            && |lines'| == |lines| && Absent(lines', tag)
            && forall i, j :: 0 <= i < |lines| && 0 <= j < |lines[i]| ==>
                 && j < |lines'[i]|
                 && lines'[i][j] == if lines[i][j].tag == tag then lines[i][j].(tag := NO_TAG) else lines[i][j]
  {}

  // ---------------------------------------------------------------- how long a hit waits

  /** The lines' timestamps are as before, but for those of lines that are loaded until `until`. */
  ghost predicate Stamped(lines: seq<seq<Line>>, lines': seq<seq<Line>>, until: int) {
    && |lines'| == |lines|
    && forall i, j :: 0 <= i < |lines'| && 0 <= j < |lines'[i]| ==>
         lines'[i][j].timestamp == until || (j < |lines[i]| && lines'[i][j].timestamp == lines[i][j].timestamp)
  }

  ghost predicate StampedIn(s: State, s': State) {
    Stamped(s.core.lines, s'.core.lines, s'.core.refillTimestamp)
  }

  lemma CopyStamps(cfg: Config, c: Core, req: Access, i: nat, j: nat)
    requires LineAt(cfg, c, req, i, j)
    ensures Stamped(c.lines, Copied(cfg, c, req, i, j).lines, c.refillTimestamp)
    ensures Copied(cfg, c, req, i, j).refillTimestamp == c.refillTimestamp
  {}

  lemma SupplyStamps(cfg: Config, c: Core, req: Access, j: nat, t: int, bytes: seq<byte>, until: int)
    requires Shaped(cfg, c.lines) && InLine(cfg, req) && j < cfg.ways && |bytes| == LineSize(cfg)
    requires t == until || t == c.lines[SetOf(cfg, TagOf(cfg, req.addr))][j].timestamp
    ensures Stamped(c.lines, Supplied(cfg, c, req, j, t, bytes).lines, until)
    ensures Supplied(cfg, c, req, j, t, bytes).refillTimestamp == c.refillTimestamp
  {
    var tag := TagOf(cfg, req.addr);
    CopyStamps(cfg, Fetched(cfg, c, tag, j, t, bytes), req, SetOf(cfg, tag), j);
  }

  lemma ServeStamps(cfg: Config, c: Core, req: Access, now: int, a: Reply)
    requires Shaped(cfg, c.lines) && InLine(cfg, req)
    ensures var c' := Serve(cfg, c, req, now, a).core; Stamped(c.lines, c'.lines, c'.refillTimestamp)
  {
    var tag := TagOf(cfg, req.addr);
    var w := FindWay(c.lines[SetOf(cfg, tag)], tag, 0);
    if w.Some? {
      CopyStamps(cfg, c, req, SetOf(cfg, tag), w.value);
    } else if a.status == Done {
      MissStamps(cfg, c, req, now, a);
    }
  }

  lemma MissStamps(cfg: Config, c: Core, req: Access, now: int, a: Reply)
    requires Shaped(cfg, c.lines) && InLine(cfg, req) && a.status == Done
    ensures var c' := Missed(cfg, c, req, now, a).core; Stamped(c.lines, c'.lines, c'.refillTimestamp)
  {
    var c1, until := Asked(cfg, c, req.addr), now + RefillLatency(cfg, c, now, a.latency);
    MissSupplies(cfg, c, req, now, a);
    SupplyStamps(cfg, c1.(refillTimestamp := until), req, VictimWay(cfg, c1.lru), until, Delivered(cfg, a.data), until);
  }

  lemma EnteredStamps(cfg: Config, s: State, req: Access, now: int, a: Reply)
    requires Shaped(cfg, s.core.lines) && (s.enabled ==> InLine(cfg, req))
    ensures StampedIn(s, Entered(cfg, s, req, now, a).st)
  {
    if s.enabled && s.refill.None? && !s.retryPending {
      ServeStamps(cfg, s.core, req, now, a);
      AdmittedCore(s, req, Serve(cfg, s.core, req, now, a));
    } else if s.enabled {
      PostponedCore(s, req);
    } else {
      BypassAnswers(cfg, s, req, now, a);
    }
  }

  lemma AdmittedCore(s: State, req: Access, v: Service)
    ensures Admitted(s, req, v).core == v.core
  {}

  lemma PostponedCore(s: State, req: Access)
    ensures Checked(Postponed(s, req)).core == s.core
  {}

  lemma ResumedCore(s: State, v: Service)
    requires s.queue != []
    ensures Checked(Resumed(s, v)).core == v.core
  {}

  lemma DrainedStamps(cfg: Config, s: State, now: int, a: Reply)
    requires Safe(cfg, s)
    ensures StampedIn(s, Drained(cfg, s, now, a))
  {
    if s.refill.None? && !s.retryPending && s.queue != [] {
      ServeStamps(cfg, s.core, s.queue[0], now, a);
      ResumedCore(s, Serve(cfg, s.core, s.queue[0], now, a));
    }
  }

  lemma RefilledStamps(cfg: Config, s: State, bytes: seq<byte>)
    requires Safe(cfg, s) && s.refill.Some? && |bytes| == LineSize(cfg)
    ensures Refilling(cfg, s) && StampedIn(s, Refilled(cfg, s, bytes))
  {
    var r := s.refill.value;
    var t := s.core.lines[r.set_][r.way].timestamp;
    SupplyStamps(cfg, s.core, s.queue[0], r.way, t, bytes, s.core.refillTimestamp);
    AnsweredCore(s, Supplied(cfg, s.core, s.queue[0], r.way, t, bytes));
  }

  lemma AnsweredCore(s: State, core: Core)
    requires s.queue != []
    ensures Checked(Answered(s, core)).core == core
  {}

  lemma StepStamps(cfg: Config, s: State, e: Event)
    requires Safe(cfg, s)
    ensures StampedIn(s, Applied(cfg, s, e))
  {
    if e.Input? {
      if s.enabled ==> InLine(cfg, e.req) { EnteredStamps(cfg, s, e.req, e.now, e.a); }
    } else if e.Drain? {
      if s.armed { DrainedStamps(cfg, s, e.now, e.a); }
    } else if e.RefillDone? {
      if s.refill.Some? && |e.bytes| == LineSize(cfg) { RefilledStamps(cfg, s, e.bytes); }
    } else if e.RetryIn? {
      RetriedCore(s);
    } else if e.BypassDone? {
      if e.i < |s.bypassed| { ForwardSame(s, e.i); }
    } else if e.FlushAll? || e.FlushLine? {
      LinesStamps(cfg, s, e);
    } else {
      BeatStep(cfg, s, e);
    }
  }

  lemma RetriedCore(s: State)
    ensures Retried(s).core == s.core
  {}

  lemma LinesStamps(cfg: Config, s: State, e: Event)
    requires Safe(cfg, s) && (e.FlushAll? || e.FlushLine?)
    ensures StampedIn(s, Applied(cfg, s, e))
  {
    if e.FlushAll? { FlushStamps(s); } else { LineFlushStamps(cfg, s, s.flushAddr); }
  }

  lemma BeatStep(cfg: Config, s: State, e: Event)
    requires Safe(cfg, s) && (e.Beat? || e.Enable? || e.SetFlushAddr?)
    ensures StampedIn(s, Applied(cfg, s, e))
  {
    if e.Beat? && s.refill.Some? && |e.bytes| == LineSize(cfg) { BeatStamps(cfg, s, e.bytes); }
  }

  lemma BeatStamps(cfg: Config, s: State, bytes: seq<byte>)
    requires Safe(cfg, s) && s.refill.Some? && |bytes| == LineSize(cfg)
    ensures Refilling(cfg, s) && StampedIn(s, Buffered(cfg, s, bytes))
  {}

  lemma FlushStamps(s: State)
    ensures StampedIn(s, WithLines(s, Flushed(s.core.lines)))
  {}

  lemma LineFlushStamps(cfg: Config, s: State, addr: nat)
    requires Shaped(cfg, s.core.lines)
    ensures StampedIn(s, WithLines(s, LineFlushed(cfg, s.core.lines, addr)))
  {}

  /** A line is waited for until a refill that was answered inline is over, or not at all. */
  ghost predicate WaitsForRefill(cfg: Config, events: seq<Event>, t: int)
    requires cfg.lineBits <= WORD_BITS
  {
    exists n :: 0 <= n <= |events| && t == Run(cfg, events[..n]).core.refillTimestamp
  }

  lemma WaitsOn(cfg: Config, events: seq<Event>, before: seq<Event>, t: int)
    requires cfg.lineBits <= WORD_BITS && before <= events && WaitsForRefill(cfg, before, t)
    ensures WaitsForRefill(cfg, events, t)
  {
    var n :| 0 <= n <= |before| && t == Run(cfg, before[..n]).core.refillTimestamp;
    assert before[..n] == events[..n];
  }

  /** In every run a hit waits until the end of an earlier refill that was answered inline, at most. */
  lemma {:induction false} HitsWaitForRefills(cfg: Config, events: seq<Event>, i: nat, j: nat)
    requires cfg.lineBits <= WORD_BITS
    requires i < |Run(cfg, events).core.lines| && j < |Run(cfg, events).core.lines[i]|
    ensures WaitsForRefill(cfg, events, Run(cfg, events).core.lines[i][j].timestamp)
  {
    assert events[..|events|] == events;
    if events == [] {
      RunEmpty(cfg);
    } else {
      var s, e := RunLast(cfg, events);
      StepStamps(cfg, s, e);
      var t := Run(cfg, events).core.lines[i][j].timestamp;
      if t != Run(cfg, events).core.refillTimestamp {
        var before := events[..|events| - 1];
        HitsWaitForRefills(cfg, before, i, j);
        WaitsOn(cfg, events, before, t);
      }
    }
  }

  // ---------------------------------------------------------------- whole runs

  /** The entries of a log but for fills are, in order, those of these accesses. */
  ghost predicate EntriesOf(cfg: Config, log: seq<Entry>, reqs: seq<Access>) {
    if log == [] then reqs == []
    else
      var n, m := |log| - 1, |reqs| - 1;
      if log[n].Filled? then EntriesOf(cfg, log[..n], reqs)
      else reqs != [] && IsEntryOf(cfg, log[n], reqs[m]) && EntriesOf(cfg, log[..n], reqs[..m])
  }

  /** The request that an event makes the enabled cache take, be it served at once or later. */
  function TakenIn(cfg: Config, s: State, e: Event): multiset<Access>
    requires Safe(cfg, s)
  {
    match e
    case Input(req, now, a) => if s.enabled && InLine(cfg, req) then TakenOf(cfg, s, req, now, a) else multiset{}
    case _ => multiset{}
  }

  function TakenOf(cfg: Config, s: State, req: Access, now: int, a: Reply): multiset<Access>
    requires Safe(cfg, s) && InLine(cfg, req)
  {
    if Entered(cfg, s, req, now, a).status != Denied then multiset{req} else multiset{}
  }

  // As in Arith, a name and one step of the definition.

  function Taken(cfg: Config, events: seq<Event>): multiset<Access>
    requires cfg.lineBits <= WORD_BITS
    decreases |events|, 1
  {
    TakenStep(cfg, events)
  }

  function TakenStep(cfg: Config, events: seq<Event>): multiset<Access>
    requires cfg.lineBits <= WORD_BITS
    decreases |events|, 0
  {
    if events == [] then multiset{}
    else
      var n := |events| - 1;
      InvSafe(cfg, Run(cfg, events[..n]));
      Taken(cfg, events[..n]) + TakenIn(cfg, Run(cfg, events[..n]), events[n])
  }

  lemma TakenUnfold(cfg: Config, events: seq<Event>)
    requires cfg.lineBits <= WORD_BITS
    ensures events == [] ==> Taken(cfg, events) == multiset{}
    ensures events != [] ==>
              var s := Run(cfg, events[..|events| - 1]);
              && Safe(cfg, s)
              && Taken(cfg, events) == Taken(cfg, events[..|events| - 1]) + TakenIn(cfg, s, events[|events| - 1])
  {
    assert Taken(cfg, events) == TakenStep(cfg, events);
    if events != [] { InvSafe(cfg, Run(cfg, events[..|events| - 1])); }
  }

  lemma TakenIsInput(cfg: Config, s: State, e: Event, req: Access)
    requires Safe(cfg, s) && req in TakenIn(cfg, s, e)
    ensures e.Input? && e.req == req
  {}

  lemma EntriesGrow(cfg: Config, before: seq<Entry>, after: seq<Entry>, req: Access, fill: Option<seq<byte>>,
                    reqs: seq<Access>)
    requires EntriesOf(cfg, before, reqs) && Accessed(cfg, before, after, req, fill)
    ensures EntriesOf(cfg, after, reqs + [req])
  {
    var mid := after[..|after| - 1];
    assert (reqs + [req])[..|reqs|] == reqs;
    if fill.Some? {
      assert mid[..|before|] == before;
    } else {
      assert mid == before;
    }
  }

  /** What an event does to the log and the queue. */
  datatype Move =
    | Rests
    | Waits(req: Access, first: bool)
    | Serves(req: Access, fill: Option<seq<byte>>)
    | Finishes(fill: Option<seq<byte>>)

  /** A request that the cache takes is put into the queue, or served; of the queue its head is served. */
  ghost predicate Makes(cfg: Config, move: Move, log: seq<Entry>, queue: seq<Access>, log': seq<Entry>,
                        queue': seq<Access>, more: multiset<Access>) {
    match move
    case Rests => log' == log && queue' == queue && more == multiset{}
    case Waits(req, first) =>
      log' == log && queue' == (if first then [req] + queue else queue + [req]) && more == multiset{req}
    case Serves(req, fill) => Accessed(cfg, log, log', req, fill) && queue' == queue && more == multiset{req}
    case Finishes(fill) =>
      queue != [] && Accessed(cfg, log, log', queue[0], fill) && queue' == queue[1..] && more == multiset{}
  }

  function ServedNow(move: Move, queue: seq<Access>): seq<Access> {
    match move
    case Serves(req, _) => [req]
    case Finishes(_) => if queue == [] then [] else [queue[0]]
    case _ => []
  }

  lemma HeadAndRest(queue: seq<Access>)
    requires queue != []
    ensures multiset(queue) == multiset{queue[0]} + multiset(queue[1..])
  {
    assert queue == [queue[0]] + queue[1..];
  }

  /** What is served and what waits afterwards. */
  lemma MoveKeeps(cfg: Config, move: Move, log: seq<Entry>, queue: seq<Access>, log': seq<Entry>, queue': seq<Access>,
                  more: multiset<Access>, reqs: seq<Access>)
    requires Makes(cfg, move, log, queue, log', queue', more) && EntriesOf(cfg, log, reqs)
    ensures var reqs' := reqs + ServedNow(move, queue);
            && EntriesOf(cfg, log', reqs')
            && multiset(reqs') + multiset(queue') == multiset(reqs) + multiset(queue) + more
  {
    match move
    case Rests => assert reqs + [] == reqs;
    case Waits(_, _) => assert reqs + [] == reqs;
    case Serves(req, fill) => EntriesGrow(cfg, log, log', req, fill, reqs);
    case Finishes(fill) =>
      EntriesGrow(cfg, log, log', queue[0], fill, reqs);
      HeadAndRest(queue);
  }

  /**
    Where the bytes of a fill come from: a reply of the refill port, or what it writes before it completes a
    refill.
   */
  datatype Origin = Nowhere | FromReply(a: Reply) | FromBeats(bytes: seq<byte>)

  /**
    A fill of the line with this tag, in a step from `s` to `s'`, and the address that the refill port was called
    with.
   */
  ghost predicate ComesFrom(cfg: Config, s: State, s': State, from: Origin, tag: nat, bytes: seq<byte>) {
    match from
    case Nowhere => false
    case FromReply(a) =>
      && a.status == Done && Brought(cfg, bytes, a.data)
      && s'.core.refills == s.core.refills + [LineBase(cfg, tag)]
    case FromBeats(written) => bytes == written && s.refill.Some? && s.refill.value.tag == tag
  }

  ghost predicate FillComesFrom(cfg: Config, s: State, s': State, from: Origin, move: Move) {
    match move
    case Serves(req, Some(bytes)) => ComesFrom(cfg, s, s', from, TagOf(cfg, req.addr), bytes)
    case Finishes(Some(bytes)) => s.queue != [] && ComesFrom(cfg, s, s', from, TagOf(cfg, s.queue[0].addr), bytes)
    case _ => true
  }

  ghost predicate MakesIn(cfg: Config, move: Move, s: State, s': State, more: multiset<Access>, from: Origin) {
    && Makes(cfg, move, s.core.log, s.queue, s'.core.log, s'.queue, more)
    && (move.Waits? && move.first ==> s.refill.None? && s'.refill.Some?)
    && FillComesFrom(cfg, s, s', from, move)
  }

  /** A request that is looked up is served, waits, or is turned away. */
  lemma AdmittedMove(cfg: Config, s: State, req: Access, a: Reply, v: Service)
    requires ServedAtOwnAddress(cfg, s.core, req, a, v) && s.refill.None? && v.refill.Some? == (v.status == Granted)
    ensures var hit := Cached(cfg, s.core, TagOf(cfg, req.addr));
            var move := match v.status
              case Done => Serves(req, FillOf(cfg, hit, a)) case Granted => Waits(req, true) case Denied => Rests;
            MakesIn(cfg, move, s, Admitted(s, req, v), if v.status == Denied then multiset{}
                    else multiset{req}, FromReply(a))
  {}

  /** A request that arrives while a refill is pending or refused waits; one that is passed on leaves no trace. */
  lemma PostponedMove(cfg: Config, s: State, req: Access)
    requires s.refill.Some? || s.retryPending
    ensures forall from :: MakesIn(cfg, Waits(req, false), s, Checked(Postponed(s, req)), multiset{req}, from)
  {}

  lemma BypassedMove(cfg: Config, s: State, req: Access, a: Reply)
    ensures forall from :: MakesIn(cfg, Rests, s, Bypassed(s, req, a).st, multiset{}, from)
  {}

  lemma EnteredMove(cfg: Config, s: State, req: Access, now: int, a: Reply) returns (move: Move)
    requires Inv(cfg, s) && Safe(cfg, s) && (s.enabled ==> InLine(cfg, req))
    ensures var o := Entered(cfg, s, req, now, a);
            MakesIn(cfg, move, s, o.st, if s.enabled && o.status != Denied then multiset{req}
                    else multiset{}, FromReply(a))
  {
    if !s.enabled {
      BypassedMove(cfg, s, req, a);
      move := Rests;
    } else if s.refill.Some? || s.retryPending {
      PostponedMove(cfg, s, req);
      move := Waits(req, false);
    } else {
      move := LookedUpMove(cfg, s, req, Serve(cfg, s.core, req, now, a), now, a);
    }
  }

  lemma LookedUpMove(cfg: Config, s: State, req: Access, v: Service, now: int, a: Reply) returns (move: Move)
    requires Sound(cfg, s.core, None) && s.refill.None? && InLine(cfg, req) && v == Serve(cfg, s.core, req, now, a)
    ensures MakesIn(cfg, move, s, Admitted(s, req, v), if v.status == Denied then multiset{}
                    else multiset{req}, FromReply(a))
  {
    ServeAccesses(cfg, s.core, req, now, a);
    ServeKeeps(cfg, s.core, req, now, a);
    AdmittedMove(cfg, s, req, a, v);
    move := match v.status
      case Done => Serves(req, FillOf(cfg, Cached(cfg, s.core, TagOf(cfg, req.addr)), a))
      case Granted => Waits(req, true)
      case Denied => Rests;
  }

  lemma ResumedMove(cfg: Config, s: State, a: Reply, v: Service)
    requires s.refill.None? && s.queue != [] && ServedAtOwnAddress(cfg, s.core, s.queue[0], a, v)
    ensures var hit := Cached(cfg, s.core, TagOf(cfg, s.queue[0].addr));
            MakesIn(cfg, if v.status == Done then Finishes(FillOf(cfg, hit, a)) else Rests, s, Checked(Resumed(s, v)),
                    multiset{}, FromReply(a))
  {
    ResumeQueue(s, v);
  }

  lemma DrainedMove(cfg: Config, s: State, now: int, a: Reply) returns (move: Move)
    requires Inv(cfg, s) && Safe(cfg, s)
    ensures MakesIn(cfg, move, s, Drained(cfg, s, now, a), multiset{}, FromReply(a))
  {
    if s.refill.None? && !s.retryPending && s.queue != [] {
      var v := Serve(cfg, s.core, s.queue[0], now, a);
      ServeAccesses(cfg, s.core, s.queue[0], now, a);
      ResumedMove(cfg, s, a, v);
      move := Rests;
      if v.status == Done {
        move := Finishes(FillOf(cfg, Cached(cfg, s.core, TagOf(cfg, s.queue[0].addr)), a));
      }
    } else {
      move := Rests;
    }
  }

  lemma RefilledMove(cfg: Config, s: State, bytes: seq<byte>)
    requires Safe(cfg, s) && s.refill.Some? && |bytes| == LineSize(cfg)
    ensures Refilling(cfg, s)
    ensures MakesIn(cfg, Finishes(Some(bytes)), s, Refilled(cfg, s, bytes), multiset{}, FromBeats(bytes))
  {
    var r := s.refill.value;
    SupplyAccesses(cfg, s.core, s.queue[0], r.way, s.core.lines[r.set_][r.way].timestamp, bytes);
  }

  /** Neither what is in the log nor what waits is touched by the other events. */
  predicate SameBooks(s: State, s': State) {
    s'.core.log == s.core.log && s'.queue == s.queue
  }

  lemma SideBandMove(cfg: Config, s: State, e: Event)
    requires Safe(cfg, s) && (e.Enable? || e.FlushAll? || e.SetFlushAddr? || e.FlushLine?)
    ensures SameBooks(s, Applied(cfg, s, e))
  {}

  lemma BeatMove(cfg: Config, s: State, e: Event)
    requires Safe(cfg, s) && e.Beat?
    ensures SameBooks(s, Applied(cfg, s, e))
  {
    if s.refill.Some? && |e.bytes| == LineSize(cfg) { BeatSame(cfg, s, e.bytes); }
  }

  lemma BeatSame(cfg: Config, s: State, bytes: seq<byte>)
    requires Safe(cfg, s) && s.refill.Some? && |bytes| == LineSize(cfg)
    ensures Refilling(cfg, s) && SameBooks(s, Buffered(cfg, s, bytes))
  {}

  lemma RetryMove(cfg: Config, s: State, e: Event)
    requires Safe(cfg, s) && e.RetryIn?
    ensures SameBooks(s, Applied(cfg, s, e))
  {
    RetrySame(s);
  }

  lemma RetrySame(s: State)
    ensures SameBooks(s, Retried(s))
  {}

  lemma ForwardMove(cfg: Config, s: State, e: Event)
    requires Safe(cfg, s) && e.BypassDone?
    ensures SameBooks(s, Applied(cfg, s, e))
  {
    if e.i < |s.bypassed| { ForwardSame(s, e.i); }
  }

  lemma ForwardSame(s: State, i: nat)
    requires i < |s.bypassed|
    ensures SameBooks(s, Forwarded(s, i)) && Forwarded(s, i).core == s.core
  {}

  function OriginOf(e: Event): Origin {
    match e
    case Input(_, _, a) => FromReply(a)
    case Drain(_, a) => FromReply(a)
    case RefillDone(bytes) => FromBeats(bytes)
    case _ => Nowhere
  }

  lemma InputMove(cfg: Config, s: State, e: Event) returns (move: Move)
    requires Inv(cfg, s) && Safe(cfg, s) && e.Input?
    ensures MakesIn(cfg, move, s, Applied(cfg, s, e), TakenIn(cfg, s, e), OriginOf(e))
  {
    move := Rests;
    if !s.enabled || InLine(cfg, e.req) { move := EnteredMove(cfg, s, e.req, e.now, e.a); }
  }

  lemma ServiceMove(cfg: Config, s: State, e: Event) returns (move: Move)
    requires Inv(cfg, s) && Safe(cfg, s) && (e.Drain? || e.RefillDone?)
    ensures MakesIn(cfg, move, s, Applied(cfg, s, e), TakenIn(cfg, s, e), OriginOf(e))
  {
    move := Rests;
    if e.Drain? && s.armed {
      move := DrainedMove(cfg, s, e.now, e.a);
    } else if e.RefillDone? && s.refill.Some? && |e.bytes| == LineSize(cfg) {
      RefilledMove(cfg, s, e.bytes);
      move := Finishes(Some(e.bytes));
    }
  }

  lemma StepMove(cfg: Config, s: State, e: Event) returns (move: Move)
    requires Inv(cfg, s) && Safe(cfg, s)
    ensures MakesIn(cfg, move, s, Applied(cfg, s, e), TakenIn(cfg, s, e), OriginOf(e))
  {
    move := Rests;
    if e.Input? {
      move := InputMove(cfg, s, e);
    } else if e.Drain? || e.RefillDone? {
      move := ServiceMove(cfg, s, e);
    } else if e.Beat? {
      BeatMove(cfg, s, e);
    } else if e.RetryIn? {
      RetryMove(cfg, s, e);
    } else if e.BypassDone? {
      ForwardMove(cfg, s, e);
    } else {
      SideBandMove(cfg, s, e);
    }
  }

  /**
    In every run the accesses in the log are, each once, requests that the cache has taken; the others that it has
    taken are in its queue.
   */
  lemma {:induction false} ServedOrQueued(cfg: Config, events: seq<Event>) returns (reqs: seq<Access>)
    requires cfg.lineBits <= WORD_BITS
    ensures EntriesOf(cfg, Run(cfg, events).core.log, reqs)
    ensures multiset(reqs) + multiset(Run(cfg, events).queue) == Taken(cfg, events)
  {
    TakenUnfold(cfg, events);
    if events == [] {
      RunEmpty(cfg);
      reqs := [];
    } else {
      var n := |events| - 1;
      var s, e := RunLast(cfg, events);
      reqs := ServedOrQueued(cfg, events[..n]);
      var s', more := Applied(cfg, s, e), TakenIn(cfg, s, e);
      var move := StepMove(cfg, s, e);
      MoveKeeps(cfg, move, s.core.log, s.queue, s'.core.log, s'.queue, more, reqs);
      reqs := reqs + ServedNow(move, s.queue);
    }
  }

  lemma TakenLast(cfg: Config, events: seq<Event>, req: Access)
    requires cfg.lineBits <= WORD_BITS && req in Taken(cfg, events)
    ensures events != []
    ensures var n := |events| - 1; req in Taken(cfg, events[..n]) || (events[n].Input? && events[n].req == req)
  {
    TakenUnfold(cfg, events);
    var n := |events| - 1;
    if req !in Taken(cfg, events[..n]) {
      InvSafe(cfg, Run(cfg, events[..n]));
      TakenIsInput(cfg, Run(cfg, events[..n]), events[n], req);
    }
  }

  ghost predicate CameIn(events: seq<Event>, req: Access) {
    exists n :: 0 <= n < |events| && events[n].Input? && events[n].req == req
  }

  lemma CameInBefore(events: seq<Event>, n: nat, req: Access)
    requires n <= |events| && CameIn(events[..n], req)
    ensures CameIn(events, req)
  {
    var k :| 0 <= k < n && events[..n][k].Input? && events[..n][k].req == req;
    assert events[k] == events[..n][k];
  }

  /** What was taken came in. */
  lemma {:induction false} TakenCameIn(cfg: Config, events: seq<Event>, req: Access)
    requires cfg.lineBits <= WORD_BITS && req in Taken(cfg, events)
    ensures CameIn(events, req)
  {
    TakenLast(cfg, events, req);
    var n := |events| - 1;
    if req in Taken(cfg, events[..n]) {
      TakenCameIn(cfg, events[..n], req);
      CameInBefore(events, n, req);
    }
  }

  lemma {:induction false} EntryOfSome(cfg: Config, log: seq<Entry>, reqs: seq<Access>, k: nat) returns (m: nat)
    requires EntriesOf(cfg, log, reqs) && k < |log| && !log[k].Filled?
    ensures m < |reqs| && IsEntryOf(cfg, log[k], reqs[m])
  {
    var n := |log| - 1;
    if k == n {
      m := |reqs| - 1;
    } else if log[n].Filled? {
      m := EntryOfSome(cfg, log[..n], reqs, k);
    } else {
      m := EntryOfSome(cfg, log[..n], reqs[..|reqs| - 1], k);
    }
  }

  /** Bytes returned or written in a run are those of a request that came in: its id, its address and its size. */
  lemma EntryHasInput(cfg: Config, events: seq<Event>, k: nat) returns (n: nat)
    requires cfg.lineBits <= WORD_BITS && k < |Run(cfg, events).core.log| && !Run(cfg, events).core.log[k].Filled?
    ensures n < |events| && events[n].Input? && IsEntryOf(cfg, Run(cfg, events).core.log[k], events[n].req)
  {
    var reqs := ServedOrQueued(cfg, events);
    var m := EntryOfSome(cfg, Run(cfg, events).core.log, reqs, k);
    assert reqs[m] in multiset(reqs);
    TakenCameIn(cfg, events, reqs[m]);
    n :| 0 <= n < |events| && events[n].Input? && events[n].req == reqs[m];
  }

  /**
    A cache whose lines lie in the store where they are cached: what a read in a run returns, byte by byte, is what the
    store holds at the read's own address, if fills bring that and the line was not written to.
   */
  lemma ReadIsStore(cfg: Config, events: seq<Event>, log: seq<Entry>, store: nat -> byte, k: nat) returns (n: nat)
    requires cfg.lineBits <= WORD_BITS && cfg.refillShift == 0 && cfg.refillOffset == 0
    requires log == Run(cfg, events).core.log && k < |log| && log[k].Returned?
    requires FilledFrom(cfg, store, log[..k]) && Unwritten(log[..k], log[k].tag)
    ensures n < |events| && events[n].Input? && events[n].req.id == log[k].id && |log[k].bytes| == events[n].req.size
    ensures events[n].req.addr < Pow2(WORD_BITS) ==> AreBytesOf(store, events[n].req.addr, log[k].bytes)
  {
    n := EntryHasInput(cfg, events, k);
    if events[n].req.addr < Pow2(WORD_BITS) {
      SameAddress(cfg, events[n].req.addr);
      BytesOfStore(cfg, log, k, store, events[n].req.addr);
    }
  }

  ghost predicate AreBytesOf(store: nat -> byte, addr: nat, bytes: seq<byte>) {
    forall i :: 0 <= i < |bytes| ==> bytes[i] == store(addr + i)
  }

  lemma BytesOfStore(cfg: Config, log: seq<Entry>, k: nat, store: nat -> byte, addr: nat)
    requires Truthful(log) && k < |log| && log[k].Returned? && LineBase(cfg, log[k].tag) + log[k].at == addr
    requires FilledFrom(cfg, store, log[..k]) && Unwritten(log[..k], log[k].tag)
    ensures AreBytesOf(store, addr, log[k].bytes)
  {
    forall i | 0 <= i < |log[k].bytes| ensures log[k].bytes[i] == store(addr + i) {
      ByteOfStore(cfg, log, k, store, addr, i);
    }
  }

  lemma ByteOfStore(cfg: Config, log: seq<Entry>, k: nat, store: nat -> byte, addr: nat, i: nat)
    requires Truthful(log) && k < |log| && log[k].Returned? && i < |log[k].bytes|
    requires LineBase(cfg, log[k].tag) + log[k].at == addr
    requires FilledFrom(cfg, store, log[..k]) && Unwritten(log[..k], log[k].tag)
    ensures log[k].bytes[i] == store(addr + i)
  {
    TruthfulAt(log, k, i);
    UnwrittenIsStore(cfg, store, log[..k], log[k].tag, log[k].at + i);
  }
}
