/** A cache in front of a store: where the refill port serves from the store, so do the reads of every run. */
module CacheStore {
  import opened Bits
  import opened Bytes
  import opened IoV2
  import opened CacheLines
  import opened CacheCore
  import opened CacheSpec
  import opened CacheAccess

  /** The refill in flight is for the line that was last asked for. */
  ghost predicate AskedLast(cfg: Config, s: State) {
    s.refill.Some? ==>
      s.core.refills != [] && s.core.refills[|s.core.refills| - 1] == LineBase(cfg, s.refill.value.tag)
  }

  /** A line's worth of bytes is the store's at an address. */
  ghost predicate LineOf(cfg: Config, store: nat -> byte, addr: nat, data: nat -> byte) {
    forall i :: 0 <= i < LineSize(cfg) ==> data(i) == store(addr + i)
  }

  /** What the refill port delivers in a step from `s` to `s'` is what the store holds where it was called. */
  ghost predicate Delivers(cfg: Config, store: nat -> byte, s: State, s': State, from: Origin) {
    match from
    case Nowhere => true
    case FromReply(a) =>
      a.status == Done && |s'.core.refills| > |s.core.refills| ==>
        LineOf(cfg, store, s'.core.refills[|s'.core.refills| - 1], a.data)
    case FromBeats(bytes) =>
      s.refill.Some? && s.core.refills != [] ==> AreBytesOf(store, s.core.refills[|s.core.refills| - 1], bytes)
  }

  ghost predicate PortServes(cfg: Config, store: nat -> byte, events: seq<Event>)
    requires cfg.lineBits <= WORD_BITS
  {
    forall n :: 0 <= n < |events| ==>
      Delivers(cfg, store, Run(cfg, events[..n]), Run(cfg, events[..n + 1]), OriginOf(events[n]))
  }

  // ---------------------------------------------------------------- which line is asked for

  /** A lookup that misses asks for its own line, and that is the refill it leaves in flight. */
  ghost predicate AsksItsLine(cfg: Config, c: Core, v: Service) {
    v.refill.Some? ==> v.core.refills == c.refills + [LineBase(cfg, v.refill.value.tag)]
  }

  lemma ServeAsks(cfg: Config, c: Core, req: Access, now: int, a: Reply)
    requires Sound(cfg, c, None) && InLine(cfg, req)
    ensures var v := Serve(cfg, c, req, now, a); AsksItsLine(cfg, c, v) && v.refill.Some? == (v.status == Granted)
  {
    ServeAccesses(cfg, c, req, now, a);
    ServeKeeps(cfg, c, req, now, a);
  }

  lemma AdmittedAsks(cfg: Config, s: State, req: Access, v: Service)
    requires s.refill.None? && AsksItsLine(cfg, s.core, v) && v.refill.Some? == (v.status == Granted)
    ensures AskedLast(cfg, Admitted(s, req, v))
  {}

  lemma ResumedAsks(cfg: Config, s: State, v: Service)
    requires s.refill.None? && s.queue != [] && AsksItsLine(cfg, s.core, v) && v.refill.Some? == (v.status == Granted)
    ensures AskedLast(cfg, Checked(Resumed(s, v)))
  {}

  lemma EnteredAsks(cfg: Config, s: State, req: Access, now: int, a: Reply)
    requires Inv(cfg, s) && Safe(cfg, s) && AskedLast(cfg, s) && (s.enabled ==> InLine(cfg, req))
    ensures AskedLast(cfg, Entered(cfg, s, req, now, a).st)
  {
    if s.enabled && s.refill.None? && !s.retryPending {
      ServeAsks(cfg, s.core, req, now, a);
      AdmittedAsks(cfg, s, req, Serve(cfg, s.core, req, now, a));
    } else if s.enabled {
      PostponedSame(s, req);
    } else {
      BypassAnswers(cfg, s, req, now, a);
    }
  }

  predicate SameRefill(s: State, s': State) {
    s'.refill == s.refill && s'.core.refills == s.core.refills
  }

  lemma PostponedSame(s: State, req: Access)
    ensures SameRefill(s, Checked(Postponed(s, req)))
  {}

  lemma DrainedAsks(cfg: Config, s: State, now: int, a: Reply)
    requires Inv(cfg, s) && Safe(cfg, s) && AskedLast(cfg, s)
    ensures AskedLast(cfg, Drained(cfg, s, now, a))
  {
    if s.refill.None? && !s.retryPending && s.queue != [] {
      ServeAsks(cfg, s.core, s.queue[0], now, a);
      ResumedAsks(cfg, s, Serve(cfg, s.core, s.queue[0], now, a));
    }
  }

  lemma RefilledAsks(cfg: Config, s: State, bytes: seq<byte>)
    requires Safe(cfg, s) && s.refill.Some? && |bytes| == LineSize(cfg)
    ensures Refilled(cfg, s, bytes).refill.None?
  {}

  lemma OthersSame(cfg: Config, s: State, e: Event)
    requires Safe(cfg, s) && !e.Input? && !e.Drain? && !e.RefillDone?
    ensures SameRefill(s, Applied(cfg, s, e))
  {
    if e.Beat? && s.refill.Some? && |e.bytes| == LineSize(cfg) {
      BufferedSame(cfg, s, e.bytes);
    } else if e.RetryIn? {
      RetriedRefill(s);
    }
  }

  lemma BufferedSame(cfg: Config, s: State, bytes: seq<byte>)
    requires Refilling(cfg, s) && |bytes| == LineSize(cfg)
    ensures SameRefill(s, Buffered(cfg, s, bytes))
  {}

  lemma RetriedRefill(s: State)
    ensures SameRefill(s, Retried(s))
  {}

  lemma StepAsks(cfg: Config, s: State, e: Event)
    requires Inv(cfg, s) && Safe(cfg, s) && AskedLast(cfg, s)
    ensures AskedLast(cfg, Applied(cfg, s, e))
  {
    if e.Input? {
      if s.enabled ==> InLine(cfg, e.req) { EnteredAsks(cfg, s, e.req, e.now, e.a); }
    } else if e.Drain? {
      if s.armed { DrainedAsks(cfg, s, e.now, e.a); }
    } else if e.RefillDone? {
      if s.refill.Some? && |e.bytes| == LineSize(cfg) { RefilledAsks(cfg, s, e.bytes); }
    } else {
      OthersSame(cfg, s, e);
    }
  }

  // ---------------------------------------------------------------- what fills bring

  /** A fill, in a step in which the port serves from the store, brings the store's line. */
  lemma FillIsStore(cfg: Config, store: nat -> byte, s: State, s': State, from: Origin, tag: nat, bytes: seq<byte>)
    requires AskedLast(cfg, s) && ComesFrom(cfg, s, s', from, tag, bytes) && Delivers(cfg, store, s, s', from)
    ensures IsStoreLine(cfg, store, tag, bytes)
  {}

  lemma EntryKeepsFills(cfg: Config, store: nat -> byte, before: seq<Entry>, after: seq<Entry>, req: Access,
                        fill: Option<seq<byte>>)
    requires FilledFrom(cfg, store, before) && Accessed(cfg, before, after, req, fill)
    requires fill.Some? ==> IsStoreLine(cfg, store, TagOf(cfg, req.addr), fill.value)
    ensures FilledFrom(cfg, store, after)
  {
    forall k | 0 <= k < |after| && after[k].Filled? ensures IsStoreLine(cfg, store, after[k].tag, after[k].bytes) {
      if k < |before| { assert after[k] == before[k]; }
    }
  }

  lemma MoveKeepsFills(cfg: Config, store: nat -> byte, move: Move, s: State, s': State, more: multiset<Access>,
                       from: Origin)
    requires MakesIn(cfg, move, s, s', more, from) && AskedLast(cfg, s) && Delivers(cfg, store, s, s', from)
    requires FilledFrom(cfg, store, s.core.log)
    ensures FilledFrom(cfg, store, s'.core.log)
  {
    match move
    case Serves(req, fill) =>
      if fill.Some? { FillIsStore(cfg, store, s, s', from, TagOf(cfg, req.addr), fill.value); }
      EntryKeepsFills(cfg, store, s.core.log, s'.core.log, req, fill);
    case Finishes(fill) =>
      if fill.Some? { FillIsStore(cfg, store, s, s', from, TagOf(cfg, s.queue[0].addr), fill.value); }
      EntryKeepsFills(cfg, store, s.core.log, s'.core.log, s.queue[0], fill);
    case _ =>
  }

  /** In every run each fill is of the line that the port was last called for: it brings what the store holds there. */
  lemma {:induction false} FillsAreStore(cfg: Config, store: nat -> byte, events: seq<Event>)
    requires cfg.lineBits <= WORD_BITS && PortServes(cfg, store, events)
    ensures AskedLast(cfg, Run(cfg, events)) && FilledFrom(cfg, store, Run(cfg, events).core.log)
  {
    if events == [] {
      RunEmpty(cfg);
    } else {
      var n := |events| - 1;
      var s, e := RunLast(cfg, events);
      PrefixServes(cfg, store, events, n);
      FillsAreStore(cfg, store, events[..n]);
      var move := StepMove(cfg, s, e);
      assert events[..n + 1] == events;
      MoveKeepsFills(cfg, store, move, s, Applied(cfg, s, e), TakenIn(cfg, s, e), OriginOf(e));
      StepAsks(cfg, s, e);
    }
  }

  lemma PrefixServes(cfg: Config, store: nat -> byte, events: seq<Event>, n: nat)
    requires cfg.lineBits <= WORD_BITS && PortServes(cfg, store, events) && n <= |events|
    ensures PortServes(cfg, store, events[..n])
  {
    forall k | 0 <= k < n
      ensures Delivers(cfg, store, Run(cfg, events[..n][..k]), Run(cfg, events[..n][..k + 1]), OriginOf(events[..n][k]))
    {
      assert events[..n][..k] == events[..k] && events[..n][..k + 1] == events[..k + 1];
    }
  }

  /**
    A cache whose lines lie in the store where they are cached, and whose refill port serves from the store: in every
    run a read of a line that was not written to returns, byte by byte, what the store holds at the read's own address.
   */
  lemma ReadsServeStore(cfg: Config, store: nat -> byte, events: seq<Event>, k: nat) returns (n: nat)
    requires cfg.lineBits <= WORD_BITS && cfg.refillShift == 0 && cfg.refillOffset == 0
    requires PortServes(cfg, store, events)
    requires var log := Run(cfg, events).core.log;
             k < |log| && log[k].Returned? && Unwritten(log[..k], log[k].tag)
    ensures var e := Run(cfg, events).core.log[k];
            && n < |events| && events[n].Input? && events[n].req.id == e.id && |e.bytes| == events[n].req.size
            && (events[n].req.addr < Pow2(WORD_BITS) ==> AreBytesOf(store, events[n].req.addr, e.bytes))
  {
    FillsAreStore(cfg, store, events);
    n := ReadIsStore(cfg, events, Run(cfg, events).core.log, store, k);
  }
}
