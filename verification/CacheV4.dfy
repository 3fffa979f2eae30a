/** The cache component: set-associative, one refill in flight, a queue of acknowledged requests. */
module CacheV4 {
  import opened Bits
  import opened Bytes
  import opened IoV2
  import opened CacheLines
  import opened CacheCore
  import opened CacheSpec

  /** A call of the refill port, for a line or to pass a request on, and what the port answered. */
  datatype Call = Call(addr: nat, isRefill: bool, reply: Reply)

  const NO_REPLY := Reply(Granted, 0, i => 0)

  class Cache {
    const cfg: Config
    var st: State
    // history: the calls of the refill port
    ghost var calls: seq<Call>

    ghost predicate Valid()
      reads this
    {
      Inv(cfg, st)
    }

    constructor (cfg: Config)
      requires cfg.lineBits <= WORD_BITS
      ensures Valid() && st == Initial(cfg) && this.cfg == cfg && calls == []
    {
      this.cfg := cfg;
      st := Initial(cfg);
      calls := [];
      InitialInv(cfg);
    }

    // ---------------------------------------------------------------- lookup and refill

    /** Searches the ways of the set of `addr`. */
    method GetLine(addr: nat) returns (tag: nat, index: nat, offset: nat, way: Option<nat>)
      requires Shaped(cfg, st.core.lines)
      ensures tag == TagOf(cfg, addr) && index == SetOf(cfg, tag) && offset == OffsetOf(cfg, addr)
      ensures way == FindWay(st.core.lines[index], tag, 0)
    {
      tag := Low(Shr(addr, cfg.lineBits), WORD_BITS);
      index := And(tag, Pow2(cfg.setBits) - 1);
      MaskIsLow(tag, cfg.setBits);
      offset := And(addr, Pow2(cfg.lineBits) - 1);
      MaskIsLow(addr, cfg.lineBits);
      var i := 0;
      while i < cfg.ways
        invariant 0 <= i <= cfg.ways
        invariant FindWay(st.core.lines[index], tag, i) == FindWay(st.core.lines[index], tag, 0)
      {
        if st.core.lines[index][i].tag == tag {
          way := Some(i);
          return;
        }
        i := i + 1;
      }
      way := None;
    }

    /** Copies between a request and a line, from byte `at` of it on. */
    method Copy(req: Access, i: nat, j: nat, at: nat) returns (bytes: seq<byte>)
      requires LineAt(cfg, st.core, req, i, j) && at == OffsetOf(cfg, req.addr)
      modifies `st
      ensures st == old(st).(core := Copied(cfg, old(st).core, req, i, j))
      ensures bytes == Part(cfg, req, old(st).core.lines[i][j].bytes)
    {
      var line := st.core.lines[i][j];
      if !req.isWrite {
        bytes := line.bytes[at..at + req.size];
        st := st.(core := st.core.(log := st.core.log + [Returned(req.id, line.tag, at, bytes)]));
      } else {
        bytes := [];
        var written := line.bytes[..at] + req.bytes + line.bytes[at + req.size..];
        st := st.(core := st.core.(lines := Put(st.core.lines, i, j, line.(bytes := written)),
                                   log := st.core.log + [Wrote(line.tag, at, req.bytes)]));
      }
    }

    /** The refill port is called. It is free to answer anything, and to deliver any bytes. */
    method RefillReq(addr: nat, isRefill: bool) returns (a: Reply)
      modifies `calls
      ensures calls == old(calls) + [Call(addr, isRefill, a)]
    {
      a := *;
      calls := calls + [Call(addr, isRefill, a)];
    }

    /** Asks for the line around a request that missed; `way` is set once the line is there. */
    method SendRefill(req: Access, tag: nat, index: nat, offset: nat, now: int)
      returns (way: Option<nat>, pending: bool, latency: int, a: Reply)
      requires Shaped(cfg, st.core.lines) && InLine(cfg, req) && st.refill.None?
      requires tag == TagOf(cfg, req.addr) && index == SetOf(cfg, tag) && offset == OffsetOf(cfg, req.addr)
      modifies `st, `calls
      ensures calls == old(calls) + [Call(RefillAddr(cfg, req.addr), true, a)]
      ensures var c := Asked(cfg, old(st).core, req.addr);
              var j := VictimWay(cfg, c.lru);
              && pending == (a.status == Granted) && way == (if a.status == Done then Some(j) else None)
              && latency == (if a.status == Done then RefillLatency(cfg, c, now, a.latency) else 0)
              && st == match a.status
                       case Granted => old(st).(core := c, queue := [req] + old(st).queue,
                                                refill := Some(Refill(index, j, tag, offset)))
                       case Denied => old(st).(core := c, retryPending := true, owed := true)
                       case Done =>
                         old(st).(core := Fetched(cfg, c.(refillTimestamp := now + latency), tag, j, now + latency,
                                                  Delivered(cfg, a.data)))
    {
      var j := DrawVictim(req.addr);
      a := RefillReq(st.core.refills[|st.core.refills| - 1], true);
      way, pending, latency := TakeAnswer(req, tag, index, offset, now, j, a);
    }

    /** What the refill port's answer means for the request, with victim `j`. */
    method TakeAnswer(req: Access, tag: nat, index: nat, offset: nat, now: int, j: nat, a: Reply)
      returns (way: Option<nat>, pending: bool, latency: int)
      requires index == SetOf(cfg, tag) < |st.core.lines| && j < |st.core.lines[index]|
      modifies `st
      ensures pending == (a.status == Granted) && way == (if a.status == Done then Some(j) else None)
      ensures latency == (if a.status == Done then RefillLatency(cfg, old(st).core, now, a.latency) else 0)
      ensures st == match a.status
                    case Granted => old(st).(queue := [req] + old(st).queue,
                                             refill := Some(Refill(index, j, tag, offset)))
                    case Denied => old(st).(retryPending := true, owed := true)
                    case Done =>
                      old(st).(core := Fetched(cfg, old(st).core.(refillTimestamp := now + latency), tag, j,
                                               now + latency, Delivered(cfg, a.data)))
    {
      latency := 0;
      match a.status {
        case Granted =>
          st := st.(queue := [req] + st.queue, refill := Some(Refill(index, j, tag, offset)));
          way, pending := None, true;
        case Denied =>
          st := st.(retryPending := true, owed := true);
          way, pending := None, false;
        case Done =>
          latency := RefillNow(tag, index, j, now, a);
          way, pending := Some(j), false;
      }
    }

    /** The refill is complete. */
    method RefillNow(tag: nat, index: nat, j: nat, now: int, a: Reply) returns (latency: int)
      requires index == SetOf(cfg, tag) < |st.core.lines| && j < |st.core.lines[index]|
      modifies `st
      ensures latency == RefillLatency(cfg, old(st).core, now, a.latency)
      ensures st == old(st).(core := Fetched(cfg, old(st).core.(refillTimestamp := now + latency), tag, j,
                                             now + latency, Delivered(cfg, a.data)))
    {
      latency := Serialised(now, a.latency);
      LoadLine(tag, index, j, now + latency, Delivered(cfg, a.data));
    }

    /** Steps the replacement generator, and addresses the refill. */
    method DrawVictim(addr: nat) returns (j: nat)
      requires cfg.lineBits <= WORD_BITS
      modifies `st
      ensures st == old(st).(core := Asked(cfg, old(st).core, addr)) && j == VictimWay(cfg, st.core.lru)
      ensures st.core.refills == old(st).core.refills + [RefillAddr(cfg, addr)]
    {
      var lru := StepLru(st.core.lru);
      j := VictimWay(cfg, lru);
      st := st.(core := st.core.(lru := lru, refills := st.core.refills + [RefillAddr(cfg, addr)]));
    }

    /** An inline refill takes its turn behind those before it. */
    method Serialised(now: int, refill: int) returns (latency: int)
      ensures latency == RefillLatency(cfg, st.core, now, refill)
    {
      latency := 0;
      if now < st.core.refillTimestamp {
        latency := latency + (st.core.refillTimestamp - now);
      }
      latency := latency + refill + cfg.refillLatency;
    }

    /** The refill port has written into the line, as of cycle `until`. */
    method LoadLine(tag: nat, index: nat, j: nat, until: int, bytes: seq<byte>)
      requires index == SetOf(cfg, tag) < |st.core.lines| && j < |st.core.lines[index]|
      modifies `st
      ensures st == old(st).(core := Fetched(cfg, old(st).core.(refillTimestamp := until), tag, j, until, bytes))
    {
      var line := Line(tag, bytes, until);
      st := st.(core := st.core.(lines := Put(st.core.lines, index, j, line), log := st.core.log + [Filled(tag, bytes)],
                                 refillTimestamp := until));
    }

    /** A request that missed: served once its line is there, and left waiting or refused otherwise. */
    method HandleMiss(req: Access, tag: nat, index: nat, offset: nat, now: int)
      returns (status: ReqStatus, latency: int, bytes: seq<byte>, a: Reply)
      requires Shaped(cfg, st.core.lines) && InLine(cfg, req) && st.refill.None?
      requires tag == TagOf(cfg, req.addr) && index == SetOf(cfg, tag) && offset == OffsetOf(cfg, req.addr)
      modifies `st, `calls
      ensures calls == old(calls) + [Call(RefillAddr(cfg, req.addr), true, a)]
      ensures var v := Missed(cfg, old(st).core, req, now, a);
              st == Handled(old(st), req, v) && status == v.status && latency == v.latency && bytes == v.bytes
    {
      ghost var s := st;
      var way, pending;
      way, pending, latency, a := SendRefill(req, tag, index, offset, now);
      MissHandled(cfg, s, req, now, a);
      if way.None? {
        status, bytes := if pending then Granted else Denied, [];
        return;
      }
      bytes := Copy(req, index, way.value, offset);
      status := Done;
    }

    /** Looks a request up and serves it, or starts a refill for it. */
    method HandleReq(req: Access, now: int) returns (status: ReqStatus, latency: int, bytes: seq<byte>, a: Reply)
      requires Shaped(cfg, st.core.lines) && InLine(cfg, req) && st.refill.None?
      modifies `st, `calls
      ensures calls == old(calls) + Asks(cfg, old(st).core, req, a)
      ensures var v := Serve(cfg, old(st).core, req, now, a);
              st == Handled(old(st), req, v) && status == v.status && latency == v.latency && bytes == v.bytes
    {
      var tag, index, offset, way := GetLine(req.addr);
      if way.None? {
        status, latency, bytes, a := HandleMiss(req, tag, index, offset, now);
        return;
      }
      a := NO_REPLY;
      latency := 0;
      if now < st.core.lines[index][way.value].timestamp {
        latency := st.core.lines[index][way.value].timestamp - now;
      }
      bytes := Copy(req, index, way.value, offset);
      status := Done;
    }

    // ---------------------------------------------------------------- callbacks

    /**
      A request arrives; `addr'` is the address it carries afterwards, and `a` what the refill port answers should it be
      called: with the request itself, at its translated address, or for the line that is missing.
     */
    method InputReq(req: Access, now: int)
      returns (status: ReqStatus, latency: int, bytes: seq<byte>, addr': nat, ghost a: Reply)
      requires Valid() && (st.enabled ==> InLine(cfg, req))
      modifies this
      ensures Valid() && Shaped(cfg, old(st).core.lines)
      ensures Outcome(st, status, latency, bytes) == Entered(cfg, old(st), req, now, a)
      ensures addr' == if !old(st).enabled && status != Denied then Shl(req.addr, cfg.refillShift) + cfg.refillOffset
              else req.addr
      ensures !old(st).enabled ==>
                calls == old(calls) + [Call(Shl(req.addr, cfg.refillShift) + cfg.refillOffset, false, a)]
      ensures old(st).enabled ==> calls == old(calls) + RefillCalls(old(st).core.refills, st.core.refills, a)
    {
      ghost var s := st;
      if !st.enabled {
        status, latency, addr', a := Bypass(req);
        bytes := [];
      } else {
        status, latency, bytes, a := Enter(req, now);
        addr' := req.addr;
        EnterAsks(cfg, s, req, now, a);
      }
      EnterKeeps(cfg, s, req, now, a);
    }

    /** The cache is disabled: the request is passed on at its translated address. */
    method Bypass(req: Access) returns (status: ReqStatus, latency: int, addr': nat, a: Reply)
      modifies `st, `calls
      ensures Outcome(st, status, latency, []) == Bypassed(old(st), req, a)
      ensures addr' == if status != Denied then Shl(req.addr, cfg.refillShift) + cfg.refillOffset else req.addr
      ensures calls == old(calls) + [Call(Shl(req.addr, cfg.refillShift) + cfg.refillOffset, false, a)]
    {
      addr' := Shl(req.addr, cfg.refillShift) + cfg.refillOffset;
      a := RefillReq(addr', false);
      status, latency := a.status, 0;
      match status {
        case Done => latency := a.latency;
        case Granted => st := st.(bypassed := st.bypassed + [req.id], granted := st.granted + [req.id]);
        case Denied =>
          addr' := req.addr;
          st := st.(needsRetry := true, owed := true);
      }
    }

    /** The cache is enabled: the request is looked up, or queued behind a refill. */
    method Enter(req: Access, now: int) returns (status: ReqStatus, latency: int, bytes: seq<byte>, a: Reply)
      requires st.enabled && Shaped(cfg, st.core.lines) && InLine(cfg, req)
      modifies `st, `calls
      ensures Outcome(st, status, latency, bytes) == Entered(cfg, old(st), req, now, a)
      ensures calls == old(calls)
                       + (if old(st).refill.Some? || old(st).retryPending then [] else Asks(cfg, old(st).core, req, a))
    {
      if st.refill.Some? || st.retryPending {
        st := st.(queue := st.queue + [req], granted := st.granted + [req.id]);
        CheckState();
        return Granted, 0, [], NO_REPLY;
      }
      status, latency, bytes, a := HandleReq(req, now);
      if status == Denied {
        st := st.(needsRetry := true);
      } else if status == Granted {
        st := st.(granted := st.granted + [req.id]);
      }
    }

    method CheckState()
      modifies `st
      ensures st == Checked(old(st))
    {
      if st.refill.None? && !st.retryPending && st.queue != [] {
        if !st.armed {
          st := st.(armed := true);
        }
      }
    }

    /** The drain event fires; `a` is what the refill port answers should it be called. */
    method FsmHandler(now: int) returns (ghost a: Reply)
      requires Valid() && st.armed
      modifies this
      ensures Shaped(cfg, old(st).core.lines) && forall k :: 0 <= k < |old(st).queue| ==> InLine(cfg, old(st).queue[k])
      ensures Valid() && st == Drained(cfg, old(st), now, a)
      ensures calls == old(calls) + RefillCalls(old(st).core.refills, st.core.refills, a)
    {
      ghost var s := st;
      a := DrainQueue(now);
      DrainAsks(cfg, s, now, a);
      DrainKeeps(cfg, s, now, a);
    }

    /** The head of the queue is looked up again, unless a refill is pending or refused. */
    method DrainQueue(now: int) returns (a: Reply)
      requires Shaped(cfg, st.core.lines) && (forall k :: 0 <= k < |st.queue| ==> InLine(cfg, st.queue[k]))
      modifies `st, `calls
      ensures st == Drained(cfg, old(st), now, a)
      ensures calls == old(calls)
                       + (if old(st).refill.None? && !old(st).retryPending && old(st).queue != []
                          then Asks(cfg, old(st).core, old(st).queue[0], a) else [])
    {
      ghost var s := st;
      st := st.(armed := false);
      a := NO_REPLY;
      if st.refill.None? && !st.retryPending && st.queue != [] {
        a := Resume(now);
      }
      CheckState();
      DrainCases(cfg, s, now, a);
    }

    method Resume(now: int) returns (a: Reply)
      requires Shaped(cfg, st.core.lines) && st.queue != [] && InLine(cfg, st.queue[0]) && st.refill.None? && !st.armed
      modifies `st, `calls
      ensures st == Resumed(old(st), Serve(cfg, old(st).core, old(st).queue[0], now, a))
      ensures calls == old(calls) + Asks(cfg, old(st).core, old(st).queue[0], a)
    {
      var req := st.queue[0];
      st := st.(queue := st.queue[1..]);
      var status, latency, bytes;
      status, latency, bytes, a := HandleReq(req, now);
      if status == Done {
        st := st.(upstream := st.upstream + [Resp(req.id)]);
      } else if status == Denied {
        st := st.(queue := [req] + st.queue);
      }
    }

    /** The refill port has written `bytes` into the buffer it was lent; `isLast` says whether that was all. */
    method RefillResp(bytes: seq<byte>, isLast: bool)
      requires Valid() && st.refill.Some? && |bytes| == LineSize(cfg)
      modifies `st
      ensures Refilling(cfg, old(st))
      ensures Valid() && st == if isLast then Refilled(cfg, old(st), bytes) else Buffered(cfg, old(st), bytes)
    {
      BufferKeeps(cfg, st, bytes);
      RefillKeeps(cfg, st, bytes);
      if !isLast {
        var r := st.refill.value;
        st := st.(core := st.core.(lines :=
                                   Put(st.core.lines, r.set_, r.way, st.core.lines[r.set_][r.way].(bytes := bytes))));
        return;
      }
      FinishRefill(bytes);
    }

    /** The last of the line is in: it gets its tag, and the request that missed is served from it. */
    method FinishRefill(bytes: seq<byte>)
      requires Refilling(cfg, st) && |bytes| == LineSize(cfg)
      modifies `st
      ensures st == Refilled(cfg, old(st), bytes)
    {
      var r, req := st.refill.value, st.queue[0];
      var line := st.core.lines[r.set_][r.way];
      st := st.(queue := st.queue[1..], refill := None);
      var lines := Put(st.core.lines, r.set_, r.way, Line(r.tag, bytes, line.timestamp));
      st := st.(core := st.core.(lines := lines, log := st.core.log + [Filled(r.tag, bytes)]));
      var read := Copy(req, r.set_, r.way, r.offset);
      st := st.(upstream := st.upstream + [Resp(req.id)]);
      CheckState();
    }

    /** Bypassed request number `i` in flight completes. */
    method BypassResp(i: nat)
      requires Valid() && i < |st.bypassed|
      modifies `st
      ensures Valid() && st == Forwarded(old(st), i)
    {
      ForwardKeeps(cfg, st, i);
      var id := st.bypassed[i];
      st := st.(bypassed := st.bypassed[..i] + st.bypassed[i + 1..], upstream := st.upstream + [Resp(id)]);
    }

    /** The refill port can accept requests again. */
    method RefillRetry()
      requires Valid()
      modifies `st
      ensures Valid() && st == Retried(old(st))
    {
      RetryKeeps(cfg, st);
      WakeUp();
    }

    /** Both one-shot flags are cleared, the master is retried if it was refused, and the queue is drained. */
    method WakeUp()
      modifies `st
      ensures st == Retried(old(st))
    {
      st := st.(retryPending := false, owed := false);
      if st.needsRetry {
        st := st.(needsRetry := false);
        st := st.(upstream := st.upstream + [Retry]);
      }
      CheckState();
    }

    // ---------------------------------------------------------------- side band

    /** Invalidates every line. */
    method Flush()
      requires Valid()
      modifies `st
      ensures Valid() && st == WithLines(old(st), Flushed(old(st).core.lines))
    {
      FlushKeeps(cfg, st);
      var lines := InvalidateAll(st.core.lines);
      st := st.(core := st.core.(lines := lines));
    }

    /** Invalidates the line that holds the address staged on the wire. */
    method FlushLineOp()
      requires Valid()
      modifies `st
      ensures Shaped(cfg, old(st).core.lines)
      ensures Valid() && st == WithLines(old(st), LineFlushed(cfg, old(st).core.lines, old(st).flushAddr))
    {
      LineFlushKeeps(cfg, st, st.flushAddr);
      var lines := InvalidateLine(st.core.lines, st.flushAddr);
      st := st.(core := st.core.(lines := lines));
    }

    method InvalidateAll(lines: seq<seq<Line>>) returns (r: seq<seq<Line>>)
      requires Shaped(cfg, lines)
      ensures r == Flushed(lines)
    {
      r := lines;
      var i := 0;
      while i < Pow2(cfg.setBits)
        invariant 0 <= i <= |r| == |lines|
        invariant forall k :: 0 <= k < |lines| ==> r[k] == if k < i then Cleared(lines[k]) else lines[k]
      {
        var j := 0;
        while j < cfg.ways
          invariant 0 <= j <= cfg.ways && |r| == |lines|
          invariant forall k :: 0 <= k < |lines| && k != i ==> r[k] == if k < i then Cleared(lines[k]) else lines[k]
          invariant |r[i]| == |lines[i]|
          invariant forall k :: 0 <= k < cfg.ways ==>
                    r[i][k] == if k < j then lines[i][k].(tag := NO_TAG) else lines[i][k]
        {
          r := Put(r, i, j, r[i][j].(tag := NO_TAG));
          j := j + 1;
        }
        assert r[i] == Cleared(lines[i]);
        i := i + 1;
      }
    }

    method InvalidateLine(lines: seq<seq<Line>>, addr: nat) returns (r: seq<seq<Line>>)
      requires Shaped(cfg, lines)
      ensures r == LineFlushed(cfg, lines, addr)
    {
      var tag := Shr(addr, cfg.lineBits);
      var index := And(tag, Pow2(cfg.setBits) - 1);
      MaskIsLow(tag, cfg.setBits);
      var ways := lines[index];
      var i := 0;
      while i < cfg.ways
        invariant 0 <= i <= |ways| == |lines[index]| == cfg.ways
        invariant forall k :: 0 <= k < cfg.ways ==>
                    ways[k] == if k < i && lines[index][k].tag == tag then lines[index][k].(tag := NO_TAG)
                      else lines[index][k]
      {
        if ways[i].tag == tag {
          ways := ways[i := ways[i].(tag := NO_TAG)];
        }
        i := i + 1;
      }
      assert ways == ClearedOf(lines[index], tag);
      r := lines[index := ways];
    }

    method FlushLineAddr(addr: nat)
      requires Valid()
      modifies `st
      ensures Valid() && st == old(st).(flushAddr := addr)
    {
      SideBandKeeps(cfg, st, st.enabled, addr);
      st := st.(flushAddr := addr);
    }

    method SetEnabled(on: bool)
      requires Valid()
      modifies `st
      ensures Valid() && st == old(st).(enabled := on)
    {
      SideBandKeeps(cfg, st, on, st.flushAddr);
      st := st.(enabled := on);
    }
  }

  /** How a miss ends, by the refill port's answer. */
  lemma MissHandled(cfg: Config, s: State, req: Access, now: int, a: Reply)
    requires Shaped(cfg, s.core.lines) && InLine(cfg, req)
    ensures var tag, c := TagOf(cfg, req.addr), Asked(cfg, s.core, req.addr);
            var j, until := VictimWay(cfg, c.lru), now + RefillLatency(cfg, c, now, a.latency);
            Handled(s, req, Missed(cfg, s.core, req, now, a)) ==
            match a.status
            case Granted => s.(core := c, queue := [req] + s.queue,
                               refill := Some(Refill(SetOf(cfg, tag), j, tag, OffsetOf(cfg, req.addr))))
            case Denied => s.(core := c, retryPending := true, owed := true)
            case Done =>
              var c1 := Fetched(cfg, c.(refillTimestamp := until), tag, j, until, Delivered(cfg, a.data));
              s.(core := Copied(cfg, c1, req, SetOf(cfg, tag), j))
  {}

  /** A request that misses calls the refill port. */
  function Asks(cfg: Config, c: Core, req: Access, a: Reply): seq<Call>
    requires Shaped(cfg, c.lines)
  {
    var tag := TagOf(cfg, req.addr);
    if FindWay(c.lines[SetOf(cfg, tag)], tag, 0).Some? then [] else [Call(RefillAddr(cfg, req.addr), true, a)]
  }

  /** The calls for the refills that were asked for between two states, at most one. */
  function RefillCalls(before: seq<nat>, after: seq<nat>, a: Reply): seq<Call> {
    if |after| <= |before| then [] else [Call(after[|after| - 1], true, a)]
  }

  lemma ServeAsks(cfg: Config, c: Core, req: Access, now: int, a: Reply)
    requires Shaped(cfg, c.lines) && InLine(cfg, req)
    ensures RefillCalls(c.refills, Serve(cfg, c, req, now, a).core.refills, a) == Asks(cfg, c, req, a)
  {}

  lemma EnterAsks(cfg: Config, s: State, req: Access, now: int, a: Reply)
    requires Shaped(cfg, s.core.lines) && InLine(cfg, req) && s.enabled
    ensures RefillCalls(s.core.refills, Entered(cfg, s, req, now, a).st.core.refills, a) ==
            if s.refill.Some? || s.retryPending then [] else Asks(cfg, s.core, req, a)
  {
    if s.refill.None? && !s.retryPending {
      ServeAsks(cfg, s.core, req, now, a);
      AdmittedRefills(s, req, Serve(cfg, s.core, req, now, a));
    }
  }

  lemma AdmittedRefills(s: State, req: Access, v: Service)
    ensures Admitted(s, req, v).core == v.core
  {}

  lemma ResumedRefills(s: State, v: Service)
    requires s.queue != []
    ensures Checked(Resumed(s, v)).core == v.core
  {}

  lemma DrainAsks(cfg: Config, s: State, now: int, a: Reply)
    requires Shaped(cfg, s.core.lines) && (forall k :: 0 <= k < |s.queue| ==> InLine(cfg, s.queue[k]))
    ensures RefillCalls(s.core.refills, Drained(cfg, s, now, a).core.refills, a) ==
            if s.refill.None? && !s.retryPending && s.queue != [] then Asks(cfg, s.core, s.queue[0], a) else []
  {
    if s.refill.None? && !s.retryPending && s.queue != [] {
      ServeAsks(cfg, s.core, s.queue[0], now, a);
      ResumedRefills(s, Serve(cfg, s.core, s.queue[0], now, a));
    }
  }
}
