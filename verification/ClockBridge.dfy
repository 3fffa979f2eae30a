/** The clock bridge component in its parametric mode. */
module ClockBridge {
  import opened IoV2
  import opened ClockBridgeSpec

  /** A call of the slave, and its answer. */
  datatype Call = Call(id: nat, answer: Answer)

  /** These calls are of the first requests in a queue, with these answers. */
  ghost predicate AreCalls(calls: seq<Call>, queue: seq<Txn>, answers: seq<ReqStatus>) {
    && |calls| == |answers| <= |queue|
    && forall i :: 0 <= i < |calls| ==> calls[i].id == queue[i].id && calls[i].answer.status == answers[i]
  }

  class Bridge {
    const cfg: Config
    var st: State
    // history: the calls of the slave
    ghost var calls: seq<Call>

    ghost predicate Valid()
      reads this
    {
      Inv(cfg, st)
    }

    constructor (cfg: Config)
      ensures Valid() && st == INITIAL && this.cfg == cfg && calls == []
    {
      this.cfg := cfg;
      st := INITIAL;
      calls := [];
      InitialInv(cfg);
    }

    /** The cycle a stage's event is rescheduled to. */
    method RescheduleEvent(queue: seq<Txn>, now: int) returns (t: Stage)
      ensures t == Scheduled(queue, now)
    {
      if queue == [] {
        return Stage(queue, None);
      }
      var delta := queue[0].deadline - now;
      if delta < 1 { delta := 1; }
      t := Stage(queue, Some(now + delta));
    }

    /** Every caller asks for a spacing of one cycle. */
    method EnqueueIn(queue: seq<Txn>, id: nat, now: int) returns (r: seq<Txn>)
      ensures r == Enqueue(queue, id, now)
    {
      var deadline := now;
      if queue != [] {
        var prev := queue[|queue| - 1].deadline;
        if deadline < prev + 1 { deadline := prev + 1; }
      }
      r := queue + [Txn(id, deadline)];
    }

    /** The loop of the first and third stages: what is due moves on. */
    method Advance(from: seq<Txn>, to: seq<Txn>, now: int, target: int) returns (from': seq<Txn>, to': seq<Txn>)
      ensures Queues(from', to') == Moved(Queues(from, to), now, target)
    {
      from', to' := from, to;
      while from' != [] && from'[0].deadline <= now
        invariant Moved(Queues(from', to'), now, target) == Moved(Queues(from, to), now, target)
        decreases |from'|
      {
        var t := from'[0];
        from' := from'[1..];
        to' := EnqueueIn(to', t.id, target);
      }
    }

    /** A request arrives from the master. */
    method InReqHandler(id: nat, master: int) returns (status: ReqStatus)
      requires Valid()
      modifies `st
      ensures Valid() && st == Requested(cfg, old(st), id, master)
      ensures status == if InFlight(old(st)) >= cfg.depth then Denied else Granted
    {
      RequestKeeps(cfg, st, id, master);
      var inFlight := |st.fwdSrc.queue| + |st.fwdDst.queue| + |st.revSrc.queue| + |st.revDst.queue|;
      if inFlight >= cfg.depth {
        st := st.(retryOwed := true);
        return Denied;
      }
      var queue := EnqueueIn(st.fwdSrc.queue, id, master + cfg.kSrc);
      var stage := RescheduleEvent(queue, master);
      st := st.(fwdSrc := stage, accepted := st.accepted + [id]);
      return Granted;
    }

    /** The slave answers a request it holds. */
    method OutRespHandler(id: nat, slave: int)
      requires Valid() && id in st.held
      modifies `st
      ensures Valid() && st == Returned(cfg, old(st), id, slave)
    {
      ReturnKeeps(cfg, st, id, slave);
      var queue := EnqueueIn(st.revSrc.queue, id, slave + cfg.kSrc);
      var stage := RescheduleEvent(queue, slave);
      st := st.(revSrc := stage, returned := st.returned + [id], held := st.held - multiset{id});
    }

    method FwdSrcDoneHandler(master: int, slave: int)
      requires Valid()
      modifies `st
      ensures Valid() && st == FwdSrcDone(cfg, old(st), master, slave)
    {
      FwdSrcKeeps(cfg, st, master, slave);
      var from, to := Advance(st.fwdSrc.queue, st.fwdDst.queue, master, slave + cfg.kDst);
      var source := RescheduleEvent(from, master);
      var target := RescheduleEvent(to, slave);
      st := st.(fwdSrc := source, fwdDst := target);
    }

    /** The slave is called with a request, and is free to answer anything. */
    method OutReq(id: nat) returns (a: Answer)
      modifies `calls
      ensures calls == old(calls) + [Call(id, a)]
    {
      a := SlaveAnswers();
      calls := calls + [Call(id, a)];
    }

    /** What is due, and no more, goes to the slave, which answers each request as it likes. */
    method FwdDstDoneHandler(slave: int) returns (ghost answers: seq<ReqStatus>, ghost more: seq<Call>)
      requires Valid()
      modifies this
      ensures Valid() && st == FwdDstDone(cfg, old(st), slave, answers)
      ensures calls == old(calls) + more && AreCalls(more, old(st).fwdDst.queue, answers)
      ensures |answers| == Due(old(st).fwdDst.queue, slave)
      ensures st.fwdDst.queue == old(st).fwdDst.queue[|answers|..]
    {
      answers, more := Deliver(slave);
      FwdDstKeeps(cfg, old(st), slave, answers);
      var delivery := RescheduleEvent(st.fwdDst.queue, slave);
      var answer := RescheduleEvent(st.revSrc.queue, slave);
      st := st.(fwdDst := delivery, revSrc := answer);
    }

    method Deliver(slave: int) returns (ghost answers: seq<ReqStatus>, ghost more: seq<Call>)
      modifies `st, `calls
      ensures st == DeliveredAll(cfg, old(st), slave, answers)
      ensures calls == old(calls) + more && AreCalls(more, old(st).fwdDst.queue, answers)
      ensures |answers| == Due(old(st).fwdDst.queue, slave)
      ensures st.fwdDst.queue == old(st).fwdDst.queue[|answers|..]
    {
      answers, more := [], [];
      while st.fwdDst.queue != [] && st.fwdDst.queue[0].deadline <= slave
        invariant st == DeliveredAll(cfg, old(st), slave, answers)
        invariant calls == old(calls) + more && AreCalls(more, old(st).fwdDst.queue, answers)
        invariant st.fwdDst.queue == old(st).fwdDst.queue[|answers|..]
        invariant |answers| + Due(st.fwdDst.queue, slave) == Due(old(st).fwdDst.queue, slave)
        decreases |st.fwdDst.queue|
      {
        var t := st.fwdDst.queue[0];
        var a := OutReq(t.id);
        assert (answers + [a.status])[..|answers|] == answers;
        answers, more := answers + [a.status], more + [Call(t.id, a)];
        DeliverOne(slave, a.status);
      }
    }

    method DeliverOne(slave: int, status: ReqStatus)
      requires st.fwdDst.queue != []
      modifies `st
      ensures st == Delivered(cfg, old(st), slave, status) && st.fwdDst.queue == old(st).fwdDst.queue[1..]
    {
      var t := st.fwdDst.queue[0];
      st := st.(fwdDst := st.fwdDst.(queue := st.fwdDst.queue[1..]), delivered := st.delivered + [t.id],
                answers := st.answers + [status]);
      match status {
        case Done =>
          var queue := EnqueueIn(st.revSrc.queue, t.id, slave + cfg.kSrc);
          st := st.(revSrc := st.revSrc.(queue := queue), returned := st.returned + [t.id]);
        case Granted => st := st.(held := st.held + multiset{t.id});
        case Denied => st := st.(lost := st.lost + multiset{t.id});
      }
    }

    method RevSrcDoneHandler(master: int, slave: int)
      requires Valid()
      modifies `st
      ensures Valid() && st == RevSrcDone(cfg, old(st), master, slave)
    {
      RevSrcKeeps(cfg, st, master, slave);
      var from, to := Advance(st.revSrc.queue, st.revDst.queue, slave, master + cfg.kDst);
      var source := RescheduleEvent(from, slave);
      var target := RescheduleEvent(to, master);
      st := st.(revSrc := source, revDst := target);
    }

    /** What is due is answered, and a retry that is owed is sent once there is room. */
    method RevDstDoneHandler(master: int)
      requires Valid()
      modifies `st
      ensures Valid() && st == RevDstDone(cfg, old(st), master)
    {
      RevDstKeeps(cfg, st, master);
      AnswerAll(master);
      if st.retryOwed {
        var inFlight := |st.fwdSrc.queue| + |st.fwdDst.queue| + |st.revSrc.queue| + |st.revDst.queue|;
        if inFlight < cfg.depth {
          st := st.(retryOwed := false, retries := st.retries + 1);
        }
      }
      var stage := RescheduleEvent(st.revDst.queue, master);
      st := st.(revDst := stage);
    }

    method AnswerAll(master: int)
      modifies `st
      ensures st == Answered(old(st), master)
    {
      while st.revDst.queue != [] && st.revDst.queue[0].deadline <= master
        invariant Answered(st, master) == Answered(old(st), master)
        decreases |st.revDst.queue|
      {
        var t := st.revDst.queue[0];
        st := st.(revDst := st.revDst.(queue := st.revDst.queue[1..]), responded := st.responded + [t.id]);
      }
    }
  }

  /**
    Refused requests are lost: with room for one, a second request is turned away, the first one is refused
    by the slave, and the master waits for a retry that no event will bring.
   */
  lemma RefusalStrands()
    ensures var cfg := Config(0, 0, 1);
            var s1 := Requested(cfg, Requested(cfg, INITIAL, 1, 0), 2, 0);
            var s := FwdDstDone(cfg, FwdSrcDone(cfg, s1, 1, 0), 1, [Denied]);
            && s.retryOwed && s.lost == multiset{1}
            && s.fwdSrc.armed.None? && s.fwdDst.armed.None? && s.revSrc.armed.None? && s.revDst.armed.None?
  {
    var cfg := Config(0, 0, 1);
    var s1 := Requested(cfg, Requested(cfg, INITIAL, 1, 0), 2, 0);
    var s2 := FwdSrcDone(cfg, s1, 1, 0);
    assert s1.fwdSrc.queue == [Txn(1, 0)] && s1.retryOwed;
    assert s2.fwdSrc.queue == [] && s2.fwdDst.queue == [Txn(1, 0)];
    assert [Denied][..0] == [];
    assert DeliveredAll(cfg, s2, 1, []) == s2;
    assert DeliveredAll(cfg, s2, 1, [Denied]) == Delivered(cfg, s2, 1, Denied);
  }

  /**
    With a slave that grants requests, the retry can come although as many were refused as the bridge takes: one
    request is held, a second one fills the bridge, a third one is turned away; the second one is refused, and
    the answer to the first one brings the retry.
   */
  lemma RetryAfterGrant()
    ensures var cfg := Config(0, 0, 1);
            var s1 := FwdDstDone(cfg, FwdSrcDone(cfg, Requested(cfg, INITIAL, 1, 0), 1, 0), 1, [Granted]);
            var s2 := Requested(cfg, Requested(cfg, s1, 2, 1), 3, 1);
            var s3 := FwdDstDone(cfg, FwdSrcDone(cfg, s2, 2, 1), 2, [Denied]);
            var s4 := RevDstDone(cfg, RevSrcDone(cfg, Returned(cfg, s3, 1, 2), 2, 3), 3);
            && s2.retryOwed && s2.lost == multiset{} && s2.retries == 0
            && s4.lost == multiset{2} && !s4.retryOwed && s4.retries == 1
  {
    var cfg := Config(0, 0, 1);
    var s1 := HoldsOne(cfg);
    var s2 := Requested(cfg, Requested(cfg, s1, 2, 1), 3, 1);
    var s := FwdSrcDone(cfg, s2, 2, 1);
    MoveSingle(2, 1, 2, 1);
    DeliverSingle(cfg, s, 2, Denied);
    Brings(cfg, FwdDstDone(cfg, s, 2, [Denied]));
  }

  lemma HoldsOne(cfg: Config) returns (s: State)
    requires cfg == Config(0, 0, 1)
    ensures s == FwdDstDone(cfg, FwdSrcDone(cfg, Requested(cfg, INITIAL, 1, 0), 1, 0), 1, [Granted])
    ensures InFlight(s) == 0 && s.fwdSrc.queue == s.fwdDst.queue == s.revSrc.queue == s.revDst.queue == []
    ensures s.held == multiset{1} && s.lost == multiset{} && s.retries == 0
  {
    var s0 := FwdSrcDone(cfg, Requested(cfg, INITIAL, 1, 0), 1, 0);
    MoveSingle(1, 0, 1, 0);
    DeliverSingle(cfg, s0, 1, Granted);
    s := FwdDstDone(cfg, s0, 1, [Granted]);
  }

  /** The answer to the request that is held brings the retry. */
  lemma Brings(cfg: Config, s: State)
    requires cfg == Config(0, 0, 1) && InFlight(s) == 0 && s.retryOwed
    requires s.fwdSrc.queue == s.fwdDst.queue == s.revSrc.queue == s.revDst.queue == []
    ensures var t := RevDstDone(cfg, RevSrcDone(cfg, Returned(cfg, s, 1, 2), 2, 3), 3);
            t.lost == s.lost && !t.retryOwed && t.retries == s.retries + 1
  {
    MoveSingle(1, 2, 3, 2);
    var s1 := RevSrcDone(cfg, Returned(cfg, s, 1, 2), 2, 3);
    assert Answered(AnsweredOne(s1), 3) == AnsweredOne(s1);
  }

  lemma MoveSingle(id: nat, deadline: int, now: int, target: int)
    requires deadline <= now
    ensures Moved(Queues([Txn(id, deadline)], []), now, target) == Queues([], [Txn(id, target)])
  {
    assert [Txn(id, deadline)][1..] == [];
    assert Enqueue([], id, target) == [Txn(id, target)];
    assert Moved(Queues([], [Txn(id, target)]), now, target) == Queues([], [Txn(id, target)]);
  }

  lemma DeliverSingle(cfg: Config, s: State, slave: int, a: ReqStatus)
    requires s.fwdDst.queue != [] && s.fwdDst.queue[0].deadline <= slave
    ensures DeliveredAll(cfg, s, slave, [a]) == Delivered(cfg, s, slave, a)
  {
    assert [a][..0] == [];
    assert DeliveredAll(cfg, s, slave, []) == s;
  }
}
