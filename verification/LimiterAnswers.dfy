/** What the master and the output of a limiter see of it in every run: retries, statuses, and no idle cycle. */
module LimiterAnswers {
  import opened Arith
  import opened IoV2
  import opened LimiterSpec
  import opened Retries

  // ---------------------------------------------------------------- retries

  /** What the master hears in one step: a request of its own is denied, or it is told to try again. */
  function HeardIn(s: State, e: Event, s': State): seq<Notice> {
    (if e.Req? && InTime(s, e.now) && s.pending.Some? then [Denial] else []) + Since(s.upstream, s'.upstream)
  }

  // As in Arith, a name and one step of the definition.

  function HeardFrom(s: State, events: seq<Event>, bw: pos): seq<Notice>
    requires Inv(s, bw)
    decreases |events|, 1
  {
    HeardStep(s, events, bw)
  }

  function HeardStep(s: State, events: seq<Event>, bw: pos): seq<Notice>
    requires Inv(s, bw)
    decreases |events|, 0
  {
    if events == [] then []
    else
      var s' := Step(s, events[0], bw);
      HeardIn(s, events[0], s') + HeardFrom(s', events[1..], bw)
  }

  /** Answers and retries since `s`: the retry comes last, and only if it is owed. */
  ghost predicate Paying(s: State, t: State) {
    |s.upstream| <= |t.upstream| && Pays(s.needsRetry, Since(s.upstream, t.upstream), t.needsRetry)
  }

  lemma PayHeard(s: State, t: State)
    requires Paying(s, t) && Since(s.upstream, t.upstream) == []
    ensures Paying(s, RetryPaid(t))
  {
    SinceMore(s.upstream, t.upstream, Retry);
  }

  lemma FinishHeard(s: State, t: State, i: nat, resp: RespStatus)
    requires Paying(s, t) && Since(s.upstream, t.upstream) == []
    requires i < |t.granted| && t.granted[i].parent < |t.parents|
    ensures Paying(s, Finished(t, i, resp))
  {
    var t1 := Settled(t, i, resp);
    SinceMore(s.upstream, t.upstream, Resp(t.granted[i].parent));
    PayHeard(s, t1);
  }

  /** A retry that is paid twice is paid once. */
  lemma RescheduleHeard(s: State, t: State)
    requires Paying(s, t)
    ensures Paying(s, Rescheduled(t))
  {
    if t.needsRetry && Since(s.upstream, t.upstream) == [] { PayHeard(s, t); }
  }

  lemma TakenHeard(s: State, t: State, a: Answer)
    requires Paying(s, t) && Since(s.upstream, t.upstream) == []
    requires |t.granted| > 0 && t.granted[|t.granted| - 1].parent < |t.parents|
    ensures Paying(s, Taken(t, a))
  {
    if a.status == Done { FinishHeard(s, t, |t.granted| - 1, a.resp); }
  }

  lemma TickHeard(s: State, a: Answer, bw: pos)
    requires Safe(s) && |s.parents| == |s.reqs|
    ensures Paying(s, Ticked(s, a, bw))
  {
    SinceNone(s.upstream);
    var s0 := s.(armed := None);
    if s.denied.None? && s.pending.Some? && s.pendingSize > 0 && s.nextTimestamp <= s.time {
      var e := Emitted(s0, bw);
      if a.status != Denied {
        TakenHeard(s, e, a);
        RescheduleHeard(s, Taken(e, a));
      }
    }
  }

  lemma RetryHeard(s: State, a: Answer)
    requires Safe(s)
    ensures Paying(s, Retried(s, a))
  {
    SinceNone(s.upstream);
    if s.denied.Some? && a.status != Denied { TakenHeard(s, Resent(s), a); }
  }

  lemma StepHeard(s: State, e: Event, bw: pos)
    requires Inv(s, bw)
    ensures var s' := Step(s, e, bw); Heard(s.needsRetry, HeardIn(s, e, s'), s'.needsRetry)
  {
    SinceNone(s.upstream);
    match e
    case Req(req, now) =>
    case Tick(a) => if s.armed.Some? { TickHeard(s.(time := s.armed.value), a, bw); }
    case Respond(i, resp) => if i < |s.granted| { FinishHeard(s, s, i, resp); }
    case RetryIn(now, a) => if InTime(s, now) { RetryHeard(s.(time := now), a); }
  }

  lemma {:induction false} HeardRun(s: State, heard: seq<Notice>, events: seq<Event>, bw: pos)
    requires Inv(s, bw) && NoneIdle(heard) && Owes(heard) == s.needsRetry
    ensures var all := heard + HeardFrom(s, events, bw); NoneIdle(all) && Owes(all) == RunFrom(s, events, bw).needsRetry
    decreases |events|
  {
    if events == [] {
      assert HeardFrom(s, [], bw) == HeardStep(s, [], bw);
      assert heard + [] == heard;
    } else {
      var s', more, rest := HeardNext(s, events, bw);
      HeardOn(heard, more, s.needsRetry, s'.needsRetry);
      HeardRun(s', heard + more, events[1..], bw);
      HeardTogether(heard, more, rest);
    }
  }

  lemma HeardNext(s: State, events: seq<Event>, bw: pos) returns (s': State, more: seq<Notice>, rest: seq<Notice>)
    requires Inv(s, bw) && events != []
    ensures Inv(s', bw) && RunFrom(s, events, bw) == RunFrom(s', events[1..], bw)
    ensures Heard(s.needsRetry, more, s'.needsRetry)
    ensures rest == HeardFrom(s', events[1..], bw) && HeardFrom(s, events, bw) == more + rest
  {
    s' := Step(s, events[0], bw);
    more, rest := HeardIn(s, events[0], s'), HeardFrom(s', events[1..], bw);
    StepHeard(s, events[0], bw);
    assert HeardFrom(s, events, bw) == HeardStep(s, events, bw);
  }

  /** What the master hears in a run. */
  function HeardBy(events: seq<Event>, bw: pos): seq<Notice> {
    InitialInv(bw);
    HeardFrom(INITIAL, events, bw)
  }

  /**
    In every run a master is told to try again only after it was denied a request, once; and once there is nothing
    in emission, refused or at the output, it has been told so after every denial.
   */
  lemma DeniedAreWoken(events: seq<Event>, bw: pos, i: nat)
    ensures var s, heard := Run(events, bw), HeardBy(events, bw);
            && NoneIdle(heard)
            && (s.needsRetry <==> Owes(heard))
            && (s.pending.None? && s.denied.None? && s.granted == [] && i < |heard| && heard[i] == Denial ==>
                  exists j :: i < j < |heard| && heard[j] == Wake)
  {
    var s, heard := Run(events, bw), HeardBy(events, bw);
    InitialInv(bw);
    HeardRun(INITIAL, [], events, bw);
    assert [] + heard == heard;
    if s.pending.None? && s.denied.None? && s.granted == [] && i < |heard| && heard[i] == Denial { AllWoken(heard, i); }
  }

  // ---------------------------------------------------------------- statuses

  /** What the output says in one step of a chunk that it completes. */
  function SaidIn(s: State, e: Event, s': State): seq<Settle> {
    match e
    case Req(_, _) => []
    case Tick(a) =>
      if |s'.emitted| > |s.emitted| && a.status == Done then [Settle(s'.emitted[|s'.emitted| - 1].sub, a.resp)] else []
    case Respond(i, resp) => if i < |s.granted| then [Settle(s.granted[i], resp)] else []
    case RetryIn(now, a) =>
      if InTime(s, now) && s.denied.Some? && a.status == Done then [Settle(s.denied.value, a.resp)] else []
  }

  // As in Arith, a name and one step of the definition.

  function SaidFrom(s: State, events: seq<Event>, bw: pos): seq<Settle>
    requires Inv(s, bw)
    decreases |events|, 1
  {
    SaidStep(s, events, bw)
  }

  function SaidStep(s: State, events: seq<Event>, bw: pos): seq<Settle>
    requires Inv(s, bw)
    decreases |events|, 0
  {
    if events == [] then []
    else
      var s' := Step(s, events[0], bw);
      SaidIn(s, events[0], s') + SaidFrom(s', events[1..], bw)
  }

  lemma TickSaid(s: State, a: Answer, bw: pos)
    requires Safe(s) && |s.parents| == |s.reqs|
    ensures var s' := Ticked(s, a, bw);
            && |s'.emitted| >= |s.emitted|
            && s'.settled == s.settled + SaidIn(s, Tick(a), s')
  {
    var s0 := s.(armed := None);
    if s.denied.None? && s.pending.Some? && s.pendingSize > 0 && s.nextTimestamp <= s.time {
      var e := Emitted(s0, bw);
      assert e.granted[|e.granted| - 1] == e.emitted[|e.emitted| - 1].sub;
    }
  }

  lemma StepSaid(s: State, e: Event, bw: pos)
    requires Inv(s, bw)
    ensures var s' := Step(s, e, bw); s'.settled == s.settled + SaidIn(s, e, s')
  {
    ApplyKeeps(s, e, bw);
    match e
    case Req(req, now) => RequestSaid(s, req, now);
    case Tick(a) => TickApplied(s, a, bw);
    case Respond(i, resp) => RespondSaid(s, i, resp);
    case RetryIn(now, a) => if InTime(s, now) { RetrySaid(s.(time := now), a); }
  }

  lemma RequestSaid(s: State, req: Request, now: int)
    ensures (if InTime(s, now) then Requested(s.(time := now), req) else s).settled == s.settled
  {}

  lemma RespondSaid(s: State, i: nat, resp: RespStatus)
    requires Safe(s)
    ensures (if i < |s.granted| then Finished(s, i, resp) else s).settled ==
            s.settled + (if i < |s.granted| then [Settle(s.granted[i], resp)] else [])
  {}

  lemma TickApplied(s: State, a: Answer, bw: pos)
    requires Safe(s) && |s.parents| == |s.reqs|
    ensures var s' := if s.armed.Some? then Ticked(s.(time := s.armed.value), a, bw) else s;
            s'.settled == s.settled + SaidIn(s, Tick(a), s')
  {
    if s.armed.Some? { TickSaid(s.(time := s.armed.value), a, bw); }
  }

  lemma RetrySaid(s: State, a: Answer)
    requires Safe(s)
    ensures Retried(s, a).settled ==
            s.settled + (if s.denied.Some? && a.status == Done then [Settle(s.denied.value, a.resp)] else [])
  {}

  lemma SaidNext(s: State, events: seq<Event>, bw: pos) returns (s': State, more: seq<Settle>, rest: seq<Settle>)
    requires Inv(s, bw) && events != []
    ensures Inv(s', bw) && RunFrom(s, events, bw) == RunFrom(s', events[1..], bw)
    ensures s'.settled == s.settled + more
    ensures rest == SaidFrom(s', events[1..], bw) && SaidFrom(s, events, bw) == more + rest
  {
    s' := Step(s, events[0], bw);
    more, rest := SaidIn(s, events[0], s'), SaidFrom(s', events[1..], bw);
    StepSaid(s, events[0], bw);
    assert SaidFrom(s, events, bw) == SaidStep(s, events, bw);
  }

  lemma SaidTogether(a: seq<Settle>, b: seq<Settle>, c: seq<Settle>)
    ensures a + b + c == a + (b + c)
  {}

  lemma {:induction false} SaidRun(s: State, events: seq<Event>, bw: pos)
    requires Inv(s, bw)
    ensures RunFrom(s, events, bw).settled == s.settled + SaidFrom(s, events, bw)
    decreases |events|
  {
    if events == [] {
      assert SaidFrom(s, [], bw) == SaidStep(s, [], bw);
      assert s.settled + [] == s.settled;
    } else {
      var s', more, rest := SaidNext(s, events, bw);
      SaidRun(s', events[1..], bw);
      SaidTogether(s.settled, more, rest);
    }
  }

  /** What the output says in a run of the chunks that it completes. */
  function SaidBy(events: seq<Event>, bw: pos): seq<Settle> {
    InitialInv(bw);
    SaidFrom(INITIAL, events, bw)
  }

  lemma {:induction false} WorstMeans(said: seq<Settle>, k: nat)
    ensures WorstOf(said, k) == Invalid <==>
            exists i :: 0 <= i < |said| && said[i].sub.parent == k && said[i].resp == Invalid
  {
    if said != [] {
      var n := |said| - 1;
      WorstMeans(said[..n], k);
      if i :| 0 <= i < n && said[..n][i].sub.parent == k && said[..n][i].resp == Invalid {
        assert said[i].sub.parent == k && said[i].resp == Invalid;
      }
      if i :| 0 <= i < n && said[i].sub.parent == k && said[i].resp == Invalid {
        assert said[..n][i].sub.parent == k && said[..n][i].resp == Invalid;
      }
    }
  }

  /** In every run a request has status INVALID exactly if the output has said so of one of its chunks. */
  lemma StatusIsWorst(events: seq<Event>, bw: pos, k: nat)
    ensures var s, said := Run(events, bw), SaidBy(events, bw);
            k < |s.reqs| ==>
              && k < |s.parents|
              && (s.parents[k].status == Invalid <==>
                    exists i :: 0 <= i < |said| && said[i].sub.parent == k && said[i].resp == Invalid)
  {
    var s := Run(events, bw);
    InitialInv(bw);
    SaidRun(INITIAL, events, bw);
    assert [] + SaidBy(events, bw) == SaidBy(events, bw);
    WorstMeans(s.settled, k);
    if k < |s.reqs| { assert Accounted(s, k); }
  }

  // ---------------------------------------------------------------- no idle cycle

  /** The emission event is never further away than the next cycle, and never before the next chunk may go. */
  predicate Brisk(s: State) {
    s.nextTimestamp <= s.time + 1 && (s.armed.Some? ==> s.nextTimestamp <= s.armed.value <= s.time + 1)
  }

  lemma StepBrisk(s: State, e: Event, bw: pos)
    requires Inv(s, bw) && Brisk(s)
    ensures Brisk(Step(s, e, bw))
  {
    match e
    case Req(req, now) =>
    case Tick(a) => if s.armed.Some? { TickBrisk(s.(time := s.armed.value), a, bw); }
    case Respond(i, resp) =>
    case RetryIn(now, a) => if InTime(s, now) { RetryBrisk(s.(time := now), a); }
  }

  lemma TakenClock(s: State, a: Answer)
    requires |s.granted| > 0 && s.granted[|s.granted| - 1].parent < |s.parents|
    ensures var t := Taken(s, a); t.time == s.time && t.nextTimestamp == s.nextTimestamp && t.armed == s.armed
  {}

  lemma RescheduleBrisk(s: State)
    requires s.nextTimestamp <= s.time + 1 && s.armed.None?
    ensures Brisk(Rescheduled(s))
  {}

  lemma TickBrisk(s: State, a: Answer, bw: pos)
    requires Safe(s) && |s.parents| == |s.reqs| && s.nextTimestamp <= s.time + 1
    ensures Brisk(Ticked(s, a, bw))
  {
    if s.denied.None? && s.pending.Some? && s.pendingSize > 0 && s.nextTimestamp <= s.time {
      var e := Emitted(s.(armed := None), bw);
      if a.status != Denied {
        TakenClock(e, a);
        RescheduleBrisk(Taken(e, a));
      }
    }
  }

  lemma WakeBrisk(s: State)
    requires s.nextTimestamp <= s.time + 1 && (s.armed.Some? ==> s.nextTimestamp <= s.armed.value <= s.time + 1)
    ensures Brisk(Woken(s))
  {}

  lemma RetryBrisk(s: State, a: Answer)
    requires Safe(s) && Brisk(s)
    ensures Brisk(Retried(s, a))
  {
    if s.denied.Some? && a.status != Denied {
      TakenClock(Resent(s), a);
      WakeBrisk(Taken(Resent(s), a));
    }
  }

  lemma {:induction false} RunBrisk(s: State, events: seq<Event>, bw: pos)
    requires Inv(s, bw) && Brisk(s)
    ensures Brisk(RunFrom(s, events, bw))
    decreases |events|
  {
    if events != [] {
      StepBrisk(s, events[0], bw);
      RunBrisk(Step(s, events[0], bw), events[1..], bw);
    }
  }

  /**
    No cycle is left idle: in every run, with bytes left to emit and no chunk refused, the next chunk is offered when
    the event fires, which is in the cycle after the last callback at the latest.
   */
  lemma NextCycle(events: seq<Event>, bw: pos, a: Answer)
    ensures var s := Run(events, bw);
            s.pending.Some? && s.pendingSize > 0 && s.denied.None? ==>
              && s.armed.Some? && s.time <= s.armed.value <= s.time + 1
              && var t := Step(s, Tick(a), bw);
                 |t.emitted| == |s.emitted| + 1 && t.emitted[|s.emitted|].cycle == s.armed.value
  {
    InitialInv(bw);
    RunBrisk(INITIAL, events, bw);
    var s := Run(events, bw);
    if s.pending.Some? && s.pendingSize > 0 && s.denied.None? { TickEmits(s.(time := s.armed.value), a, bw); }
  }

  lemma TickEmits(s: State, a: Answer, bw: pos)
    requires Safe(s) && |s.parents| == |s.reqs| && s.nextTimestamp <= s.time
    requires s.pending.Some? && s.pendingSize > 0 && s.denied.None?
    ensures var t := Ticked(s, a, bw); |t.emitted| == |s.emitted| + 1 && t.emitted[|s.emitted|].cycle == s.time
  {}
}
