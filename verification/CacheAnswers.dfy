/** What the master and the refill port of a cache hear from each other in every run: denials and retries. */
module CacheAnswers {
  import opened Bytes
  import opened IoV2
  import opened CacheLines
  import opened CacheCore
  import opened CacheSpec
  import opened Retries

  // ---------------------------------------------------------------- retries

  /** A request of the master is denied. */
  function DenialIn(cfg: Config, s: State, e: Event): seq<Notice>
    requires Safe(cfg, s)
  {
    match e
    case Input(req, now, a) =>
      if (s.enabled ==> InLine(cfg, req)) && Entered(cfg, s, req, now, a).status == Denied then [Denial] else []
    case _ => []
  }

  /** What the master hears in one step. */
  function HeardIn(cfg: Config, s: State, e: Event): seq<Notice>
    requires Safe(cfg, s)
  {
    DenialIn(cfg, s, e) + Since(s.upstream, Applied(cfg, s, e).upstream)
  }

  /** What passes between the cache and its refill port in one step: the port denies a request, or sends a retry. */
  function PortIn(cfg: Config, s: State, e: Event): (more: seq<Notice>)
    requires Safe(cfg, s)
    ensures |more| <= 1
  {
    match e
    case Input(_, _, a) =>
      if a.status == Denied && (!s.enabled || Calls(s, Applied(cfg, s, e))) then [Denial] else []
    case Drain(_, a) => if a.status == Denied && Calls(s, Applied(cfg, s, e)) then [Denial] else []
    case RetryIn => [Wake]
    case _ => []
  }

  /** A refill has been asked for. */
  predicate Calls(s: State, s': State) {
    |s'.core.refills| > |s.core.refills|
  }

  function HeardBy(cfg: Config, events: seq<Event>): seq<Notice>
    requires cfg.lineBits <= WORD_BITS
  {
    if events == [] then []
    else
      var n := |events| - 1;
      InvSafe(cfg, Run(cfg, events[..n]));
      HeardBy(cfg, events[..n]) + HeardIn(cfg, Run(cfg, events[..n]), events[n])
  }

  function PortHeard(cfg: Config, events: seq<Event>): seq<Notice>
    requires cfg.lineBits <= WORD_BITS
  {
    if events == [] then []
    else
      var n := |events| - 1;
      InvSafe(cfg, Run(cfg, events[..n]));
      PortHeard(cfg, events[..n]) + PortIn(cfg, Run(cfg, events[..n]), events[n])
  }

  /** Nothing but answers to requests goes upstream, and what is owed stays so. */
  ghost predicate Silent(s: State, s': State) {
    && s'.needsRetry == s.needsRetry
    && (s'.upstream == s.upstream || exists id :: s'.upstream == s.upstream + [Resp(id)])
  }

  lemma SilentHears(s: State, s': State)
    requires Silent(s, s')
    ensures Since(s.upstream, s'.upstream) == [] && Pays(s.needsRetry, [], s'.needsRetry)
  {
    SinceNone(s.upstream);
    if s'.upstream != s.upstream {
      var id :| s'.upstream == s.upstream + [Resp(id)];
      SinceMore(s.upstream, s.upstream, Resp(id));
    }
  }

  /** A request that is denied leaves a debt, and no other does. */
  lemma EnteredTells(cfg: Config, s: State, req: Access, now: int, a: Reply)
    requires Safe(cfg, s) && (s.enabled ==> InLine(cfg, req))
    ensures var o := Entered(cfg, s, req, now, a);
            o.st.upstream == s.upstream && o.st.needsRetry == (s.needsRetry || o.status == Denied)
  {
    if !s.enabled {
      BypassedTells(s, req, a);
    } else if s.refill.Some? || s.retryPending {
      PostponedTells(s, req);
    } else {
      AdmittedTells(s, req, Serve(cfg, s.core, req, now, a));
    }
  }

  lemma BypassedTells(s: State, req: Access, a: Reply)
    ensures var o := Bypassed(s, req, a);
            o.st.upstream == s.upstream && o.st.needsRetry == (s.needsRetry || o.status == Denied)
    ensures var s' := Bypassed(s, req, a).st; s'.owed == (s.owed || a.status == Denied)
  {}

  lemma PostponedTells(s: State, req: Access)
    ensures var s' := Checked(Postponed(s, req));
            s'.upstream == s.upstream && s'.needsRetry == s.needsRetry && s'.owed == s.owed && s'.core == s.core
  {}

  lemma AdmittedTells(s: State, req: Access, v: Service)
    ensures var s' := Admitted(s, req, v);
            s'.upstream == s.upstream && s'.needsRetry == (s.needsRetry || v.status == Denied)
  {}

  lemma InputHeard(cfg: Config, s: State, e: Event)
    requires Safe(cfg, s) && e.Input?
    ensures Heard(s.needsRetry, HeardIn(cfg, s, e), Applied(cfg, s, e).needsRetry)
  {
    SinceNone(s.upstream);
    if s.enabled ==> InLine(cfg, e.req) { EnteredTells(cfg, s, e.req, e.now, e.a); }
  }

  lemma ResumedSilent(s: State, v: Service)
    requires s.queue != []
    ensures Silent(s, Checked(Resumed(s, v)))
  {}

  lemma DrainedSilent(cfg: Config, s: State, now: int, a: Reply)
    requires Safe(cfg, s)
    ensures Silent(s, Drained(cfg, s, now, a))
  {
    if s.refill.None? && !s.retryPending && s.queue != [] {
      ResumedSilent(s, Serve(cfg, s.core, s.queue[0], now, a));
    }
  }

  lemma AnsweredSilent(s: State, core: Core)
    requires s.queue != []
    ensures Silent(s, Checked(Answered(s, core)))
  {}

  lemma RefilledSilent(cfg: Config, s: State, bytes: seq<byte>)
    requires Safe(cfg, s) && s.refill.Some? && |bytes| == LineSize(cfg)
    ensures Refilling(cfg, s) && Silent(s, Refilled(cfg, s, bytes))
  {
    var r := s.refill.value;
    var t := s.core.lines[r.set_][r.way].timestamp;
    AnsweredSilent(s, Supplied(cfg, s.core, s.queue[0], r.way, t, bytes));
  }

  lemma ServiceHeard(cfg: Config, s: State, e: Event)
    requires Safe(cfg, s) && (e.Drain? || e.RefillDone?)
    ensures Silent(s, Applied(cfg, s, e))
  {
    if e.Drain? && s.armed {
      DrainedSilent(cfg, s, e.now, e.a);
    } else if e.RefillDone? && s.refill.Some? && |e.bytes| == LineSize(cfg) {
      RefilledSilent(cfg, s, e.bytes);
    }
  }

  lemma RetriedHeard(s: State)
    ensures var s' := Retried(s);
            Pays(s.needsRetry, Since(s.upstream, s'.upstream), s'.needsRetry) && !s'.needsRetry && !s'.owed
  {
    SinceNone(s.upstream);
    SinceMore(s.upstream, s.upstream, Retry);
  }

  lemma RetryHeard(cfg: Config, s: State, e: Event)
    requires Safe(cfg, s) && e.RetryIn?
    ensures Heard(s.needsRetry, HeardIn(cfg, s, e), Applied(cfg, s, e).needsRetry)
  {
    RetriedHeard(s);
  }

  lemma ForwardSilent(s: State, i: nat)
    requires i < |s.bypassed|
    ensures Silent(s, Forwarded(s, i)) && Forwarded(s, i).owed == s.owed
  {}

  lemma BeatSilent(cfg: Config, s: State, bytes: seq<byte>)
    requires Safe(cfg, s) && s.refill.Some? && |bytes| == LineSize(cfg)
    ensures Refilling(cfg, s) && Silent(s, Buffered(cfg, s, bytes)) && Buffered(cfg, s, bytes).owed == s.owed
  {}

  lemma PortSilent(cfg: Config, s: State, e: Event)
    requires Safe(cfg, s) && (e.BypassDone? || e.Beat?)
    ensures Silent(s, Applied(cfg, s, e)) && Applied(cfg, s, e).owed == s.owed
  {
    if e.BypassDone? && e.i < |s.bypassed| {
      ForwardSilent(s, e.i);
    } else if e.Beat? && s.refill.Some? && |e.bytes| == LineSize(cfg) {
      BeatSilent(cfg, s, e.bytes);
    }
  }

  lemma SideBandSilent(cfg: Config, s: State, e: Event)
    requires Safe(cfg, s) && (e.Enable? || e.FlushAll? || e.SetFlushAddr? || e.FlushLine?)
    ensures Silent(s, Applied(cfg, s, e)) && Applied(cfg, s, e).owed == s.owed
  {}

  lemma StepHeard(cfg: Config, s: State, e: Event)
    requires Safe(cfg, s)
    ensures Heard(s.needsRetry, HeardIn(cfg, s, e), Applied(cfg, s, e).needsRetry)
  {
    if e.Input? {
      InputHeard(cfg, s, e);
    } else if e.RetryIn? {
      RetryHeard(cfg, s, e);
    } else {
      if e.Drain? || e.RefillDone? {
        ServiceHeard(cfg, s, e);
      } else if e.BypassDone? || e.Beat? {
        PortSilent(cfg, s, e);
      } else {
        SideBandSilent(cfg, s, e);
      }
      SilentHears(s, Applied(cfg, s, e));
    }
  }

  // ---------------------------------------------------------------- what the refill port owes

  lemma ServedOwes(cfg: Config, s: State, req: Access, now: int, a: Reply)
    requires Safe(cfg, s) && s.refill.None? && InLine(cfg, req)
    ensures var v := Serve(cfg, s.core, req, now, a);
            v.status == Denied <==> a.status == Denied && |v.core.refills| > |s.core.refills|
  {
  }

  lemma AdmittedOwes(s: State, req: Access, v: Service)
    ensures Admitted(s, req, v).owed == (s.owed || v.status == Denied) && Admitted(s, req, v).core == v.core
  {}

  lemma EnteredOwes(cfg: Config, s: State, req: Access, now: int, a: Reply)
    requires Safe(cfg, s) && (s.enabled ==> InLine(cfg, req))
    ensures var s' := Entered(cfg, s, req, now, a).st;
            s'.owed == (s.owed || (a.status == Denied && (!s.enabled || Calls(s, s'))))
  {
    if !s.enabled {
      BypassedTells(s, req, a);
    } else if s.refill.Some? || s.retryPending {
      PostponedTells(s, req);
    } else {
      ServedOwes(cfg, s, req, now, a);
      AdmittedOwes(s, req, Serve(cfg, s.core, req, now, a));
    }
  }

  lemma ResumedOwes(s: State, v: Service)
    requires s.queue != []
    ensures var s' := Checked(Resumed(s, v)); s'.owed == (s.owed || v.status == Denied) && s'.core == v.core
  {}

  lemma DrainedOwes(cfg: Config, s: State, now: int, a: Reply)
    requires Safe(cfg, s)
    ensures var s' := Drained(cfg, s, now, a); s'.owed == (s.owed || (a.status == Denied && Calls(s, s')))
  {
    if s.refill.None? && !s.retryPending && s.queue != [] {
      ServedOwes(cfg, s, s.queue[0], now, a);
      ResumedOwes(s, Serve(cfg, s.core, s.queue[0], now, a));
    }
  }

  lemma RefilledOwes(cfg: Config, s: State, bytes: seq<byte>)
    requires Safe(cfg, s) && s.refill.Some? && |bytes| == LineSize(cfg)
    ensures Refilling(cfg, s) && Refilled(cfg, s, bytes).owed == s.owed
  {}

  /** What is owed by the port: a retry, if it has denied a request and has not sent one since. */
  predicate OwedNow(owed: bool, more: seq<Notice>, owed': bool) {
    owed' == if more == [] then owed else more == [Denial]
  }

  lemma InputOwes(cfg: Config, s: State, e: Event)
    requires Safe(cfg, s) && e.Input? && (s.enabled ==> InLine(cfg, e.req))
    ensures OwedNow(s.owed, PortIn(cfg, s, e), Applied(cfg, s, e).owed)
  {
    EnteredOwes(cfg, s, e.req, e.now, e.a);
  }

  lemma ServiceOwes(cfg: Config, s: State, e: Event)
    requires Safe(cfg, s) && (e.Drain? || e.RefillDone?)
    ensures OwedNow(s.owed, PortIn(cfg, s, e), Applied(cfg, s, e).owed)
  {
    if e.Drain? && s.armed {
      DrainedOwes(cfg, s, e.now, e.a);
    } else if e.RefillDone? && s.refill.Some? && |e.bytes| == LineSize(cfg) {
      RefilledOwes(cfg, s, e.bytes);
    }
  }

  lemma RetryOwes(cfg: Config, s: State, e: Event)
    requires Safe(cfg, s) && e.RetryIn?
    ensures OwedNow(s.owed, PortIn(cfg, s, e), Applied(cfg, s, e).owed)
  {
    RetriedHeard(s);
  }

  lemma StepOwes(cfg: Config, s: State, e: Event)
    requires Safe(cfg, s)
    ensures OwedNow(s.owed, PortIn(cfg, s, e), Applied(cfg, s, e).owed)
  {
    if e.Input? {
      if s.enabled ==> InLine(cfg, e.req) { InputOwes(cfg, s, e); }
    } else if e.Drain? || e.RefillDone? {
      ServiceOwes(cfg, s, e);
    } else if e.RetryIn? {
      RetryOwes(cfg, s, e);
    } else if e.BypassDone? || e.Beat? {
      PortSilent(cfg, s, e);
    } else {
      SideBandSilent(cfg, s, e);
    }
  }

  lemma OwedOn(heard: seq<Notice>, more: seq<Notice>, owed: bool, owed': bool)
    requires Owes(heard) == owed && OwedNow(owed, more, owed') && |more| <= 1
    ensures Owes(heard + more) == owed'
  {
    assert heard + [] == heard;
  }

  /** What is owed to the master, and by the port, is what they have heard. */
  ghost predicate Told(heard: seq<Notice>, port: seq<Notice>, needsRetry: bool, owed: bool) {
    NoneIdle(heard) && Owes(heard) == needsRetry && Owes(port) == owed
  }

  lemma ToldOn(heard: seq<Notice>, port: seq<Notice>, s: State, s': State, more: seq<Notice>, morePort: seq<Notice>)
    requires Told(heard, port, s.needsRetry, s.owed) && Heard(s.needsRetry, more, s'.needsRetry)
    requires OwedNow(s.owed, morePort, s'.owed) && |morePort| <= 1
    ensures Told(heard + more, port + morePort, s'.needsRetry, s'.owed)
  {
    HeardOn(heard, more, s.needsRetry, s'.needsRetry);
    OwedOn(port, morePort, s.owed, s'.owed);
  }

  lemma StepTold(cfg: Config, s: State, e: Event, heard: seq<Notice>, port: seq<Notice>)
    requires Safe(cfg, s) && Told(heard, port, s.needsRetry, s.owed)
    ensures var s' := Applied(cfg, s, e);
            Told(heard + HeardIn(cfg, s, e), port + PortIn(cfg, s, e), s'.needsRetry, s'.owed)
  {
    StepHeard(cfg, s, e);
    StepOwes(cfg, s, e);
    ToldOn(heard, port, s, Applied(cfg, s, e), HeardIn(cfg, s, e), PortIn(cfg, s, e));
  }

  lemma {:induction false} RunTold(cfg: Config, events: seq<Event>)
    requires cfg.lineBits <= WORD_BITS
    ensures Told(HeardBy(cfg, events), PortHeard(cfg, events), Run(cfg, events).needsRetry, Run(cfg, events).owed)
  {
    if events == [] {
      RunEmpty(cfg);
    } else {
      var n := |events| - 1;
      var s, e := RunLast(cfg, events);
      RunTold(cfg, events[..n]);
      StepTold(cfg, s, e, HeardBy(cfg, events[..n]), PortHeard(cfg, events[..n]));
    }
  }

  /**
    In every run the master is told to try again only after it was denied a request, once; and once the refill port has
    sent a retry for what it has denied, the master has been told so after every denial, and what waits in the queue
    waits for a refill or is about to be looked up.
   */
  lemma DeniedAreWoken(cfg: Config, events: seq<Event>, i: nat)
    requires cfg.lineBits <= WORD_BITS
    ensures var s, heard, port := Run(cfg, events), HeardBy(cfg, events), PortHeard(cfg, events);
            && NoneIdle(heard) && (s.needsRetry <==> Owes(heard))
            && (!Owes(port) ==>
                  && (i < |heard| && heard[i] == Denial ==> exists j :: i < j < |heard| && heard[j] == Wake)
                  && (s.queue != [] ==> s.refill.Some? || s.armed))
  {
    var heard := HeardBy(cfg, events);
    RunTold(cfg, events);
    if !Owes(PortHeard(cfg, events)) && i < |heard| && heard[i] == Denial { AllWoken(heard, i); }
  }
}
