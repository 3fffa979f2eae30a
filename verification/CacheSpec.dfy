/** What the cache keeps, what its callbacks do to it, and what every run preserves. */
module CacheSpec {
  import opened Bits
  import opened Bytes
  import opened IoV2
  import opened CacheLines
  import opened CacheCore

  datatype State = State(
    core: Core, enabled: bool, flushAddr: nat,
    queue: seq<Access>, refill: Option<Refill>, retryPending: bool, needsRetry: bool, armed: bool,
    // history: requests acknowledged, bypassed ones in flight, upstream calls, and whether the refill
    // port owes a retry
    granted: seq<nat>, bypassed: seq<nat>, upstream: seq<Upstream>, owed: bool)

  datatype Outcome = Outcome(st: State, status: ReqStatus, latency: int, bytes: seq<byte>)

  function Initial(cfg: Config): State {
    var line := Line(NO_TAG, seq<byte>(LineSize(cfg), k => 0), -1);
    State(Core(seq(Sets(cfg), i => seq(cfg.ways, j => line)), 0, -1, [], []), false, 0, [], None, false, false, false,
          [], [], [], false)
  }

  // ---------------------------------------------------------------- steps

  /** What looking a request up does to the rest of the cache: one that waits for a refill heads the queue. */
  function Handled(s: State, req: Access, v: Service): State {
    match v.status
    case Done => s.(core := v.core)
    case Granted => s.(core := v.core, queue := [req] + s.queue, refill := v.refill)
    case Denied => s.(core := v.core, retryPending := true, owed := true)
  }

  /** With nothing in the way and requests in the queue, the drain event is scheduled. */
  function Checked(s: State): State {
    if s.refill.None? && !s.retryPending && s.queue != [] then s.(armed := true) else s
  }

  /** A request arrives while the cache is disabled: it is passed on. */
  function Bypassed(s: State, req: Access, a: Reply): Outcome {
    match a.status
    case Done => Outcome(s, Done, a.latency, [])
    case Granted => Outcome(s.(bypassed := s.bypassed + [req.id], granted := s.granted + [req.id]), Granted, 0, [])
    case Denied => Outcome(s.(needsRetry := true, owed := true), Denied, 0, [])
  }

  /** A request arrives while a refill is pending or refused. */
  function Postponed(s: State, req: Access): State {
    s.(queue := s.queue + [req], granted := s.granted + [req.id])
  }

  /** A request arrives and is looked up. */
  function Admitted(s: State, req: Access, v: Service): State {
    var s1 := Handled(s, req, v);
    match v.status
    case Done => s1
    case Granted => s1.(granted := s.granted + [req.id])
    case Denied => s1.(needsRetry := true)
  }

  /** A request arrives at the input. */
  function Entered(cfg: Config, s: State, req: Access, now: int, a: Reply): Outcome
    requires Shaped(cfg, s.core.lines) && (s.enabled ==> InLine(cfg, req))
  {
    if !s.enabled then Bypassed(s, req, a)
    else if s.refill.Some? || s.retryPending then Outcome(Checked(Postponed(s, req)), Granted, 0, [])
    else
      var v := Serve(cfg, s.core, req, now, a);
      Outcome(Admitted(s, req, v), v.status, v.latency, v.bytes)
  }

  /** The head of the queue is looked up again. */
  function Resumed(s: State, v: Service): State
    requires s.queue != []
  {
    var req := s.queue[0];
    var s1 := Handled(s.(queue := s.queue[1..], armed := false), req, v);
    match v.status
    case Done => s1.(upstream := s.upstream + [Resp(req.id)])
    case Granted => s1
    case Denied => s1.(queue := [req] + s1.queue)
  }

  /** The drain event fires. */
  function Drained(cfg: Config, s: State, now: int, a: Reply): State
    requires Shaped(cfg, s.core.lines) && (forall k :: 0 <= k < |s.queue| ==> InLine(cfg, s.queue[k]))
  {
    if s.refill.None? && !s.retryPending && s.queue != []
      then Checked(Resumed(s, Serve(cfg, s.core, s.queue[0], now, a)))
    else Checked(s.(armed := false))
  }

  /** The event is no longer scheduled while the queue is drained. */
  lemma DrainCases(cfg: Config, s: State, now: int, a: Reply)
    requires Shaped(cfg, s.core.lines) && (forall k :: 0 <= k < |s.queue| ==> InLine(cfg, s.queue[k]))
    ensures var s0 := s.(armed := false);
            Drained(cfg, s, now, a) ==
            if s.refill.None? && !s.retryPending && s.queue != []
            then Checked(Resumed(s0, Serve(cfg, s0.core, s0.queue[0], now, a))) else Checked(s0)
  {
    if s.queue != [] { ResumeDisarmed(s, Serve(cfg, s.core, s.queue[0], now, a)); }
  }

  lemma ResumeDisarmed(s: State, v: Service)
    requires s.queue != []
    ensures Resumed(s.(armed := false), v) == Resumed(s, v)
  {}

  ghost predicate Refilling(cfg: Config, s: State) {
    && Shaped(cfg, s.core.lines) && s.refill.Some? && s.refill.value.way < cfg.ways && s.queue != []
    && InLine(cfg, s.queue[0])
    && s.refill.value.tag == TagOf(cfg, s.queue[0].addr) && s.refill.value.set_ == SetOf(cfg, s.refill.value.tag)
    && s.refill.value.offset == OffsetOf(cfg, s.queue[0].addr)
  }

  /** The refill port writes into the buffer of the victim. */
  function Buffered(cfg: Config, s: State, bytes: seq<byte>): State
    requires Refilling(cfg, s)
  {
    var r := s.refill.value;
    s.(core := s.core.(lines := Put(s.core.lines, r.set_, r.way, s.core.lines[r.set_][r.way].(bytes := bytes))))
  }

  /** The request that waited for the refill is answered. */
  function Answered(s: State, core: Core): State
    requires s.queue != []
  {
    s.(core := core, queue := s.queue[1..], refill := None, upstream := s.upstream + [Resp(s.queue[0].id)])
  }

  /** The refill is complete: the victim carries its new tag, and the request that missed is served from it. */
  function Refilled(cfg: Config, s: State, bytes: seq<byte>): State
    requires Refilling(cfg, s) && |bytes| == LineSize(cfg)
  {
    var r := s.refill.value;
    Checked(Answered(s, Supplied(cfg, s.core, s.queue[0], r.way, s.core.lines[r.set_][r.way].timestamp, bytes)))
  }

  /** The refill port can accept requests again. */
  function Retried(s: State): State {
    var s1 := s.(retryPending := false, owed := false);
    Checked(if s.needsRetry then s1.(needsRetry := false, upstream := s.upstream + [Retry]) else s1)
  }

  /** A bypassed request completes. */
  function Forwarded(s: State, i: nat): State
    requires i < |s.bypassed|
  {
    s.(bypassed := s.bypassed[..i] + s.bypassed[i + 1..], upstream := s.upstream + [Resp(s.bypassed[i])])
  }

  function Cleared(ways: seq<Line>): (r: seq<Line>)
    ensures |r| == |ways| && forall j :: 0 <= j < |r| ==> r[j] == ways[j].(tag := NO_TAG)
  {
    seq(|ways|, j requires 0 <= j < |ways| => ways[j].(tag := NO_TAG))
  }

  function ClearedOf(ways: seq<Line>, tag: nat): (r: seq<Line>)
    ensures |r| == |ways| && forall j :: 0 <= j < |r| ==>
            r[j] == if ways[j].tag == tag then ways[j].(tag := NO_TAG) else ways[j]
  {
    seq(|ways|, j requires 0 <= j < |ways| => if ways[j].tag == tag then ways[j].(tag := NO_TAG) else ways[j])
  }

  function Flushed(lines: seq<seq<Line>>): (r: seq<seq<Line>>)
    ensures |r| == |lines| && forall i :: 0 <= i < |r| ==> r[i] == Cleared(lines[i])
  {
    seq(|lines|, i requires 0 <= i < |lines| => Cleared(lines[i]))
  }

  function WithLines(s: State, lines: seq<seq<Line>>): State {
    s.(core := s.core.(lines := lines))
  }

  /** The lines once the one that holds 32-bit address `addr` is invalidated. */
  function LineFlushed(cfg: Config, lines: seq<seq<Line>>, addr: nat): seq<seq<Line>>
    requires Shaped(cfg, lines)
  {
    var tag := Shr(addr, cfg.lineBits);
    lines[SetOf(cfg, tag) := ClearedOf(lines[SetOf(cfg, tag)], tag)]
  }

  // ---------------------------------------------------------------- the invariant

  function Ids(queue: seq<Access>): seq<nat> {
    if queue == [] then [] else [queue[0].id] + Ids(queue[1..])
  }

  function Replies(upstream: seq<Upstream>): seq<nat> {
    if upstream == [] then []
    else
      var last := upstream[|upstream| - 1];
      Replies(upstream[..|upstream| - 1]) + (if last.Resp? then [last.id] else [])
  }

  /** Each acknowledged request has been answered, or is queued, or is in flight past the cache: one of these, once. */
  ghost predicate Balanced(s: State) {
    multiset(s.granted) == multiset(Replies(s.upstream)) + multiset(Ids(s.queue)) + multiset(s.bypassed)
  }

  /** While a refill is in flight, the head of the queue is the request that missed. */
  ghost predicate Queued(cfg: Config, s: State) {
    && (forall k :: 0 <= k < |s.queue| ==> InLine(cfg, s.queue[k]))
    && (s.refill.Some? ==>
          && s.queue != []
          && s.refill.value.tag == TagOf(cfg, s.queue[0].addr)
          && s.refill.value.offset == OffsetOf(cfg, s.queue[0].addr))
  }

  /** No lost wake-up: the queue is drained, or waits for a refill or a retry that is owed; so does a refused master. */
  ghost predicate Awake(s: State) {
    && (s.queue != [] ==> s.refill.Some? || s.retryPending || s.armed)
    && (s.retryPending || s.needsRetry ==> s.owed)
  }

  ghost predicate Inv(cfg: Config, s: State) {
    Sound(cfg, s.core, s.refill) && Queued(cfg, s) && Balanced(s) && Awake(s)
  }

  lemma InitialInv(cfg: Config)
    requires cfg.lineBits <= WORD_BITS
    ensures Inv(cfg, Initial(cfg))
  {}

  // ---------------------------------------------------------------- the books

  lemma RepliesAppend(upstream: seq<Upstream>, u: Upstream)
    ensures Replies(upstream + [u]) == Replies(upstream) + (if u.Resp? then [u.id] else [])
  {
    assert (upstream + [u])[..|upstream|] == upstream;
  }

  lemma {:induction false} IdsAppend(queue: seq<Access>, req: Access)
    ensures Ids(queue + [req]) == Ids(queue) + [req.id]
  {
    if queue != [] {
      IdsAppend(queue[1..], req);
      assert (queue + [req])[1..] == queue[1..] + [req];
    }
  }

  lemma IdsPush(queue: seq<Access>, req: Access)
    ensures Ids([req] + queue) == [req.id] + Ids(queue)
  {
    assert ([req] + queue)[1..] == queue;
  }

  lemma IdsPop(queue: seq<Access>)
    requires queue != []
    ensures multiset(Ids(queue)) == multiset{queue[0].id} + multiset(Ids(queue[1..]))
  {}

  /** The head of the queue is answered. */
  lemma AnswerHead(s: State, s': State)
    requires Balanced(s) && s.queue != []
    requires s'.granted == s.granted && s'.bypassed == s.bypassed && s'.queue == s.queue[1..]
    requires s'.upstream == s.upstream + [Resp(s.queue[0].id)]
    ensures Balanced(s')
  {
    IdsPop(s.queue);
    RepliesAppend(s.upstream, Resp(s.queue[0].id));
  }

  lemma GrantBack(s: State, s': State, req: Access)
    requires Balanced(s)
    requires s'.granted == s.granted + [req.id] && s'.bypassed == s.bypassed && s'.upstream == s.upstream
    requires s'.queue == s.queue + [req] || s'.queue == [req] + s.queue
    ensures Balanced(s')
  {
    IdsAppend(s.queue, req);
    IdsPush(s.queue, req);
  }

  lemma RetryBooks(s: State, s': State)
    requires Balanced(s) && s'.granted == s.granted && s'.bypassed == s.bypassed && s'.queue == s.queue
    requires s'.upstream == s.upstream || s'.upstream == s.upstream + [Retry]
    ensures Balanced(s')
  {
    RepliesAppend(s.upstream, Retry);
  }

  lemma ForwardBooks(s: State, i: nat)
    requires Balanced(s) && i < |s.bypassed|
    ensures Balanced(Forwarded(s, i))
  {
    RepliesAppend(s.upstream, Resp(s.bypassed[i]));
    assert s.bypassed == s.bypassed[..i] + [s.bypassed[i]] + s.bypassed[i + 1..];
  }

  // ---------------------------------------------------------------- the callbacks

  lemma CheckKeeps(cfg: Config, s: State)
    requires Sound(cfg, s.core, s.refill) && Queued(cfg, s) && Balanced(s)
             && (s.retryPending || s.needsRetry ==> s.owed)
    ensures Inv(cfg, Checked(s))
  {}

  lemma BypassKeeps(cfg: Config, s: State, req: Access, a: Reply)
    requires Inv(cfg, s)
    ensures Inv(cfg, Bypassed(s, req, a).st)
  {
    if a.status == Granted { BypassBooks(s, Bypassed(s, req, a).st, req.id); }
  }

  lemma BypassBooks(s: State, s': State, id: nat)
    requires Balanced(s)
    requires s'.granted == s.granted + [id] && s'.bypassed == s.bypassed + [id] && s'.upstream == s.upstream
             && s'.queue == s.queue
    ensures Balanced(s')
  {}

  lemma PostponeKeeps(cfg: Config, s: State, req: Access)
    requires Inv(cfg, s) && InLine(cfg, req) && (s.refill.Some? || s.retryPending)
    ensures Checked(Postponed(s, req)) == Postponed(s, req) && Inv(cfg, Postponed(s, req))
  {
    GrantBack(s, Postponed(s, req), req);
  }

  lemma AdmitKeeps(cfg: Config, s: State, req: Access, v: Service)
    requires Inv(cfg, s) && s.refill.None? && InLine(cfg, req) && Served(cfg, s.core, req, v)
    ensures Inv(cfg, Admitted(s, req, v))
  {
    if v.status == Granted { GrantBack(s, Admitted(s, req, v), req); }
  }

  lemma EnterKeeps(cfg: Config, s: State, req: Access, now: int, a: Reply)
    requires Inv(cfg, s) && (s.enabled ==> InLine(cfg, req))
    ensures Inv(cfg, Entered(cfg, s, req, now, a).st)
  {
    if !s.enabled {
      BypassKeeps(cfg, s, req, a);
    } else if s.refill.Some? || s.retryPending {
      PostponeKeeps(cfg, s, req);
    } else {
      ServeKeeps(cfg, s.core, req, now, a);
      AdmitKeeps(cfg, s, req, Serve(cfg, s.core, req, now, a));
    }
  }

  /** The head of the queue is answered, or the queue stays what it was. */
  lemma ResumeQueue(s: State, v: Service)
    requires s.refill.None? && s.queue != []
    ensures Resumed(s, v).queue == if v.status == Done then s.queue[1..] else s.queue
  {
    assert [s.queue[0]] + s.queue[1..] == s.queue;
  }

  lemma ResumeBooks(s: State, v: Service)
    requires Balanced(s) && s.refill.None? && s.queue != []
    ensures Balanced(Resumed(s, v))
  {
    ResumeQueue(s, v);
    if v.status == Done { AnswerHead(s, Resumed(s, v)); } else { RetryBooks(s, Resumed(s, v)); }
  }

  lemma ResumeWaits(cfg: Config, s: State, v: Service)
    requires Queued(cfg, s) && s.refill.None? && s.queue != [] && Served(cfg, s.core, s.queue[0], v)
    requires s.retryPending || s.needsRetry ==> s.owed
    ensures var s' := Resumed(s, v);
            Sound(cfg, s'.core, s'.refill) && Queued(cfg, s') && (s'.retryPending || s'.needsRetry ==> s'.owed)
  {
    ResumeQueue(s, v);
  }

  lemma ResumeKeeps(cfg: Config, s: State, v: Service)
    requires Inv(cfg, s) && s.refill.None? && s.queue != [] && Served(cfg, s.core, s.queue[0], v)
    ensures Inv(cfg, Checked(Resumed(s, v)))
  {
    ResumeWaits(cfg, s, v);
    ResumeBooks(s, v);
    CheckKeeps(cfg, Resumed(s, v));
  }

  lemma DrainKeeps(cfg: Config, s: State, now: int, a: Reply)
    requires Inv(cfg, s)
    ensures Inv(cfg, Drained(cfg, s, now, a))
  {
    if s.refill.None? && !s.retryPending && s.queue != [] {
      ServeKeeps(cfg, s.core, s.queue[0], now, a);
      ResumeKeeps(cfg, s, Serve(cfg, s.core, s.queue[0], now, a));
    } else {
      CheckKeeps(cfg, s.(armed := false));
    }
  }

  lemma AnswerKeeps(cfg: Config, s: State, core: Core)
    requires Inv(cfg, s) && s.refill.Some? && Sound(cfg, core, None)
    ensures Inv(cfg, Checked(Answered(s, core)))
  {
    AnswerHead(s, Answered(s, core));
    CheckKeeps(cfg, Answered(s, core));
  }

  lemma RefillKeeps(cfg: Config, s: State, bytes: seq<byte>)
    requires Inv(cfg, s) && s.refill.Some? && |bytes| == LineSize(cfg)
    ensures Refilling(cfg, s) && Inv(cfg, Refilled(cfg, s, bytes))
  {
    var r := s.refill.value;
    var t := s.core.lines[r.set_][r.way].timestamp;
    SupplyKeeps(cfg, s.core, s.refill, s.queue[0], r.way, t, bytes);
    AnswerKeeps(cfg, s, Supplied(cfg, s.core, s.queue[0], r.way, t, bytes));
  }

  lemma BufferKeeps(cfg: Config, s: State, bytes: seq<byte>)
    requires Inv(cfg, s) && s.refill.Some? && |bytes| == LineSize(cfg)
    ensures Refilling(cfg, s) && Inv(cfg, Buffered(cfg, s, bytes))
  {
    BeatKeeps(cfg, s.core.lines, s.core.log, s.refill.value, bytes);
    CoreKeeps(cfg, s, Buffered(cfg, s, bytes).core);
  }

  lemma CoreKeeps(cfg: Config, s: State, core: Core)
    requires Inv(cfg, s) && Sound(cfg, core, s.refill)
    ensures Inv(cfg, s.(core := core))
  {}

  lemma RetryKeeps(cfg: Config, s: State)
    requires Inv(cfg, s)
    ensures Inv(cfg, Retried(s))
  {
    var s1 := s.(retryPending := false, owed := false);
    var s2 := if s.needsRetry then s1.(needsRetry := false, upstream := s.upstream + [Retry]) else s1;
    RetryBooks(s, s2);
    CheckKeeps(cfg, s2);
  }

  lemma ForwardKeeps(cfg: Config, s: State, i: nat)
    requires Inv(cfg, s) && i < |s.bypassed|
    ensures Inv(cfg, Forwarded(s, i))
  {
    ForwardBooks(s, i);
  }

  lemma FlushKeeps(cfg: Config, s: State)
    requires Inv(cfg, s)
    ensures Inv(cfg, WithLines(s, Flushed(s.core.lines)))
  {
    InvalidateKeeps(cfg, s.core.lines, Flushed(s.core.lines), s.core.log, s.refill);
    CoreKeeps(cfg, s, WithLines(s, Flushed(s.core.lines)).core);
  }

  lemma LineFlushKeeps(cfg: Config, s: State, addr: nat)
    requires Inv(cfg, s)
    ensures Inv(cfg, WithLines(s, LineFlushed(cfg, s.core.lines, addr)))
  {
    var lines := LineFlushed(cfg, s.core.lines, addr);
    InvalidateKeeps(cfg, s.core.lines, lines, s.core.log, s.refill);
    CoreKeeps(cfg, s, WithLines(s, lines).core);
  }

  lemma SideBandKeeps(cfg: Config, s: State, enabled: bool, addr: nat)
    requires Inv(cfg, s)
    ensures Inv(cfg, s.(enabled := enabled, flushAddr := addr))
  {}

  // ---------------------------------------------------------------- whole runs

  /** What can happen to a cache: `a` is the refill port's answer, `bytes` what it writes into the lent buffer. */
  datatype Event =
    | Input(req: Access, now: int, a: Reply)
    | Drain(now: int, a: Reply)
    | Beat(bytes: seq<byte>)
    | RefillDone(bytes: seq<byte>)
    | RetryIn
    | BypassDone(i: nat)
    | Enable(on: bool)
    | FlushAll
    | SetFlushAddr(addr: nat)
    | FlushLine

  /** What the callbacks rely on. */
  ghost predicate Safe(cfg: Config, s: State) {
    && Shaped(cfg, s.core.lines) && (forall k :: 0 <= k < |s.queue| ==> InLine(cfg, s.queue[k]))
    && (s.refill.Some? ==> Refilling(cfg, s))
  }

  /** One event; one that the cache's surroundings cannot cause in this state does not occur. */
  function Applied(cfg: Config, s: State, e: Event): State
    requires Safe(cfg, s)
  {
    match e
    case Input(req, now, a) => if s.enabled && !InLine(cfg, req) then s else Entered(cfg, s, req, now, a).st
    case Drain(now, a) => if s.armed then Drained(cfg, s, now, a) else s
    case Beat(bytes) => if s.refill.Some? && |bytes| == LineSize(cfg) then Buffered(cfg, s, bytes) else s
    case RefillDone(bytes) => if s.refill.Some? && |bytes| == LineSize(cfg) then Refilled(cfg, s, bytes) else s
    case RetryIn => Retried(s)
    case BypassDone(i) => if i < |s.bypassed| then Forwarded(s, i) else s
    case Enable(on) => s.(enabled := on)
    case FlushAll => WithLines(s, Flushed(s.core.lines))
    case SetFlushAddr(addr) => s.(flushAddr := addr)
    case FlushLine => WithLines(s, LineFlushed(cfg, s.core.lines, s.flushAddr))
  }

  lemma InvSafe(cfg: Config, s: State)
    requires Inv(cfg, s)
    ensures Safe(cfg, s)
  {}

  lemma RequestsKeep(cfg: Config, s: State, e: Event)
    requires Inv(cfg, s) && Safe(cfg, s) && (e.Input? || e.Drain?)
    ensures Inv(cfg, Applied(cfg, s, e))
  {
    if e.Drain? {
      DrainKeeps(cfg, s, e.now, e.a);
    } else if s.enabled ==> InLine(cfg, e.req) {
      EnterKeeps(cfg, s, e.req, e.now, e.a);
    }
  }

  lemma BeatsKeep(cfg: Config, s: State, e: Event)
    requires Inv(cfg, s) && Safe(cfg, s) && (e.Beat? || e.RefillDone?)
    ensures Inv(cfg, Applied(cfg, s, e))
  {
    if s.refill.Some? && |e.bytes| == LineSize(cfg) {
      if e.Beat? { BufferKeeps(cfg, s, e.bytes); } else { RefillKeeps(cfg, s, e.bytes); }
    }
  }

  lemma SameInv(cfg: Config, s: State, t: State)
    requires Inv(cfg, s) && t == s
    ensures Inv(cfg, t)
  {}

  lemma RetryApplied(cfg: Config, s: State)
    requires Safe(cfg, s)
    ensures Applied(cfg, s, RetryIn) == Retried(s)
  {}

  lemma RetriesKeep(cfg: Config, s: State, e: Event)
    requires Inv(cfg, s) && Safe(cfg, s) && e == RetryIn
    ensures Inv(cfg, Applied(cfg, s, e))
  {
    RetryKeeps(cfg, s);
    RetryApplied(cfg, s);
    SameInv(cfg, Retried(s), Applied(cfg, s, e));
  }

  lemma ForwardsKeep(cfg: Config, s: State, e: Event)
    requires Inv(cfg, s) && Safe(cfg, s) && e.BypassDone?
    ensures Inv(cfg, Applied(cfg, s, e))
  {
    if e.i < |s.bypassed| {
      ForwardKeeps(cfg, s, e.i);
      assert Applied(cfg, s, e) == Forwarded(s, e.i);
    }
  }

  lemma FlushesKeep(cfg: Config, s: State, e: Event)
    requires Inv(cfg, s) && Safe(cfg, s) && (e.FlushAll? || e.FlushLine?)
    ensures Inv(cfg, Applied(cfg, s, e))
  {
    if e.FlushAll? { FlushKeeps(cfg, s); } else { LineFlushKeeps(cfg, s, s.flushAddr); }
  }

  lemma WiresKeep(cfg: Config, s: State, e: Event)
    requires Inv(cfg, s) && Safe(cfg, s) && (e.Enable? || e.SetFlushAddr?)
    ensures Inv(cfg, Applied(cfg, s, e))
  {
    if e.Enable? { SideBandKeeps(cfg, s, e.on, s.flushAddr); } else { SideBandKeeps(cfg, s, s.enabled, e.addr); }
  }

  lemma ApplyKeeps(cfg: Config, s: State, e: Event)
    requires Inv(cfg, s)
    ensures Safe(cfg, s) && Inv(cfg, Applied(cfg, s, e))
  {
    InvSafe(cfg, s);
    if e.Input? || e.Drain? {
      RequestsKeep(cfg, s, e);
    } else if e.Beat? || e.RefillDone? {
      BeatsKeep(cfg, s, e);
    } else if e.RetryIn? {
      RetriesKeep(cfg, s, e);
    } else if e.BypassDone? {
      ForwardsKeep(cfg, s, e);
    } else if e.FlushAll? || e.FlushLine? {
      FlushesKeep(cfg, s, e);
    } else {
      WiresKeep(cfg, s, e);
    }
  }

  function Step(cfg: Config, s: State, e: Event): (s': State)
    requires Inv(cfg, s)
    ensures Inv(cfg, s')
  {
    ApplyKeeps(cfg, s, e);
    Applied(cfg, s, e)
  }

  function Run(cfg: Config, events: seq<Event>): (s: State)
    requires cfg.lineBits <= WORD_BITS
    ensures Inv(cfg, s)
    decreases |events|, 1
  {
    RunStep(cfg, events)
  }

  // As in Arith, a name and one step of the definition.
  function RunStep(cfg: Config, events: seq<Event>): (s: State)
    requires cfg.lineBits <= WORD_BITS
    ensures Inv(cfg, s)
    decreases |events|, 0
  {
    if events == [] then InitialInv(cfg); Initial(cfg)
    else Step(cfg, Run(cfg, events[..|events| - 1]), events[|events| - 1])
  }

  lemma RunEmpty(cfg: Config)
    requires cfg.lineBits <= WORD_BITS
    ensures Run(cfg, []) == Initial(cfg)
  {
    assert Run(cfg, []) == RunStep(cfg, []);
  }

  lemma RunLast(cfg: Config, events: seq<Event>) returns (s: State, e: Event)
    requires cfg.lineBits <= WORD_BITS && events != []
    ensures s == Run(cfg, events[..|events| - 1]) && e == events[|events| - 1]
    ensures Safe(cfg, s) && Run(cfg, events) == Applied(cfg, s, e)
  {
    s, e := Run(cfg, events[..|events| - 1]), events[|events| - 1];
    assert Run(cfg, events) == RunStep(cfg, events);
    InvSafe(cfg, s);
  }

  /**
    A byte that a read returned is the one last written to its line since the line was filled, and the one that the
    last fill brought if the line was not written to.
   */
  ghost predicate ReadRight(log: seq<Entry>, k: nat, b: nat) {
    k < |log| && log[k].Returned? && b < |log[k].bytes| ==>
      var tag, i, before := log[k].tag, log[k].at + b, log[..k];
      && Value(before, tag, i) == Some(log[k].bytes[b])
      && (Unwritten(before, tag) ==>
            LastFill(before, tag).Some? && i < |LastFill(before, tag).value|
            && log[k].bytes[b] == LastFill(before, tag).value[i])
  }

  lemma TruthfulReads(log: seq<Entry>, k: nat, b: nat)
    requires Truthful(log)
    ensures ReadRight(log, k, b)
  {
    if k < |log| && log[k].Returned? && b < |log[k].bytes| {
      TruthfulAt(log, k, b);
      if Unwritten(log[..k], log[k].tag) { UnwrittenIsFill(log[..k], log[k].tag, log[k].at + b); }
    }
  }

  /** A request is answered at most as often as it was acknowledged; if less often, it is still queued or in flight. */
  ghost predicate AnsweredOnce(s: State, id: nat) {
    var answers, promised := multiset(Replies(s.upstream))[id], multiset(s.granted)[id];
    answers <= promised && (answers < promised ==> id in Ids(s.queue) || id in s.bypassed)
  }

  lemma BalancedAnswers(s: State, id: nat)
    requires Balanced(s)
    ensures AnsweredOnce(s, id)
  {}

  /**
    Any run, whatever the core asks and however the refill port answers: reads agree with what the last fill of
    their line brought and the writes since, acknowledged requests are answered once, a set holds no tag twice and
    the queue is never left asleep.
   */
  lemma AnyRun(cfg: Config, events: seq<Event>, k: nat, b: nat, id: nat)
    requires cfg.lineBits <= WORD_BITS
    ensures var s := Run(cfg, events);
            ReadRight(s.core.log, k, b) && AnsweredOnce(s, id) && Placed(cfg, s.core.lines) && Awake(s)
  {
    var s := Run(cfg, events);
    TruthfulReads(s.core.log, k, b);
    BalancedAnswers(s, id);
  }
}
