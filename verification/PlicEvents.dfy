/**
  The interrupt controller told by its history alone: which sources a context has pending, at which priority, and
  which of them a claim hands out (RISC-V PLIC specification, chapters "Interrupt Priorities", "Interrupt Claim
  Process" and "Interrupt Completion"), from the lines, register writes and claims so far.
 */
module PlicEvents {
  import opened IoV2
  import opened Bits
  import opened PlicSpec

  // ---------------------------------------------------------------- what was last written

  /** The level of a line: the last one it was set to. */
  function Line(cfg: Config, events: seq<Event>, id: nat): bool {
    if events == [] then false
    else
      var n := |events| - 1;
      if events[n].Irq? && events[n].id == id && id < cfg.numIds then events[n].active else Line(cfg, events[..n], id)
  }

  /** A priority register: what was last written to it, as far as it has bits. */
  function Register(cfg: Config, events: seq<Event>, id: nat): nat {
    if events == [] then 0
    else
      var n := |events| - 1;
      if events[n].Priority? && events[n].id == id && 0 < id < cfg.numIds then Low(events[n].val, cfg.prioBits)
      else Register(cfg, events[..n], id)
  }

  /** A threshold register. */
  function ThresholdOf(cfg: Config, events: seq<Event>, k: nat): nat {
    if events == [] then 0
    else
      var n := |events| - 1;
      if events[n].Threshold? && events[n].k == k && k < cfg.contexts then Low(events[n].val, cfg.prioBits)
      else ThresholdOf(cfg, events[..n], k)
  }

  /** A write to the enable word of source `id` in context `k`. */
  predicate Switches(cfg: Config, e: Event, k: nat, id: nat) {
    e.Enable? && e.k == k && k < cfg.contexts && e.word < cfg.words && 32 * e.word <= id < 32 * e.word + 32
  }

  predicate On(e: Event, id: nat)
    requires e.Enable? && 32 * e.word <= id
  {
    id != 0 && Bit(e.val, id - 32 * e.word)
  }

  /** An enable bit: what was last written to it; that of id 0 is always off. */
  function Enabled(cfg: Config, events: seq<Event>, k: nat, id: nat): bool {
    if events == [] then false
    else
      var n := |events| - 1;
      if Switches(cfg, events[n], k, id) then On(events[n], id) else Enabled(cfg, events[..n], k, id)
  }

  /** Context `k` is the first that has source `id` enabled. */
  ghost predicate First(cfg: Config, events: seq<Event>, k: nat, id: nat) {
    k < cfg.contexts && Enabled(cfg, events, k, id) && forall j :: 0 <= j < k ==> !Enabled(cfg, events, j, id)
  }

  // ---------------------------------------------------------------- pending, claimed, next

  /** A context takes note of a line only if it is the first that has it enabled. */
  predicate Notes(cfg: Config, e: Event, first: bool, id: nat) {
    e.Irq? && e.id == id && id < cfg.numIds && first
  }

  /** What an event makes of a source's priority in context `k`; `None` if the source is not pending. */
  function NextLatch(cfg: Config, e: Event, k: nat, id: nat, line: bool, register: nat, enabled: bool, first: bool,
                     was: Option<nat>): Option<nat> {
    if Notes(cfg, e, first, id) then (if e.active then Some(register) else None)
    else if Switches(cfg, e, k, id) then
      (if !On(e, id) then None else if !enabled && line then Some(register) else was)
    else was
  }

  /**
    The priority that a source is pending with in context `k`: the value of its priority register when it was last
    made pending there, by its line or by an enable write; `None` if it is not pending.
   */
  ghost function Latched(cfg: Config, events: seq<Event>, k: nat, id: nat): Option<nat> {
    if events == [] then None
    else
      var n := |events| - 1;
      var before := events[..n];
      NextLatch(cfg, events[n], k, id, Line(cfg, before, id), Register(cfg, before, id), Enabled(cfg, before, k, id),
                First(cfg, before, k, id), Latched(cfg, before, k, id))
  }

  /** What an event makes of a source's claim in context `k`; `next` says whether a claim would return it. */
  function NextTaken(cfg: Config, e: Event, k: nat, id: nat, enabled: bool, first: bool, next: bool, was: bool): bool {
    if e == Claim(k) && next then true
    else if e == Complete(k, id) && enabled && id < cfg.numIds then false
    else if Notes(cfg, e, first, id) && !e.active then false
    else if Switches(cfg, e, k, id) && !On(e, id) then false
    else was
  }

  /** Context `k` has claimed a source: not completed since, dropped or disabled there. */
  ghost predicate Taken(cfg: Config, events: seq<Event>, k: nat, id: nat)
    decreases |events|, 0
  {
    events != [] &&
    (var n := |events| - 1;
     var before := events[..n];
     NextTaken(cfg, events[n], k, id, Enabled(cfg, before, k, id), First(cfg, before, k, id),
               IsNext(cfg, before, k, id), Taken(cfg, before, k, id)))
  }

  /** A source may be claimed. */
  ghost predicate Awaits(cfg: Config, events: seq<Event>, k: nat, id: nat)
    decreases |events|, 1
  {
    Latched(cfg, events, k, id).Some? && !Taken(cfg, events, k, id)
  }

  /** Of the sources that may be claimed it has the highest priority, and of these the lowest id. */
  ghost predicate IsNext(cfg: Config, events: seq<Event>, k: nat, id: nat)
    decreases |events|, 2
  {
    Awaits(cfg, events, k, id) &&
    forall other: nat :: Awaits(cfg, events, k, other) && other != id ==>
      Ahead(Latched(cfg, events, k, id).value, id, Latched(cfg, events, k, other).value, other)
  }

  predicate Ahead(prio: nat, id: nat, prio': nat, id': nat) {
    prio > prio' || (prio == prio' && id < id')
  }

  // ---------------------------------------------------------------- the controller follows its history

  ghost function SourceOf(cfg: Config, events: seq<Event>, k: nat, id: nat): Source {
    var latch := Latched(cfg, events, k, id);
    Source(latch.Some?, if latch.Some? then latch.value else 0, Taken(cfg, events, k, id))
  }

  /** One source in one context, and its line and register. */
  ghost predicate Follows(cfg: Config, events: seq<Event>, s: State, k: nat, id: nat) {
    && k < |s.contexts| && id < |s.contexts[k].enable| && id < |s.contexts[k].sources|
    && s.contexts[k].enable[id] == Enabled(cfg, events, k, id)
    && s.contexts[k].sources[id] == SourceOf(cfg, events, k, id)
  }

  ghost predicate InputsFollow(cfg: Config, events: seq<Event>, s: State, id: nat) {
    id < |s.level| && id < |s.priority| && s.level[id] == Line(cfg, events, id)
    && s.priority[id] == Register(cfg, events, id)
  }

  ghost predicate Determined(cfg: Config, events: seq<Event>, s: State) {
    && |s.contexts| == cfg.contexts
    && (forall k :: 0 <= k < cfg.contexts ==> s.contexts[k].threshold == ThresholdOf(cfg, events, k))
    && (forall id :: 0 <= id < 32 * cfg.words ==> InputsFollow(cfg, events, s, id))
    && (forall k, id :: 0 <= k < cfg.contexts && 0 <= id < 32 * cfg.words ==> Follows(cfg, events, s, k, id))
  }

  lemma {:induction false} Beyond(cfg: Config, events: seq<Event>, k: nat, id: nat)
    requires k >= cfg.contexts || id >= 32 * cfg.words
    ensures !Enabled(cfg, events, k, id) && (ValidConfig(cfg) ==> Latched(cfg, events, k, id).None?)
  {
    if events != [] { Beyond(cfg, events[..|events| - 1], k, id); }
  }

  lemma FirstIs(cfg: Config, events: seq<Event>, s: State, k: nat, id: nat)
    requires Shaped(cfg, s) && Determined(cfg, events, s) && id < 32 * cfg.words && k < cfg.contexts
    ensures First(cfg, events, k, id) <==> FirstEnabled(s.contexts, id, 0) == Some(k)
  {
    forall j | 0 <= j < cfg.contexts ensures s.contexts[j].enable[id] == Enabled(cfg, events, j, id) {
      assert Follows(cfg, events, s, j, id);
    }
  }

  /** The scan of the controller finds what a claim returns by the history. */
  lemma BestIsNext(cfg: Config, events: seq<Event>, s: State, k: nat, id: nat)
    requires Inv(cfg, s) && Determined(cfg, events, s) && k < cfg.contexts
    ensures IsNext(cfg, events, k, id) <==> id != 0 && Best(s.contexts[k], cfg.numIds) == id
    ensures Best(s.contexts[k], cfg.numIds) == 0 <==> forall other: nat :: !Awaits(cfg, events, k, other)
  {
    var c := s.contexts[k];
    var b := Best(c, cfg.numIds);
    assert ContextOk(cfg, c, s.wires[k], s.log, k);
    BestIsFirst(c, cfg.numIds);
    forall other: nat
      ensures Awaits(cfg, events, k, other) <==> other < cfg.numIds && Candidate(c, other)
      ensures other < cfg.numIds && Candidate(c, other) ==>
              Latched(cfg, events, k, other) == Some(c.sources[other].prio)
    {
      CandidateAwaits(cfg, events, s, k, other);
    }
    if b != 0 {
      BestIsAhead(cfg, events, c, k, b);
    }
  }

  lemma BestIsAhead(cfg: Config, events: seq<Event>, c: Context, k: nat, b: nat)
    requires cfg.numIds <= |c.sources| && b < cfg.numIds && Candidate(c, b)
    requires forall other: nat :: Awaits(cfg, events, k, other) <==> other < cfg.numIds && Candidate(c, other)
    requires forall other: nat :: other < cfg.numIds && Candidate(c, other) ==>
               Latched(cfg, events, k, other) == Some(c.sources[other].prio)
    requires forall id :: 0 <= id < cfg.numIds && Candidate(c, id) && id != b ==> Before(c, b, id)
    ensures Awaits(cfg, events, k, b)
    ensures forall id: nat :: IsNext(cfg, events, k, id) <==> id == b
  {
    assert Awaits(cfg, events, k, b);
    forall other: nat | Awaits(cfg, events, k, other) && other != b
      ensures Ahead(Latched(cfg, events, k, b).value, b, Latched(cfg, events, k, other).value, other)
    {
      assert Before(c, b, other);
    }
    assert IsNext(cfg, events, k, b);
  }

  // ---------------------------------------------------------------- one more event

  lemma LatchUnfold(cfg: Config, events: seq<Event>, e: Event, k: nat, id: nat)
    ensures Latched(cfg, events + [e], k, id) ==
            NextLatch(cfg, e, k, id, Line(cfg, events, id), Register(cfg, events, id), Enabled(cfg, events, k, id),
                      First(cfg, events, k, id), Latched(cfg, events, k, id))
    ensures Enabled(cfg, events + [e], k, id) ==
            if Switches(cfg, e, k, id) then On(e, id) else Enabled(cfg, events, k, id)
  {
    assert (events + [e])[..|events|] == events;
  }

  lemma TakenUnfold(cfg: Config, events: seq<Event>, e: Event, k: nat, id: nat)
    ensures Taken(cfg, events + [e], k, id) ==
            NextTaken(cfg, e, k, id, Enabled(cfg, events, k, id), First(cfg, events, k, id),
                      IsNext(cfg, events, k, id), Taken(cfg, events, k, id))
  {
    assert (events + [e])[..|events|] == events;
  }

  lemma InputsUnfold(cfg: Config, events: seq<Event>, e: Event, id: nat)
    ensures Line(cfg, events + [e], id) ==
            if e.Irq? && e.id == id && id < cfg.numIds then e.active else Line(cfg, events, id)
    ensures Register(cfg, events + [e], id) ==
            if e.Priority? && e.id == id && 0 < id < cfg.numIds then Low(e.val, cfg.prioBits)
            else Register(cfg, events, id)
  {
    assert (events + [e])[..|events|] == events;
  }

  /** What the history so far says of one source in one context. */
  datatype Past = Past(line: bool, register: nat, enabled: bool, first: bool, next: bool, latch: Option<nat>,
                       taken: bool)

  ghost function PastOf(cfg: Config, events: seq<Event>, k: nat, id: nat): Past {
    Past(Line(cfg, events, id), Register(cfg, events, id), Enabled(cfg, events, k, id), First(cfg, events, k, id),
         IsNext(cfg, events, k, id), Latched(cfg, events, k, id), Taken(cfg, events, k, id))
  }

  function Noted(latch: Option<nat>, taken: bool): Source {
    Source(latch.Some?, if latch.Some? then latch.value else 0, taken)
  }

  /** The state knows what the history says. */
  ghost predicate Knows(cfg: Config, s: State, k: nat, id: nat, p: Past)
    requires Shaped(cfg, s) && k < |s.contexts| && id < 32 * cfg.words
  {
    && s.level[id] == p.line && s.priority[id] == p.register && s.contexts[k].enable[id] == p.enabled
    && s.contexts[k].sources[id] == Noted(p.latch, p.taken)
    && (p.first <==> FirstEnabled(s.contexts, id, 0) == Some(k))
    && (p.next <==> id != 0 && Best(s.contexts[k], cfg.numIds) == id)
    && (p.taken ==> p.latch.Some?) && (p.latch.Some? ==> p.enabled && id < cfg.numIds) && (p.enabled ==> id != 0)
  }

  lemma KnowsPast(cfg: Config, events: seq<Event>, s: State, k: nat, id: nat)
    requires Inv(cfg, s) && Determined(cfg, events, s) && k < cfg.contexts && id < 32 * cfg.words
    ensures Knows(cfg, s, k, id, PastOf(cfg, events, k, id))
  {
    assert Follows(cfg, events, s, k, id) && InputsFollow(cfg, events, s, id);
    assert ContextOk(cfg, s.contexts[k], s.wires[k], s.log, k);
    FirstIs(cfg, events, s, k, id);
    BestIsNext(cfg, events, s, k, id);
  }

  /** What an event makes of a source in a context that becomes `c`. */
  ghost predicate Becomes(cfg: Config, c: Context, e: Event, k: nat, id: nat, p: Past) {
    && id < |c.enable| && id < |c.sources|
    && c.enable[id] == (if Switches(cfg, e, k, id) then On(e, id) else p.enabled)
    && c.sources[id] ==
       Noted(NextLatch(cfg, e, k, id, p.line, p.register, p.enabled, p.first, p.latch),
             NextTaken(cfg, e, k, id, p.enabled, p.first, p.next, p.taken))
  }

  /** An event changes one context at most. */
  lemma ContextNow(cfg: Config, s: State, e: Event, k: nat)
    requires Shaped(cfg, s) && k < |s.contexts|
    ensures var s', c := Applied(cfg, s, e), s.contexts[k];
            && k < |s'.contexts|
            && s'.contexts[k] ==
               match e
               case Irq(id, active) =>
                 if id < cfg.numIds && FirstEnabled(s.contexts, id, 0) == Some(k)
                   then LineIn(c, id, active, s.priority[id]) else c
               case Claim(j) => if j == k then ClaimedIn(c, Best(c, cfg.numIds)) else c
               case Complete(j, val) => if j == k && val < cfg.numIds && c.enable[val] then Unclaimed(c, val) else c
               case Enable(j, w, val) =>
                 if j == k && w < cfg.words then Switch(c, w, val, s.level, s.priority) else c
               case Threshold(j, val) => if j == k then c.(threshold := Low(val, cfg.prioBits)) else c
               case Priority(_, _) => c
  {}

  lemma IrqBecomes(cfg: Config, s: State, c: Context, e: Event, k: nat, id: nat, p: Past)
    requires Shaped(cfg, s) && k < |s.contexts| && id < 32 * cfg.words && e.Irq? && Knows(cfg, s, k, id, p)
    requires c == if e.id < cfg.numIds && FirstEnabled(s.contexts, e.id, 0) == Some(k)
                  then LineIn(s.contexts[k], e.id, e.active, s.priority[e.id]) else s.contexts[k]
    ensures Becomes(cfg, c, e, k, id, p)
  {}

  lemma ClaimBecomes(cfg: Config, s: State, c: Context, e: Event, k: nat, id: nat, p: Past)
    requires Shaped(cfg, s) && k < |s.contexts| && id < 32 * cfg.words && e.Claim? && Knows(cfg, s, k, id, p)
    requires c == if e.k == k then ClaimedIn(s.contexts[k], Best(s.contexts[k], cfg.numIds)) else s.contexts[k]
    ensures Becomes(cfg, c, e, k, id, p)
  {}

  lemma CompleteBecomes(cfg: Config, s: State, c: Context, e: Event, k: nat, id: nat, p: Past)
    requires Shaped(cfg, s) && k < |s.contexts| && id < 32 * cfg.words && e.Complete? && Knows(cfg, s, k, id, p)
    requires c == if e.k == k && e.val < cfg.numIds && s.contexts[k].enable[e.val]
                  then Unclaimed(s.contexts[k], e.val) else s.contexts[k]
    ensures Becomes(cfg, c, e, k, id, p)
  {}

  lemma EnableBecomes(cfg: Config, s: State, c: Context, e: Event, k: nat, id: nat, p: Past)
    requires Shaped(cfg, s) && k < |s.contexts| && |s.contexts| == cfg.contexts && id < 32 * cfg.words && e.Enable?
    requires Knows(cfg, s, k, id, p)
    requires c == if e.k == k && e.word < cfg.words
                  then Switch(s.contexts[k], e.word, e.val, s.level, s.priority) else s.contexts[k]
    ensures Becomes(cfg, c, e, k, id, p)
  {
    if e.k == k && e.word < cfg.words {
      SwitchAt(s.contexts[k], e.word, e.val, s.level, s.priority, id);
    }
  }

  lemma SourceFollows(cfg: Config, events: seq<Event>, e: Event, s: State, k: nat, id: nat)
    requires Inv(cfg, s) && Determined(cfg, events, s) && k < cfg.contexts && id < 32 * cfg.words
    ensures Follows(cfg, events + [e], Applied(cfg, s, e), k, id)
  {
    KnowsPast(cfg, events, s, k, id);
    LatchUnfold(cfg, events, e, k, id);
    TakenUnfold(cfg, events, e, k, id);
    EventBecomes(cfg, s, e, k, id, PastOf(cfg, events, k, id));
  }

  lemma EventBecomes(cfg: Config, s: State, e: Event, k: nat, id: nat, p: Past)
    requires Shaped(cfg, s) && |s.contexts| == cfg.contexts && k < cfg.contexts && id < 32 * cfg.words
    requires Knows(cfg, s, k, id, p)
    ensures var s' := Applied(cfg, s, e); k < |s'.contexts| && Becomes(cfg, s'.contexts[k], e, k, id, p)
  {
    ContextNow(cfg, s, e, k);
    var c := Applied(cfg, s, e).contexts[k];
    match e
    case Irq(_, _) => IrqBecomes(cfg, s, c, e, k, id, p);
    case Claim(_) => ClaimBecomes(cfg, s, c, e, k, id, p);
    case Complete(_, _) => CompleteBecomes(cfg, s, c, e, k, id, p);
    case Enable(_, _, _) => EnableBecomes(cfg, s, c, e, k, id, p);
    case _ =>
  }

  /** Lines and priority registers change by their own events only. */
  lemma InputsNow(cfg: Config, s: State, e: Event, id: nat)
    requires Shaped(cfg, s) && id < 32 * cfg.words
    ensures var s' := Applied(cfg, s, e);
            && |s'.level| == |s.level| && |s'.priority| == |s.priority|
            && s'.level[id] == (if e.Irq? && e.id == id && id < cfg.numIds then e.active else s.level[id])
            && s'.priority[id] ==
               (if e.Priority? && e.id == id && 0 < id < cfg.numIds then Low(e.val, cfg.prioBits) else s.priority[id])
  {}

  lemma InputsOn(cfg: Config, events: seq<Event>, e: Event, s: State, id: nat)
    requires Inv(cfg, s) && Determined(cfg, events, s) && id < 32 * cfg.words
    ensures InputsFollow(cfg, events + [e], Applied(cfg, s, e), id)
  {
    assert InputsFollow(cfg, events, s, id);
    InputsUnfold(cfg, events, e, id);
    InputsNow(cfg, s, e, id);
  }

  /** In every run the state of the controller is what its history says. */
  lemma {:induction false} HistoryDecides(cfg: Config, events: seq<Event>)
    requires ValidConfig(cfg)
    ensures Determined(cfg, events, Run(cfg, events))
  {
    if events == [] {
      RunEmpty(cfg);
    } else {
      var n := |events| - 1;
      var before, e := events[..n], events[n];
      assert before + [e] == events;
      HistoryDecides(cfg, before);
      RunOneMore(cfg, before, e);
      var s := Run(cfg, before);
      SameContexts(cfg, s, e);
      forall k | 0 <= k < cfg.contexts ensures Run(cfg, events).contexts[k].threshold == ThresholdOf(cfg, events, k) {
        ContextNow(cfg, s, e, k);
      }
      forall id | 0 <= id < 32 * cfg.words ensures InputsFollow(cfg, events, Run(cfg, events), id) {
        InputsOn(cfg, before, e, s, id);
      }
      forall k, id | 0 <= k < cfg.contexts && 0 <= id < 32 * cfg.words
        ensures Follows(cfg, events, Run(cfg, events), k, id)
      {
        SourceFollows(cfg, before, e, s, k, id);
      }
    }
  }

  // ---------------------------------------------------------------- what a claim returns

  /** A claim returns the next source by the history, and none if none awaits. */
  lemma ClaimReturns(cfg: Config, events: seq<Event>, k: nat, id: nat)
    requires ValidConfig(cfg) && k < cfg.contexts
    ensures var s, s' := Run(cfg, events), Run(cfg, events + [Claim(k)]);
            && (IsNext(cfg, events, k, id) ==> s'.log == s.log + [Claimed(k, id)])
            && ((forall other: nat :: !Awaits(cfg, events, k, other)) ==> s'.log == s.log)
  {
    HistoryDecides(cfg, events);
    RunOneMore(cfg, events, Claim(k));
    BestIsNext(cfg, events, Run(cfg, events), k, id);
  }

  /** The wire of a context shows whether some source awaits a claim. */
  lemma WireShows(cfg: Config, events: seq<Event>, k: nat)
    requires ValidConfig(cfg) && k < cfg.contexts
    ensures k < |Run(cfg, events).wires|
    ensures Run(cfg, events).wires[k] <==> exists id: nat :: Awaits(cfg, events, k, id)
  {
    var s := Run(cfg, events);
    HistoryDecides(cfg, events);
    assert ContextOk(cfg, s.contexts[k], s.wires[k], s.log, k);
    BestIsNext(cfg, events, s, k, 0);
  }

  /** Event number `j` makes a source pending in context `k`: its line, or an enable write while its line is high. */
  ghost predicate Makes(cfg: Config, events: seq<Event>, j: nat, k: nat, id: nat)
    requires j < |events|
  {
    var e, before := events[j], events[..j];
    if Notes(cfg, e, First(cfg, before, k, id), id) then e.active
    else Switches(cfg, e, k, id) && On(e, id) && !Enabled(cfg, before, k, id) && Line(cfg, before, id)
  }

  ghost predicate NotMadeSince(cfg: Config, events: seq<Event>, i: nat, k: nat, id: nat) {
    forall j :: i < j < |events| ==> !Makes(cfg, events, j, k, id)
  }

  predicate Prioritises(e: Event, id: nat) {
    e.Priority? && e.id == id
  }

  /**
    The priority of a pending source is the value that its register had when the source was last made pending; that is
    its value still, if it was not written since.
   */
  lemma {:induction false} PendingSince(cfg: Config, events: seq<Event>, k: nat, id: nat) returns (i: nat)
    requires Latched(cfg, events, k, id).Some?
    ensures i < |events| && Makes(cfg, events, i, k, id) && NotMadeSince(cfg, events, i, k, id)
    ensures Latched(cfg, events, k, id) == Some(Register(cfg, events[..i], id))
    ensures (forall j :: i < j < |events| ==> !Prioritises(events[j], id)) ==>
              Latched(cfg, events, k, id) == Some(Register(cfg, events, id))
  {
    var n := |events| - 1;
    var before := events[..n];
    if Makes(cfg, events, n, k, id) {
      i := n;
    } else {
      i := PendingSince(cfg, before, k, id);
      assert before[..i] == events[..i];
      forall j | i < j < |events| ensures !Makes(cfg, events, j, k, id) {
        if j < n { assert before[..j] == events[..j] && !Makes(cfg, before, j, k, id); }
      }
      if forall j :: i < j < |events| ==> !Prioritises(events[j], id) {
        assert !Prioritises(events[n], id);
        forall j | i < j < n ensures !Prioritises(before[j], id) { assert before[j] == events[j]; }
      }
    }
  }

  /** These sources are, each once, those that await a claim, by priority and then by id. */
  ghost predicate ByPriority(cfg: Config, events: seq<Event>, k: nat, ids: seq<nat>) {
    && (forall id :: id in ids <==> Awaits(cfg, events, k, id))
    && (forall i, j :: 0 <= i < j < |ids| ==> Outranks(cfg, events, k, ids[i], ids[j]))
  }

  ghost predicate Outranks(cfg: Config, events: seq<Event>, k: nat, a: nat, b: nat) {
    && Latched(cfg, events, k, a).Some? && Latched(cfg, events, k, b).Some?
    && Ahead(Latched(cfg, events, k, a).value, a, Latched(cfg, events, k, b).value, b)
  }

  /** No awaited source's register was written since the source was made pending. */
  ghost predicate UpToDate(cfg: Config, events: seq<Event>, k: nat) {
    forall id: nat :: Awaits(cfg, events, k, id) ==> Latched(cfg, events, k, id) == Some(Register(cfg, events, id))
  }

  /**
    Claims in a row return the sources that await one, by the priorities they were made pending with and then by id;
    these are the priorities in the registers, if they were not written since.
   */
  lemma ClaimsInOrder(cfg: Config, events: seq<Event>, k: nat) returns (ids: seq<nat>)
    requires ValidConfig(cfg) && k < cfg.contexts
    ensures ByPriority(cfg, events, k, ids)
    ensures forall n: nat :: n >= |ids| ==>
              && k < |Run(cfg, events).contexts|
              && Claims(cfg, Run(cfg, events), k, n).log == Run(cfg, events).log + ClaimEntries(k, ids)
    ensures UpToDate(cfg, events, k) ==>
              forall i, j :: 0 <= i < j < |ids| ==>
                Ahead(Register(cfg, events, ids[i]), ids[i], Register(cfg, events, ids[j]), ids[j])
  {
    var s := Run(cfg, events);
    HistoryDecides(cfg, events);
    var c := s.contexts[k];
    assert ContextOk(cfg, c, s.wires[k], s.log, k);
    ids := Drain(c, cfg.numIds);
    DrainOrder(c, cfg.numIds);
    DrainAwaits(cfg, events, s, k, ids);
    forall n: nat | n >= |ids|
      ensures Claims(cfg, s, k, n).log == s.log + ClaimEntries(k, ids)
    {
      ClaimsDrain(cfg, s, k, n);
    }
    if UpToDate(cfg, events, k) {
      forall i, j | 0 <= i < j < |ids|
        ensures Ahead(Register(cfg, events, ids[i]), ids[i], Register(cfg, events, ids[j]), ids[j])
      {
        assert ids[i] in ids && ids[j] in ids;
        assert Outranks(cfg, events, k, ids[i], ids[j]);
      }
    }
  }

  lemma DrainAwaits(cfg: Config, events: seq<Event>, s: State, k: nat, ids: seq<nat>)
    requires Inv(cfg, s) && Determined(cfg, events, s) && k < cfg.contexts
    requires var c := s.contexts[k]; Visits(c, ids, cfg.numIds) && Covers(c, ids, cfg.numIds) && Ranked(c, ids)
    ensures ByPriority(cfg, events, k, ids)
  {
    var c := s.contexts[k];
    forall id: nat ensures id in ids <==> Awaits(cfg, events, k, id) {
      CandidateAwaits(cfg, events, s, k, id);
      if id in ids {
        var i :| 0 <= i < |ids| && ids[i] == id;
        assert Candidate(c, ids[i]);
      }
    }
    forall i, j | 0 <= i < j < |ids| ensures Outranks(cfg, events, k, ids[i], ids[j]) {
      CandidateAwaits(cfg, events, s, k, ids[i]);
      CandidateAwaits(cfg, events, s, k, ids[j]);
      assert Before(c, ids[i], ids[j]);
    }
  }

  lemma CandidateAwaits(cfg: Config, events: seq<Event>, s: State, k: nat, id: nat)
    requires Inv(cfg, s) && Determined(cfg, events, s) && k < cfg.contexts
    ensures Awaits(cfg, events, k, id) <==> id < cfg.numIds && Candidate(s.contexts[k], id)
    ensures id < cfg.numIds && Candidate(s.contexts[k], id) ==>
              Latched(cfg, events, k, id) == Some(s.contexts[k].sources[id].prio)
  {
    assert ContextOk(cfg, s.contexts[k], s.wires[k], s.log, k);
    if id < 32 * cfg.words { assert Follows(cfg, events, s, k, id); } else { Beyond(cfg, events, k, id); }
  }
}
