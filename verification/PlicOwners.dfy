/**
  Claims across contexts (RISC-V PLIC specification, chapter "Interrupt Claim Process"): a source that two
  contexts may enable can be claimed twice, and one that only one context may enable cannot.
 */
module PlicOwners {
  import opened IoV2
  import opened Bits
  import opened PlicSpec

  /** Pairs of a context and a source: the enable bits that may be set. */
  type Grants = set<(nat, nat)>

  /** An enable write that has an effect sets granted bits only. */
  ghost predicate Allowed(cfg: Config, g: Grants, e: Event) {
    e.Enable? && e.k < cfg.contexts && e.word < cfg.words ==>
      forall i :: 0 <= i < 32 && NewBit(e.word, e.val, i) ==> (e.k, 32 * e.word + i) in g
  }

  ghost predicate AllAllowed(cfg: Config, g: Grants, events: seq<Event>) {
    forall i :: 0 <= i < |events| ==> Allowed(cfg, g, events[i])
  }

  /** No source is granted to two contexts. */
  ghost predicate OneOwner(cfg: Config, g: Grants) {
    forall k, k', id ::
      (k, id) in g && (k', id) in g && k < cfg.contexts && k' < cfg.contexts && 0 < id < cfg.numIds ==> k == k'
  }

  predicate SameSource(a: Entry, b: Entry) {
    a.Claimed? && b.Claimed? && a.id == b.id
  }

  /** Between two claims of a source, by whatever contexts, the first one is released. */
  ghost predicate Separated(log: seq<Entry>) {
    forall i, j :: 0 <= i < j < |log| && SameSource(log[i], log[j]) ==>
      exists m :: i < m < j && Releases(log[m], log[i].k, log[i].id)
  }

  /** A source is pending exactly where it is enabled, and while its line is high. */
  ghost predicate Levelled(s: State) {
    forall k, id :: 0 <= k < |s.contexts| && 0 <= id < |s.level| ==> FollowsLine(s.contexts[k], id, s.level[id])
  }

  ghost predicate FollowsLine(c: Context, id: nat, level: bool) {
    id < |c.sources| && id < |c.enable| && (c.sources[id].pending <==> c.enable[id] && level)
  }

  // ---------------------------------------------------------------- one owner a source

  ghost predicate EnabledWithin(g: Grants, s: State) {
    forall k, id :: 0 <= k < |s.contexts| && 0 <= id < |s.contexts[k].enable| && s.contexts[k].enable[id] ==>
      (k, id) in g
  }

  ghost predicate ClaimsWithin(cfg: Config, g: Grants, log: seq<Entry>) {
    forall i :: 0 <= i < |log| && log[i].Claimed? ==>
      log[i].k < cfg.contexts && 0 < log[i].id < cfg.numIds && (log[i].k, log[i].id) in g
  }

  ghost predicate Owned(cfg: Config, g: Grants, s: State) {
    |s.contexts| == cfg.contexts && EnabledWithin(g, s) && Levelled(s) && ClaimsWithin(cfg, g, s.log)
  }

  lemma GatedIn(cfg: Config, s: State, k: nat)
    requires Inv(cfg, s) && k < |s.contexts|
    ensures Gated(cfg, s.contexts[k])
  {
    assert ContextOk(cfg, s.contexts[k], s.wires[k], s.log, k);
  }

  // The steps. Each of them changes one context or one line.

  ghost predicate SameBits(c: Context, c': Context) {
    c'.enable == c.enable && |c'.sources| == |c.sources|
    && forall id :: 0 <= id < |c.sources| ==> c'.sources[id].pending == c.sources[id].pending
  }

  /** In one context something changes, but not what is enabled or pending. */
  lemma SameLines(g: Grants, s: State, s': State, k: nat, c: Context)
    requires k < |s.contexts| && EnabledWithin(g, s) && Levelled(s) && SameBits(s.contexts[k], c)
    requires s'.contexts == s.contexts[k := c] && s'.level == s.level
    ensures EnabledWithin(g, s') && Levelled(s')
  {
    forall j, id | 0 <= j < |s'.contexts| && 0 <= id < |s'.level|
      ensures FollowsLine(s'.contexts[j], id, s'.level[id])
    {
      assert FollowsLine(s.contexts[j], id, s.level[id]);
    }
  }

  /** In one context something changes, as its lines and grants ask for. */
  lemma ContextFollows(g: Grants, s: State, s': State, k: nat, c: Context)
    requires k < |s.contexts| && EnabledWithin(g, s) && Levelled(s)
    requires s'.contexts == s.contexts[k := c] && s'.level == s.level
    requires forall id :: 0 <= id < |s.level| ==> FollowsLine(c, id, s.level[id])
    requires forall id :: 0 <= id < |c.enable| && c.enable[id] ==> (k, id) in g
    ensures EnabledWithin(g, s') && Levelled(s')
  {
    forall j, id | 0 <= j < |s'.contexts| && 0 <= id < |s'.level|
      ensures FollowsLine(s'.contexts[j], id, s'.level[id])
    {
      assert FollowsLine(s.contexts[j], id, s.level[id]);
    }
  }

  /** A line changes and no context takes note, because none has it enabled. */
  lemma LineUnnoticed(s: State, s': State, id: nat, active: bool)
    requires id < |s.level| && Levelled(s) && s'.contexts == s.contexts && s'.level == s.level[id := active]
    requires forall k :: 0 <= k < |s.contexts| ==> id < |s.contexts[k].enable| && !s.contexts[k].enable[id]
    ensures Levelled(s')
  {
    forall j, x | 0 <= j < |s'.contexts| && 0 <= x < |s'.level| ensures FollowsLine(s'.contexts[j], x, s'.level[x]) {
      assert FollowsLine(s.contexts[j], x, s.level[x]);
    }
  }

  /** A line changes and context `k`, the only one that has it enabled, takes note. */
  lemma LineNoticed(s: State, s': State, id: nat, active: bool, k: nat, prio: nat)
    requires id < |s.level| && Levelled(s) && k < |s.contexts| && id < |s.contexts[k].sources|
    requires s'.contexts == s.contexts[k := LineIn(s.contexts[k], id, active, prio)]
             && s'.level == s.level[id := active]
    requires forall j :: 0 <= j < |s.contexts| ==> id < |s.contexts[j].enable| && (s.contexts[j].enable[id] <==> j == k)
    ensures Levelled(s')
  {
    forall j, x | 0 <= j < |s'.contexts| && 0 <= x < |s'.level| ensures FollowsLine(s'.contexts[j], x, s'.level[x]) {
      assert FollowsLine(s.contexts[j], x, s.level[x]);
      assert s.contexts[j].enable[id] <==> j == k;
    }
  }

  lemma OnlyOwner(cfg: Config, g: Grants, s: State, id: nat, k: nat, j: nat)
    requires OneOwner(cfg, g) && EnabledWithin(g, s) && |s.contexts| == cfg.contexts && 0 < id < cfg.numIds
    requires k < |s.contexts| && id < |s.contexts[k].enable| && s.contexts[k].enable[id]
    requires j < |s.contexts| && id < |s.contexts[j].enable| && s.contexts[j].enable[id]
    ensures j == k
  {
    assert (k, id) in g && (j, id) in g;
  }

  lemma IrqOwned(cfg: Config, g: Grants, s: State, id: nat, active: bool)
    requires Shaped(cfg, s) && Owned(cfg, g, s) && OneOwner(cfg, g) && id < cfg.numIds
    requires forall k :: 0 <= k < |s.contexts| ==> !s.contexts[k].enable[0]
    ensures Owned(cfg, g, IrqSynced(cfg, s, id, active))
  {
    var s' := IrqSynced(cfg, s, id, active);
    var k := FirstEnabled(s.contexts, id, 0);
    if k.None? {
      LineUnnoticed(s, s', id, active);
    } else {
      forall j | 0 <= j < |s.contexts| ensures s.contexts[j].enable[id] <==> j == k.value {
        if s.contexts[j].enable[id] { OnlyOwner(cfg, g, s, id, k.value, j); }
      }
      LineNoticed(s, s', id, active, k.value, s.priority[id]);
    }
  }

  /** One bit of the context that is written. */
  lemma SwitchFollows(c: Context, w: nat, val: nat, level: seq<bool>, priority: seq<nat>, id: nat)
    requires |c.sources| == |c.enable| == |level| == |priority| && id < |c.enable| && FollowsLine(c, id, level[id])
    ensures FollowsLine(Switch(c, w, val, level, priority), id, level[id])
  {
    SwitchAt(c, w, val, level, priority, id);
  }

  lemma SwitchGranted(cfg: Config, g: Grants, k: nat, c: Context, w: nat, val: nat, level: seq<bool>,
                      priority: seq<nat>, id: nat)
    requires |c.sources| == |c.enable| == |level| == |priority| && id < |c.enable|
    requires Allowed(cfg, g, Enable(k, w, val)) && k < cfg.contexts && w < cfg.words
    requires c.enable[id] ==> (k, id) in g
    requires Switch(c, w, val, level, priority).enable[id]
    ensures (k, id) in g
  {
    SwitchAt(c, w, val, level, priority, id);
    if 32 * w <= id < 32 * w + 32 { assert NewBit(w, val, id - 32 * w); }
  }

  lemma EnableOwned(cfg: Config, g: Grants, s: State, k: nat, w: nat, val: nat)
    requires Shaped(cfg, s) && Owned(cfg, g, s) && k < |s.contexts| && Allowed(cfg, g, Enable(k, w, val))
    ensures Owned(cfg, g, EnableWritten(cfg, s, k, w, val))
  {
    if w < cfg.words {
      var c := s.contexts[k];
      var c' := Switch(c, w, val, s.level, s.priority);
      forall id | 0 <= id < |s.level| ensures FollowsLine(c', id, s.level[id]) {
        assert FollowsLine(c, id, s.level[id]);
        SwitchFollows(c, w, val, s.level, s.priority, id);
      }
      forall id | 0 <= id < |c'.enable| && c'.enable[id] ensures (k, id) in g {
        SwitchGranted(cfg, g, k, c, w, val, s.level, s.priority, id);
      }
      ContextFollows(g, s, EnableWritten(cfg, s, k, w, val), k, c');
    }
  }

  lemma ClaimOwned(cfg: Config, g: Grants, s: State, k: nat)
    requires Shaped(cfg, s) && Owned(cfg, g, s) && k < |s.contexts| && Gated(cfg, s.contexts[k])
    ensures Owned(cfg, g, ClaimMade(cfg, s, k))
  {
    var c := s.contexts[k];
    BestIsFirst(c, cfg.numIds);
    SameLines(g, s, ClaimMade(cfg, s, k), k, ClaimedIn(c, Best(c, cfg.numIds)));
  }

  lemma CompleteOwned(cfg: Config, g: Grants, s: State, k: nat, val: nat)
    requires Shaped(cfg, s) && Owned(cfg, g, s) && k < |s.contexts|
    ensures Owned(cfg, g, ClaimWritten(cfg, s, k, val))
  {
    if val < cfg.numIds && s.contexts[k].enable[val] {
      SameLines(g, s, ClaimWritten(cfg, s, k, val), k, Unclaimed(s.contexts[k], val));
    }
  }

  lemma ThresholdOwned(cfg: Config, g: Grants, s: State, k: nat, val: nat)
    requires Shaped(cfg, s) && Owned(cfg, g, s) && k < |s.contexts|
    ensures Owned(cfg, g, ThresholdWritten(cfg, s, k, val))
  {
    var s' := ThresholdWritten(cfg, s, k, val);
    SameLines(g, s, s', k, s'.contexts[k]);
  }

  lemma ApplyOwned(cfg: Config, g: Grants, s: State, e: Event)
    requires Inv(cfg, s) && Owned(cfg, g, s) && OneOwner(cfg, g) && Allowed(cfg, g, e)
    ensures Owned(cfg, g, Applied(cfg, s, e))
  {
    match e
    case Irq(id, active) =>
      if id < cfg.numIds {
        forall k | 0 <= k < |s.contexts| ensures !s.contexts[k].enable[0] { GatedIn(cfg, s, k); }
        IrqOwned(cfg, g, s, id, active);
      }
    case Claim(k) =>
      if k < |s.contexts| {
        GatedIn(cfg, s, k);
        ClaimOwned(cfg, g, s, k);
      }
    case Complete(k, val) => if k < |s.contexts| { CompleteOwned(cfg, g, s, k, val); }
    case Enable(k, w, val) => if k < |s.contexts| { EnableOwned(cfg, g, s, k, w, val); }
    case Threshold(k, val) => if k < |s.contexts| { ThresholdOwned(cfg, g, s, k, val); }
    case Priority(id, val) =>
  }

  lemma OwnedOn(cfg: Config, g: Grants, events: seq<Event>, e: Event, s: State)
    requires ValidConfig(cfg) && OneOwner(cfg, g) && Allowed(cfg, g, e) && s == Run(cfg, events) && Owned(cfg, g, s)
    ensures Owned(cfg, g, Run(cfg, events + [e]))
  {
    RunOneMore(cfg, events, e);
    ApplyOwned(cfg, g, s, e);
  }

  lemma {:induction false} RunOwned(cfg: Config, g: Grants, events: seq<Event>)
    requires ValidConfig(cfg) && OneOwner(cfg, g) && AllAllowed(cfg, g, events)
    ensures Owned(cfg, g, Run(cfg, events))
  {
    if events == [] {
      RunEmpty(cfg);
    } else {
      var n := |events| - 1;
      RunOwned(cfg, g, events[..n]);
      OwnedOn(cfg, g, events[..n], events[n], Run(cfg, events[..n]));
      assert events[..n] + [events[n]] == events;
    }
  }

  lemma OwnersRelease(cfg: Config, g: Grants, log: seq<Entry>, i: nat, j: nat)
    requires OneOwner(cfg, g) && ClaimsWithin(cfg, g, log) && Exclusive(log)
    requires i < j < |log| && SameSource(log[i], log[j])
    ensures exists m :: i < m < j && Releases(log[m], log[i].k, log[i].id)
  {
    assert (log[i].k, log[i].id) in g && (log[j].k, log[j].id) in g;
    ReleasedBetween(log, i, j, log[i].k, log[i].id);
  }

  /** With one owner a source, a source is claimed again only after it has been released. */
  lemma OwnersSeparate(cfg: Config, g: Grants, events: seq<Event>)
    requires ValidConfig(cfg) && OneOwner(cfg, g) && AllAllowed(cfg, g, events)
    ensures Separated(Run(cfg, events).log) && Levelled(Run(cfg, events))
  {
    RunOwned(cfg, g, events);
    var log := Run(cfg, events).log;
    forall i, j | 0 <= i < j < |log| && SameSource(log[i], log[j])
      ensures exists m :: i < m < j && Releases(log[m], log[i].k, log[i].id)
    {
      OwnersRelease(cfg, g, log, i, j);
    }
  }

  // ---------------------------------------------------------------- two owners of a source

  /** `val` sets the bit of source `id` alone. */
  ghost predicate OnlyBit(w: nat, val: nat, id: nat) {
    32 * w <= id < 32 * w + 32 && forall i :: 0 <= i < 32 ==> (NewBit(w, val, i) <==> i == id - 32 * w)
  }

  /** Nothing is enabled or pending. */
  ghost predicate Quiet(cfg: Config, c: Context) {
    && |c.enable| == |c.sources| == 32 * cfg.words
    && forall x :: 0 <= x < |c.sources| ==> !c.enable[x] && !c.sources[x].pending && !c.sources[x].claimed
  }

  /** Source `id` is enabled and pending, and no other. */
  ghost predicate Raised(cfg: Config, c: Context, id: nat) {
    && |c.enable| == |c.sources| == 32 * cfg.words
    && forall x :: 0 <= x < |c.sources| ==> IsRaised(c, id, x)
  }

  ghost predicate IsRaised(c: Context, id: nat, x: nat) {
    && x < |c.enable| && x < |c.sources|
    && c.enable[x] == (x == id) && c.sources[x].pending == (x == id) && !c.sources[x].claimed
  }

  /** Line `id` is high; it is raised in the contexts `up`, and the others are quiet. */
  ghost predicate Up(cfg: Config, s: State, id: nat, up: set<nat>) {
    && Shaped(cfg, s) && |s.contexts| == cfg.contexts && 0 < id < cfg.numIds && s.level[id]
    && forall k :: 0 <= k < |s.contexts| ==>
         if k in up then Raised(cfg, s.contexts[k], id) else Quiet(cfg, s.contexts[k])
  }

  /** A line rises before anything is enabled. */
  lemma RaiseLine(cfg: Config, id: nat)
    requires ValidConfig(cfg) && 0 < id < cfg.numIds
    ensures var s := Applied(cfg, Initial(cfg), Irq(id, true)); Up(cfg, s, id, {}) && s.log == []
  {
    var s := Initial(cfg);
    assert FirstEnabled(s.contexts, id, 0).None?;
  }

  lemma SwitchRaises(cfg: Config, c: Context, w: nat, val: nat, level: seq<bool>, priority: seq<nat>, id: nat)
    requires Quiet(cfg, c) && |level| == |priority| == |c.enable| && OnlyBit(w, val, id) && id < |level| && level[id]
    ensures Raised(cfg, Switch(c, w, val, level, priority), id)
  {
    var c' := Switch(c, w, val, level, priority);
    forall x | 0 <= x < |c'.sources| ensures IsRaised(c', id, x) {
      SwitchAt(c, w, val, level, priority, x);
      if 32 * w <= x < 32 * w + 32 { assert NewBit(w, val, x - 32 * w) <==> x == id; }
    }
  }

  /** One more context enables the source. */
  lemma RaiseIn(cfg: Config, s: State, id: nat, up: set<nat>, k: nat, w: nat, val: nat)
    requires Up(cfg, s, id, up) && k < cfg.contexts && k !in up && OnlyBit(w, val, id)
    ensures var s' := Applied(cfg, s, Enable(k, w, val));
            Up(cfg, s', id, up + {k}) && s'.log == s.log + [Disabled(k, Off(w, val))]
  {
    SwitchRaises(cfg, s.contexts[k], w, val, s.level, s.priority, id);
  }

  /** A context in which the source is raised claims it. */
  lemma ClaimRaised(cfg: Config, s: State, id: nat, k: nat)
    requires Shaped(cfg, s) && k < |s.contexts| && 0 < id < cfg.numIds && Raised(cfg, s.contexts[k], id)
    ensures var s' := Applied(cfg, s, Claim(k));
            && s'.log == s.log + [Claimed(k, id)] && Shaped(cfg, s') && |s'.contexts| == |s.contexts|
            && forall j :: 0 <= j < |s.contexts| && j != k ==> s'.contexts[j] == s.contexts[j]
  {
    var c := s.contexts[k];
    assert IsRaised(c, id, 0) && IsRaised(c, id, id);
    BestIsFirst(c, cfg.numIds);
    assert Candidate(c, id);
    forall x | 0 <= x < |c.sources| && Candidate(c, x) ensures x == id { assert IsRaised(c, id, x); }
  }

  /** A line rises, two contexts enable it, and two more things happen. */
  lemma RunFive(cfg: Config, e1: Event, e2: Event, e3: Event, e4: Event, e5: Event)
    requires ValidConfig(cfg)
    ensures Run(cfg, [e1]) == Applied(cfg, Initial(cfg), e1)
    ensures Run(cfg, [e1, e2]) == Applied(cfg, Run(cfg, [e1]), e2)
    ensures Run(cfg, [e1, e2, e3]) == Applied(cfg, Run(cfg, [e1, e2]), e3)
    ensures Run(cfg, [e1, e2, e3, e4]) == Applied(cfg, Run(cfg, [e1, e2, e3]), e4)
    ensures Run(cfg, [e1, e2, e3, e4, e5]) == Applied(cfg, Run(cfg, [e1, e2, e3, e4]), e5)
  {
    RunEmpty(cfg);
    RunOneMore(cfg, [], e1);
    RunOneMore(cfg, [e1], e2);
    RunOneMore(cfg, [e1, e2], e3);
    RunOneMore(cfg, [e1, e2, e3], e4);
    RunOneMore(cfg, [e1, e2, e3, e4], e5);
    assert [] + [e1] == [e1] && [e1] + [e2] == [e1, e2] && [e1, e2] + [e3] == [e1, e2, e3];
    assert [e1, e2, e3] + [e4] == [e1, e2, e3, e4] && [e1, e2, e3, e4] + [e5] == [e1, e2, e3, e4, e5];
  }

  /** Two contexts enable a source whose line is high. */
  lemma BothEnable(cfg: Config, id: nat, w: nat, val: nat, k: nat, k': nat) returns (s: State)
    requires ValidConfig(cfg) && 0 < id < cfg.numIds && OnlyBit(w, val, id)
    requires k < cfg.contexts && k' < cfg.contexts && k != k'
    ensures ReachedBy(cfg, s, Irq(id, true), Enable(k, w, val), Enable(k', w, val))
    ensures Up(cfg, s, id, {k, k'}) && s.log == [Disabled(k, Off(w, val)), Disabled(k', Off(w, val))]
  {
    RaiseLine(cfg, id);
    var s1 := Applied(cfg, Initial(cfg), Irq(id, true));
    RaiseIn(cfg, s1, id, {}, k, w, val);
    var s2 := Applied(cfg, s1, Enable(k, w, val));
    assert {} + {k} == {k} && {k} + {k'} == {k, k'};
    RaiseIn(cfg, s2, id, {k}, k', w, val);
    s := Applied(cfg, s2, Enable(k', w, val));
  }

  ghost predicate ReachedBy(cfg: Config, s: State, e1: Event, e2: Event, e3: Event)
    requires ValidConfig(cfg)
  {
    var s1 := Applied(cfg, Initial(cfg), e1);
    Shaped(cfg, s1) && var s2 := Applied(cfg, s1, e2); Shaped(cfg, s2) && s == Applied(cfg, s2, e3)
  }

  /** Both of them claim it, and nothing happens in between. */
  lemma BothClaim(cfg: Config, id: nat, w: nat, val: nat, k: nat, k': nat, e1: Event, e2: Event, e3: Event, e4: Event,
                  e5: Event)
    requires ValidConfig(cfg) && 0 < id < cfg.numIds && OnlyBit(w, val, id)
    requires k < cfg.contexts && k' < cfg.contexts && k != k'
    requires e1 == Irq(id, true) && e2 == Enable(k, w, val) && e3 == Enable(k', w, val)
    requires e4 == Claim(k) && e5 == Claim(k')
    ensures BothClaimed(Run(cfg, [e1, e2, e3, e4, e5]).log, k, k', id)
  {
    var s := BothEnable(cfg, id, w, val, k, k');
    RunFive(cfg, e1, e2, e3, e4, e5);
    ClaimRaised(cfg, s, id, k);
    ClaimRaised(cfg, Applied(cfg, s, e4), id, k');
  }

  /** One context claims a source just after another. */
  ghost predicate BothClaimed(log: seq<Entry>, k: nat, k': nat, id: nat) {
    |log| == 4 && log[2] == Claimed(k, id) && log[3] == Claimed(k', id)
  }

  /** The line falls: only the first of the contexts takes note, and in the other one the source stays pending. */
  lemma OneKeepsPending(cfg: Config, id: nat, w: nat, val: nat, k: nat, k': nat, e1: Event, e2: Event, e3: Event,
                        e4: Event)
    requires ValidConfig(cfg) && 0 < id < cfg.numIds && OnlyBit(w, val, id) && k < k' < cfg.contexts
    requires e1 == Irq(id, true) && e2 == Enable(k, w, val) && e3 == Enable(k', w, val) && e4 == Irq(id, false)
    ensures StaysPending(cfg, Run(cfg, [e1, e2, e3, e4]), k', id)
  {
    var s := BothEnable(cfg, id, w, val, k, k');
    RunFive(cfg, e1, e2, e3, e4, e4);
    LineFalls(cfg, s, id, k, k');
  }

  lemma LineFalls(cfg: Config, s: State, id: nat, k: nat, k': nat)
    requires Up(cfg, s, id, {k, k'}) && k < k' < |s.contexts|
    ensures StaysPending(cfg, Applied(cfg, s, Irq(id, false)), k', id)
  {
    assert IsRaised(s.contexts[k], id, id) && IsRaised(s.contexts[k'], id, id);
    assert FirstEnabled(s.contexts, id, 0) != Some(k');
  }

  /** A source is pending in a context although its line is low. */
  ghost predicate StaysPending(cfg: Config, s: State, k: nat, id: nat) {
    Shaped(cfg, s) && k < |s.contexts| && id < |s.level| && s.contexts[k].sources[id].pending && !s.level[id]
  }

  /** Two contexts claim source 1 one after the other. */
  lemma TwoContextsClaim()
    ensures var cfg := Config(2, 1, 4, 2);
            var events := [Irq(1, true), Enable(0, 0, 2), Enable(1, 0, 2), Claim(0), Claim(1)];
            BothClaimed(Run(cfg, events).log, 0, 1, 1)
  {
    BitOfTwo();
    BothClaim(Config(2, 1, 4, 2), 1, 0, 2, 0, 1, Irq(1, true), Enable(0, 0, 2), Enable(1, 0, 2), Claim(0), Claim(1));
  }

  lemma BitOfTwo()
    ensures OnlyBit(0, 2, 1)
  {
    forall i | 0 <= i < 32 ensures NewBit(0, 2, i) <==> i == 1 {
      if i >= 1 { assert Bit(2, i) == Bit(1, i - 1); }
      if i >= 2 {
        assert Bit(1, i - 1) == Bit(0, i - 2);
        BitZero(i - 2);
      }
    }
  }

  lemma BitFor(id: nat) returns (w: nat, val: nat)
    ensures OnlyBit(w, val, id) || id == 0
    ensures 32 * w <= id < 32 * w + 32
  {
    w := id / 32;
    val := SetBit(0, id - 32 * w);
    forall i | 0 <= i < 32 ensures Bit(val, i) <==> i == id - 32 * w {
      SetBitBits(0, id - 32 * w, i);
      BitZero(i);
    }
  }

  lemma EnableAllowed(cfg: Config, g: Grants, k: nat, w: nat, val: nat, id: nat)
    requires (k, id) in g && OnlyBit(w, val, id)
    ensures Allowed(cfg, g, Enable(k, w, val))
  {}

  lemma FiveAllowed(cfg: Config, g: Grants, e1: Event, e2: Event, e3: Event, e4: Event, e5: Event)
    requires Allowed(cfg, g, e1) && Allowed(cfg, g, e2) && Allowed(cfg, g, e3) && Allowed(cfg, g, e4)
             && Allowed(cfg, g, e5)
    ensures AllAllowed(cfg, g, [e1, e2, e3, e4]) && AllAllowed(cfg, g, [e1, e2, e3, e4, e5])
  {}

  lemma SharedClaims(cfg: Config, g: Grants, k: nat, k': nat, id: nat) returns (events: seq<Event>)
    requires ValidConfig(cfg) && (k, id) in g && (k', id) in g && k < k' < cfg.contexts && 0 < id < cfg.numIds
    ensures AllAllowed(cfg, g, events) && !Separated(Run(cfg, events).log)
  {
    var w, val := BitFor(id);
    EnableAllowed(cfg, g, k, w, val, id);
    EnableAllowed(cfg, g, k', w, val, id);
    var e1, e2, e3, e4, e5 := Irq(id, true), Enable(k, w, val), Enable(k', w, val), Claim(k), Claim(k');
    FiveAllowed(cfg, g, e1, e2, e3, e4, e5);
    BothClaim(cfg, id, w, val, k, k', e1, e2, e3, e4, e5);
    events := [e1, e2, e3, e4, e5];
    NotSeparated(Run(cfg, events).log, k, k', id);
  }

  lemma NotSeparated(log: seq<Entry>, k: nat, k': nat, id: nat)
    requires BothClaimed(log, k, k', id)
    ensures !Separated(log)
  {
    assert SameSource(log[2], log[3]);
  }

  lemma SharedStays(cfg: Config, g: Grants, k: nat, k': nat, id: nat) returns (events: seq<Event>)
    requires ValidConfig(cfg) && (k, id) in g && (k', id) in g && k < k' < cfg.contexts && 0 < id < cfg.numIds
    ensures AllAllowed(cfg, g, events) && !Levelled(Run(cfg, events))
  {
    var w, val := BitFor(id);
    EnableAllowed(cfg, g, k, w, val, id);
    EnableAllowed(cfg, g, k', w, val, id);
    var e1, e2, e3, e4 := Irq(id, true), Enable(k, w, val), Enable(k', w, val), Irq(id, false);
    FiveAllowed(cfg, g, e1, e2, e3, e4, e4);
    OneKeepsPending(cfg, id, w, val, k, k', e1, e2, e3, e4);
    events := [e1, e2, e3, e4];
    NotLevelled(cfg, Run(cfg, events), k', id);
  }

  lemma NotLevelled(cfg: Config, s: State, k: nat, id: nat)
    requires StaysPending(cfg, s, k, id)
    ensures !Levelled(s)
  {
    assert !FollowsLine(s.contexts[k], id, s.level[id]);
  }

  lemma TwoOwners(cfg: Config, g: Grants) returns (k: nat, k': nat, id: nat)
    requires !OneOwner(cfg, g)
    ensures (k, id) in g && (k', id) in g && k < k' < cfg.contexts && 0 < id < cfg.numIds
  {
    k, k', id :| (k, id) in g && (k', id) in g && k < cfg.contexts && k' < cfg.contexts && 0 < id < cfg.numIds
      && k != k';
    if k > k' { k, k' := k', k; }
  }

  ghost predicate AlwaysSeparated(cfg: Config, g: Grants)
    requires ValidConfig(cfg)
  {
    forall events :: AllAllowed(cfg, g, events) ==> Separated(Run(cfg, events).log)
  }

  ghost predicate AlwaysLevelled(cfg: Config, g: Grants)
    requires ValidConfig(cfg)
  {
    forall events :: AllAllowed(cfg, g, events) ==> Levelled(Run(cfg, events))
  }

  /**
    In every run whose enable writes set granted bits only, claims are exclusive across contexts, and sources are
    pending exactly where they are enabled and while their lines are high: each exactly if no source is granted to
    two contexts.
   */
  lemma ExclusiveIff(cfg: Config, g: Grants)
    requires ValidConfig(cfg)
    ensures AlwaysSeparated(cfg, g) <==> OneOwner(cfg, g)
    ensures AlwaysLevelled(cfg, g) <==> OneOwner(cfg, g)
  {
    if OneOwner(cfg, g) {
      forall events | AllAllowed(cfg, g, events) ensures Separated(Run(cfg, events).log) && Levelled(Run(cfg, events)) {
        OwnersSeparate(cfg, g, events);
      }
    } else {
      var k, k', id := TwoOwners(cfg, g);
      var claims := SharedClaims(cfg, g, k, k', id);
      var stays := SharedStays(cfg, g, k, k', id);
    }
  }
}
