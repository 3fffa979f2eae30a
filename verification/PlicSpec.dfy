/**
  Interrupt sources gated by claims and completions: what a context of the controller keeps, in which
  order it hands sources out (RISC-V PLIC specification, chapters "Interrupt Priorities", "Interrupt
  Claim Process" and "Interrupt Completion"), and what holds in every run.
 */
module PlicSpec {
  import opened IoV2
  import opened Bits

  /** A context's view of a source: its priority is the one latched when it became pending. */
  datatype Source = Source(pending: bool, prio: nat, claimed: bool)

  // Bit words are sequences of bits, one an id.
  datatype Context = Context(enable: seq<bool>, sources: seq<Source>, threshold: nat)

  /** What has happened to sources: claims, and what makes a claimed source available again. */
  datatype Entry = Claimed(k: nat, id: nat) | Completed(k: nat, id: nat) | Dropped(k: nat, id: nat)
    | Disabled(k: nat, ids: set<nat>)

  datatype State = State(contexts: seq<Context>, priority: seq<nat>, level: seq<bool>, wires: seq<bool>,
                         log: seq<Entry>)

  /** Ids run from 1 to `numIds - 1`; words and arrays cover `32 * words` of them. */
  datatype Config = Config(numIds: nat, words: nat, prioBits: nat, contexts: nat)

  ghost predicate ValidConfig(cfg: Config) {
    0 < cfg.numIds <= 32 * cfg.words
  }

  function Initial(cfg: Config): State {
    var n := 32 * cfg.words;
    var idle := Context(seq(n, i => false), seq(n, i => Source(false, 0, false)), 0);
    State(seq(cfg.contexts, i => idle), seq(n, i => 0), seq(n, i => false), seq(cfg.contexts, i => false), [])
  }

  // ---------------------------------------------------------------- which source comes next

  predicate Candidate(c: Context, id: nat)
    requires id < |c.sources|
  {
    c.sources[id].pending && !c.sources[id].claimed
  }

  /** The id that a scan of the first `n` ids settles on, 0 if none. */
  function Best(c: Context, n: nat): (b: nat)
    requires n <= |c.sources|
    ensures b == 0 || b < n
  {
    if n == 0 then 0
    else
      var b := Best(c, n - 1);
      if Candidate(c, n - 1) && (b == 0 || c.sources[b].prio < c.sources[n - 1].prio) then n - 1 else b
  }

  /** Higher priority first, then lower id. */
  predicate Before(c: Context, a: nat, b: nat)
    requires a < |c.sources| && b < |c.sources|
  {
    c.sources[a].prio > c.sources[b].prio || (c.sources[a].prio == c.sources[b].prio && a < b)
  }

  /** The scan finds the candidate that precedes all others, and 0 exactly if there is none. */
  lemma {:induction false} BestIsFirst(c: Context, n: nat)
    requires n <= |c.sources| && (|c.sources| > 0 ==> !Candidate(c, 0))
    ensures var b := Best(c, n);
            && (b == 0 <==> forall id :: 0 <= id < n ==> !Candidate(c, id))
            && (b != 0 ==> Candidate(c, b))
            && (forall id :: 0 <= id < n && Candidate(c, id) && id != b ==> Before(c, b, id))
  {
    if n > 0 { BestIsFirst(c, n - 1); }
  }

  // ---------------------------------------------------------------- claims in a row

  function ClaimedIn(c: Context, id: nat): Context
    requires id < |c.sources|
  {
    if id == 0 then c else c.(sources := c.sources[id := c.sources[id].(claimed := true)])
  }

  function Waiting(c: Context, n: nat): set<nat>
    requires n <= |c.sources|
  {
    set id | 0 <= id < n && Candidate(c, id)
  }

  lemma ClaimShrinks(c: Context, n: nat)
    requires n <= |c.sources| && (|c.sources| > 0 ==> !Candidate(c, 0)) && Best(c, n) != 0
    ensures Waiting(ClaimedIn(c, Best(c, n)), n) == Waiting(c, n) - {Best(c, n)}
    ensures Best(c, n) in Waiting(c, n)
  {
    BestIsFirst(c, n);
  }

  /** What successive claims return, up to the first 0. */
  function Drain(c: Context, n: nat): seq<nat>
    requires n <= |c.sources| && (|c.sources| > 0 ==> !Candidate(c, 0))
    decreases |Waiting(c, n)|
  {
    var b := Best(c, n);
    if b == 0 then []
    else
      ClaimShrinks(c, n);
      [b] + Drain(ClaimedIn(c, b), n)
  }

  /** All of `d` are candidates. */
  ghost predicate Visits(c: Context, d: seq<nat>, n: nat)
    requires n <= |c.sources|
  {
    forall i :: 0 <= i < |d| ==> d[i] < n && Candidate(c, d[i])
  }

  /** All candidates are in `d`. */
  ghost predicate Covers(c: Context, d: seq<nat>, n: nat)
    requires n <= |c.sources|
  {
    forall id :: 0 <= id < n && Candidate(c, id) ==> id in d
  }

  ghost predicate Ranked(c: Context, d: seq<nat>)
    requires forall i :: 0 <= i < |d| ==> d[i] < |c.sources|
  {
    forall i, j :: 0 <= i < j < |d| ==> Before(c, d[i], d[j])
  }

  /** A claim changes neither what precedes what nor, but for the claimed source, what is a candidate. */
  lemma ClaimFrame(c: Context, b: nat, id: nat)
    requires b < |c.sources| && id < |c.sources|
    ensures Candidate(ClaimedIn(c, b), id) <==> Candidate(c, id) && (id != b || b == 0)
    ensures ClaimedIn(c, b).sources[id].prio == c.sources[id].prio
  {}

  lemma VisitsOn(c: Context, b: nat, rest: seq<nat>, n: nat)
    requires n <= |c.sources| && 0 < b < n && Candidate(c, b) && Visits(ClaimedIn(c, b), rest, n)
    ensures Visits(c, [b] + rest, n)
    ensures forall i :: 0 <= i < |rest| ==> rest[i] < n && Candidate(c, rest[i]) && rest[i] != b
  {
    forall i | 0 <= i < |rest| ensures rest[i] < n && Candidate(c, rest[i]) && rest[i] != b {
      ClaimFrame(c, b, rest[i]);
    }
  }

  lemma CoversOn(c: Context, b: nat, rest: seq<nat>, n: nat)
    requires n <= |c.sources| && 0 < b < n && Covers(ClaimedIn(c, b), rest, n)
    ensures Covers(c, [b] + rest, n)
  {
    forall id | 0 <= id < n && Candidate(c, id) ensures id in [b] + rest {
      ClaimFrame(c, b, id);
      assert id != b ==> id in rest;
    }
  }

  lemma RankedOn(c: Context, b: nat, rest: seq<nat>)
    requires 0 < b < |c.sources| && forall i :: 0 <= i < |rest| ==> rest[i] < |c.sources| && Before(c, b, rest[i])
    requires Ranked(ClaimedIn(c, b), rest)
    ensures Ranked(c, [b] + rest)
  {
    forall i, j | 0 <= i < j < |rest| ensures Before(c, rest[i], rest[j]) {
      ClaimFrame(c, b, rest[i]);
      ClaimFrame(c, b, rest[j]);
      assert Before(ClaimedIn(c, b), rest[i], rest[j]);
    }
  }

  /** With no other event, claims return every pending unclaimed id, once, by priority and then by id, and then 0. */
  lemma {:induction false} DrainOrder(c: Context, n: nat)
    requires n <= |c.sources| && (|c.sources| > 0 ==> !Candidate(c, 0))
    ensures var d := Drain(c, n); Visits(c, d, n) && Covers(c, d, n) && Ranked(c, d)
    decreases |Waiting(c, n)|
  {
    var b := Best(c, n);
    BestIsFirst(c, n);
    if b != 0 {
      ClaimShrinks(c, n);
      var c' := ClaimedIn(c, b);
      var rest := Drain(c', n);
      DrainOrder(c', n);
      VisitsOn(c, b, rest, n);
      CoversOn(c, b, rest, n);
      RankedOn(c, b, rest);
    }
  }

  // ---------------------------------------------------------------- steps

  /** A line changes: its first enabled context takes note. */
  function LineIn(c: Context, id: nat, active: bool, prio: nat): Context
    requires id < |c.sources|
  {
    c.(sources := c.sources[id := if active then c.sources[id].(pending := true, prio := prio)
                            else Source(false, 0, false)])
  }

  function FirstEnabled(contexts: seq<Context>, id: nat, k: nat): (r: Option<nat>)
    requires k <= |contexts| && forall i :: 0 <= i < |contexts| ==> id < |contexts[i].enable|
    ensures r.Some? ==> k <= r.value < |contexts| && contexts[r.value].enable[id] && forall i :: k <= i < r.value ==>
            !contexts[i].enable[id]
    ensures r.None? ==> forall i :: k <= i < |contexts| ==> !contexts[i].enable[id]
    decreases |contexts| - k
  {
    if k == |contexts| then None else if contexts[k].enable[id] then Some(k) else FirstEnabled(contexts, id, k + 1)
  }

  /** Bit `i` of what is stored in enable word `w`: id 0 cannot be enabled. */
  predicate NewBit(w: nat, val: nat, i: nat) {
    Bit(val, i) && !(w == 0 && i == 0)
  }

  /** What an enable write makes of the source behind one bit. */
  function Switched(src: Source, was: bool, now: bool, level: bool, prio: nat): Source {
    if was == now then src
    else if now then (if level then src.(pending := true, prio := prio) else src)
    else Source(false, 0, false)
  }

  function Switch(c: Context, w: nat, val: nat, level: seq<bool>, priority: seq<nat>): (c': Context)
    requires |c.sources| == |c.enable| == |level| == |priority|
    ensures |c'.sources| == |c'.enable| == |c.enable|
  {
    var enable := seq(|c.enable|, id requires 0 <= id < |c.enable| =>
                        if 32 * w <= id < 32 * w + 32 then NewBit(w, val, id - 32 * w) else c.enable[id]);
    var sources := seq(|c.enable|, id requires 0 <= id < |c.enable| =>
                         if 32 * w <= id < 32 * w + 32
                         then Switched(c.sources[id], c.enable[id], NewBit(w, val, id - 32 * w), level[id],
                                       priority[id])
                         else c.sources[id]);
    c.(enable := enable, sources := sources)
  }

  /** Context `k` changes, and its wire follows. */
  function Updated(cfg: Config, s: State, k: nat, c: Context, log: seq<Entry>): State
    requires k < |s.contexts| == |s.wires| && cfg.numIds <= |c.sources|
  {
    s.(contexts := s.contexts[k := c], wires := s.wires[k := Best(c, cfg.numIds) != 0], log := log)
  }

  ghost predicate Shaped(cfg: Config, s: State) {
    && ValidConfig(cfg) && |s.contexts| == |s.wires| && |s.priority| == |s.level| == 32 * cfg.words
    && (forall k :: 0 <= k < |s.contexts| ==> |s.contexts[k].enable| == |s.contexts[k].sources| == 32 * cfg.words)
  }

  function IrqSynced(cfg: Config, s: State, id: nat, active: bool): State
    requires Shaped(cfg, s) && id < cfg.numIds
  {
    var s1 := s.(level := s.level[id := active]);
    var k := FirstEnabled(s.contexts, id, 0);
    if k.None? then s1
    else Updated(cfg, s1, k.value, LineIn(s.contexts[k.value], id, active, s.priority[id]),
                 if active then s.log else s.log + [Dropped(k.value, id)])
  }

  function ClaimMade(cfg: Config, s: State, k: nat): State
    requires Shaped(cfg, s) && k < |s.contexts|
  {
    var b := Best(s.contexts[k], cfg.numIds);
    Updated(cfg, s, k, ClaimedIn(s.contexts[k], b), if b == 0 then s.log else s.log + [Claimed(k, b)])
  }

  predicate IsOff(w: nat, val: nat, id: nat) {
    id >= 32 * w && !NewBit(w, val, id - 32 * w)
  }

  function Off(w: nat, val: nat): set<nat> {
    set id | 32 * w <= id < 32 * w + 32 && IsOff(w, val, id)
  }

  function EnableWritten(cfg: Config, s: State, k: nat, w: nat, val: nat): State
    requires Shaped(cfg, s) && k < |s.contexts|
  {
    if w >= cfg.words then s
    else Updated(cfg, s, k, Switch(s.contexts[k], w, val, s.level, s.priority), s.log + [Disabled(k, Off(w, val))])
  }

  function Unclaimed(c: Context, id: nat): Context
    requires id < |c.sources|
  {
    c.(sources := c.sources[id := c.sources[id].(claimed := false)])
  }

  /** A completion counts only for a source that is enabled. */
  function ClaimWritten(cfg: Config, s: State, k: nat, val: nat): State
    requires Shaped(cfg, s) && k < |s.contexts|
  {
    if val < cfg.numIds && s.contexts[k].enable[val]
    then Updated(cfg, s, k, Unclaimed(s.contexts[k], val), s.log + [Completed(k, val)])
    else s
  }

  function ThresholdWritten(cfg: Config, s: State, k: nat, val: nat): State
    requires Shaped(cfg, s) && k < |s.contexts|
  {
    s.(contexts := s.contexts[k := s.contexts[k].(threshold := Low(val, cfg.prioBits))])
  }

  function PriorityWritten(cfg: Config, s: State, id: nat, val: nat): State
    requires Shaped(cfg, s)
  {
    if 0 < id < cfg.numIds then s.(priority := s.priority[id := Low(val, cfg.prioBits)]) else s
  }

  // ---------------------------------------------------------------- the invariant

  predicate Releases(e: Entry, k: nat, id: nat) {
    e == Completed(k, id) || e == Dropped(k, id) || (e.Disabled? && e.k == k && id in e.ids)
  }

  /** Source `id` was claimed by context `k` and nothing has released it since. */
  predicate Held(log: seq<Entry>, k: nat, id: nat) {
    if log == [] then false
    else
      var e := log[|log| - 1];
      if e == Claimed(k, id) then true else if Releases(e, k, id) then false else Held(log[..|log| - 1], k, id)
  }

  /** No claim returns a source that is held. */
  ghost predicate Exclusive(log: seq<Entry>) {
    log == [] ||
    (var n := |log| - 1; Exclusive(log[..n]) && (log[n].Claimed? ==> !Held(log[..n], log[n].k, log[n].id)))
  }

  /** Claimed sources are pending, pending ones enabled. */
  ghost predicate Gated(cfg: Config, c: Context)
    requires |c.enable| == |c.sources|
  {
    && (|c.enable| > 0 ==> !c.enable[0])
    && (forall id :: 0 <= id < |c.sources| ==>
          && (c.sources[id].claimed ==> c.sources[id].pending)
          && (c.sources[id].pending ==> c.enable[id] && id < cfg.numIds))
  }

  /** The wire shows whether some pending source is unclaimed, and what is claimed is what the history holds. */
  ghost predicate ContextOk(cfg: Config, c: Context, wire: bool, log: seq<Entry>, k: nat)
    requires |c.enable| == |c.sources| && cfg.numIds <= |c.sources|
  {
    && Gated(cfg, c) && wire == (Best(c, cfg.numIds) != 0)
    && (forall id :: 0 <= id < |c.sources| ==> c.sources[id].claimed == Held(log, k, id))
  }

  ghost predicate Inv(cfg: Config, s: State) {
    && Shaped(cfg, s) && Exclusive(s.log)
    && (forall k :: 0 <= k < |s.contexts| ==> ContextOk(cfg, s.contexts[k], s.wires[k], s.log, k))
    && (forall id :: 0 <= id < |s.level| && s.level[id] ==> id < cfg.numIds)
  }

  lemma InitialInv(cfg: Config)
    requires ValidConfig(cfg)
    ensures Inv(cfg, Initial(cfg))
  {
    var s := Initial(cfg);
    forall k | 0 <= k < |s.contexts| ensures ContextOk(cfg, s.contexts[k], s.wires[k], s.log, k) {
      BestIsFirst(s.contexts[k], cfg.numIds);
    }
  }

  lemma HeldAppend(log: seq<Entry>, e: Entry, k: nat, id: nat)
    ensures Held(log + [e], k, id) == if e == Claimed(k, id) then true else if Releases(e, k, id) then false
            else Held(log, k, id)
  {
    assert (log + [e])[..|log|] == log;
  }

  /** One context changes with one log entry, which concerns no other. */
  lemma UpdateKeeps(cfg: Config, s: State, k: nat, c: Context, e: Entry)
    requires Inv(cfg, s) && k < |s.contexts| && e.k == k
    requires |c.enable| == |c.sources| == 32 * cfg.words && Gated(cfg, c)
    requires forall id :: 0 <= id < |c.sources| ==>
               c.sources[id].claimed ==
                 (e == Claimed(k, id) || (!Releases(e, k, id) && s.contexts[k].sources[id].claimed))
    requires e.Claimed? ==> e.id < |c.sources| && !s.contexts[k].sources[e.id].claimed
    ensures Inv(cfg, Updated(cfg, s, k, c, s.log + [e]))
  {
    var s' := Updated(cfg, s, k, c, s.log + [e]);
    assert (s.log + [e])[..|s.log|] == s.log;
    assert ContextOk(cfg, s.contexts[k], s.wires[k], s.log, k);
    forall j | 0 <= j < |s.contexts| ensures ContextOk(cfg, s'.contexts[j], s'.wires[j], s'.log, j) {
      assert ContextOk(cfg, s.contexts[j], s.wires[j], s.log, j);
      forall id | 0 <= id < |s'.contexts[j].sources| ensures s'.contexts[j].sources[id].claimed == Held(s'.log, j, id) {
        HeldAppend(s.log, e, j, id);
      }
    }
  }

  /** One context changes in which nothing is claimed or released. */
  lemma QuietKeeps(cfg: Config, s: State, k: nat, c: Context)
    requires Inv(cfg, s) && k < |s.contexts|
    requires |c.enable| == |c.sources| == 32 * cfg.words && Gated(cfg, c)
    requires forall id :: 0 <= id < |c.sources| ==> c.sources[id].claimed == s.contexts[k].sources[id].claimed
    ensures Inv(cfg, Updated(cfg, s, k, c, s.log))
  {
    var s' := Updated(cfg, s, k, c, s.log);
    assert ContextOk(cfg, s.contexts[k], s.wires[k], s.log, k);
    forall j | 0 <= j < |s.contexts| ensures ContextOk(cfg, s'.contexts[j], s'.wires[j], s'.log, j) {
      assert ContextOk(cfg, s.contexts[j], s.wires[j], s.log, j);
    }
  }

  lemma ClaimKeeps(cfg: Config, s: State, k: nat)
    requires Inv(cfg, s) && k < |s.contexts|
    ensures Inv(cfg, ClaimMade(cfg, s, k))
  {
    var c := s.contexts[k];
    var b := Best(c, cfg.numIds);
    assert ContextOk(cfg, c, s.wires[k], s.log, k);
    BestIsFirst(c, cfg.numIds);
    if b == 0 { QuietKeeps(cfg, s, k, c); } else { UpdateKeeps(cfg, s, k, ClaimedIn(c, b), Claimed(k, b)); }
  }

  lemma LevelKeeps(cfg: Config, s: State, id: nat, active: bool)
    requires Inv(cfg, s) && id < cfg.numIds
    ensures Inv(cfg, s.(level := s.level[id := active]))
  {
    var s' := s.(level := s.level[id := active]);
    forall j | 0 <= j < |s.contexts| ensures ContextOk(cfg, s'.contexts[j], s'.wires[j], s'.log, j) {
      assert ContextOk(cfg, s.contexts[j], s.wires[j], s.log, j);
    }
  }

  lemma IrqKeeps(cfg: Config, s: State, id: nat, active: bool)
    requires Inv(cfg, s) && id < cfg.numIds
    ensures Inv(cfg, IrqSynced(cfg, s, id, active))
  {
    var s1 := s.(level := s.level[id := active]);
    LevelKeeps(cfg, s, id, active);
    var k := FirstEnabled(s.contexts, id, 0);
    if k.Some? {
      var c := s.contexts[k.value];
      assert ContextOk(cfg, c, s.wires[k.value], s.log, k.value);
      var c' := LineIn(c, id, active, s.priority[id]);
      if active { QuietKeeps(cfg, s1, k.value, c'); } else { UpdateKeeps(cfg, s1, k.value, c', Dropped(k.value, id)); }
    }
  }

  /** What a source becomes when its bit is written: gated again, and no longer claimed if it is off. */
  lemma SwitchedGated(src: Source, was: bool, now: bool, level: bool, prio: nat)
    requires (src.claimed ==> src.pending) && (src.pending ==> was)
    ensures var src' := Switched(src, was, now, level, prio);
            && (src'.claimed ==> src'.pending) && (src'.pending ==> now && (was || level))
            && (src'.claimed <==> now && src.claimed)
  {}

  /** One bit of a context, inside the word that is written or outside. */
  lemma SwitchAt(c: Context, w: nat, val: nat, level: seq<bool>, priority: seq<nat>, id: nat)
    requires |c.sources| == |c.enable| == |level| == |priority| && id < |c.enable|
    ensures var c' := Switch(c, w, val, level, priority);
            if 32 * w <= id < 32 * w + 32
            then
              var now := NewBit(w, val, id - 32 * w);
              c'.enable[id] == now
                && c'.sources[id] == Switched(c.sources[id], c.enable[id], now, level[id], priority[id])
            else c'.enable[id] == c.enable[id] && c'.sources[id] == c.sources[id]
  {}

  /** Every source of a context is gated, and those in the set `off` are not claimed; the others are as before. */
  ghost predicate Outcome(cfg: Config, c: Context, c': Context, off: set<nat>, id: nat)
    requires id < |c.sources| && id < |c'.sources| && id < |c'.enable|
  {
    && (c'.sources[id].claimed ==> c'.sources[id].pending)
    && (c'.sources[id].pending ==> c'.enable[id] && id < cfg.numIds)
    && (c'.sources[id].claimed <==> id !in off && c.sources[id].claimed)
    && (id == 0 ==> !c'.enable[id])
  }

  lemma SwitchOutcome(cfg: Config, c: Context, w: nat, val: nat, level: seq<bool>, priority: seq<nat>, id: nat)
    requires |c.sources| == |c.enable| == |level| == |priority| && id < |c.enable| && Gated(cfg, c)
    requires level[id] ==> id < cfg.numIds
    ensures Outcome(cfg, c, Switch(c, w, val, level, priority), Off(w, val), id)
  {
    SwitchAt(c, w, val, level, priority, id);
    if 32 * w <= id < 32 * w + 32 {
      SwitchedGated(c.sources[id], c.enable[id], NewBit(w, val, id - 32 * w), level[id], priority[id]);
    }
  }

  lemma SwitchKeeps(cfg: Config, s: State, k: nat, c: Context, off: set<nat>)
    requires Inv(cfg, s) && k < |s.contexts| && |c.enable| == |c.sources| == 32 * cfg.words
    requires forall id :: 0 <= id < |c.sources| ==> Outcome(cfg, s.contexts[k], c, off, id)
    ensures Inv(cfg, Updated(cfg, s, k, c, s.log + [Disabled(k, off)]))
  {
    forall id | 0 <= id < |c.sources|
      ensures c.sources[id].claimed == (!Releases(Disabled(k, off), k, id) && s.contexts[k].sources[id].claimed)
    {
      assert Outcome(cfg, s.contexts[k], c, off, id);
    }
    assert Gated(cfg, c) by {
      forall id | 0 <= id < |c.sources|
        ensures (c.sources[id].claimed ==> c.sources[id].pending)
                && (c.sources[id].pending ==> c.enable[id] && id < cfg.numIds)
      {
        assert Outcome(cfg, s.contexts[k], c, off, id);
      }
      assert Outcome(cfg, s.contexts[k], c, off, 0);
    }
    UpdateKeeps(cfg, s, k, c, Disabled(k, off));
  }

  lemma EnableKeeps(cfg: Config, s: State, k: nat, w: nat, val: nat)
    requires Inv(cfg, s) && k < |s.contexts|
    ensures Inv(cfg, EnableWritten(cfg, s, k, w, val))
  {
    if w < cfg.words {
      var c := s.contexts[k];
      var c' := Switch(c, w, val, s.level, s.priority);
      assert ContextOk(cfg, c, s.wires[k], s.log, k);
      forall id | 0 <= id < |c'.sources| ensures Outcome(cfg, c, c', Off(w, val), id) {
        SwitchOutcome(cfg, c, w, val, s.level, s.priority, id);
      }
      SwitchKeeps(cfg, s, k, c', Off(w, val));
    }
  }

  lemma CompleteKeeps(cfg: Config, s: State, k: nat, val: nat)
    requires Inv(cfg, s) && k < |s.contexts|
    ensures Inv(cfg, ClaimWritten(cfg, s, k, val))
  {
    if val < cfg.numIds && s.contexts[k].enable[val] {
      assert ContextOk(cfg, s.contexts[k], s.wires[k], s.log, k);
      UpdateKeeps(cfg, s, k, Unclaimed(s.contexts[k], val), Completed(k, val));
    }
  }

  lemma ThresholdKeeps(cfg: Config, s: State, k: nat, val: nat)
    requires Inv(cfg, s) && k < |s.contexts|
    ensures Inv(cfg, ThresholdWritten(cfg, s, k, val))
  {
    var s' := ThresholdWritten(cfg, s, k, val);
    forall j | 0 <= j < |s.contexts| ensures ContextOk(cfg, s'.contexts[j], s.wires[j], s.log, j) {
      assert ContextOk(cfg, s.contexts[j], s.wires[j], s.log, j);
      SameBest(s.contexts[j], s'.contexts[j], cfg.numIds);
    }
  }

  lemma PriorityKeeps(cfg: Config, s: State, id: nat, val: nat)
    requires Inv(cfg, s)
    ensures Inv(cfg, PriorityWritten(cfg, s, id, val))
  {
    var s' := PriorityWritten(cfg, s, id, val);
    forall j | 0 <= j < |s.contexts| ensures ContextOk(cfg, s'.contexts[j], s.wires[j], s.log, j) {
      assert ContextOk(cfg, s.contexts[j], s.wires[j], s.log, j);
    }
  }

  lemma {:induction false} SameBest(c: Context, c': Context, n: nat)
    requires n <= |c.sources| && c'.sources == c.sources
    ensures Best(c', n) == Best(c, n)
  {
    if n > 0 { SameBest(c, c', n - 1); }
  }

  // As in Arith, a name and one step of the definition.

  /** `n` claims in a row. */
  function Claims(cfg: Config, s: State, k: nat, n: nat): (s': State)
    requires Inv(cfg, s) && k < |s.contexts|
    ensures Inv(cfg, s')
    decreases n, 1
  {
    ClaimsStep(cfg, s, k, n)
  }

  function ClaimsStep(cfg: Config, s: State, k: nat, n: nat): (s': State)
    requires Inv(cfg, s) && k < |s.contexts|
    ensures Inv(cfg, s')
    decreases n, 0
  {
    if n == 0 then s else ClaimKeeps(cfg, s, k); Claims(cfg, ClaimMade(cfg, s, k), k, n - 1)
  }

  lemma NoClaims(cfg: Config, s: State, k: nat)
    requires Inv(cfg, s) && k < |s.contexts|
    ensures Claims(cfg, s, k, 0) == s
  {
    assert Claims(cfg, s, k, 0) == ClaimsStep(cfg, s, k, 0);
  }

  lemma ClaimsUnfold(cfg: Config, s: State, s': State, k: nat, n: nat)
    requires Inv(cfg, s) && k < |s.contexts| && n > 0 && Inv(cfg, s') && k < |s'.contexts| && s' == ClaimMade(cfg, s, k)
    ensures Claims(cfg, s, k, n) == Claims(cfg, s', k, n - 1)
  {
    assert Claims(cfg, s, k, n) == ClaimsStep(cfg, s, k, n);
  }

  function ClaimEntries(k: nat, ids: seq<nat>): seq<Entry> {
    if ids == [] then [] else [Claimed(k, ids[0])] + ClaimEntries(k, ids[1..])
  }

  lemma EntriesJoin(log: seq<Entry>, k: nat, b: nat, rest: seq<nat>)
    ensures log + [Claimed(k, b)] + ClaimEntries(k, rest) == log + ClaimEntries(k, [b] + rest)
  {
    assert ([b] + rest)[1..] == rest;
  }

  /**
    With no other event, as many claims as there are sources to claim return them in the order of `Drain`; further
    ones return 0.
   */
  lemma {:induction false} ClaimsDrain(cfg: Config, s: State, k: nat, n: nat)
    requires Inv(cfg, s) && k < |s.contexts| && !Candidate(s.contexts[k], 0)
    requires n >= |Drain(s.contexts[k], cfg.numIds)|
    ensures Claims(cfg, s, k, n).log == s.log + ClaimEntries(k, Drain(s.contexts[k], cfg.numIds))
    decreases n
  {
    var c := s.contexts[k];
    var b := Best(c, cfg.numIds);
    if n == 0 {
      NoClaims(cfg, s, k);
    } else {
      ClaimKeeps(cfg, s, k);
      var s' := ClaimMade(cfg, s, k);
      ClaimsUnfold(cfg, s, s', k, n);
      if b == 0 {
        assert s'.contexts[k] == c;
        ClaimsDrain(cfg, s', k, n - 1);
      } else {
        var rest := Drain(ClaimedIn(c, b), cfg.numIds);
        assert Drain(c, cfg.numIds) == [b] + rest;
        ClaimsDrain(cfg, s', k, n - 1);
        EntriesJoin(s.log, k, b, rest);
      }
    }
  }

  // ---------------------------------------------------------------- whole runs

  datatype Event =
    | Irq(id: nat, active: bool)
    | Claim(k: nat)
    | Complete(k: nat, val: nat)
    | Enable(k: nat, word: nat, val: nat)
    | Threshold(k: nat, val: nat)
    | Priority(id: nat, val: nat)

  /** One event; one for a source or a context that does not exist does not occur. */
  function Applied(cfg: Config, s: State, e: Event): State
    requires Shaped(cfg, s)
  {
    match e
    case Irq(id, active) => if id < cfg.numIds then IrqSynced(cfg, s, id, active) else s
    case Claim(k) => if k < |s.contexts| then ClaimMade(cfg, s, k) else s
    case Complete(k, val) => if k < |s.contexts| then ClaimWritten(cfg, s, k, val) else s
    case Enable(k, w, val) => if k < |s.contexts| then EnableWritten(cfg, s, k, w, val) else s
    case Threshold(k, val) => if k < |s.contexts| then ThresholdWritten(cfg, s, k, val) else s
    case Priority(id, val) => PriorityWritten(cfg, s, id, val)
  }

  lemma ApplyKeeps(cfg: Config, s: State, e: Event)
    requires Inv(cfg, s)
    ensures Inv(cfg, Applied(cfg, s, e))
  {
    match e
    case Irq(id, active) => if id < cfg.numIds { IrqKeeps(cfg, s, id, active); }
    case Claim(k) => if k < |s.contexts| { ClaimKeeps(cfg, s, k); }
    case Complete(k, val) => if k < |s.contexts| { CompleteKeeps(cfg, s, k, val); }
    case Enable(k, w, val) => if k < |s.contexts| { EnableKeeps(cfg, s, k, w, val); }
    case Threshold(k, val) => if k < |s.contexts| { ThresholdKeeps(cfg, s, k, val); }
    case Priority(id, val) => PriorityKeeps(cfg, s, id, val);
  }

  function Step(cfg: Config, s: State, e: Event): (s': State)
    requires Inv(cfg, s)
    ensures Inv(cfg, s') && |s'.contexts| == |s.contexts|
  {
    ApplyKeeps(cfg, s, e);
    SameContexts(cfg, s, e);
    Applied(cfg, s, e)
  }

  lemma SameContexts(cfg: Config, s: State, e: Event)
    requires Shaped(cfg, s)
    ensures |Applied(cfg, s, e).contexts| == |s.contexts|
  {}

  function Run(cfg: Config, events: seq<Event>): (s: State)
    requires ValidConfig(cfg)
    ensures Inv(cfg, s)
    decreases |events|, 1
  {
    RunStep(cfg, events)
  }

  // As in Arith, a name and one step of the definition.
  function RunStep(cfg: Config, events: seq<Event>): (s: State)
    requires ValidConfig(cfg)
    ensures Inv(cfg, s)
    decreases |events|, 0
  {
    if events == [] then InitialInv(cfg); Initial(cfg)
    else Step(cfg, Run(cfg, events[..|events| - 1]), events[|events| - 1])
  }

  lemma RunEmpty(cfg: Config)
    requires ValidConfig(cfg)
    ensures Run(cfg, []) == Initial(cfg)
  {
    assert Run(cfg, []) == RunStep(cfg, []);
  }

  lemma RunOneMore(cfg: Config, events: seq<Event>, e: Event)
    requires ValidConfig(cfg)
    ensures Run(cfg, events + [e]) == Applied(cfg, Run(cfg, events), e)
  {
    assert (events + [e])[..|events|] == events;
    assert Run(cfg, events + [e]) == RunStep(cfg, events + [e]);
  }

  /** Two claims of one source by one context have a release between them. */
  lemma {:induction false} ReleasedBetween(log: seq<Entry>, i: nat, j: nat, k: nat, id: nat)
    requires Exclusive(log) && i < j < |log| && log[i] == log[j] == Claimed(k, id)
    ensures exists m :: i < m < j && Releases(log[m], k, id)
  {
    if j < |log| - 1 {
      ReleasedBetween(log[..|log| - 1], i, j, k, id);
    } else {
      NotHeld(log[..j], i, k, id);
    }
  }

  lemma {:induction false} NotHeld(log: seq<Entry>, i: nat, k: nat, id: nat)
    requires i < |log| && log[i] == Claimed(k, id) && !Held(log, k, id)
    ensures exists m :: i < m < |log| && Releases(log[m], k, id)
  {
    var n := |log| - 1;
    if !Releases(log[n], k, id) {
      NotHeld(log[..n], i, k, id);
      var m :| i < m < n && Releases(log[..n][m], k, id);
      assert Releases(log[m], k, id);
    }
  }

  /**
    Any run: in each context what is claimed is pending and what is pending is enabled, its wire shows
    whether a pending source is unclaimed, and no source is claimed twice without a completion, a drop of
    its line or a disable in between.
   */
  lemma AnyRun(cfg: Config, events: seq<Event>, k: nat, i: nat, j: nat)
    requires ValidConfig(cfg)
    ensures var s := Run(cfg, events);
            && (k < |s.contexts| ==>
                  && Gated(cfg, s.contexts[k])
                  && s.wires[k] == exists id :: 0 <= id < |s.contexts[k].sources| && Candidate(s.contexts[k], id))
            && (i < j < |s.log| && s.log[i] == s.log[j] && s.log[i].Claimed? ==>
                  exists m :: i < m < j && Releases(s.log[m], s.log[i].k, s.log[i].id))
  {
    var s := Run(cfg, events);
    if k < |s.contexts| {
      assert ContextOk(cfg, s.contexts[k], s.wires[k], s.log, k);
      BestIsFirst(s.contexts[k], cfg.numIds);
    }
    if i < j < |s.log| && s.log[i] == s.log[j] && s.log[i].Claimed? {
      ReleasedBetween(s.log, i, j, s.log[i].k, s.log[i].id);
    }
  }
}
