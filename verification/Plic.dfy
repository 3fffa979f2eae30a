/** The interrupt controller component. */
module Plic {
  import opened Bits
  import opened IoV2
  import opened PlicSpec

  const CONTEXT_THRESHOLD := 0
  const CONTEXT_CLAIM_OFFSET := 4

  class Controller {
    const cfg: Config
    var st: State

    ghost predicate Valid()
      reads this
    {
      Inv(cfg, st)
    }

    constructor (cfg: Config)
      requires ValidConfig(cfg)
      ensures Valid() && st == Initial(cfg) && this.cfg == cfg
    {
      this.cfg := cfg;
      st := Initial(cfg);
      InitialInv(cfg);
    }

    /** Scans the pending words, skipping empty ones. */
    method ContextBestPending(c: Context) returns (best: nat)
      requires ValidConfig(cfg) && |c.sources| == 32 * cfg.words
      ensures best == Best(c, cfg.numIds)
    {
      var bestPrio := 0;
      best := 0;
      var i := 0;
      while i < cfg.words
        invariant 0 <= i <= cfg.words && best == Best(c, Min(32 * i, cfg.numIds))
        invariant best != 0 ==> bestPrio == c.sources[best].prio
      {
        var word := c.sources[32 * i..32 * i + 32];
        if forall j :: 0 <= j < 32 ==> !word[j].pending {
          forall id | 32 * i <= id < 32 * i + 32 ensures !c.sources[id].pending { assert !word[id - 32 * i].pending; }
          NoneInWord(c, Min(32 * i, cfg.numIds), Min(32 * (i + 1), cfg.numIds));
        } else {
          best, bestPrio := ScanWord(c, i, best, bestPrio);
        }
        i := i + 1;
      }
    }

    /** Scans the bits of one word. */
    method ScanWord(c: Context, i: nat, best0: nat, bestPrio0: nat) returns (best: nat, bestPrio: nat)
      requires ValidConfig(cfg) && |c.sources| == 32 * cfg.words && i < cfg.words
      requires best0 == Best(c, Min(32 * i, cfg.numIds)) && (best0 != 0 ==> bestPrio0 == c.sources[best0].prio)
      ensures best == Best(c, Min(32 * (i + 1), cfg.numIds)) && (best != 0 ==> bestPrio == c.sources[best].prio)
    {
      best, bestPrio := best0, bestPrio0;
      var j := 0;
      while j < 32
        invariant 0 <= j <= 32 && best == Best(c, Min(32 * i + j, cfg.numIds))
        invariant best != 0 ==> bestPrio == c.sources[best].prio
      {
        var id := 32 * i + j;
        if !(cfg.numIds <= id || !c.sources[id].pending || c.sources[id].claimed) {
          if best == 0 || bestPrio < c.sources[id].prio {
            best := id;
            bestPrio := c.sources[id].prio;
          }
        }
        j := j + 1;
      }
    }

    lemma {:induction false} NoneInWord(c: Context, m: nat, n: nat)
      requires m <= n <= |c.sources| && forall id :: m <= id < n ==> !c.sources[id].pending
      ensures Best(c, n) == Best(c, m)
    {
      if m < n { NoneInWord(c, m, n - 1); }
    }

    /** The context's wire shows whether there is a source to claim. */
    method ContextUpdate(k: nat)
      requires Shaped(cfg, st) && k < |st.contexts|
      modifies this
      ensures st == Updated(cfg, old(st), k, old(st).contexts[k], old(st).log)
    {
      var best := ContextBestPending(st.contexts[k]);
      st := st.(wires := st.wires[k := best != 0]);
      assert st.contexts == old(st).contexts[k := st.contexts[k]];
    }

    /** A read of the claim register. */
    method ContextClaim(k: nat) returns (id: nat)
      requires Valid() && k < |st.contexts|
      modifies this
      ensures Valid() && st == ClaimMade(cfg, old(st), k) && id == Best(old(st).contexts[k], cfg.numIds)
    {
      ClaimKeeps(cfg, st, k);
      id := ContextBestPending(st.contexts[k]);
      if id != 0 {
        var src := st.contexts[k].sources[id].(claimed := true);
        st := st.(contexts := st.contexts[k := st.contexts[k].(sources := st.contexts[k].sources[id := src])],
                  log := st.log + [Claimed(k, id)]);
      }
      ContextUpdate(k);
    }

    /** A line of the controller changes: the first context that has it enabled takes note, and no other. */
    method IrqSync(active: bool, port: nat)
      requires Valid() && port + 1 < cfg.numIds
      modifies this
      ensures Valid() && st == IrqSynced(cfg, old(st), port + 1, active)
    {
      var id := port + 1;
      IrqKeeps(cfg, st, id, active);
      st := st.(level := st.level[id := active]);
      var i := 0;
      while i < |st.contexts|
        invariant 0 <= i <= |st.contexts| && st == old(st).(level := old(st).level[id := active])
        invariant FirstEnabled(st.contexts, id, i) == FirstEnabled(st.contexts, id, 0)
      {
        if st.contexts[i].enable[id] {
          TakeNote(i, id, active);
          return;
        }
        i := i + 1;
      }
    }

    method TakeNote(k: nat, id: nat, active: bool)
      requires Shaped(cfg, st) && k < |st.contexts| && id < cfg.numIds
      modifies this
      ensures st == Updated(cfg, old(st), k, LineIn(old(st).contexts[k], id, active, old(st).priority[id]),
                            if active then old(st).log else old(st).log + [Dropped(k, id)])
    {
      var sources := st.contexts[k].sources;
      if active {
        sources := sources[id := sources[id].(pending := true, prio := st.priority[id])];
      } else {
        sources := sources[id := Source(false, 0, false)];
        st := st.(log := st.log + [Dropped(k, id)]);
      }
      st := st.(contexts := st.contexts[k := st.contexts[k].(sources := sources)]);
      ContextUpdate(k);
    }

    /** A write to word `w` of a context's enable bits. */
    method ContextEnableWrite(k: nat, offset: nat, val: nat)
      requires Valid() && k < |st.contexts|
      modifies this
      ensures Valid() && st == EnableWritten(cfg, old(st), k, offset / 4, val)
    {
      var w := offset / 4;
      EnableKeeps(cfg, st, k, w, val);
      if w >= cfg.words {
        return;
      }
      var c := SwitchWord(st.contexts[k], w, val);
      st := st.(contexts := st.contexts[k := c], log := st.log + [Disabled(k, Off(w, val))]);
      ContextUpdate(k);
    }

    /** Sets the enable bits of one word, and updates the sources whose bits change. */
    method SwitchWord(c: Context, w: nat, val: nat) returns (r: Context)
      requires w < cfg.words && |c.sources| == |c.enable| == |st.level| == |st.priority| == 32 * cfg.words
      ensures r == Switch(c, w, val, st.level, st.priority)
    {
      var enable := c.enable[..32 * w] + seq(32, i requires 0 <= i < 32 => NewBit(w, val, i)) + c.enable[32 * w + 32..];
      var sources := c.sources;
      var i := 0;
      while i < 32
        invariant 0 <= i <= 32 && |sources| == |c.sources|
        invariant forall id :: 0 <= id < |sources| ==>
                    sources[id] == if 32 * w <= id < 32 * w + i
                                   then Switched(c.sources[id], c.enable[id], NewBit(w, val, id - 32 * w), st.level[id],
                                                 st.priority[id])
                                   else c.sources[id]
      {
        var id := 32 * w + i;
        var newVal := enable[id];
        if newVal != c.enable[id] {
          if newVal && st.level[id] {
            sources := sources[id := sources[id].(pending := true, prio := st.priority[id])];
          } else if !newVal {
            sources := sources[id := Source(false, 0, false)];
          }
        }
        i := i + 1;
      }
      r := c.(enable := enable, sources := sources);
      assert r.enable == Switch(c, w, val, st.level, st.priority).enable;
    }

    /** A write to the claim register completes a source, if it is enabled. */
    method ContextComplete(k: nat, val: nat)
      requires Valid() && k < |st.contexts|
      modifies this
      ensures Valid() && st == ClaimWritten(cfg, old(st), k, val)
    {
      CompleteKeeps(cfg, st, k, val);
      if val < cfg.numIds && st.contexts[k].enable[val] {
        var src := st.contexts[k].sources[val].(claimed := false);
        st := st.(contexts := st.contexts[k := st.contexts[k].(sources := st.contexts[k].sources[val := src])],
                  log := st.log + [Completed(k, val)]);
        ContextUpdate(k);
      }
    }

    /** A write to a context's threshold or claim register. */
    method ContextWrite(k: nat, offset: nat, val: nat) returns (ok: bool)
      requires Valid() && k < |st.contexts|
      modifies this
      ensures Valid() && ok == (offset == CONTEXT_THRESHOLD || offset == CONTEXT_CLAIM_OFFSET)
      ensures st == if offset == CONTEXT_THRESHOLD then ThresholdWritten(cfg, old(st), k, val)
                    else if offset == CONTEXT_CLAIM_OFFSET then ClaimWritten(cfg, old(st), k, val)
                    else old(st)
    {
      if offset == CONTEXT_THRESHOLD {
        // A masked value never exceeds the highest priority.
        ThresholdKeeps(cfg, st, k, val);
        st := st.(contexts := st.contexts[k := st.contexts[k].(threshold := Low(val, cfg.prioBits))]);
        return true;
      }
      if offset == CONTEXT_CLAIM_OFFSET {
        ContextComplete(k, val);
        return true;
      }
      WireUpToDate(cfg, st, k);
      ContextUpdate(k);
      ok := false;
    }

    method PriorityWrite(offset: nat, val: nat)
      requires Valid()
      modifies this
      ensures Valid() && st == PriorityWritten(cfg, old(st), offset / 4, val)
    {
      PriorityKeeps(cfg, st, offset / 4, val);
      if 0 < offset / 4 < cfg.numIds {
        st := st.(priority := st.priority[offset / 4 := Low(val, cfg.prioBits)]);
      }
    }
  }

  /** Updating a wire that is already right changes nothing. */
  lemma WireUpToDate(cfg: Config, s: State, k: nat)
    requires Inv(cfg, s) && k < |s.contexts|
    ensures Updated(cfg, s, k, s.contexts[k], s.log) == s
  {
    assert ContextOk(cfg, s.contexts[k], s.wires[k], s.log, k);
    assert s.contexts[k := s.contexts[k]] == s.contexts && s.wires[k := s.wires[k]] == s.wires;
  }
}
