/** The crossbar component. */
module LogIcoV2 {
  import opened Arith
  import opened Bits
  import opened IoV2
  import opened LogIcoSpec
  import opened LogIcoRuns

  /** Finds the first pending input at or after `rrNext` by rotating the mask and counting its trailing zeros. */
  method PickWinner(mask: nat, rrNext: nat, nb: nat) returns (w: nat)
    requires rrNext < nb <= 64 && exists j :: 0 <= j < nb && Bit(mask, j)
    ensures w == Winner(mask, rrNext, nb, 0)
  {
    var valid := Pow2(nb) - 1;
    var m := And(mask, valid);
    var rotated;
    if rrNext == 0 {
      rotated := m;
    } else {
      rotated := And(Or(Shr(m, rrNext), Low(Shl(m, nb - rrNext), 64)), valid);
    }
    ghost var j :| 0 <= j < nb && Bit(mask, j);
    RotateAndCount(mask, rrNext, nb, j);
    var rel := Ctz(rotated);
    w := Rem(rrNext + rel, nb);
    QuotUnfold(rrNext + rel, nb);
    if rrNext + rel >= nb { QuotUnfold(rrNext + rel - nb, nb); }
  }

  class LogIco {
    const cfg: Config
    var st: State
    var inElection: bool

    ghost predicate Valid()
      reads this
    {
      Inv(cfg, st) && !inElection
    }

    constructor (cfg: Config)
      requires ValidConfig(cfg)
      ensures Valid() && st == Initial(cfg) && this.cfg == cfg
    {
      this.cfg := cfg;
      st := Initial(cfg);
      inElection := false;
      InitialInv(cfg);
    }

    /** A request arrives: outside of an election it is denied and noted, within one it is passed on. */
    method InputReq(id: nat, addr: nat) returns (status: ReqStatus)
      requires Shaped(cfg, st) && id < cfg.nbMasters
      modifies this
      ensures inElection == old(inElection)
      ensures if inElection
              then
                var forward := Forward(id, DecodeBank(cfg, addr), DecodeOffset(cfg, addr));
                status == Done && st == old(st).(forwarded := old(st).forwarded + [forward])
              else status == Denied && st == Noted(cfg, old(st), id, addr)
    {
      DecodeParts(cfg, addr);
      var b := DecodeBank(cfg, addr);
      if inElection {
        st := st.(forwarded := st.forwarded + [Forward(id, b, DecodeOffset(cfg, addr))]);
        return Done;
      }
      st := st.(banks := st.banks[b := st.banks[b].(mask := SetBit(st.banks[b].mask, id))], armed := true);
      st := st.(wants := st.wants[id := Some(addr)]);
      return Denied;
    }

    /** A master that has nothing pending asks. */
    method Request(id: nat, addr: nat) returns (status: ReqStatus)
      requires Valid() && id < cfg.nbMasters && st.wants[id].None?
      modifies this
      ensures Valid() && status == Denied && st == Noted(cfg, old(st), id, addr)
    {
      NoteKeeps(cfg, st, id, addr);
      status := InputReq(id, addr);
    }

    /** The elected master asks again for what it was denied. */
    method Retry(id: nat)
      requires Shaped(cfg, st) && id < cfg.nbMasters && inElection && st.wants[id].Some?
      modifies this
      ensures inElection
      ensures var a := old(st).wants[id].value;
              st == old(st).(wants := old(st).wants[id := None],
                             forwarded := old(st).forwarded + [Forward(id, DecodeBank(cfg, a), DecodeOffset(cfg, a))])
    {
      var addr := st.wants[id].value;
      st := st.(wants := st.wants[id := None]);
      var status := InputReq(id, addr);
    }

    /** Bank `b` holds its election. */
    method Elect(b: nat)
      requires Noticed(cfg, st) && b < |st.banks| && inElection
      modifies this
      ensures inElection && st == Elected(cfg, old(st), b)
    {
      if st.banks[b].mask == 0 {
        return;
      }
      ElectWinner(cfg, st, b);
      PendingBit(cfg, st, b);
      var winner := PickWinner(st.banks[b].mask, st.banks[b].rrNext, cfg.nbMasters);
      var next := Rem(winner + 1, cfg.nbMasters);
      QuotUnfold(winner + 1, cfg.nbMasters);
      if winner + 1 >= cfg.nbMasters { QuotUnfold(winner + 1 - cfg.nbMasters, cfg.nbMasters); }
      st := st.(banks := st.banks[b := Bank(ClearBit(st.banks[b].mask, winner, 64), next)]);
      Retry(winner);
    }

    /** The arbitration event fires: every bank with pending inputs serves one, and the rest wait for the next round. */
    method FsmHandler()
      requires Valid() && st.armed
      modifies this
      ensures Valid() && st == Round(cfg, old(st))
    {
      RoundKeeps(cfg, st);
      SameMasks(cfg, st, st.(armed := false));
      inElection := true;
      st := st.(armed := false);
      ElectAll();
      inElection := false;
      var waiting := exists b :: 0 <= b < |st.banks| && st.banks[b].mask != 0;
      if waiting {
        st := st.(armed := true);
      }
    }

    method ElectAll()
      requires Noticed(cfg, st) && inElection && !st.armed
      modifies this
      ensures inElection && st == ElectedFrom(cfg, old(st), 0) && !st.armed
    {
      ghost var end := ElectedFrom(cfg, st, 0);
      var b := 0;
      while b < |st.banks|
        invariant 0 <= b <= |st.banks| && inElection && Electing(cfg, st, b, end)
      {
        ElectOn(cfg, st, b, end);
        Elect(b);
        b := b + 1;
      }
    }
  }

  /** The elections from bank `b` on lead to `end`. */
  ghost predicate Electing(cfg: Config, s: State, b: nat, end: State) {
    Noticed(cfg, s) && b <= |s.banks| && !s.armed && ElectedFrom(cfg, s, b) == end
  }

  lemma ElectOn(cfg: Config, s: State, b: nat, end: State)
    requires Electing(cfg, s, b, end) && b < |s.banks|
    ensures Electing(cfg, Elected(cfg, s, b), b + 1, end) && |Elected(cfg, s, b).banks| == |s.banks|
  {
    ElectKeeps(cfg, s, b);
  }

  lemma PendingBit(cfg: Config, s: State, b: nat)
    requires Noticed(cfg, s) && b < |s.banks| && s.banks[b].mask != 0
    ensures exists j :: 0 <= j < cfg.nbMasters && Bit(s.banks[b].mask, j)
  {
    assert MaskOk(cfg, s, b);
    CtzIsFirst(s.banks[b].mask, 0);
    assert Bit(s.banks[b].mask, Ctz(s.banks[b].mask));
  }
}
