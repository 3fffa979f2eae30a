/** The crossbar's arbitration rounds, and who is served in every run. */
module LogIcoRuns {
  import opened Bits
  import opened IoV2
  import opened LogIcoSpec

  datatype Bank = Bank(mask: nat, rrNext: nat)

  datatype Forward = Forward(input: nat, bank: nat, offset: nat)

  /** `wants[i]` is the address input `i` was denied and will ask for again. */
  datatype State = State(banks: seq<Bank>, armed: bool, wants: seq<Option<nat>>, forwarded: seq<Forward>)

  function Initial(cfg: Config): State {
    State(seq(Pow2(cfg.slaveBits), b => Bank(0, 0)), false, seq(cfg.nbMasters, i => None), [])
  }

  // ---------------------------------------------------------------- steps

  ghost predicate Shaped(cfg: Config, s: State) {
    && ValidConfig(cfg) && |s.banks| == Pow2(cfg.slaveBits) && |s.wants| == cfg.nbMasters
    && (forall b :: 0 <= b < |s.banks| ==> s.banks[b].rrNext < cfg.nbMasters)
  }

  /** Input `id` asks for an address outside of an election: it is denied and noted. */
  function Noted(cfg: Config, s: State, id: nat, addr: nat): State
    requires Shaped(cfg, s) && id < cfg.nbMasters
  {
    DecodeParts(cfg, addr);
    var b := DecodeBank(cfg, addr);
    s.(banks := s.banks[b := s.banks[b].(mask := SetBit(s.banks[b].mask, id))], wants := s.wants[id := Some(addr)],
       armed := true)
  }

  /** Bank `b` elects an input, which asks again and is served. */
  function Elected(cfg: Config, s: State, b: nat): (s': State)
    requires Shaped(cfg, s) && b < |s.banks|
    ensures Shaped(cfg, s')
  {
    var bank := s.banks[b];
    if bank.mask == 0 then s
    else
      var w := Winner(bank.mask, bank.rrNext, cfg.nbMasters, 0);
      if w >= cfg.nbMasters || s.wants[w].None? then s
      else
        s.(banks := s.banks[b := Bank(ClearBit(bank.mask, w, 64), Around(w, 1, cfg.nbMasters))],
           wants := s.wants[w := None], forwarded := s.forwarded + [Forward(w, b, DecodeOffset(cfg, s.wants[w].value))])
  }

  /** The banks from bank `b` on hold their elections. */
  function ElectedFrom(cfg: Config, s: State, b: nat): (s': State)
    requires Shaped(cfg, s) && b <= |s.banks|
    ensures Shaped(cfg, s')
    decreases |s.banks| - b
  {
    if b == |s.banks| then s else ElectedFrom(cfg, Elected(cfg, s, b), b + 1)
  }

  predicate Waiting(s: State) {
    exists b :: 0 <= b < |s.banks| && s.banks[b].mask != 0
  }

  /** One round: every bank with pending inputs serves one of them. */
  function Round(cfg: Config, s: State): State
    requires Shaped(cfg, s)
  {
    var s1 := ElectedFrom(cfg, s.(armed := false), 0);
    s1.(armed := Waiting(s1))
  }

  // ---------------------------------------------------------------- the invariant

  /** Bit `i` of a bank's mask says whether input `i` wants that bank. */
  predicate WantsBank(cfg: Config, want: Option<nat>, b: nat) {
    want.Some? && DecodeBank(cfg, want.value) == b
  }

  ghost predicate MaskOk(cfg: Config, s: State, b: nat)
    requires b < |s.banks|
  {
    forall i: nat :: Bit(s.banks[b].mask, i) == (i < |s.wants| && WantsBank(cfg, s.wants[i], b))
  }

  ghost predicate Noticed(cfg: Config, s: State) {
    Shaped(cfg, s) && (forall b :: 0 <= b < |s.banks| ==> MaskOk(cfg, s, b))
  }

  /** Whoever waits is noted at its bank, and a round is scheduled. */
  ghost predicate Inv(cfg: Config, s: State) {
    Noticed(cfg, s) && (Waiting(s) ==> s.armed)
  }

  lemma InitialInv(cfg: Config)
    requires ValidConfig(cfg)
    ensures Inv(cfg, Initial(cfg))
  {
    forall i: nat ensures !Bit(0, i) { BitZero(i); }
  }

  lemma NoteKeeps(cfg: Config, s: State, id: nat, addr: nat)
    requires Inv(cfg, s) && id < cfg.nbMasters && s.wants[id].None?
    ensures Inv(cfg, Noted(cfg, s, id, addr))
  {
    var s' := Noted(cfg, s, id, addr);
    DecodeParts(cfg, addr);
    forall b | 0 <= b < |s'.banks| ensures MaskOk(cfg, s', b) {
      assert MaskOk(cfg, s, b);
      forall i: nat ensures Bit(s'.banks[b].mask, i) == (i < |s'.wants| && WantsBank(cfg, s'.wants[i], b)) {
        assert Bit(s.banks[b].mask, i) == (i < |s.wants| && WantsBank(cfg, s.wants[i], b));
        SetBitBits(s.banks[b].mask, id, i);
      }
    }
  }

  /** A bank with a pending input elects one that wants it. */
  lemma ElectWinner(cfg: Config, s: State, b: nat)
    requires Noticed(cfg, s) && b < |s.banks| && s.banks[b].mask != 0
    ensures var w := Winner(s.banks[b].mask, s.banks[b].rrNext, cfg.nbMasters, 0);
            w < cfg.nbMasters && WantsBank(cfg, s.wants[w], b)
  {
    var mask := s.banks[b].mask;
    assert MaskOk(cfg, s, b);
    CtzIsFirst(mask, 0);
    assert Bit(mask, Ctz(mask));
    WinnerIsFirst(mask, s.banks[b].rrNext, cfg.nbMasters, Ctz(mask));
  }

  lemma ElectKeeps(cfg: Config, s: State, b: nat)
    requires Noticed(cfg, s) && b < |s.banks|
    ensures Noticed(cfg, Elected(cfg, s, b))
  {
    if s.banks[b].mask != 0 {
      ElectWinner(cfg, s, b);
      var s' := Elected(cfg, s, b);
      var w := Winner(s.banks[b].mask, s.banks[b].rrNext, cfg.nbMasters, 0);
      forall c | 0 <= c < |s'.banks| ensures MaskOk(cfg, s', c) {
        assert MaskOk(cfg, s, c);
        forall i: nat ensures Bit(s'.banks[c].mask, i) == (i < |s'.wants| && WantsBank(cfg, s'.wants[i], c)) {
          assert Bit(s.banks[c].mask, i) == (i < |s.wants| && WantsBank(cfg, s.wants[i], c));
          ClearBitBits(s.banks[c].mask, w, 64, i);
        }
      }
    }
  }

  lemma {:induction false} ElectFromKeeps(cfg: Config, s: State, b: nat)
    requires Noticed(cfg, s) && b <= |s.banks|
    ensures Noticed(cfg, ElectedFrom(cfg, s, b))
    decreases |s.banks| - b
  {
    if b < |s.banks| {
      ElectKeeps(cfg, s, b);
      ElectFromKeeps(cfg, Elected(cfg, s, b), b + 1);
    }
  }

  lemma SameMasks(cfg: Config, s: State, s': State)
    requires Noticed(cfg, s) && s'.banks == s.banks && s'.wants == s.wants
    ensures Noticed(cfg, s')
  {
    forall b | 0 <= b < |s.banks| ensures MaskOk(cfg, s', b) {
      assert MaskOk(cfg, s, b);
    }
  }

  lemma RoundKeeps(cfg: Config, s: State)
    requires Inv(cfg, s)
    ensures Inv(cfg, Round(cfg, s))
  {
    SameMasks(cfg, s, s.(armed := false));
    ElectFromKeeps(cfg, s.(armed := false), 0);
    SameMasks(cfg, ElectedFrom(cfg, s.(armed := false), 0), Round(cfg, s));
  }

  // ---------------------------------------------------------------- fairness

  /** Input `i` waits for address `addr`, and its bank's scan will reach it in `n` more places. */
  ghost predicate Queued(cfg: Config, s: State, i: nat, addr: nat, n: int)
    requires Shaped(cfg, s)
  {
    && i < cfg.nbMasters && s.wants[i] == Some(addr) && DecodeBank(cfg, addr) < |s.banks|
    && Dist(s.banks[DecodeBank(cfg, addr)].rrNext, i, cfg.nbMasters) == n
  }

  /** Since the first `base` requests were forwarded, one of input `i` for address `addr` has been. */
  ghost predicate Served(cfg: Config, s: State, base: nat, i: nat, addr: nat) {
    exists k :: base <= k < |s.forwarded|
      && s.forwarded[k] == Forward(i, DecodeBank(cfg, addr), DecodeOffset(cfg, addr))
  }

  /** An election elsewhere changes nothing for a waiting input. */
  lemma ElsewhereSame(cfg: Config, s: State, b: nat, i: nat, addr: nat, n: int)
    requires Noticed(cfg, s) && b < |s.banks| && Queued(cfg, s, i, addr, n) && b != DecodeBank(cfg, addr)
    ensures Queued(cfg, Elected(cfg, s, b), i, addr, n)
  {
    if s.banks[b].mask != 0 { ElectWinner(cfg, s, b); }
  }

  /** An election at its bank serves a waiting input, or brings it closer. */
  lemma ElectionHere(cfg: Config, s: State, base: nat, i: nat, addr: nat, n: int)
    requires Noticed(cfg, s) && Queued(cfg, s, i, addr, n) && base <= |s.forwarded|
    ensures var s' := Elected(cfg, s, DecodeBank(cfg, addr));
            Served(cfg, s', base, i, addr) || exists m :: m < n && Queued(cfg, s', i, addr, m)
  {
    var b := DecodeBank(cfg, addr);
    var bank := s.banks[b];
    assert MaskOk(cfg, s, b);
    assert Bit(bank.mask, i);
    BitZero(i);
    ElectWinner(cfg, s, b);
    ElectionBringsCloser(bank.mask, bank.rrNext, cfg.nbMasters, i);
    var w := Winner(bank.mask, bank.rrNext, cfg.nbMasters, 0);
    var s' := Elected(cfg, s, b);
    if w == i {
      assert s'.forwarded[|s.forwarded|] == Forward(i, b, DecodeOffset(cfg, addr));
    } else {
      assert Queued(cfg, s', i, addr, Dist(s'.banks[b].rrNext, i, cfg.nbMasters));
    }
  }

  lemma {:induction false} ForwardsStay(cfg: Config, s: State, b: nat)
    requires Shaped(cfg, s) && b <= |s.banks|
    ensures s.forwarded <= ElectedFrom(cfg, s, b).forwarded
    decreases |s.banks| - b
  {
    if b < |s.banks| { ForwardsStay(cfg, Elected(cfg, s, b), b + 1); }
  }

  /** The elections from bank `b` on: if the input's bank is still among them it is served or comes closer. */
  lemma {:induction false} ElectionsServe(cfg: Config, s: State, base: nat, b: nat, i: nat, addr: nat, n: int)
    requires Noticed(cfg, s) && b <= |s.banks| && Queued(cfg, s, i, addr, n) && base <= |s.forwarded|
    ensures var s' := ElectedFrom(cfg, s, b);
            && (b <= DecodeBank(cfg, addr) ==>
                Served(cfg, s', base, i, addr) || exists m :: m < n && Queued(cfg, s', i, addr, m))
            && (b > DecodeBank(cfg, addr) ==> Queued(cfg, s', i, addr, n))
    decreases |s.banks| - b
  {
    if b < |s.banks| {
      var s1 := Elected(cfg, s, b);
      ElectKeeps(cfg, s, b);
      if b == DecodeBank(cfg, addr) {
        ElectionHere(cfg, s, base, i, addr, n);
        ForwardsStay(cfg, s1, b + 1);
        if !Served(cfg, s1, base, i, addr) {
          var m :| m < n && Queued(cfg, s1, i, addr, m);
          ElectionsServe(cfg, s1, base, b + 1, i, addr, m);
        }
      } else {
        ElsewhereSame(cfg, s, b, i, addr, n);
        ElectionsServe(cfg, s1, base, b + 1, i, addr, n);
      }
    }
  }

  lemma RoundServes(cfg: Config, s: State, base: nat, i: nat, addr: nat, n: int)
    requires Inv(cfg, s) && Queued(cfg, s, i, addr, n) && base <= |s.forwarded|
    ensures Shaped(cfg, Round(cfg, s))
    ensures Served(cfg, Round(cfg, s), base, i, addr) || exists m :: m < n && Queued(cfg, Round(cfg, s), i, addr, m)
  {
    var s0 := s.(armed := false);
    SameMasks(cfg, s, s0);
    ElectionsServe(cfg, s0, base, 0, i, addr, n);
    var s1 := ElectedFrom(cfg, s0, 0);
    if !Served(cfg, s1, base, i, addr) {
      var m :| m < n && Queued(cfg, s1, i, addr, m);
      assert Queued(cfg, Round(cfg, s), i, addr, m);
    }
  }

  // ---------------------------------------------------------------- whole runs

  /** A master asks, or an arbitration round takes place. */
  datatype Event = Ask(id: nat, addr: nat) | Arbitrate

  /** One event; a master that was denied does not ask again of its own accord. */
  function Step(cfg: Config, s: State, e: Event): (s': State)
    requires Inv(cfg, s)
    ensures Inv(cfg, s')
  {
    match e
    case Ask(id, addr) =>
      if id < cfg.nbMasters && s.wants[id].None? then NoteKeeps(cfg, s, id, addr); Noted(cfg, s, id, addr) else s
    case Arbitrate => RoundKeeps(cfg, s); Round(cfg, s)
  }

  function Run(cfg: Config, s: State, events: seq<Event>): (s': State)
    requires Inv(cfg, s)
    ensures Inv(cfg, s')
    decreases |events|
  {
    if events == [] then s else Run(cfg, Step(cfg, s, events[0]), events[1..])
  }

  function Rounds(events: seq<Event>): nat {
    if events == [] then 0 else (if events[0].Arbitrate? then 1 else 0) + Rounds(events[1..])
  }

  lemma {:induction false} ServedStays(cfg: Config, s: State, events: seq<Event>, base: nat, i: nat, addr: nat)
    requires Inv(cfg, s) && Served(cfg, s, base, i, addr)
    ensures Served(cfg, Run(cfg, s, events), base, i, addr)
    decreases |events|
  {
    if events != [] {
      ForwardsStay(cfg, s.(armed := false), 0);
      ServedStays(cfg, Step(cfg, s, events[0]), events[1..], base, i, addr);
    }
  }

  /** An input is served within as many rounds as the scan is places away from it, whatever the others ask for. */
  lemma {:induction false} ServedWithin(cfg: Config, s: State, events: seq<Event>, base: nat, i: nat, addr: nat, n: int)
    requires Inv(cfg, s) && Queued(cfg, s, i, addr, n) && base <= |s.forwarded| && Rounds(events) > n
    ensures Served(cfg, Run(cfg, s, events), base, i, addr)
    decreases |events|
  {
    if events != [] {
      var e, s' := events[0], Step(cfg, s, events[0]);
      match e
      case Ask(id, a) =>
        assert Queued(cfg, s', i, addr, n);
        ServedWithin(cfg, s', events[1..], base, i, addr, n);
      case Arbitrate =>
        ForwardsStay(cfg, s.(armed := false), 0);
        RoundServes(cfg, s, base, i, addr, n);
        if Served(cfg, s', base, i, addr) {
          ServedStays(cfg, s', events[1..], base, i, addr);
        } else {
          var m :| m < n && Queued(cfg, s', i, addr, m);
          ServedWithin(cfg, s', events[1..], base, i, addr, m);
        }
    }
  }

  /**
    No starvation: whatever was served before, an input that is waiting for an address is served at that
    address within the next `nbMasters` rounds, whatever the other masters request.
   */
  lemma Fairness(cfg: Config, s: State, events: seq<Event>, i: nat, addr: nat)
    requires Inv(cfg, s) && i < cfg.nbMasters && s.wants[i] == Some(addr) && Rounds(events) >= cfg.nbMasters
    ensures Served(cfg, Run(cfg, s, events), |s.forwarded|, i, addr)
  {
    DecodeParts(cfg, addr);
    var n := Dist(s.banks[DecodeBank(cfg, addr)].rrNext, i, cfg.nbMasters);
    ServedWithin(cfg, s, events, |s.forwarded|, i, addr, n);
  }

  /** An input that asks is served at the address it has asked for within the next `nbMasters` rounds. */
  lemma AskIsServed(cfg: Config, s: State, more: seq<Event>, i: nat, addr: nat)
    requires Inv(cfg, s) && i < cfg.nbMasters && s.wants[i].None? && Rounds(more) >= cfg.nbMasters
    ensures Served(cfg, Run(cfg, s, [Ask(i, addr)] + more), |s.forwarded|, i, addr)
  {
    var events := [Ask(i, addr)] + more;
    assert events[1..] == more;
    Fairness(cfg, Step(cfg, s, events[0]), more, i, addr);
  }

  // ---------------------------------------------------------------- each request is served once, in order

  function ForwardsOf(forwarded: seq<Forward>, i: nat): seq<Forward> {
    if forwarded == [] then []
    else
      var f := forwarded[|forwarded| - 1];
      ForwardsOf(forwarded[..|forwarded| - 1], i) + (if f.input == i then [f] else [])
  }

  function Target(cfg: Config, i: nat, addr: nat): Forward {
    Forward(i, DecodeBank(cfg, addr), DecodeOffset(cfg, addr))
  }

  /** What input `i` has got and what it is waiting for. */
  function Due(cfg: Config, s: State, i: nat): seq<Forward>
    requires i < |s.wants|
  {
    ForwardsOf(s.forwarded, i) + (if s.wants[i].Some? then [Target(cfg, i, s.wants[i].value)] else [])
  }

  /** What input `i` asks for in a run, while it is not waiting. */
  function AsksOf(cfg: Config, s: State, events: seq<Event>, i: nat): seq<Forward>
    requires Inv(cfg, s) && i < cfg.nbMasters
    decreases |events|
  {
    if events == [] then []
    else AskOf(cfg, s, events[0], i) + AsksOf(cfg, Step(cfg, s, events[0]), events[1..], i)
  }

  function AskOf(cfg: Config, s: State, e: Event, i: nat): seq<Forward>
    requires i < |s.wants|
  {
    if e.Ask? && e.id == i && s.wants[i].None? then [Target(cfg, i, e.addr)] else []
  }

  lemma ForwardsAppend(forwarded: seq<Forward>, f: Forward, i: nat)
    ensures ForwardsOf(forwarded + [f], i) == ForwardsOf(forwarded, i) + (if f.input == i then [f] else [])
  {
    assert (forwarded + [f])[..|forwarded|] == forwarded;
  }

  lemma ElectDue(cfg: Config, s: State, b: nat, i: nat)
    requires Noticed(cfg, s) && b < |s.banks| && i < cfg.nbMasters
    ensures Due(cfg, Elected(cfg, s, b), i) == Due(cfg, s, i)
  {
    if s.banks[b].mask != 0 {
      ElectWinner(cfg, s, b);
      var w := Winner(s.banks[b].mask, s.banks[b].rrNext, cfg.nbMasters, 0);
      ForwardsAppend(s.forwarded, Target(cfg, w, s.wants[w].value), i);
    }
  }

  lemma {:induction false} ElectionsDue(cfg: Config, s: State, b: nat, i: nat)
    requires Noticed(cfg, s) && b <= |s.banks| && i < cfg.nbMasters
    ensures Due(cfg, ElectedFrom(cfg, s, b), i) == Due(cfg, s, i)
    decreases |s.banks| - b
  {
    if b < |s.banks| {
      ElectKeeps(cfg, s, b);
      ElectDue(cfg, s, b, i);
      ElectionsDue(cfg, Elected(cfg, s, b), b + 1, i);
    }
  }

  lemma RoundDue(cfg: Config, s: State, i: nat)
    requires Inv(cfg, s) && i < cfg.nbMasters
    ensures Shaped(cfg, Round(cfg, s)) && Due(cfg, Round(cfg, s), i) == Due(cfg, s, i)
  {
    SameMasks(cfg, s, s.(armed := false));
    ElectionsDue(cfg, s.(armed := false), 0, i);
  }

  /**
    In every run an input gets what it has asked for, each request once and in order, at the bank and the place its
    address decodes to; only the last one may still be waiting.
   */
  lemma {:induction false} ServedOnce(cfg: Config, s: State, events: seq<Event>, i: nat)
    requires Inv(cfg, s) && i < cfg.nbMasters
    ensures Due(cfg, Run(cfg, s, events), i) == Due(cfg, s, i) + AsksOf(cfg, s, events, i)
    decreases |events|
  {
    if events != [] {
      var s' := Step(cfg, s, events[0]);
      StepDue(cfg, s, events[0], i);
      ServedOnce(cfg, s', events[1..], i);
      Regroup(Due(cfg, s, i), AskOf(cfg, s, events[0], i), AsksOf(cfg, s', events[1..], i));
    }
  }

  lemma StepDue(cfg: Config, s: State, e: Event, i: nat)
    requires Inv(cfg, s) && i < cfg.nbMasters
    ensures Due(cfg, Step(cfg, s, e), i) == Due(cfg, s, i) + AskOf(cfg, s, e, i)
  {
    if e.Arbitrate? { RoundDue(cfg, s, i); }
  }

  lemma Regroup(a: seq<Forward>, b: seq<Forward>, c: seq<Forward>)
    ensures a + b + c == a + (b + c)
  {}

  // ---------------------------------------------------------------- one request a bank and round

  function CountTo(forwarded: seq<Forward>, b: nat): nat {
    if forwarded == [] then 0
    else CountTo(forwarded[..|forwarded| - 1], b) + (if forwarded[|forwarded| - 1].bank == b then 1 else 0)
  }

  predicate Wanted(cfg: Config, s: State, b: nat) {
    exists i :: 0 <= i < |s.wants| && WantsBank(cfg, s.wants[i], b)
  }

  lemma WantedIff(cfg: Config, s: State, b: nat)
    requires Noticed(cfg, s) && b < |s.banks|
    ensures Wanted(cfg, s, b) <==> s.banks[b].mask != 0
  {
    assert MaskOk(cfg, s, b);
    if s.banks[b].mask != 0 {
      ElectWinner(cfg, s, b);
    } else {
      forall i: nat ensures !Bit(0, i) { BitZero(i); }
    }
  }

  lemma ElectCount(cfg: Config, s: State, b: nat, c: nat)
    requires Noticed(cfg, s) && b < |s.banks| && c < |s.banks|
    ensures var s' := Elected(cfg, s, b);
            && CountTo(s'.forwarded, c) == CountTo(s.forwarded, c) + (if c == b && s.banks[b].mask != 0 then 1 else 0)
            && (c != b ==> s'.banks[c] == s.banks[c])
  {
    if s.banks[b].mask != 0 {
      ElectWinner(cfg, s, b);
      var w := Winner(s.banks[b].mask, s.banks[b].rrNext, cfg.nbMasters, 0);
      assert (s.forwarded + [Target(cfg, w, s.wants[w].value)])[..|s.forwarded|] == s.forwarded;
    }
  }

  lemma {:induction false} ElectionsCount(cfg: Config, s: State, b: nat, c: nat)
    requires Noticed(cfg, s) && b <= |s.banks| && c < |s.banks|
    ensures CountTo(ElectedFrom(cfg, s, b).forwarded, c) ==
            CountTo(s.forwarded, c) + (if b <= c && s.banks[c].mask != 0 then 1 else 0)
    decreases |s.banks| - b
  {
    if b < |s.banks| {
      ElectKeeps(cfg, s, b);
      ElectCount(cfg, s, b, c);
      ElectionsCount(cfg, Elected(cfg, s, b), b + 1, c);
    }
  }

  /** In a round each bank serves exactly one request if anyone wants it, and none otherwise. */
  lemma OneABank(cfg: Config, s: State, b: nat)
    requires Inv(cfg, s) && b < |s.banks|
    ensures CountTo(Round(cfg, s).forwarded, b) ==
            CountTo(s.forwarded, b) + (if Wanted(cfg, s, b) then 1 else 0)
  {
    var s0 := s.(armed := false);
    SameMasks(cfg, s, s0);
    WantedIff(cfg, s, b);
    ElectionsCount(cfg, s0, 0, b);
  }
}
