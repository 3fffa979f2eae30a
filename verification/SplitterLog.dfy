/** The history of one burst through the splitter: chunks issued, chunks settled. */
module SplitterLog {
  import opened IoV2
  import opened SplitterPlan

  datatype Event = Issue(chunk: Chunk) | Settle(chunk: Chunk, latency: int, resp: RespStatus)

  function IssuedChunks(log: seq<Event>): seq<Chunk> {
    if log == [] then []
    else IssuedChunks(log[..|log| - 1]) + (match log[|log| - 1] case Issue(c) => [c] case Settle(_, _, _) => [])
  }

  function SettledBytes(log: seq<Event>): nat {
    if log == [] then 0
    else SettledBytes(log[..|log| - 1]) + (match log[|log| - 1] case Issue(_) => 0 case Settle(c, _, _) => c.size)
  }

  function SettledCount(log: seq<Event>): nat {
    if log == [] then 0
    else SettledCount(log[..|log| - 1]) + (match log[|log| - 1] case Issue(_) => 0 case Settle(_, _, _) => 1)
  }

  /** The largest latency a chunk of phase `k` reported, or 0. */
  function PhaseMax(log: seq<Event>, k: nat): int {
    if log == [] then 0
    else
      var m := PhaseMax(log[..|log| - 1], k);
      match log[|log| - 1]
      case Issue(_) => m
      case Settle(c, l, _) => if c.phase == k then Max(m, l) else m
  }

  /** The ideal time of the first `n` phases back to back. */
  function IdealTime(log: seq<Event>, n: int): int {
    if n <= 0 then 0 else IdealTime(log, n - 1) + PhaseMax(log, n - 1)
  }

  /** INVALID iff some chunk was. */
  function WorstResp(log: seq<Event>): RespStatus {
    if log == [] then Ok
    else
      match log[|log| - 1]
      case Issue(_) => WorstResp(log[..|log| - 1])
      case Settle(_, _, r) => if r == Invalid then Invalid else WorstResp(log[..|log| - 1])
  }

  predicate HasSettled(log: seq<Event>, c: Chunk) {
    log != [] && (HasSettled(log[..|log| - 1], c) || (log[|log| - 1].Settle? && log[|log| - 1].chunk == c))
  }

  /** Every chunk of a phase before `phase` has settled. */
  ghost predicate Drained(log: seq<Event>, phase: nat) {
    forall i :: 0 <= i < |log| && log[i].Issue? && log[i].chunk.phase < phase ==> HasSettled(log, log[i].chunk)
  }

  /** A chunk is issued only after every chunk of the earlier phases has settled. */
  ghost predicate PhaseOrdered(log: seq<Event>) {
    log == [] ||
    (var before, e := log[..|log| - 1], log[|log| - 1];
     PhaseOrdered(before) && (e.Issue? ==> Drained(before, e.chunk.phase)))
  }

  /** No chunk settles twice. */
  ghost predicate SettledOnce(log: seq<Event>) {
    log == [] ||
    (var before, e := log[..|log| - 1], log[|log| - 1];
     SettledOnce(before) && (e.Settle? ==> !HasSettled(before, e.chunk)))
  }

  ghost predicate AllSettled(log: seq<Event>) {
    forall i :: 0 <= i < |log| && log[i].Issue? ==> HasSettled(log, log[i].chunk)
  }

  /** Every event concerns a phase below `n`. */
  ghost predicate PhasesBelow(log: seq<Event>, n: nat) {
    forall i :: 0 <= i < |log| ==> log[i].chunk.phase < n
  }

  // ---------------------------------------------------------------- what is said at the output ports

  /** An output is called with a chunk and answers, or it completes a chunk later. */
  datatype Talk = Called(sub: Chunk, a: Answer) | Came(sub: Chunk, latency: int, resp: RespStatus)

  // As in Arith, a name and one step of the definition.

  predicate HasIssued(log: seq<Event>, c: Chunk)
    decreases |log|, 1
  {
    HasIssuedStep(log, c)
  }

  predicate HasIssuedStep(log: seq<Event>, c: Chunk)
    decreases |log|, 0
  {
    log != [] && (HasIssued(log[..|log| - 1], c) || log[|log| - 1] == Issue(c))
  }

  /** The history that the talk amounts to: a chunk is issued when its output is first called with it. */
  function LogOf(talk: seq<Talk>): seq<Event>
    decreases |talk|, 1
  {
    LogStep(talk)
  }

  function LogStep(talk: seq<Talk>): seq<Event>
    decreases |talk|, 0
  {
    if talk == [] then [] else Extended(LogOf(talk[..|talk| - 1]), talk[|talk| - 1])
  }

  lemma LogUnfold(talk: seq<Talk>)
    ensures LogOf(talk) == if talk == [] then [] else Extended(LogOf(talk[..|talk| - 1]), talk[|talk| - 1])
  {
    assert LogOf(talk) == LogStep(talk);
  }

  function Extended(log: seq<Event>, t: Talk): seq<Event> {
    match t
    case Called(sub, a) =>
      var issued := if HasIssued(log, sub) then log else log + [Issue(sub)];
      if a.status == Done then issued + [Settle(sub, a.latency, a.resp)] else issued
    case Came(sub, latency, resp) => log + [Settle(sub, latency, resp)]
  }

  lemma LogGrows(talk: seq<Talk>, t: Talk)
    ensures LogOf(talk + [t]) == Extended(LogOf(talk), t)
  {
    LogUnfold(talk + [t]);
    assert (talk + [t])[..|talk|] == talk;
  }

  lemma IssuedGrows(log: seq<Event>, e: Event, c: Chunk)
    ensures HasIssued(log + [e], c) == (HasIssued(log, c) || e == Issue(c))
  {
    assert HasIssued(log + [e], c) == HasIssuedStep(log + [e], c);
    assert (log + [e])[..|log|] == log;
  }

  lemma {:induction false} IssuedWhere(log: seq<Event>, c: Chunk) returns (k: nat)
    requires HasIssued(log, c)
    ensures k < |log| && log[k] == Issue(c)
  {
    assert HasIssued(log, c) == HasIssuedStep(log, c);
    var n := |log| - 1;
    if log[n] == Issue(c) { k := n; } else { k := IssuedWhere(log[..n], c); }
  }

  /** What is said completes a chunk. */
  predicate Completes(t: Talk) {
    t.Came? || t.a.status == Done
  }

  function LatencyOf(t: Talk): int { if t.Came? then t.latency else t.a.latency }

  function RespOf(t: Talk): RespStatus { if t.Came? then t.resp else t.a.resp }

  predicate SaysIn(t: Talk, k: nat) {
    Completes(t) && t.sub.phase == k
  }

  /** The history adds nothing of its own: issued is what an output was called with, ... */
  lemma {:induction false} IssuedIsCalled(talk: seq<Talk>, c: Chunk)
    ensures HasIssued(LogOf(talk), c) <==> exists i :: 0 <= i < |talk| && talk[i].Called? && talk[i].sub == c
  {
    assert HasIssued([], c) == HasIssuedStep([], c);
    LogUnfold(talk);
    if talk != [] {
      var n := |talk| - 1;
      var before := talk[..n];
      IssuedIsCalled(before, c);
      ExtendedIssued(LogOf(before), talk[n], c);
      if i :| 0 <= i < n && before[i].Called? && before[i].sub == c { assert talk[i].Called? && talk[i].sub == c; }
      if i :| 0 <= i < n && talk[i].Called? && talk[i].sub == c { assert before[i].Called? && before[i].sub == c; }
    }
  }

  lemma ExtendedIssued(log: seq<Event>, t: Talk, c: Chunk)
    ensures HasIssued(Extended(log, t), c) <==> HasIssued(log, c) || (t.Called? && t.sub == c)
  {
    IssuedGrows(log, Issue(t.sub), c);
    if Completes(t) {
      var e := Settle(t.sub, LatencyOf(t), RespOf(t));
      IssuedGrows(log, e, c);
      IssuedGrows(log + [Issue(t.sub)], e, c);
    }
  }

  lemma ExtendedFolds(log: seq<Event>, t: Talk, k: nat)
    ensures WorstResp(Extended(log, t)) == if Completes(t) && RespOf(t) == Invalid then Invalid else WorstResp(log)
    ensures PhaseMax(Extended(log, t), k) ==
            if SaysIn(t, k) then Max(PhaseMax(log, k), LatencyOf(t)) else PhaseMax(log, k)
  {
    FoldsGrow(log, Issue(t.sub));
    if Completes(t) {
      var e := Settle(t.sub, LatencyOf(t), RespOf(t));
      FoldsGrow(log, e);
      FoldsGrow(log + [Issue(t.sub)], e);
    }
  }

  /** ... its worst status is INVALID exactly if some output said so of a chunk, ... */
  lemma {:induction false} WorstIsSaid(talk: seq<Talk>)
    ensures WorstResp(LogOf(talk)) == Invalid <==>
            exists i :: 0 <= i < |talk| && Completes(talk[i]) && RespOf(talk[i]) == Invalid
  {
    LogUnfold(talk);
    if talk != [] {
      var n := |talk| - 1;
      var before := talk[..n];
      WorstIsSaid(before);
      ExtendedFolds(LogOf(before), talk[n], 0);
      if i :| 0 <= i < n && Completes(before[i]) && RespOf(before[i]) == Invalid {
        assert Completes(talk[i]) && RespOf(talk[i]) == Invalid;
      }
      if i :| 0 <= i < n && Completes(talk[i]) && RespOf(talk[i]) == Invalid {
        assert Completes(before[i]) && RespOf(before[i]) == Invalid;
      }
    }
  }

  /** ... and the latency of a phase is the largest one said of its chunks, or 0. */
  lemma {:induction false} PhaseMaxIsSaid(talk: seq<Talk>, k: nat)
    ensures forall i :: 0 <= i < |talk| && SaysIn(talk[i], k) ==> LatencyOf(talk[i]) <= PhaseMax(LogOf(talk), k)
    ensures PhaseMax(LogOf(talk), k) == 0 ||
            exists i :: 0 <= i < |talk| && SaysIn(talk[i], k) && LatencyOf(talk[i]) == PhaseMax(LogOf(talk), k)
    ensures PhaseMax(LogOf(talk), k) >= 0
  {
    LogUnfold(talk);
    if talk != [] {
      var n := |talk| - 1;
      var before := talk[..n];
      PhaseMaxIsSaid(before, k);
      ExtendedFolds(LogOf(before), talk[n], k);
      var m, m' := PhaseMax(LogOf(before), k), PhaseMax(LogOf(talk), k);
      assert LogOf(talk) == Extended(LogOf(before), talk[n]);
      forall i | 0 <= i < |talk| && SaysIn(talk[i], k) ensures LatencyOf(talk[i]) <= m' {
        if i < n { assert SaysIn(before[i], k); }
      }
      if m' == m && m != 0 {
        var i :| 0 <= i < n && SaysIn(before[i], k) && LatencyOf(before[i]) == m;
        assert SaysIn(talk[i], k);
      } else if m' != m {
        assert SaysIn(talk[n], k) && LatencyOf(talk[n]) == m';
      }
    }
  }

  // ---------------------------------------------------------------- appending one event

  lemma FoldsGrow(log: seq<Event>, e: Event)
    ensures IssuedChunks(log + [e]) == IssuedChunks(log) + (if e.Issue? then [e.chunk] else [])
    ensures SettledBytes(log + [e]) == SettledBytes(log) + (if e.Settle? then e.chunk.size else 0)
    ensures SettledCount(log + [e]) == SettledCount(log) + (if e.Settle? then 1 else 0)
    ensures forall k: nat :: PhaseMax(log + [e], k)
                             == if e.Settle? && e.chunk.phase == k then Max(PhaseMax(log, k), e.latency)
                               else PhaseMax(log, k)
    ensures WorstResp(log + [e]) == if e.Settle? && e.resp == Invalid then Invalid else WorstResp(log)
    ensures forall c :: HasSettled(log + [e], c) == (HasSettled(log, c) || (e.Settle? && e.chunk == c))
  {
    assert (log + [e])[..|log|] == log;
  }

  lemma HistoryGrows(log: seq<Event>, e: Event, phases: nat)
    requires HistoryOk(log, phases) && e.chunk.phase < phases
    requires e.Issue? ==> Drained(log, e.chunk.phase)
    requires e.Settle? ==> !HasSettled(log, e.chunk)
    ensures HistoryOk(log + [e], phases)
  {
    assert (log + [e])[..|log|] == log;
  }

  lemma {:induction false} IdealTimeGrows(log: seq<Event>, e: Event, n: int)
    requires e.Settle? ==> e.chunk.phase >= n
    ensures IdealTime(log + [e], n) == IdealTime(log, n)
  {
    FoldsGrow(log, e);
    if n > 0 { IdealTimeGrows(log, e, n - 1); }
  }

  lemma {:induction false} UnseenPhase(log: seq<Event>, n: nat)
    requires PhasesBelow(log, n)
    ensures PhaseMax(log, n) == 0
  {
    if log != [] {
      UnseenPhase(log[..|log| - 1], n);
    }
  }

  /** In first-order terms: between a chunk and one of a later phase lies the first one's completion. */
  lemma {:induction false} PhaseOrderedMeans(log: seq<Event>, i: nat, j: nat)
    requires PhaseOrdered(log) && i < j < |log| && log[i].Issue? && log[j].Issue?
    requires log[i].chunk.phase < log[j].chunk.phase
    ensures exists k :: 0 <= k < j && log[k].Settle? && log[k].chunk == log[i].chunk
  {
    var before := log[..|log| - 1];
    if j < |log| - 1 {
      PhaseOrderedMeans(before, i, j);
      var k :| 0 <= k < j && before[k].Settle? && before[k].chunk == before[i].chunk;
      assert log[k] == before[k];
    } else {
      assert before[i] == log[i];
      var k := SettledWhere(before, log[i].chunk);
      assert log[k] == before[k];
    }
  }

  lemma {:induction false} SettledWhere(log: seq<Event>, c: Chunk) returns (k: nat)
    requires HasSettled(log, c)
    ensures k < |log| && log[k].Settle? && log[k].chunk == c
  {
    var n := |log| - 1;
    if log[n].Settle? && log[n].chunk == c { k := n; } else { k := SettledWhere(log[..n], c); }
  }

  // ---------------------------------------------------------------- slots, one per output

  function Weight(o: Option<Chunk>, bytes: bool): nat {
    match o case None => 0 case Some(c) => if bytes then c.size else 1
  }

  /** Bytes (or number) of the chunks parked in a vector of slots. */
  function SlotSum(slots: seq<Option<Chunk>>, bytes: bool): nat {
    if slots == [] then 0 else Weight(slots[0], bytes) + SlotSum(slots[1..], bytes)
  }

  lemma {:induction false} SlotUpdate(slots: seq<Option<Chunk>>, i: nat, o: Option<Chunk>, bytes: bool)
    requires i < |slots|
    ensures SlotSum(slots[i := o], bytes) == SlotSum(slots, bytes) - Weight(slots[i], bytes) + Weight(o, bytes)
  {
    if i == 0 {
      assert slots[i := o][1..] == slots[1..];
    } else {
      assert slots[i := o][1..] == slots[1..][i - 1 := o];
      SlotUpdate(slots[1..], i - 1, o, bytes);
    }
  }

  lemma {:induction false} SlotsEmpty(slots: seq<Option<Chunk>>)
    ensures SlotSum(slots, false) == 0 <==> forall i :: 0 <= i < |slots| ==> slots[i].None?
    ensures SlotSum(slots, false) == 0 ==> SlotSum(slots, true) == 0
  {
    if slots != [] {
      SlotsEmpty(slots[1..]);
      assert forall i :: 0 <= i < |slots| ==> (i == 0 || slots[i] == slots[1..][i - 1]);
      assert forall i :: 0 <= i < |slots| - 1 ==> slots[1..][i] == slots[i + 1];
    }
  }

  /** A chunk held on lane `o` belongs to phase `cur` and has not settled. */
  ghost predicate Held(c: Chunk, o: nat, log: seq<Event>, cur: int) {
    c.output == o && c.phase == cur && !HasSettled(log, c)
  }

  ghost predicate OnLane(c: Chunk, slots: seq<Option<Chunk>>) {
    c.output < |slots| && slots[c.output] == Some(c)
  }

  /**
    The slots hold exactly the chunks issued and not settled: at most one a lane, parked or at the
    output, all of phase `cur`.
   */
  ghost predicate SlotsOk(stuck: seq<Option<Chunk>>, granted: seq<Option<Chunk>>, log: seq<Event>, cur: int, nb: nat) {
    && |stuck| == nb && |granted| == nb
    && (forall o :: 0 <= o < nb && stuck[o].Some? ==> granted[o].None? && Held(stuck[o].value, o, log, cur))
    && (forall o :: 0 <= o < nb && granted[o].Some? ==> Held(granted[o].value, o, log, cur))
    && (forall i :: 0 <= i < |log| && log[i].Issue? ==>
          HasSettled(log, log[i].chunk) || OnLane(log[i].chunk, stuck) || OnLane(log[i].chunk, granted))
  }

  ghost predicate HistoryOk(log: seq<Event>, phases: nat) {
    PhasesBelow(log, phases) && PhaseOrdered(log) && SettledOnce(log)
  }

  lemma SlotsSettle(stuck: seq<Option<Chunk>>, granted: seq<Option<Chunk>>, log: seq<Event>, phases: nat, nb: nat,
                    e: Event)
    requires phases > 0 && SlotsOk(stuck, granted, log, phases - 1, nb) && HistoryOk(log, phases)
    requires e.Settle? && OnLane(e.chunk, granted)
    ensures SlotsOk(stuck, granted[e.chunk.output := None], log + [e], phases - 1, nb)
    ensures HistoryOk(log + [e], phases)
  {
    FoldsGrow(log, e);
    assert Held(e.chunk, e.chunk.output, log, phases - 1);
    HistoryGrows(log, e, phases);
  }

  lemma SlotsIssue(stuck: seq<Option<Chunk>>, granted: seq<Option<Chunk>>, log: seq<Event>, phases: nat, nb: nat,
                   e: Event)
    requires phases > 0 && SlotsOk(stuck, granted, log, phases - 1, nb) && HistoryOk(log, phases)
    requires e.Issue? && e.chunk.output < nb && e.chunk.phase == phases - 1
    requires stuck[e.chunk.output].None? && granted[e.chunk.output].None?
    requires forall i :: 0 <= i < |log| ==> log[i].chunk != e.chunk
    ensures SlotsOk(stuck, granted[e.chunk.output := Some(e.chunk)], log + [e], phases - 1, nb)
    ensures HistoryOk(log + [e], phases)
  {
    var more, sub := log + [e], e.chunk;
    FoldsGrow(log, e);
    forall i | 0 <= i < |log| && log[i].Issue? && log[i].chunk.phase < sub.phase ensures HasSettled(log, log[i].chunk) {
      var c := log[i].chunk;
      assert OnLane(c, stuck) ==> Held(c, c.output, log, phases - 1);
      assert OnLane(c, granted) ==> Held(c, c.output, log, phases - 1);
    }
    HistoryGrows(log, e, phases);
    if HasSettled(log, sub) {
      var k := SettledWhere(log, sub);
      assert false;
    }
    var granted' := granted[sub.output := Some(sub)];
    forall i | 0 <= i < |more| && more[i].Issue?
      ensures HasSettled(more, more[i].chunk) || OnLane(more[i].chunk, stuck) || OnLane(more[i].chunk, granted')
    {
      var c := more[i].chunk;
      if i < |log| && OnLane(c, granted) { assert c.output != sub.output; }
    }
  }

  /** Parking the chunk an output refused. */
  lemma SlotsPark(stuck: seq<Option<Chunk>>, granted: seq<Option<Chunk>>, log: seq<Event>, cur: int, nb: nat, o: nat)
    requires o < nb && SlotsOk(stuck, granted, log, cur, nb) && granted[o].Some?
    ensures var stuck', granted' := stuck[o := granted[o]], granted[o := None];
            && SlotsOk(stuck', granted', log, cur, nb)
            && SlotSum(stuck', false) + SlotSum(granted', false) == SlotSum(stuck, false) + SlotSum(granted, false)
            && SlotSum(stuck', true) + SlotSum(granted', true) == SlotSum(stuck, true) + SlotSum(granted, true)
  {
    SlotUpdate(stuck, o, granted[o], false);
    SlotUpdate(stuck, o, granted[o], true);
    SlotUpdate(granted, o, None, false);
    SlotUpdate(granted, o, None, true);
  }

  /** Sending a parked chunk again. */
  lemma SlotsResend(stuck: seq<Option<Chunk>>, granted: seq<Option<Chunk>>, log: seq<Event>, cur: int, nb: nat, o: nat)
    requires o < nb && SlotsOk(stuck, granted, log, cur, nb) && stuck[o].Some?
    ensures var stuck', granted' := stuck[o := None], granted[o := stuck[o]];
            && SlotsOk(stuck', granted', log, cur, nb)
            && SlotSum(stuck', false) + SlotSum(granted', false) == SlotSum(stuck, false) + SlotSum(granted, false)
            && SlotSum(stuck', true) + SlotSum(granted', true) == SlotSum(stuck, true) + SlotSum(granted, true)
  {
    SlotUpdate(stuck, o, None, false);
    SlotUpdate(stuck, o, None, true);
    SlotUpdate(granted, o, stuck[o], false);
    SlotUpdate(granted, o, stuck[o], true);
  }

  /** What the running totals owe to the history; `unsettled` is how many bytes have not settled. */
  ghost predicate Tally(log: seq<Event>, phases: nat, banked: bool, total: nat,
                        unsettled: int, status: RespStatus, maxLatency: int, accumulated: int)
  {
    && unsettled == total - SettledBytes(log)
    && status == WorstResp(log)
    && (phases > 0 ==> maxLatency == PhaseMax(log, phases - 1))
    && (!banked ==> phases > 0)
    && accumulated == IdealTime(log, if banked then phases else phases - 1)
  }

  lemma TallyAppend(log: seq<Event>, phases: nat, total: nat,
                    unsettled: int, status: RespStatus, maxLatency: int, accumulated: int, e: Event)
    requires Tally(log, phases, false, total, unsettled, status, maxLatency, accumulated) && e.chunk.phase == phases - 1
    ensures Tally(log + [e], phases, false, total,
                  unsettled - (if e.Settle? then e.chunk.size else 0),
                  if e.Settle? && e.resp == Invalid then Invalid else status,
                  if e.Settle? then Max(maxLatency, e.latency) else maxLatency,
                  accumulated)
  {
    FoldsGrow(log, e);
    IdealTimeGrows(log, e, phases - 1);
  }

  // ---------------------------------------------------------------- the books of one burst

  /** What the splitter keeps about the pending parent, with the burst's history and the chunks at the outputs. */
  datatype Books = Books(
    stuck: seq<Option<Chunk>>,       // per output, the chunk it refused
    granted: seq<Option<Chunk>>,     // per output, the chunk it accepted and has not answered
    log: seq<Event>,                 // the history
    talk: seq<Talk>,                 // what was said at the output ports
    phases: nat,                     // phases started
    banked: bool,                    // whether the last phase's latency has been added up
    totalSize: nat,
    chunksPending: int,
    remainingSize: int,
    respStatus: RespStatus,
    phaseMaxLatency: int,
    accumulatedLatency: int)

  /** Everything the running totals owe to the history, at any point of a callback. */
  ghost predicate BooksOk(b: Books, nb: nat) {
    && SlotsOk(b.stuck, b.granted, b.log, b.phases - 1, nb)
    && HistoryOk(b.log, b.phases)
    && Tally(b.log, b.phases, b.banked, b.totalSize, b.remainingSize, b.respStatus, b.phaseMaxLatency,
             b.accumulatedLatency)
    && b.chunksPending == SlotSum(b.stuck, false) + SlotSum(b.granted, false)
    && |IssuedChunks(b.log)| == SettledCount(b.log) + b.chunksPending
  }

  /** Bytes in chunks that were cut and have not settled. */
  function Outstanding(b: Books): nat {
    SlotSum(b.stuck, true) + SlotSum(b.granted, true)
  }

  /** One chunk has completed. */
  function Settled(b: Books, sub: Chunk, latency: int, resp: RespStatus): Books
    requires sub.output < |b.granted|
  {
    b.(granted := b.granted[sub.output := None],
       log := b.log + [Settle(sub, latency, resp)],
       chunksPending := b.chunksPending - 1,
       remainingSize := b.remainingSize - sub.size,
       respStatus := if resp == Invalid then Invalid else b.respStatus,
       phaseMaxLatency := Max(b.phaseMaxLatency, latency))
  }

  /** One chunk has been handed to its output. */
  function Handed(b: Books, sub: Chunk): Books
    requires sub.output < |b.granted|
  {
    b.(granted := b.granted[sub.output := Some(sub)], log := b.log + [Issue(sub)], chunksPending := b.chunksPending + 1)
  }

  function Parked(b: Books, o: nat): Books
    requires o < |b.stuck| && o < |b.granted|
  {
    b.(stuck := b.stuck[o := b.granted[o]], granted := b.granted[o := None])
  }

  function Resent(b: Books, o: nat): Books
    requires o < |b.stuck| && o < |b.granted|
  {
    b.(stuck := b.stuck[o := None], granted := b.granted[o := b.stuck[o]])
  }

  /** The output's answer to the chunk it holds: done, kept for later, or refused and parked. */
  function Answered(b: Books, sub: Chunk, a: Answer): Books
    requires sub.output < |b.stuck| && sub.output < |b.granted|
  {
    var b1 := b.(talk := b.talk + [Called(sub, a)]);
    match a.status
    case Done => Settled(b1, sub, a.latency, a.resp)
    case Denied => Parked(b1, sub.output)
    case Granted => b1
  }

  /** The output completes the chunk it holds. */
  function Replied(b: Books, sub: Chunk, latency: int, resp: RespStatus): Books
    requires sub.output < |b.granted|
  {
    Settled(b.(talk := b.talk + [Came(sub, latency, resp)]), sub, latency, resp)
  }

  // As in Arith, a name and one step of the definition.

  /** The chunks in a vector of slots were issued. */
  ghost predicate SlotsIssued(slots: seq<Option<Chunk>>, log: seq<Event>)
    decreases |slots|, 1
  {
    SlotsIssuedStep(slots, log)
  }

  ghost predicate SlotsIssuedStep(slots: seq<Option<Chunk>>, log: seq<Event>)
    decreases |slots|, 0
  {
    slots == [] ||
    (var n := |slots| - 1;
     SlotsIssued(slots[..n], log) && (slots[n].Some? ==> HasIssued(log, slots[n].value)))
  }

  lemma SlotsUnfold(slots: seq<Option<Chunk>>, log: seq<Event>)
    ensures SlotsIssued(slots, log) <==>
            slots == [] ||
            (var n := |slots| - 1;
             SlotsIssued(slots[..n], log) && (slots[n].Some? ==> HasIssued(log, slots[n].value)))
  {
    assert SlotsIssued(slots, log) == SlotsIssuedStep(slots, log);
  }

  lemma {:induction false} NoneIssued(slots: seq<Option<Chunk>>, log: seq<Event>)
    requires forall o :: 0 <= o < |slots| ==> slots[o].None?
    ensures SlotsIssued(slots, log)
  {
    SlotsUnfold(slots, log);
    if slots != [] { NoneIssued(slots[..|slots| - 1], log); }
  }

  lemma {:induction false} SlotsStay(slots: seq<Option<Chunk>>, log: seq<Event>, e: Event)
    requires SlotsIssued(slots, log)
    ensures SlotsIssued(slots, log + [e])
  {
    SlotsUnfold(slots, log);
    SlotsUnfold(slots, log + [e]);
    if slots != [] {
      var n := |slots| - 1;
      SlotsStay(slots[..n], log, e);
      if slots[n].Some? { IssuedGrows(log, e, slots[n].value); }
    }
  }

  lemma {:induction false} SlotsPut(slots: seq<Option<Chunk>>, log: seq<Event>, i: nat, c: Option<Chunk>)
    requires SlotsIssued(slots, log) && i < |slots| && (c.Some? ==> HasIssued(log, c.value))
    ensures SlotsIssued(slots[i := c], log)
  {
    var n := |slots| - 1;
    SlotsUnfold(slots, log);
    SlotsUnfold(slots[i := c], log);
    if i < n {
      SlotsPut(slots[..n], log, i, c);
      assert slots[i := c][..n] == slots[..n][i := c];
    } else {
      assert slots[i := c][..n] == slots[..n];
    }
  }

  lemma {:induction false} SlotIssued(slots: seq<Option<Chunk>>, log: seq<Event>, i: nat)
    requires SlotsIssued(slots, log) && i < |slots| && slots[i].Some?
    ensures HasIssued(log, slots[i].value)
  {
    SlotsUnfold(slots, log);
    if i < |slots| - 1 { SlotIssued(slots[..|slots| - 1], log, i); }
  }

  /** The history is what was said, and the chunks in the slots were issued. */
  ghost predicate Told(b: Books) {
    b.log == LogOf(b.talk) && SlotsIssued(b.stuck, b.log) && SlotsIssued(b.granted, b.log)
  }

  /** As `Told`, while the output has yet to answer the chunk that it is handed. */
  ghost predicate Telling(b: Books, talk: seq<Talk>, sub: Chunk) {
    && b.talk == talk && b.log == Extended(LogOf(talk), Called(sub, Answer(Granted, 0, Ok)))
    && SlotsIssued(b.stuck, b.log) && SlotsIssued(b.granted, b.log) && OnLane(sub, b.granted)
  }

  lemma HandTold(b: Books, sub: Chunk)
    requires Told(b) && sub.output < |b.granted| && !HasIssued(b.log, sub)
    ensures Telling(Handed(b, sub), b.talk, sub)
  {
    SlotsStay(b.stuck, b.log, Issue(sub));
    SlotsStay(b.granted, b.log, Issue(sub));
    IssuedGrows(b.log, Issue(sub), sub);
    SlotsPut(b.granted, b.log + [Issue(sub)], sub.output, Some(sub));
  }

  lemma ResendTold(b: Books, o: nat)
    requires Told(b) && o < |b.stuck| && o < |b.granted| && b.stuck[o].Some? && b.stuck[o].value.output == o
    ensures Telling(Resent(b, o), b.talk, b.stuck[o].value)
  {
    SlotIssued(b.stuck, b.log, o);
    SlotsPut(b.stuck, b.log, o, None);
    SlotsPut(b.granted, b.log, o, b.stuck[o]);
  }

  lemma SettleTold(b: Books, sub: Chunk, latency: int, resp: RespStatus)
    requires sub.output < |b.granted| && SlotsIssued(b.stuck, b.log) && SlotsIssued(b.granted, b.log)
    ensures var b' := Settled(b, sub, latency, resp);
            SlotsIssued(b'.stuck, b'.log) && SlotsIssued(b'.granted, b'.log)
  {
    var e := Settle(sub, latency, resp);
    SlotsStay(b.stuck, b.log, e);
    SlotsStay(b.granted, b.log, e);
    SlotsPut(b.granted, b.log + [e], sub.output, None);
  }

  /** The output answers, ... */
  lemma AnswerTold(b: Books, talk: seq<Talk>, sub: Chunk, a: Answer)
    requires Telling(b, talk, sub) && sub.output < |b.stuck|
    ensures Told(Answered(b, sub, a))
  {
    LogGrows(talk, Called(sub, a));
    if a.status == Done {
      SettleTold(b.(talk := b.talk + [Called(sub, a)]), sub, a.latency, a.resp);
    } else if a.status == Denied {
      SlotIssued(b.granted, b.log, sub.output);
      SlotsPut(b.stuck, b.log, sub.output, Some(sub));
      SlotsPut(b.granted, b.log, sub.output, None);
    }
  }

  /** ... or completes the chunk later. */
  lemma ReplyTold(b: Books, sub: Chunk, latency: int, resp: RespStatus)
    requires Told(b) && sub.output < |b.granted|
    ensures Told(Replied(b, sub, latency, resp))
  {
    LogGrows(b.talk, Came(sub, latency, resp));
    SettleTold(b.(talk := b.talk + [Came(sub, latency, resp)]), sub, latency, resp);
  }

  lemma BooksSettle(b: Books, nb: nat, sub: Chunk, latency: int, resp: RespStatus)
    requires BooksOk(b, nb) && !b.banked && OnLane(sub, b.granted)
    ensures var b' := Settled(b, sub, latency, resp);
            && BooksOk(b', nb) && SettledBytes(b'.log) + Outstanding(b') == SettledBytes(b.log) + Outstanding(b)
            && IssuedChunks(b'.log) == IssuedChunks(b.log)
  {
    var e := Settle(sub, latency, resp);
    FoldsGrow(b.log, e);
    TallyAppend(b.log, b.phases, b.totalSize, b.remainingSize, b.respStatus, b.phaseMaxLatency, b.accumulatedLatency,
                e);
    SlotsSettle(b.stuck, b.granted, b.log, b.phases, nb, e);
    SlotUpdate(b.granted, sub.output, None, false);
    SlotUpdate(b.granted, sub.output, None, true);
  }

  lemma BooksHand(b: Books, nb: nat, sub: Chunk)
    requires BooksOk(b, nb) && !b.banked && sub.output < nb && sub.phase == b.phases - 1
    requires b.stuck[sub.output].None? && b.granted[sub.output].None?
    requires forall i :: 0 <= i < |b.log| ==> b.log[i].chunk != sub
    ensures var b' := Handed(b, sub);
            && BooksOk(b', nb) && SettledBytes(b'.log) + Outstanding(b') ==
               SettledBytes(b.log) + Outstanding(b) + sub.size
            && IssuedChunks(b'.log) == IssuedChunks(b.log) + [sub]
  {
    var e := Issue(sub);
    FoldsGrow(b.log, e);
    TallyAppend(b.log, b.phases, b.totalSize, b.remainingSize, b.respStatus, b.phaseMaxLatency, b.accumulatedLatency,
                e);
    SlotsIssue(b.stuck, b.granted, b.log, b.phases, nb, e);
    SlotUpdate(b.granted, sub.output, Some(sub), false);
    SlotUpdate(b.granted, sub.output, Some(sub), true);
  }

  lemma BooksPark(b: Books, nb: nat, o: nat)
    requires BooksOk(b, nb) && o < nb && b.granted[o].Some?
    ensures BooksOk(Parked(b, o), nb) && Outstanding(Parked(b, o)) == Outstanding(b)
  {
    SlotsPark(b.stuck, b.granted, b.log, b.phases - 1, nb, o);
  }

  lemma BooksAnswer(b: Books, nb: nat, sub: Chunk, a: Answer)
    requires BooksOk(b, nb) && !b.banked && OnLane(sub, b.granted)
    ensures var b' := Answered(b, sub, a);
            && BooksOk(b', nb) && SettledBytes(b'.log) + Outstanding(b') == SettledBytes(b.log) + Outstanding(b)
            && IssuedChunks(b'.log) == IssuedChunks(b.log)
  {
    if a.status == Done {
      BooksSettle(b.(talk := b.talk + [Called(sub, a)]), nb, sub, a.latency, a.resp);
    } else if a.status == Denied {
      BooksPark(b.(talk := b.talk + [Called(sub, a)]), nb, sub.output);
    }
  }

  lemma BooksResend(b: Books, nb: nat, o: nat)
    requires BooksOk(b, nb) && o < nb && b.stuck[o].Some?
    ensures BooksOk(Resent(b, o), nb) && Outstanding(Resent(b, o)) == Outstanding(b)
  {
    SlotsResend(b.stuck, b.granted, b.log, b.phases - 1, nb, o);
  }

  /** Adding up the latency of a drained phase. */
  lemma BooksBank(b: Books, nb: nat)
    requires BooksOk(b, nb) && !b.banked
    ensures BooksOk(b.(banked := true, accumulatedLatency := b.accumulatedLatency + b.phaseMaxLatency), nb)
  {}

  /** Opening the next phase once nothing is outstanding. */
  lemma BooksOpen(b: Books, nb: nat)
    requires BooksOk(b, nb) && b.banked && b.chunksPending == 0
    ensures BooksOk(b.(banked := false, phases := b.phases + 1, phaseMaxLatency := 0), nb)
    ensures forall o :: 0 <= o < nb ==> b.stuck[o].None? && b.granted[o].None?
  {
    SlotsEmpty(b.stuck);
    SlotsEmpty(b.granted);
    UnseenPhase(b.log, b.phases);
  }

  /** With nothing outstanding, every chunk issued has settled. */
  lemma BooksDrained(b: Books, nb: nat)
    requires BooksOk(b, nb) && b.chunksPending == 0
    ensures AllSettled(b.log) && Outstanding(b) == 0
    ensures forall o :: 0 <= o < nb ==> b.stuck[o].None? && b.granted[o].None?
  {
    SlotsEmpty(b.stuck);
    SlotsEmpty(b.granted);
  }
}
