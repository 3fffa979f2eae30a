/** When the output of the limiter takes more than the bandwidth: the exact condition, for a cycle and for a window. */
module LimiterCycles {
  import opened Arith
  import opened IoV2
  import opened LimiterSpec

  // ---------------------------------------------------------------- a refusal in mid-request holds up what follows

  /** A piece that continues its request is offered in a later cycle than the one in which its predecessor is taken. */
  ghost predicate Apart(emitted: seq<Emission>, taken: seq<Emission>) {
    forall i :: 0 < i < |emitted| && emitted[i].sub.data > 0 ==> Follows(emitted, taken, i)
  }

  ghost predicate Follows(emitted: seq<Emission>, taken: seq<Emission>, i: nat) {
    0 < i < |emitted| && i - 1 < |taken| && taken[i - 1].cycle < emitted[i].cycle
  }

  /** While a piece is held back in mid-request no event is scheduled; once it is taken, only one for a later cycle. */
  ghost predicate Calm(s: State) {
    && (s.denied.Some? && s.armed.Some? ==> s.pending.Some? && s.pendingData == 0)
    && (s.denied.None? && s.pending.Some? && s.pendingData > 0 && s.armed.Some? && s.taken != [] ==>
          s.taken[|s.taken| - 1].cycle < s.armed.value)
    && Apart(s.emitted, s.taken)
  }

  lemma ApartAppend(emitted: seq<Emission>, taken: seq<Emission>, e: Emission, a: Emission)
    requires Apart(emitted, taken) && |emitted| == |taken|
    requires e.sub.data > 0 && taken != [] ==> taken[|taken| - 1].cycle < e.cycle
    ensures Apart(emitted + [e], taken) && Apart(emitted + [e], taken + [a])
  {
    forall i | 0 < i < |emitted + [e]| && (emitted + [e])[i].sub.data > 0
      ensures Follows(emitted + [e], taken, i) && Follows(emitted + [e], taken + [a], i)
    {
      if i < |emitted| { assert Follows(emitted, taken, i); }
    }
  }

  lemma FirstOrFollows(emitted: seq<Emission>, taken: seq<Emission>, i: nat)
    requires Apart(emitted, taken) && 0 < i < |emitted|
    ensures emitted[i].sub.data == 0 || Follows(emitted, taken, i)
  {}

  lemma ApartTaken(emitted: seq<Emission>, taken: seq<Emission>, a: Emission)
    requires Apart(emitted, taken)
    ensures Apart(emitted, taken + [a])
  {
    forall i | 0 < i < |emitted| && emitted[i].sub.data > 0 ensures Follows(emitted, taken + [a], i) {
      assert Follows(emitted, taken, i);
    }
  }

  /** As many chunks have been taken as offered, but for a refused one, and none later than now. */
  lemma {:induction false} PairedLengths(emitted: seq<Emission>, taken: seq<Emission>, until: int)
    requires Paired(emitted, taken, until)
    ensures |emitted| == |taken| && (taken != [] ==> taken[|taken| - 1].cycle <= until)
  {
    if taken != [] { PairedLengths(emitted[..|emitted| - 1], taken[..|taken| - 1], emitted[|emitted| - 1].cycle); }
  }

  ghost predicate Counted(s: State) {
    |s.emitted| == |s.taken| + |Refusal(s)| && (s.taken != [] ==> s.taken[|s.taken| - 1].cycle <= s.time)
  }

  lemma TimedLengths(s: State)
    requires Timed(s)
    ensures Counted(s)
  {
    if s.denied.None? {
      PairedLengths(s.emitted, s.taken, s.time);
    } else {
      var n := |s.emitted| - 1;
      PairedLengths(s.emitted[..n], s.taken, s.emitted[n].cycle);
    }
  }

  /** Completions concern neither emission nor what was taken. */
  ghost predicate SameFlow(s: State, t: State) {
    && t.denied == s.denied && t.armed == s.armed && t.pending == s.pending && t.pendingData == s.pendingData
    && t.pendingSize == s.pendingSize && t.emitted == s.emitted && t.taken == s.taken && t.time == s.time
  }

  lemma FinishFlow(s: State, i: nat, resp: RespStatus)
    requires i < |s.granted| && s.granted[i].parent < |s.parents|
    ensures SameFlow(s, Finished(s, i, resp))
  {}

  lemma TakenFlow(s: State, a: Answer)
    requires |s.granted| > 0 && s.granted[|s.granted| - 1].parent < |s.parents|
    ensures SameFlow(s, LimiterSpec.Taken(s, a))
  {
    if a.status == Done { FinishFlow(s, |s.granted| - 1, a.resp); }
  }

  /** A chunk goes out, and its answer comes. */
  lemma EmissionCalm(s: State, a: Answer, bw: pos)
    requires Calm(s) && Counted(s) && s.pending.Some? && s.pending.value < |s.reqs| == |s.parents| && s.denied.None?
    requires s.armed.Some? && s.time == s.armed.value
    ensures var e := Emitted(s.(armed := None), bw);
            && |e.granted| > 0 && e.granted[|e.granted| - 1].parent < |e.parents|
            && Calm(Refused(e)) && Calm(Rescheduled(LimiterSpec.Taken(e, a)))
  {
    var e := Emitted(s.(armed := None), bw);
    var sub := NextSub(s, bw);
    ApartAppend(s.emitted, s.taken, Emission(s.time, sub), Emission(s.time, sub));
    TakenFlow(e, a);
    assert Refused(e).taken == s.taken;
  }

  lemma TickCalm(s: State, a: Answer, bw: pos)
    requires Counted(s) && Known(s) && Calm(s) && s.armed.Some? && s.time == s.armed.value
    ensures Calm(Ticked(s, a, bw))
  {
    if s.denied.None? && s.pending.Some? && s.pendingSize > 0 && s.nextTimestamp <= s.time { EmissionCalm(s, a, bw); }
  }

  lemma RetryCalm(s: State, a: Answer)
    requires Known(s) && Calm(s)
    ensures Calm(Retried(s, a))
  {
    if s.denied.Some? {
      var r := Resent(s);
      ApartTaken(s.emitted, s.taken, Emission(s.time, s.denied.value));
      if a.status == Denied { ResentThenRefused(s); } else { TakenFlow(r, a); }
    }
  }

  lemma ApplyCalm(s: State, e: Event, bw: pos)
    requires Counted(s) && Safe(s) && Calm(s) && (s.armed.Some? ==> s.time <= s.armed.value)
    ensures Calm(Applied(s, e, bw))
  {
    match e
    case Req(req, now) =>
    case Tick(a) =>
      if s.armed.Some? { TickCalm(s.(time := s.armed.value), a, bw); }
    case Respond(i, resp) => if i < |s.granted| { FinishFlow(s, i, resp); }
    case RetryIn(now, a) =>
      if InTime(s, now) { RetryCalm(s.(time := now), a); }
  }

  lemma {:induction false} RunCalm(s: State, events: seq<Event>, bw: pos)
    requires Inv(s, bw) && Calm(s)
    ensures Calm(RunFrom(s, events, bw))
    decreases |events|
  {
    if events != [] {
      ApplyKeeps(s, events[0], bw);
      TimedLengths(s);
      ApplyCalm(s, events[0], bw);
      RunCalm(Step(s, events[0], bw), events[1..], bw);
    }
  }

  // ---------------------------------------------------------------- offers and takings, by number

  /** Chunk `i` is taken no earlier than it is offered, and before the next one is. */
  ghost predicate InTurn(emitted: seq<Emission>, taken: seq<Emission>, i: nat, bw: pos)
    requires i < |emitted|
  {
    && emitted[i].sub.size <= bw
    && (i < |taken| ==> taken[i].sub == emitted[i].sub && emitted[i].cycle <= taken[i].cycle)
    && (i > 0 ==> i - 1 < |taken| && taken[i - 1].cycle <= emitted[i].cycle && emitted[i - 1].cycle < emitted[i].cycle)
  }

  ghost predicate Orderly(emitted: seq<Emission>, taken: seq<Emission>, bw: pos) {
    |taken| <= |emitted| && forall i :: 0 <= i < |emitted| ==> InTurn(emitted, taken, i, bw)
  }

  lemma OrderlyGrows(emitted: seq<Emission>, taken: seq<Emission>, bw: pos)
    requires |emitted| > 0 && |taken| <= |emitted|
    requires var n := |emitted| - 1;
             && Orderly(emitted[..n], if |taken| > n then taken[..n] else taken, bw)
             && InTurn(emitted, taken, n, bw)
    ensures Orderly(emitted, taken, bw)
  {
    var n := |emitted| - 1;
    var rest := if |taken| > n then taken[..n] else taken;
    forall i | 0 <= i < |emitted| ensures InTurn(emitted, taken, i, bw) {
      if i < n { assert InTurn(emitted[..n], rest, i, bw); }
    }
  }

  lemma OrderlyPrefix(emitted: seq<Emission>, taken: seq<Emission>, bw: pos)
    requires Orderly(emitted, taken, bw) && |emitted| > 0
    ensures var n := |emitted| - 1; Orderly(emitted[..n], if |taken| > n then taken[..n] else taken, bw)
  {
    var n := |emitted| - 1;
    var rest := if |taken| > n then taken[..n] else taken;
    forall i | 0 <= i < n ensures InTurn(emitted[..n], rest, i, bw) { assert InTurn(emitted, taken, i, bw); }
  }

  lemma {:induction false} PairedOrderly(emitted: seq<Emission>, taken: seq<Emission>, until: int, next: int, bw: pos)
    requires Paired(emitted, taken, until) && Paced(emitted, next, bw)
    ensures Orderly(emitted, taken, bw) && |emitted| == |taken|
    ensures emitted != [] ==> taken[|taken| - 1].cycle <= until && emitted[|emitted| - 1].cycle < next
  {
    if emitted != [] {
      var n := |emitted| - 1;
      PairedOrderly(emitted[..n], taken[..|taken| - 1], emitted[n].cycle, emitted[n].cycle, bw);
      OrderlyGrows(emitted, taken, bw);
    }
  }

  lemma RunOrderly(s: State, bw: pos)
    requires Inv(s, bw)
    ensures Orderly(s.emitted, s.taken, bw)
  {
    if s.denied.None? {
      PairedOrderly(s.emitted, s.taken, s.time, s.nextTimestamp, bw);
    } else {
      var n := |s.emitted| - 1;
      PairedOrderly(s.emitted[..n], s.taken, s.emitted[n].cycle, s.emitted[n].cycle, bw);
      OrderlyGrows(s.emitted, s.taken, bw);
    }
  }

  lemma {:induction false} OfferedLater(emitted: seq<Emission>, taken: seq<Emission>, bw: pos, i: nat, j: nat)
    requires Orderly(emitted, taken, bw) && i < j < |emitted|
    ensures i < |taken| && taken[i].cycle <= emitted[i + 1].cycle <= emitted[j].cycle
    ensures emitted[i].cycle < emitted[j].cycle && (i + 1 < j ==> emitted[i + 1].cycle < emitted[j].cycle)
  {
    assert InTurn(emitted, taken, j, bw);
    if i + 1 < j { OfferedLater(emitted, taken, bw, i, j - 1); }
  }

  // ---------------------------------------------------------------- what is carried over a cycle's start

  ghost predicate Waits(emitted: seq<Emission>, taken: seq<Emission>, i: nat, u: int)
    requires i < |emitted|
  {
    emitted[i].cycle < u && (i < |taken| ==> u <= taken[i].cycle)
  }

  /** Bytes that were offered before cycle `u` and not taken before. */
  ghost function Carried(emitted: seq<Emission>, taken: seq<Emission>, u: int): nat {
    if emitted == [] then 0
    else
      var n := |emitted| - 1;
      Carried(emitted[..n], if |taken| > n then taken[..n] else taken, u)
      + (if Waits(emitted, taken, n, u) then emitted[n].sub.size else 0)
  }

  /** What is taken in a window is what is offered in it, and what is carried in, less what is carried out. */
  lemma {:induction false} Conserved(emitted: seq<Emission>, taken: seq<Emission>, bw: pos, t: int, n: nat)
    requires Orderly(emitted, taken, bw)
    ensures WindowBytes(taken, t, n) + Carried(emitted, taken, t + n)
            == WindowBytes(emitted, t, n) + Carried(emitted, taken, t)
  {
    if emitted != [] {
      var m := |emitted| - 1;
      assert InTurn(emitted, taken, m, bw);
      OrderlyPrefix(emitted, taken, bw);
      Conserved(emitted[..m], if |taken| > m then taken[..m] else taken, bw, t, n);
    }
  }

  lemma {:induction false} NoneCarried(emitted: seq<Emission>, taken: seq<Emission>, u: int)
    requires forall j :: 0 <= j < |emitted| ==> !Waits(emitted, taken, j, u)
    ensures Carried(emitted, taken, u) == 0
  {
    if emitted != [] {
      var n := |emitted| - 1;
      var rest := if |taken| > n then taken[..n] else taken;
      forall j | 0 <= j < n ensures !Waits(emitted[..n], rest, j, u) { assert !Waits(emitted, taken, j, u); }
      NoneCarried(emitted[..n], rest, u);
    }
  }

  /** At most one chunk waits. */
  lemma {:induction false} OneCarried(emitted: seq<Emission>, taken: seq<Emission>, bw: pos, u: int, i: nat)
    requires Orderly(emitted, taken, bw) && i < |emitted| && Waits(emitted, taken, i, u)
    ensures Carried(emitted, taken, u) == emitted[i].sub.size
  {
    var n := |emitted| - 1;
    var rest := if |taken| > n then taken[..n] else taken;
    OrderlyPrefix(emitted, taken, bw);
    if i < n {
      OfferedLater(emitted, taken, bw, i, n);
      OneCarried(emitted[..n], rest, bw, u, i);
    } else {
      forall j | 0 <= j < n ensures !Waits(emitted[..n], rest, j, u) { OfferedLater(emitted, taken, bw, j, n); }
      NoneCarried(emitted[..n], rest, u);
    }
  }

  /** Either nothing waits at the start of cycle `u`, or one chunk does. */
  lemma WhoWaits(emitted: seq<Emission>, taken: seq<Emission>, bw: pos, u: int) returns (i: nat)
    requires Orderly(emitted, taken, bw)
    ensures if i < |emitted| then Waits(emitted, taken, i, u) && Carried(emitted, taken, u) == emitted[i].sub.size <= bw
            else Carried(emitted, taken, u) == 0
  {
    if j :| 0 <= j < |emitted| && Waits(emitted, taken, j, u) {
      i := j;
      OneCarried(emitted, taken, bw, u, i);
      assert InTurn(emitted, taken, i, bw);
    } else {
      i := |emitted|;
      NoneCarried(emitted, taken, u);
    }
  }

  // ---------------------------------------------------------------- what is offered in one cycle

  lemma {:induction false} NoneOffered(emitted: seq<Emission>, t: int)
    requires forall j :: 0 <= j < |emitted| ==> emitted[j].cycle != t
    ensures WindowBytes(emitted, t, 1) == 0
  {
    if emitted != [] { NoneOffered(emitted[..|emitted| - 1], t); }
  }

  lemma {:induction false} OneOffered(emitted: seq<Emission>, taken: seq<Emission>, bw: pos, t: int, i: nat)
    requires Orderly(emitted, taken, bw) && i < |emitted| && emitted[i].cycle == t
    ensures WindowBytes(emitted, t, 1) == emitted[i].sub.size
  {
    var n := |emitted| - 1;
    OrderlyPrefix(emitted, taken, bw);
    if i < n {
      OfferedLater(emitted, taken, bw, i, n);
      OneOffered(emitted[..n], if |taken| > n then taken[..n] else taken, bw, t, i);
    } else {
      forall j | 0 <= j < n ensures emitted[..n][j].cycle != t { OfferedLater(emitted, taken, bw, j, n); }
      NoneOffered(emitted[..n], t);
    }
  }

  lemma WhoOffers(emitted: seq<Emission>, taken: seq<Emission>, bw: pos, t: int) returns (i: nat)
    requires Orderly(emitted, taken, bw)
    ensures if i < |emitted| then emitted[i].cycle == t && WindowBytes(emitted, t, 1) == emitted[i].sub.size
            else WindowBytes(emitted, t, 1) == 0
  {
    if j :| 0 <= j < |emitted| && emitted[j].cycle == t {
      i := j;
      OneOffered(emitted, taken, bw, t, i);
    } else {
      i := |emitted|;
      NoneOffered(emitted, t);
    }
  }

  lemma {:induction false} WindowSplits(emitted: seq<Emission>, t: int, n: pos)
    ensures WindowBytes(emitted, t, n) == WindowBytes(emitted, t, 1) + WindowBytes(emitted, t + 1, n - 1)
  {
    if emitted != [] { WindowSplits(emitted[..|emitted| - 1], t, n); }
  }

  // ---------------------------------------------------------------- when a chunk meets the next one

  /** Chunk `i` was offered before cycle `t` and is taken in it, and in the same cycle the next one is offered. */
  ghost predicate Meets(emitted: seq<Emission>, taken: seq<Emission>, t: int, i: nat) {
    && i + 1 < |emitted| && i < |taken|
    && emitted[i].cycle < t && taken[i].cycle == t && emitted[i + 1].cycle == t
  }

  /** More is carried into cycle `t` and offered in it than the bandwidth: then two chunks meet. */
  lemma TwoMeet(emitted: seq<Emission>, taken: seq<Emission>, bw: pos, t: int) returns (i: nat)
    requires Orderly(emitted, taken, bw)
    requires WindowBytes(emitted, t, 1) + Carried(emitted, taken, t) > bw
    ensures Meets(emitted, taken, t, i) && emitted[i].sub.size + emitted[i + 1].sub.size > bw
  {
    i := WhoWaits(emitted, taken, bw, t);
    var j := WhoOffers(emitted, taken, bw, t);
    if j < |emitted| { assert InTurn(emitted, taken, j, bw); }
    OfferedOrder(emitted, taken, bw, i, j);
    OfferedLater(emitted, taken, bw, i, j);
  }

  lemma OfferedOrder(emitted: seq<Emission>, taken: seq<Emission>, bw: pos, i: nat, j: nat)
    requires Orderly(emitted, taken, bw) && i < |emitted| && j < |emitted| && emitted[i].cycle < emitted[j].cycle
    ensures i < j
  {
    if j < i { OfferedLater(emitted, taken, bw, j, i); }
  }

  lemma MeetingBytes(emitted: seq<Emission>, taken: seq<Emission>, bw: pos, t: int, i: nat)
    requires Orderly(emitted, taken, bw) && Meets(emitted, taken, t, i)
    ensures var both := i + 1 < |taken| && taken[i + 1].cycle == t;
            WindowBytes(taken, t, 1) == emitted[i].sub.size + (if both then emitted[i + 1].sub.size else 0)
  {
    Conserved(emitted, taken, bw, t, 1);
    OneCarried(emitted, taken, bw, t, i);
    OneOffered(emitted, taken, bw, t, i + 1);
    if i + 1 < |taken| && taken[i + 1].cycle == t {
      var u := t + 1;
      forall j | 0 <= j < |emitted| ensures !Waits(emitted, taken, j, u) {
        if j < i + 1 { OfferedLater(emitted, taken, bw, j, i + 1); }
        if j > i + 1 { OfferedLater(emitted, taken, bw, i + 1, j); }
      }
      NoneCarried(emitted, taken, t + 1);
    } else {
      assert InTurn(emitted, taken, i + 1, bw);
      OneCarried(emitted, taken, bw, t + 1, i + 1);
    }
  }

  // ---------------------------------------------------------------- they are of different requests

  /** `sub` is the last piece of a request and `next` the first one of the next request. */
  ghost predicate LastAndFirst(reqs: seq<Request>, sub: Sub, next: Sub) {
    sub.parent < |reqs| && sub.data + sub.size == reqs[sub.parent].size && next.parent == sub.parent + 1
      && next.data == 0
  }

  lemma {:induction false} PiecesInTurn(subs: seq<Sub>, reqs: seq<Request>, k: nat, d: nat, bw: pos, i: nat)
    requires PiecesUpTo(subs, reqs, k, d, bw) && i + 1 < |subs| && subs[i + 1].data == 0
    requires forall j :: 0 <= j < k && j < |reqs| ==> reqs[j].size > 0
    ensures LastAndFirst(reqs, subs[i], subs[i + 1])
    decreases |subs|, k
  {
    if d == 0 {
      PiecesInTurn(subs, reqs, k - 1, reqs[k - 1].size, bw, i);
    } else if i + 2 < |subs| {
      PiecesInTurn(subs[..|subs| - 1], reqs, k, subs[|subs| - 1].data, bw, i);
    } else {
      var rest := subs[..i + 1];
      assert PiecesUpTo(rest, reqs, k, 0, bw) && rest != [];
      assert PiecesUpTo(rest, reqs, k - 1, reqs[k - 1].size, bw) && rest[i] == subs[i];
    }
  }

  lemma {:induction false} SubsAt(emitted: seq<Emission>, i: nat)
    requires i < |emitted|
    ensures |Subs(emitted)| == |emitted| && Subs(emitted)[i] == emitted[i].sub
  {
    SubsLength(emitted);
    if i < |emitted| - 1 {
      SubsAt(emitted[..|emitted| - 1], i);
    } else {
      SubsLength(emitted[..|emitted| - 1]);
    }
  }

  /** Chunks that meet are of different requests. */
  lemma MeetingRequests(s: State, bw: pos, t: int, i: nat)
    requires Inv(s, bw) && Calm(s) && Meets(s.emitted, s.taken, t, i)
    ensures LastAndFirst(s.reqs, s.emitted[i].sub, s.emitted[i + 1].sub)
  {
    FirstOrFollows(s.emitted, s.taken, i + 1);
    SubsAt(s.emitted, i);
    SubsAt(s.emitted, i + 1);
    if s.pending.Some? {
      PiecesInTurn(Subs(s.emitted), s.reqs, s.pending.value, s.pendingData, bw, i);
    } else {
      PiecesInTurn(Subs(s.emitted), s.reqs, |s.reqs|, 0, bw, i);
    }
  }

  // ---------------------------------------------------------------- the bandwidth is exceeded

  /**
    Chunk `i`, the last one of its request, was refused and is taken in cycle `t`, in which the first chunk of the
    next request is offered; together they are more than the bandwidth.
   */
  ghost predicate Collide(s: State, bw: pos, t: int, i: nat) {
    && Meets(s.emitted, s.taken, t, i) && LastAndFirst(s.reqs, s.emitted[i].sub, s.emitted[i + 1].sub)
    && s.emitted[i].sub.size + s.emitted[i + 1].sub.size > bw
  }

  ghost predicate BothTaken(s: State, bw: pos, t: int, i: nat) {
    Collide(s, bw, t, i) && i + 1 < |s.taken| && s.taken[i + 1].cycle == t
  }

  /** What every run keeps. */
  ghost predicate Flows(s: State, bw: pos) {
    Inv(s, bw) && Calm(s) && Orderly(s.emitted, s.taken, bw)
  }

  lemma RunFlows(events: seq<Event>, bw: pos)
    ensures Flows(Run(events, bw), bw)
  {
    InitialInv(bw);
    RunCalm(INITIAL, events, bw);
    RunOrderly(Run(events, bw), bw);
  }

  lemma Collision(s: State, bw: pos, t: int) returns (i: nat)
    requires Flows(s, bw) && WindowBytes(s.emitted, t, 1) + Carried(s.emitted, s.taken, t) > bw
    ensures Collide(s, bw, t, i)
  {
    i := TwoMeet(s.emitted, s.taken, bw, t);
    MeetingRequests(s, bw, t, i);
  }

  lemma CollisionTaken(s: State, bw: pos, t: int, i: nat)
    requires Flows(s, bw) && Collide(s, bw, t, i)
    ensures WindowBytes(s.taken, t, 1) > bw <==> BothTaken(s, bw, t, i)
  {
    MeetingBytes(s.emitted, s.taken, bw, t, i);
    assert InTurn(s.emitted, s.taken, i, bw);
  }

  /** The output takes more than the bandwidth in a cycle exactly if two such chunks are taken in it. */
  lemma CycleExceeds(events: seq<Event>, bw: pos, t: int)
    ensures var s := Run(events, bw); WindowBytes(s.taken, t, 1) > bw <==> exists i :: BothTaken(s, bw, t, i)
  {
    var s := Run(events, bw);
    RunFlows(events, bw);
    Conserved(s.emitted, s.taken, bw, t, 1);
    if WindowBytes(s.taken, t, 1) > bw {
      var i := Collision(s, bw, t);
      CollisionTaken(s, bw, t, i);
    }
    if i :| BothTaken(s, bw, t, i) { CollisionTaken(s, bw, t, i); }
  }

  /** A window is exceeded only if its first cycle is by what is carried into it and offered in it. */
  lemma FirstCycle(s: State, bw: pos, t: int, n: nat)
    requires Flows(s, bw) && WindowBytes(s.emitted, t, n) + Carried(s.emitted, s.taken, t) > Times(n, bw)
    requires Carried(s.emitted, s.taken, t) <= bw && n > 0
    ensures WindowBytes(s.emitted, t, 1) + Carried(s.emitted, s.taken, t) > bw
  {
    TimesUnfold(n, bw);
    WindowSplits(s.emitted, t, n);
    WindowBound(s.emitted, s.nextTimestamp, bw, t + 1, n - 1);
  }

  /**
    The output takes more than `n` bandwidths in `n` cycles exactly if more is carried into the window than is
    carried out of it and left unused by offers; and only if such chunks collide in its first cycle.
   */
  lemma WindowExceeds(events: seq<Event>, bw: pos, t: int, n: nat)
    ensures var s := Run(events, bw);
            var unused := Times(n, bw) - WindowBytes(s.emitted, t, n);
            && unused >= 0
            && Carried(s.emitted, s.taken, t) <= bw
            && (WindowBytes(s.taken, t, n) > Times(n, bw) <==>
                  Carried(s.emitted, s.taken, t) > Carried(s.emitted, s.taken, t + n) + unused)
            && (WindowBytes(s.taken, t, n) > Times(n, bw) ==> exists i :: Collide(s, bw, t, i))
  {
    var s := Run(events, bw);
    RunFlows(events, bw);
    Conserved(s.emitted, s.taken, bw, t, n);
    WindowBound(s.emitted, s.nextTimestamp, bw, t, n);
    var w := WhoWaits(s.emitted, s.taken, bw, t);
    if WindowBytes(s.taken, t, n) > Times(n, bw) {
      if n == 0 { NoWindow(s.taken, t); }
      FirstCycle(s, bw, t, n);
      var i := Collision(s, bw, t);
    }
  }

  lemma {:induction false} NoWindow(emitted: seq<Emission>, t: int)
    ensures WindowBytes(emitted, t, 0) == 0
  {
    if emitted != [] { NoWindow(emitted[..|emitted| - 1], t); }
  }

  // ---------------------------------------------------------------- a window is exceeded and its first cycle is not

  /**
    With a bandwidth of 4, two chunks refused one after the other: 4 bytes go out in cycle 2 and 8 in cycle 3, 12 in
    these two cycles.
   */
  lemma WindowButNotCycle()
    ensures var req := Request(0, 0, 4, Read);
            var events := [Req(req, 0), Tick(DENY), Req(req, 1), RetryIn(2, GRANT), Tick(DENY), Req(req, 2),
                           RetryIn(3, GRANT), Tick(GRANT)];
            TwelveInTwo(Run(events, 4).taken)
  {
    var req := Request(0, 0, 4, Read);
    InitialInv(4);
    var s1 := Accepted(INITIAL, req);
    var s2 := RefusedAt(s1, 1);
    var s3 := Accepted(s2, req);
    var s4 := TakenAt(s3, 2);
    var s5 := RefusedAt(s4, 2);
    var s6 := Accepted(s5, req);
    var s7 := TakenAt(s6, 3);
    var s8 := TickedAt(s7, 3);
    ThreeTaken(s8.taken);
    EightSteps(INITIAL, Req(req, 0), Tick(DENY), Req(req, 1), RetryIn(2, GRANT), Tick(DENY), Req(req, 2),
               RetryIn(3, GRANT), Tick(GRANT), s1, s2, s3, s4, s5, s6, s7, s8);
  }

  ghost predicate TwelveInTwo(taken: seq<Emission>) {
    WindowBytes(taken, 2, 1) == 4 && WindowBytes(taken, 2, 2) == 12
  }

  lemma ThreeTaken(taken: seq<Emission>)
    requires |taken| == 3 && taken[0].cycle == 2 && taken[1].cycle == taken[2].cycle == 3
    requires taken[0].sub.size == taken[1].sub.size == taken[2].sub.size == 4
    ensures TwelveInTwo(taken)
  {
    var two, one := taken[..2], taken[..1];
    assert two[..1] == one && one[..0] == [];
    assert WindowBytes(one, 2, 1) == WindowBytes(one, 2, 2) == 4;
    assert WindowBytes(two, 2, 1) == 4 && WindowBytes(two, 2, 2) == 8;
  }

  /** With a bandwidth of 4, these events lead from `s` to `t`. */
  ghost predicate Leads(s: State, events: seq<Event>, t: State)
    decreases |events|
  {
    if events == [] then t == s else Safe(s) && Leads(Applied(s, events[0], 4), events[1..], t)
  }

  lemma {:induction false} LeadsRun(s: State, events: seq<Event>, t: State)
    requires Inv(s, 4) && Leads(s, events, t)
    ensures RunFrom(s, events, 4) == t
    decreases |events|
  {
    if events != [] {
      ApplyKeeps(s, events[0], 4);
      LeadsRun(Step(s, events[0], 4), events[1..], t);
    }
  }

  ghost predicate Steps(s: State, e: Event, t: State) {
    Safe(s) && t == Applied(s, e, 4)
  }

  lemma LeadsCons(s: State, e: Event, s1: State, rest: seq<Event>, t: State)
    requires Steps(s, e, s1) && Leads(s1, rest, t)
    ensures Leads(s, [e] + rest, t)
  {
    assert ([e] + rest)[1..] == rest;
  }

  lemma EightSteps(s0: State, e1: Event, e2: Event, e3: Event, e4: Event, e5: Event, e6: Event, e7: Event, e8: Event,
                   s1: State, s2: State, s3: State, s4: State, s5: State, s6: State, s7: State, s8: State)
    requires Inv(s0, 4) && Steps(s0, e1, s1) && Steps(s1, e2, s2) && Steps(s2, e3, s3) && Steps(s3, e4, s4)
    requires Steps(s4, e5, s5) && Steps(s5, e6, s6) && Steps(s6, e7, s7) && Steps(s7, e8, s8)
    ensures RunFrom(s0, [e1, e2, e3, e4, e5, e6, e7, e8], 4) == s8
  {
    LeadsCons(s7, e8, s8, [], s8);
    LeadsCons(s6, e7, s7, [e8], s8);
    LeadsCons(s5, e6, s6, [e7, e8], s8);
    LeadsCons(s4, e5, s5, [e6, e7, e8], s8);
    LeadsCons(s3, e4, s4, [e5, e6, e7, e8], s8);
    LeadsCons(s2, e3, s3, [e4, e5, e6, e7, e8], s8);
    LeadsCons(s1, e2, s2, [e3, e4, e5, e6, e7, e8], s8);
    LeadsCons(s0, e1, s1, [e2, e3, e4, e5, e6, e7, e8], s8);
    assert [e8] + [] == [e8];
    LeadsRun(s0, [e1] + [e2, e3, e4, e5, e6, e7, e8], s8);
  }

  /** The chunk of the request in emission is refused in cycle `c`. */
  lemma RefusedAt(s: State, c: int) returns (t: State)
    requires Safe(s) && s.pending.Some? && s.pendingSize == 4 && s.armed == Some(c) && s.nextTimestamp <= c
    requires s.denied.None? && |s.parents| == |s.reqs|
    ensures Safe(t) && t == Applied(s, Tick(DENY), 4)
    ensures t.pending.None? && t.armed.None? && t.time == c && t.nextTimestamp == c + 1
    ensures t.denied.Some? && t.denied.value.size == 4 && t.taken == s.taken && |t.parents| == |t.reqs|
  {
    t := Applied(s, Tick(DENY), 4);
  }

  /** It is taken after all, in the cycle in which the next one is due. */
  lemma TakenAt(s: State, c: int) returns (t: State)
    requires Safe(s) && s.pending.Some? && s.pendingSize == 4 && s.armed == Some(c) && s.time <= c
             && s.nextTimestamp <= c
    requires s.denied.Some? && s.denied.value.size == 4 && |s.parents| == |s.reqs|
    ensures Safe(t) && t == Applied(s, RetryIn(c, GRANT), 4)
    ensures t.pending == s.pending && t.pendingSize == 4 && t.armed == s.armed && t.nextTimestamp <= c && t.denied.None?
    ensures t.taken == s.taken + [Emission(c, s.denied.value)] && |t.parents| == |t.reqs|
  {
    t := Applied(s, RetryIn(c, GRANT), 4);
  }

  /** A chunk is taken when it is due. */
  lemma TickedAt(s: State, c: int) returns (t: State)
    requires Safe(s) && s.pending.Some? && s.pendingSize == 4 && s.armed == Some(c) && s.nextTimestamp <= c
    requires s.denied.None? && |s.parents| == |s.reqs|
    ensures Safe(t) && t == Applied(s, Tick(GRANT), 4)
    ensures |t.taken| == |s.taken| + 1 && t.taken[..|s.taken|] == s.taken
    ensures t.taken[|s.taken|].cycle == c && t.taken[|s.taken|].sub.size == 4
  {
    t := Applied(s, Tick(GRANT), 4);
  }
}
