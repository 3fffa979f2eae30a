/**
  What passes through the clock bridge in every run, and when: each stage delays what enters it by its latency, each
  answer of the slave has its own effect, and each denial of a request is made up for by a retry.
 */
module ClockBridgeTiming {
  import opened IoV2
  import opened ClockBridgeSpec
  import opened Retries

  // ---------------------------------------------------------------- one stage

  /** A stage seen from outside, on its own clock: when what entered it did so, when what left it did so, and when it
      was last touched. */
  datatype Passage = Passage(entered: seq<int>, left: seq<int>, seen: int)

  const UNTOUCHED := Passage([], [], 0)

  function Repeat(t: int, n: nat): seq<int> {
    if n == 0 then [] else [t] + Repeat(t, n - 1)
  }

  function In(p: Passage, n: nat, now: int): Passage {
    Passage(p.entered + Repeat(now, n), p.left, now)
  }

  function Out(p: Passage, n: nat, now: int): Passage {
    Passage(p.entered, p.left + Repeat(now, n), now)
  }

  /** A deadline follows from the latency and the distance to those that entered before: one cycle each. */
  ghost predicate Follows(entered: seq<int>, i: nat, deadline: int, k: nat)
    requires i < |entered|
  {
    exists j :: 0 <= j <= i && deadline == entered[j] + k + (i - j)
  }

  /** What has not left is in the queue, with deadlines that keep the latency `k` and no longer than needed. */
  ghost predicate Queued(p: Passage, queue: seq<Txn>, k: nat) {
    && |p.entered| == |p.left| + |queue|
    && (forall i :: 0 <= i < |queue| ==> InTime(p.entered, |p.left| + i, queue[i].deadline, k))
  }

  ghost predicate InTime(entered: seq<int>, i: nat, deadline: int, k: nat) {
    i < |entered| && deadline >= entered[i] + k && Follows(entered, i, deadline, k)
  }

  /** Nothing has left before its latency was over. */
  ghost predicate NoneEarly(p: Passage, k: nat) {
    |p.left| <= |p.entered| && forall i :: 0 <= i < |p.left| ==> p.left[i] >= p.entered[i] + k
  }

  lemma FollowsLater(entered: seq<int>, more: seq<int>, i: nat, deadline: int, k: nat)
    requires InTime(entered, i, deadline, k)
    ensures InTime(entered + more, i, deadline, k)
  {
    var j :| 0 <= j <= i && deadline == entered[j] + k + (i - j);
    assert (entered + more)[j] == entered[j];
  }

  lemma EnterQueued(p: Passage, queue: seq<Txn>, id: nat, now: int, k: nat)
    requires Queued(p, queue, k)
    ensures Queued(In(p, 1, now), Enqueue(queue, id, now + k), k)
  {
    var p', queue' := In(p, 1, now), Enqueue(queue, id, now + k);
    assert Repeat(now, 1) == [now] + Repeat(now, 0) == [now];
    forall i | 0 <= i < |queue'| ensures InTime(p'.entered, |p'.left| + i, queue'[i].deadline, k) {
      if i < |queue| {
        FollowsLater(p.entered, [now], |p.left| + i, queue[i].deadline, k);
      } else {
        LastInTime(p, queue, now, k);
        assert queue'[i].deadline == NextDeadline(queue, now + k);
      }
    }
  }

  /** Due after the latency, or one cycle behind the predecessor. */
  function NextDeadline(queue: seq<Txn>, deadline: int): int {
    if queue == [] then deadline else Max(deadline, queue[|queue| - 1].deadline + 1)
  }

  lemma LastInTime(p: Passage, queue: seq<Txn>, now: int, k: nat)
    requires Queued(p, queue, k)
    ensures InTime(p.entered + [now], |p.entered|, NextDeadline(queue, now + k), k)
  {
    var entered, n := p.entered + [now], |p.entered|;
    var d := NextDeadline(queue, now + k);
    if d == now + k {
      assert entered[n] == now && d == entered[n] + k + (n - n);
    } else {
      var m := |queue| - 1;
      assert InTime(p.entered, |p.left| + m, queue[m].deadline, k);
      var j :| 0 <= j <= |p.left| + m && queue[m].deadline == p.entered[j] + k + (|p.left| + m - j);
      assert entered[j] == p.entered[j] && d == entered[j] + k + (n - j);
    }
  }

  lemma LeaveEarly(p: Passage, queue: seq<Txn>, now: int, k: nat)
    requires Queued(p, queue, k) && NoneEarly(p, k) && queue != [] && queue[0].deadline <= now
    ensures NoneEarly(Out(p, 1, now), k)
  {
    assert Repeat(now, 1) == [now] + Repeat(now, 0) == [now];
    assert InTime(p.entered, |p.left| + 0, queue[0].deadline, k);
  }

  lemma LeaveQueued(p: Passage, queue: seq<Txn>, now: int, k: nat)
    requires Queued(p, queue, k) && NoneEarly(p, k) && queue != [] && queue[0].deadline <= now
    ensures Queued(Out(p, 1, now), queue[1..], k) && NoneEarly(Out(p, 1, now), k)
  {
    var p' := Out(p, 1, now);
    LeaveEarly(p, queue, now, k);
    assert Repeat(now, 1) == [now] + Repeat(now, 0) == [now];
    forall i | 0 <= i < |queue| - 1 ensures InTime(p'.entered, |p'.left| + i, queue[1..][i].deadline, k) {
      assert InTime(p.entered, |p.left| + (i + 1), queue[i + 1].deadline, k);
    }
  }

  lemma InMore(p: Passage, n: nat, now: int)
    ensures In(In(p, 1, now), n, now) == In(p, n + 1, now)
    ensures Out(Out(p, 1, now), n, now) == Out(p, n + 1, now)
  {
    assert Repeat(now, 1) == [now] + Repeat(now, 0) == [now];
    assert p.entered + [now] + Repeat(now, n) == p.entered + Repeat(now, n + 1);
    assert p.left + [now] + Repeat(now, n) == p.left + Repeat(now, n + 1);
  }

  lemma {:induction false} RepeatLast(t: int, n: nat)
    ensures Repeat(t, n + 1) == Repeat(t, n) + [t]
  {
    if n > 0 { RepeatLast(t, n - 1); } else { assert Repeat(t, 1) == [t] + Repeat(t, 0); }
  }

  lemma InLast(p: Passage, n: nat, now: int)
    ensures In(In(p, n, now), 1, now) == In(p, n + 1, now)
    ensures Out(Out(p, n, now), 1, now) == Out(p, n + 1, now)
  {
    RepeatLast(now, n);
    assert Repeat(now, 1) == [now] + Repeat(now, 0) == [now];
  }

  lemma Nobody(p: Passage, now: int)
    ensures In(p, 0, now) == p.(seen := now) && Out(p, 0, now) == p.(seen := now)
  {}

  /** `n` transactions have moved from a stage to the next one, which leaves them with queues `r`. */
  ghost predicate HaveMoved(p: Passage, p': Passage, r: Queues, n: nat, now: int, now': int, k: nat, k': nat) {
    Queued(Out(p, n, now), r.from, k) && NoneEarly(Out(p, n, now), k) && Queued(In(p', n, now'), r.to, k')
  }

  lemma OneMoreMoved(p: Passage, p': Passage, r: Queues, n: nat, now: int, now': int, k: nat, k': nat)
    requires HaveMoved(Out(p, 1, now), In(p', 1, now'), r, n, now, now', k, k')
    ensures HaveMoved(p, p', r, n + 1, now, now', k, k')
  {
    InMore(p, n, now);
    InMore(p', n, now');
  }

  ghost predicate Ready(p: Passage, p': Passage, q: Queues, k: nat, k': nat) {
    Queued(p, q.from, k) && NoneEarly(p, k) && Queued(p', q.to, k')
  }

  lemma FirstMoves(p: Passage, p': Passage, q: Queues, q1: Queues, now: int, now': int, k: nat, k': nat)
    requires Ready(p, p', q, k, k') && q.from != [] && q.from[0].deadline <= now
    requires q1 == Queues(q.from[1..], Enqueue(q.to, q.from[0].id, now' + k'))
    ensures Ready(Out(p, 1, now), In(p', 1, now'), q1, k, k') && |q1.from| == |q.from| - 1
  {
    LeaveQueued(p, q.from, now, k);
    EnterQueued(p', q.to, q.from[0].id, now', k');
  }

  lemma NoneMoves(p: Passage, p': Passage, q: Queues, now: int, now': int, k: nat, k': nat)
    requires Ready(p, p', q, k, k')
    ensures HaveMoved(p, p', q, 0, now, now', k, k')
  {
    Nobody(p, now);
    Nobody(p', now');
  }

  /** What is due moves from one stage to the next. */
  lemma {:induction false} MoveQueued(p: Passage, p': Passage, q: Queues, now: int, now': int, k: nat, k': nat)
    returns (n: nat)
    requires Ready(p, p', q, k, k')
    ensures var r := Moved(q, now, now' + k'); HaveMoved(p, p', r, n, now, now', k, k') && n == |q.from| - |r.from|
    decreases |q.from|
  {
    if q.from != [] && q.from[0].deadline <= now {
      var q1 := Queues(q.from[1..], Enqueue(q.to, q.from[0].id, now' + k'));
      var r := Moved(q1, now, now' + k');
      FirstMoves(p, p', q, q1, now, now', k, k');
      n := MoveQueued(Out(p, 1, now), In(p', 1, now'), q1, now, now', k, k');
      OneMoreMoved(p, p', r, n, now, now', k, k');
      n := n + 1;
    } else {
      NoneMoves(p, p', q, now, now', k, k');
      n := 0;
    }
  }

  /** A stage that keeps its latency, with its event scheduled for the cycle in which the front is due. */
  ghost predicate Keeps(p: Passage, t: Stage, k: nat) {
    && Queued(p, t.queue, k) && NoneEarly(p, k)
    && t.armed == if t.queue == [] then None else Some(Max(t.queue[0].deadline, p.seen + 1))
  }

  lemma InEarly(p: Passage, n: nat, now: int, k: nat)
    requires NoneEarly(p, k)
    ensures NoneEarly(In(p, n, now), k)
  {}

  lemma ScheduleKeeps(p: Passage, queue: seq<Txn>, k: nat)
    requires Queued(p, queue, k) && NoneEarly(p, k)
    ensures Keeps(p, Scheduled(queue, p.seen), k)
  {}

  // ---------------------------------------------------------------- the slave

  /** The requests that got this answer. */
  function Pick(ids: seq<nat>, answers: seq<ReqStatus>, a: ReqStatus): seq<nat>
    requires |ids| == |answers|
  {
    if ids == [] then []
    else
      var n := |ids| - 1;
      Pick(ids[..n], answers[..n], a) + (if answers[n] == a then [ids[n]] else [])
  }

  /** The first `n` requests of a queue. */
  function FirstIds(queue: seq<Txn>, n: nat): (ids: seq<nat>)
    requires n <= |queue|
    ensures |ids| == n
  {
    if n == 0 then [] else FirstIds(queue, n - 1) + [queue[n - 1].id]
  }

  /**
    What the slave's answers do to the requests it is handed: one that is done turns back, one that is granted is held,
    and one that is denied is lost.
   */
  ghost predicate Answers(s: State, s': State, ids: seq<nat>, answers: seq<ReqStatus>)
    requires |ids| == |answers|
  {
    && s'.delivered == s.delivered + ids && s'.answers == s.answers + answers
    && s'.returned == s.returned + Pick(ids, answers, Done)
    && s'.held == s.held + multiset(Pick(ids, answers, Granted))
    && s'.lost == s.lost + multiset(Pick(ids, answers, Denied))
  }

  lemma PickOn(ids: seq<nat>, answers: seq<ReqStatus>, id: nat, b: ReqStatus, a: ReqStatus)
    requires |ids| == |answers|
    ensures Pick(ids + [id], answers + [b], a) == Pick(ids, answers, a) + If(b == a, id)
  {
    assert (ids + [id])[..|ids|] == ids && (answers + [b])[..|ids|] == answers;
  }

  lemma SeqGrows<T>(base: seq<T>, now: seq<T>, part: seq<T>, more: seq<T>)
    requires now == base + part
    ensures now + more == base + (part + more)
  {}

  lemma BagGrows(base: multiset<nat>, now: multiset<nat>, part: seq<nat>, more: seq<nat>)
    requires now == base + multiset(part)
    ensures now + multiset(more) == base + multiset(part + more)
  {}

  function If(c: bool, id: nat): seq<nat> { if c then [id] else [] }

  lemma DeliveredFields(cfg: Config, t: State, slave: int, a: ReqStatus)
    requires t.fwdDst.queue != []
    ensures var t', id := Delivered(cfg, t, slave, a), t.fwdDst.queue[0].id;
            && t'.delivered == t.delivered + [id] && t'.answers == t.answers + [a]
            && t'.returned == t.returned + If(a == Done, id)
            && t'.held == t.held + multiset(If(a == Granted, id)) && t'.lost == t.lost + multiset(If(a == Denied, id))
            && t'.fwdDst.queue == t.fwdDst.queue[1..]
  {
    assert t.returned + [] == t.returned;
  }

  lemma AnswerNext(cfg: Config, s: State, t: State, t': State, slave: int, ids: seq<nat>, answers: seq<ReqStatus>,
                   a: ReqStatus, id: nat)
    requires |ids| == |answers| && t.fwdDst.queue != [] && id == t.fwdDst.queue[0].id && Answers(s, t, ids, answers)
    requires t' == Delivered(cfg, t, slave, a)
    ensures Answers(s, t', ids + [id], answers + [a])
  {
    DeliveredFields(cfg, t, slave, a);
    PickOn(ids, answers, id, a, Done);
    PickOn(ids, answers, id, a, Granted);
    PickOn(ids, answers, id, a, Denied);
    SeqGrows(s.returned, t.returned, Pick(ids, answers, Done), If(a == Done, id));
    BagGrows(s.held, t.held, Pick(ids, answers, Granted), If(a == Granted, id));
    BagGrows(s.lost, t.lost, Pick(ids, answers, Denied), If(a == Denied, id));
    SeqGrows(s.delivered, t.delivered, ids, [id]);
    SeqGrows(s.answers, t.answers, answers, [a]);
  }

  lemma FirstOf(queue: seq<Txn>, n: nat)
    requires n < |queue|
    ensures FirstIds(queue, n + 1) == FirstIds(queue, n) + [queue[n].id] && queue[n..][0] == queue[n]
    ensures queue[n..][1..] == queue[n + 1..]
  {}

  /** Requests have been handed to the slave: what each answer does, ... */
  ghost predicate HandedOver(s: State, t: State, n: nat, answers: seq<ReqStatus>) {
    && n <= |s.fwdDst.queue| && n <= |answers|
    && Answers(s, t, FirstIds(s.fwdDst.queue, n), answers[..n]) && t.fwdDst.queue == s.fwdDst.queue[n..]
  }

  /** ... and when they have passed the two stages: `n` have left the first one, and `m` have entered the other. */
  ghost predicate PassedOver(p: Passage, p': Passage, queue: seq<Txn>, queue': seq<Txn>, n: nat, m: nat, now: int,
                             k: nat, k': nat) {
    Queued(Out(p, n, now), queue, k) && NoneEarly(Out(p, n, now), k) && Queued(In(p', m, now), queue', k')
  }

  lemma HandNothing(s: State, answers: seq<ReqStatus>)
    ensures HandedOver(s, s, 0, answers)
  {
    assert s.fwdDst.queue[0..] == s.fwdDst.queue && answers[..0] == [];
    assert s.delivered + [] == s.delivered && s.answers + [] == s.answers && s.returned + [] == s.returned;
  }

  lemma LeaveAnother(p: Passage, queue: seq<Txn>, n: nat, now: int, k: nat)
    requires Queued(Out(p, n, now), queue, k) && NoneEarly(Out(p, n, now), k)
    requires queue != [] && queue[0].deadline <= now
    ensures Queued(Out(p, n + 1, now), queue[1..], k) && NoneEarly(Out(p, n + 1, now), k)
  {
    LeaveQueued(Out(p, n, now), queue, now, k);
    InLast(p, n, now);
  }

  lemma EnterAnother(p: Passage, queue: seq<Txn>, n: nat, id: nat, now: int, k: nat)
    requires Queued(In(p, n, now), queue, k)
    ensures Queued(In(p, n + 1, now), Enqueue(queue, id, now + k), k)
  {
    EnterQueued(In(p, n, now), queue, id, now, k);
    InLast(p, n, now);
  }

  /** One request is handed to the slave, and turns back if it is done. */
  ghost predicate OneOver(cfg: Config, t: State, t': State, slave: int, done: bool) {
    && t.fwdDst.queue != [] && t'.fwdDst.queue == t.fwdDst.queue[1..]
    && |t'.returned| == |t.returned| + (if done then 1 else 0) && |t'.delivered| == |t.delivered| + 1
    && t'.revSrc.queue ==
       if done then Enqueue(t.revSrc.queue, t.fwdDst.queue[0].id, slave + cfg.kSrc) else t.revSrc.queue
  }

  lemma DeliveredOver(cfg: Config, t: State, slave: int, a: ReqStatus)
    requires t.fwdDst.queue != []
    ensures OneOver(cfg, t, Delivered(cfg, t, slave, a), slave, a == Done)
  {}

  lemma PassNext(p: Passage, p': Passage, queue: seq<Txn>, queue': seq<Txn>, rest: seq<Txn>, rest': seq<Txn>, n: nat,
                 m: nat, now: int, k: nat, k': nat, done: bool) returns (m': nat)
    requires PassedOver(p, p', queue, queue', n, m, now, k, k') && queue != [] && queue[0].deadline <= now
    requires rest == queue[1..] && rest' == if done then Enqueue(queue', queue[0].id, now + k') else queue'
    ensures m' == m + (if done then 1 else 0) && PassedOver(p, p', rest, rest', n + 1, m', now, k, k')
  {
    LeaveAnother(p, queue, n, now, k);
    m' := m;
    if done {
      EnterAnother(p', queue', m, queue[0].id, now, k');
      m' := m + 1;
    }
  }

  lemma PrefixGrows(answers: seq<ReqStatus>, n: nat)
    requires n < |answers|
    ensures answers[..n + 1] == answers[..n] + [answers[n]]
  {}

  lemma HandNext(cfg: Config, s: State, t: State, t': State, n: nat, answers: seq<ReqStatus>, slave: int)
    requires HandedOver(s, t, n, answers) && n < |answers| && t.fwdDst.queue != []
    requires t' == Delivered(cfg, t, slave, answers[n])
    ensures HandedOver(s, t', n + 1, answers)
  {
    FirstOf(s.fwdDst.queue, n);
    PrefixGrows(answers, n);
    DeliveredOver(cfg, t, slave, answers[n]);
    AnswerNext(cfg, s, t, t', slave, FirstIds(s.fwdDst.queue, n), answers[..n], answers[n], s.fwdDst.queue[n].id);
    HandedOn(s, t', FirstIds(s.fwdDst.queue, n) + [s.fwdDst.queue[n].id], answers[..n] + [answers[n]], n + 1, answers);
  }

  lemma HandedOn(s: State, t: State, ids: seq<nat>, some: seq<ReqStatus>, n: nat, answers: seq<ReqStatus>)
    requires n <= |s.fwdDst.queue| && n <= |answers| && |ids| == |some| && Answers(s, t, ids, some)
    requires ids == FirstIds(s.fwdDst.queue, n) && some == answers[..n] && t.fwdDst.queue == s.fwdDst.queue[n..]
    ensures HandedOver(s, t, n, answers)
  {}

  lemma DeliveredLast(cfg: Config, s: State, slave: int, answers: seq<ReqStatus>, upto: nat)
    requires 0 < upto <= |answers|
    ensures var t := DeliveredAll(cfg, s, slave, answers[..upto - 1]);
            DeliveredAll(cfg, s, slave, answers[..upto]) ==
            if t.fwdDst.queue != [] && t.fwdDst.queue[0].deadline <= slave
            then Delivered(cfg, t, slave, answers[upto - 1]) else t
  {
    assert answers[..upto][..upto - 1] == answers[..upto - 1];
  }

  /** From `s` to `t`, `n` requests have been handed to the slave and `m` have turned back. */
  ghost predicate Passed(cfg: Config, p: Passage, p': Passage, s: State, t: State, n: nat, m: nat, slave: int) {
    && |t.returned| == |s.returned| + m && |t.delivered| == |s.delivered| + n
    && PassedOver(p, p', t.fwdDst.queue, t.revSrc.queue, n, m, slave, cfg.kDst, cfg.kSrc)
  }

  lemma PassStep(cfg: Config, p: Passage, p': Passage, s: State, t: State, t': State, n: nat, m: nat, slave: int,
                 done: bool) returns (m': nat)
    requires Passed(cfg, p, p', s, t, n, m, slave) && OneOver(cfg, t, t', slave, done)
    requires t.fwdDst.queue[0].deadline <= slave
    ensures Passed(cfg, p, p', s, t', n + 1, m', slave)
  {
    m' := PassNext(p, p', t.fwdDst.queue, t.revSrc.queue, t'.fwdDst.queue, t'.revSrc.queue, n, m, slave, cfg.kDst,
                   cfg.kSrc, done);
  }

  lemma QueueLeft(cfg: Config, s: State, slave: int, answers: seq<ReqStatus>)
    requires Spaced(s.fwdDst.queue)
    ensures var n := Min(|answers|, Due(s.fwdDst.queue, slave));
            n <= |s.fwdDst.queue| && DeliveredAll(cfg, s, slave, answers).fwdDst.queue == s.fwdDst.queue[n..]
  {
    HandAll(cfg, s, slave, answers);
  }

  lemma PassMore(cfg: Config, p: Passage, p': Passage, s: State, t: State, n: nat, m: nat, slave: int, a: ReqStatus)
    returns (m': nat)
    requires Spaced(s.fwdDst.queue)
    requires var d := Min(n, Due(s.fwdDst.queue, slave));
             && t.fwdDst.queue == s.fwdDst.queue[d..] && Passed(cfg, p, p', s, t, d, m, slave)
    ensures var t' := if t.fwdDst.queue != [] && t.fwdDst.queue[0].deadline <= slave
                      then Delivered(cfg, t, slave, a) else t;
            Passed(cfg, p, p', s, t', Min(n + 1, Due(s.fwdDst.queue, slave)), m', slave)
  {
    DueAreFirst(s.fwdDst.queue, slave);
    m' := m;
    if n < Due(s.fwdDst.queue, slave) {
      DeliveredOver(cfg, t, slave, a);
      m' := PassStep(cfg, p, p', s, t, Delivered(cfg, t, slave, a), n, m, slave, a == Done);
    } else {
      NoneDue(s.fwdDst.queue, t.fwdDst.queue, Due(s.fwdDst.queue, slave), slave);
    }
  }

  /** What is due is handed to the slave, as far as it answers. */
  lemma {:induction false} PassAll(cfg: Config, p: Passage, p': Passage, s: State, slave: int, answers: seq<ReqStatus>)
    returns (m: nat)
    requires Spaced(s.fwdDst.queue)
    requires Queued(p, s.fwdDst.queue, cfg.kDst) && NoneEarly(p, cfg.kDst) && Queued(p', s.revSrc.queue, cfg.kSrc)
    ensures Passed(cfg, p, p', s, DeliveredAll(cfg, s, slave, answers), Min(|answers|, Due(s.fwdDst.queue, slave)), m,
                   slave)
  {
    if answers == [] {
      Nobody(p, slave);
      Nobody(p', slave);
      m := 0;
    } else {
      var n := |answers| - 1;
      m := PassAll(cfg, p, p', s, slave, answers[..n]);
      QueueLeft(cfg, s, slave, answers[..n]);
      m := PassMore(cfg, p, p', s, DeliveredAll(cfg, s, slave, answers[..n]), n, m, slave, answers[n]);
    }
  }

  lemma NoneDue(queue: seq<Txn>, rest: seq<Txn>, n: nat, now: int)
    requires n <= |queue| && rest == queue[n..] && forall i :: 0 <= i < |queue| ==>
             (queue[i].deadline <= now <==> i < n)
    ensures !(rest != [] && rest[0].deadline <= now)
  {}

  ghost predicate HaveLeft(p: Passage, queue: seq<Txn>, n: nat, now: int, k: nat) {
    Queued(Out(p, n, now), queue, k) && NoneEarly(Out(p, n, now), k)
  }

  lemma OneMoreLeft(p: Passage, queue: seq<Txn>, n: nat, now: int, k: nat)
    requires HaveLeft(Out(p, 1, now), queue, n, now, k)
    ensures HaveLeft(p, queue, n + 1, now, k)
  {
    InMore(p, n, now);
  }

  /** What is due in the last stage is answered. */
  lemma {:induction false} AnswerQueued(p: Passage, s: State, master: int, k: nat)
    requires Queued(p, s.revDst.queue, k) && NoneEarly(p, k)
    ensures HaveLeft(p, Answered(s, master).revDst.queue, Due(s.revDst.queue, master), master, k)
    decreases |s.revDst.queue|
  {
    if s.revDst.queue != [] && s.revDst.queue[0].deadline <= master {
      LeaveQueued(p, s.revDst.queue, master, k);
      AnswerQueued(Out(p, 1, master), AnsweredOne(s), master, k);
      OneMoreLeft(p, Answered(AnsweredOne(s), master).revDst.queue, Due(s.revDst.queue[1..], master), master, k);
    } else {
      Nobody(p, master);
    }
  }

  // ---------------------------------------------------------------- the whole bridge

  datatype Passages = Passages(fwdSrc: Passage, fwdDst: Passage, revSrc: Passage, revDst: Passage)

  const NOBODY := Passages(UNTOUCHED, UNTOUCHED, UNTOUCHED, UNTOUCHED)

  /**
    Who passes when, as an event takes the bridge from `s` to `s'`: a request enters the first stage with the master's
    cycle in which it is accepted, goes over to the second stage with the slave's, and so on.
   */
  function Passing(ps: Passages, s: State, e: Event, s': State): Passages {
    match e
    case Submit(_, master) =>
      if |s'.accepted| > |s.accepted| then ps.(fwdSrc := In(ps.fwdSrc, 1, master)) else ps
    case FwdSrc(master, slave) =>
      var n := if |s.fwdSrc.queue| >= |s'.fwdSrc.queue| then |s.fwdSrc.queue| - |s'.fwdSrc.queue| else 0;
      ps.(fwdSrc := Out(ps.fwdSrc, n, master), fwdDst := In(ps.fwdDst, n, slave))
    case FwdDst(slave, _) =>
      var n := if |s'.delivered| >= |s.delivered| then |s'.delivered| - |s.delivered| else 0;
      var m := if |s'.returned| >= |s.returned| then |s'.returned| - |s.returned| else 0;
      ps.(fwdDst := Out(ps.fwdDst, n, slave), revSrc := In(ps.revSrc, m, slave))
    case Return(_, slave) =>
      if |s'.returned| > |s.returned| then ps.(revSrc := In(ps.revSrc, 1, slave)) else ps
    case RevSrc(master, slave) =>
      var n := if |s.revSrc.queue| >= |s'.revSrc.queue| then |s.revSrc.queue| - |s'.revSrc.queue| else 0;
      ps.(revSrc := Out(ps.revSrc, n, slave), revDst := In(ps.revDst, n, master))
    case RevDst(master) =>
      var n := if |s'.responded| >= |s.responded| then |s'.responded| - |s.responded| else 0;
      ps.(revDst := Out(ps.revDst, n, master))
  }

  ghost predicate AllKeep(cfg: Config, ps: Passages, s: State) {
    && Keeps(ps.fwdSrc, s.fwdSrc, cfg.kSrc) && Keeps(ps.fwdDst, s.fwdDst, cfg.kDst)
    && Keeps(ps.revSrc, s.revSrc, cfg.kSrc) && Keeps(ps.revDst, s.revDst, cfg.kDst)
  }

  lemma EnterKeeps(p: Passage, t: Stage, id: nat, now: int, k: nat)
    requires Keeps(p, t, k)
    ensures Keeps(In(p, 1, now), Scheduled(Enqueue(t.queue, id, now + k), now), k)
  {
    EnterQueued(p, t.queue, id, now, k);
    ScheduleKeeps(In(p, 1, now), Enqueue(t.queue, id, now + k), k);
  }

  lemma MoveKept(p: Passage, p': Passage, t: Stage, t': Stage, now: int, now': int, k: nat, k': nat)
    requires Keeps(p, t, k) && Keeps(p', t', k')
    ensures var r := Moved(Queues(t.queue, t'.queue), now, now' + k');
            && |r.from| <= |t.queue|
            && var n := |t.queue| - |r.from|;
               Keeps(Out(p, n, now), Scheduled(r.from, now), k) && Keeps(In(p', n, now'), Scheduled(r.to, now'), k')
  {
    var n := MoveQueued(p, p', Queues(t.queue, t'.queue), now, now', k, k');
    var r := Moved(Queues(t.queue, t'.queue), now, now' + k');
    ScheduleKeeps(Out(p, n, now), r.from, k);
    ScheduleKeeps(In(p', n, now'), r.to, k');
  }

  /** The two stages on the slave's side, as requests have been handed to the slave. */
  lemma HandKept(p: Passage, p': Passage, queue: seq<Txn>, queue': seq<Txn>, n: nat, m: nat, now: int, k: nat, k': nat)
    requires PassedOver(p, p', queue, queue', n, m, now, k, k') && NoneEarly(p', k')
    ensures Keeps(Out(p, n, now), Scheduled(queue, now), k) && Keeps(In(p', m, now), Scheduled(queue', now), k')
  {
    ScheduleKeeps(Out(p, n, now), queue, k);
    InEarly(p', m, now, k');
    ScheduleKeeps(In(p', m, now), queue', k');
  }

  lemma FwdDstKept(cfg: Config, ps: Passages, s: State, slave: int, answers: seq<ReqStatus>)
    requires Inv(cfg, s) && AllKeep(cfg, ps, s)
    ensures var s' := FwdDstDone(cfg, s, slave, answers); AllKeep(cfg, Passing(ps, s, FwdDst(slave, answers), s'), s')
  {
    var t, n := DeliveredAll(cfg, s, slave, answers), Min(|answers|, Due(s.fwdDst.queue, slave));
    var m := PassAll(cfg, ps.fwdDst, ps.revSrc, s, slave, answers);
    HandKept(ps.fwdDst, ps.revSrc, t.fwdDst.queue, t.revSrc.queue, n, m, slave, cfg.kDst, cfg.kSrc);
    DeliverAllKeeps(cfg, s, slave, answers);
    PassingOver(cfg, ps, s, t, n, m, slave, answers);
  }

  lemma PassingOver(cfg: Config, ps: Passages, s: State, t: State, n: nat, m: nat, slave: int, answers: seq<ReqStatus>)
    requires t == DeliveredAll(cfg, s, slave, answers)
    requires |t.returned| == |s.returned| + m && |t.delivered| == |s.delivered| + n
    ensures Passing(ps, s, FwdDst(slave, answers), FwdDstDone(cfg, s, slave, answers)) ==
            ps.(fwdDst := Out(ps.fwdDst, n, slave), revSrc := In(ps.revSrc, m, slave))
  {}

  lemma RevDstKept(cfg: Config, ps: Passages, s: State, master: int)
    requires Inv(cfg, s) && AllKeep(cfg, ps, s)
    ensures AllKeep(cfg, Passing(ps, s, RevDst(master), RevDstDone(cfg, s, master)), RevDstDone(cfg, s, master))
  {
    var n := Due(s.revDst.queue, master);
    AnswerQueued(ps.revDst, s, master, cfg.kDst);
    AnswerWorks(s, master);
    ScheduleKeeps(Out(ps.revDst, n, master), Answered(s, master).revDst.queue, cfg.kDst);
  }

  lemma SubmitKept(cfg: Config, ps: Passages, s: State, id: nat, master: int)
    requires AllKeep(cfg, ps, s)
    ensures var s' := Requested(cfg, s, id, master); AllKeep(cfg, Passing(ps, s, Submit(id, master), s'), s')
  {
    EnterKeeps(ps.fwdSrc, s.fwdSrc, id, master, cfg.kSrc);
  }

  lemma FwdSrcKept(cfg: Config, ps: Passages, s: State, master: int, slave: int)
    requires AllKeep(cfg, ps, s)
    ensures var s' := FwdSrcDone(cfg, s, master, slave); AllKeep(cfg, Passing(ps, s, FwdSrc(master, slave), s'), s')
  {
    MoveKept(ps.fwdSrc, ps.fwdDst, s.fwdSrc, s.fwdDst, master, slave, cfg.kSrc, cfg.kDst);
  }

  lemma RevSrcKept(cfg: Config, ps: Passages, s: State, master: int, slave: int)
    requires AllKeep(cfg, ps, s)
    ensures var s' := RevSrcDone(cfg, s, master, slave); AllKeep(cfg, Passing(ps, s, RevSrc(master, slave), s'), s')
  {
    MoveKept(ps.revSrc, ps.revDst, s.revSrc, s.revDst, slave, master, cfg.kSrc, cfg.kDst);
  }

  lemma ReturnKept(cfg: Config, ps: Passages, s: State, id: nat, slave: int)
    requires AllKeep(cfg, ps, s)
    ensures var s' := Returned(cfg, s, id, slave); AllKeep(cfg, Passing(ps, s, Return(id, slave), s'), s')
  {
    EnterKeeps(ps.revSrc, s.revSrc, id, slave, cfg.kSrc);
  }

  lemma StepKept(cfg: Config, ps: Passages, s: State, e: Event)
    requires Inv(cfg, s) && AllKeep(cfg, ps, s)
    ensures AllKeep(cfg, Passing(ps, s, e, Step(cfg, s, e)), Step(cfg, s, e))
  {
    match e
    case Submit(id, master) => SubmitKept(cfg, ps, s, id, master);
    case FwdSrc(master, slave) => FwdSrcKept(cfg, ps, s, master, slave);
    case FwdDst(slave, answers) => FwdDstKept(cfg, ps, s, slave, answers);
    case Return(id, slave) => ReturnKept(cfg, ps, s, id, slave);
    case RevSrc(master, slave) => RevSrcKept(cfg, ps, s, master, slave);
    case RevDst(master) => RevDstKept(cfg, ps, s, master);
  }

  ghost function PassagesOf(cfg: Config, events: seq<Event>): Passages {
    if events == [] then NOBODY
    else
      var n := |events| - 1;
      Passing(PassagesOf(cfg, events[..n]), Run(cfg, events[..n]), events[n], Run(cfg, events))
  }

  /**
    In every run no transaction leaves a stage before the stage's latency is over, and each is due then, or one cycle
    for each transaction after one that came in before it; events are scheduled for the cycle in which the front is due.
   */
  lemma {:induction false} LatenciesKept(cfg: Config, events: seq<Event>)
    ensures AllKeep(cfg, PassagesOf(cfg, events), Run(cfg, events))
  {
    if events != [] {
      var n := |events| - 1;
      LatenciesKept(cfg, events[..n]);
      StepKept(cfg, PassagesOf(cfg, events[..n]), Run(cfg, events[..n]), events[n]);
    }
  }

  // ---------------------------------------------------------------- answers and retries

  /** What is due is handed to the slave in order, as far as it answers, and each answer has its own effect. */
  lemma AnswersTell(cfg: Config, s: State, slave: int, answers: seq<ReqStatus>)
    requires Inv(cfg, s)
    ensures var n := Min(|answers|, Due(s.fwdDst.queue, slave));
            Answers(s, Step(cfg, s, FwdDst(slave, answers)), FirstIds(s.fwdDst.queue, n), answers[..n])
  {
    assert answers[..|answers|] == answers;
    HandOverAll(cfg, s, slave, answers, |answers|);
  }

  lemma {:induction false} HandOverAll(cfg: Config, s: State, slave: int, answers: seq<ReqStatus>, upto: nat)
    requires Spaced(s.fwdDst.queue) && upto <= |answers|
    ensures HandedOver(s, DeliveredAll(cfg, s, slave, answers[..upto]), Min(upto, Due(s.fwdDst.queue, slave)), answers)
    decreases upto
  {
    if upto == 0 {
      HandNothing(s, answers);
      assert answers[..0] == [];
    } else {
      HandOverAll(cfg, s, slave, answers, upto - 1);
      DeliveredLast(cfg, s, slave, answers, upto);
      HandOverNext(cfg, s, DeliveredAll(cfg, s, slave, answers[..upto - 1]), slave, answers, upto - 1);
    }
  }

  lemma HandOverNext(cfg: Config, s: State, t: State, slave: int, answers: seq<ReqStatus>, n: nat)
    requires Spaced(s.fwdDst.queue) && n < |answers|
    requires HandedOver(s, t, Min(n, Due(s.fwdDst.queue, slave)), answers)
    ensures var t' := if t.fwdDst.queue != [] && t.fwdDst.queue[0].deadline <= slave
                      then Delivered(cfg, t, slave, answers[n]) else t;
            HandedOver(s, t', Min(n + 1, Due(s.fwdDst.queue, slave)), answers)
  {
    DueAreFirst(s.fwdDst.queue, slave);
    if n < Due(s.fwdDst.queue, slave) {
      HandNext(cfg, s, t, Delivered(cfg, t, slave, answers[n]), n, answers, slave);
    } else {
      NoneDue(s.fwdDst.queue, t.fwdDst.queue, Due(s.fwdDst.queue, slave), slave);
    }
  }

  /** What the master hears in one step: its request is not accepted, or a retry is sent. */
  function HeardIn(s: State, e: Event, s': State): seq<Notice> {
    (if e.Submit? && s'.accepted == s.accepted then [Denial] else [])
    + (if s'.retries > s.retries then [Wake] else [])
  }

  function HeardBy(cfg: Config, events: seq<Event>): seq<Notice> {
    if events == [] then []
    else
      var n := |events| - 1;
      HeardBy(cfg, events[..n]) + HeardIn(Run(cfg, events[..n]), events[n], Run(cfg, events))
  }

  lemma {:induction false} QuietDelivery(cfg: Config, s: State, slave: int, answers: seq<ReqStatus>)
    ensures var t := DeliveredAll(cfg, s, slave, answers);
            t.retries == s.retries && t.retryOwed == s.retryOwed && t.accepted == s.accepted
  {
    if answers != [] { QuietDelivery(cfg, s, slave, answers[..|answers| - 1]); }
  }

  lemma StepHeard(cfg: Config, s: State, e: Event)
    requires Inv(cfg, s)
    ensures var s' := Step(cfg, s, e);
            s'.retries <= s.retries + 1 && Heard(s.retryOwed, HeardIn(s, e, s'), s'.retryOwed)
  {
    match e
    case Submit(id, master) =>
    case FwdSrc(master, slave) =>
    case FwdDst(slave, answers) => QuietDelivery(cfg, s, slave, answers);
    case Return(id, slave) =>
    case RevSrc(master, slave) =>
    case RevDst(master) => AnswerWorks(s, master);
  }

  /** In every run a retry is owed exactly after a denial, and sent, once, only then. */
  lemma {:induction false} DeniedAreOwed(cfg: Config, events: seq<Event>)
    ensures NoneIdle(HeardBy(cfg, events)) && (Run(cfg, events).retryOwed <==> Owes(HeardBy(cfg, events)))
  {
    if events != [] {
      var n := |events| - 1;
      var s, s' := Run(cfg, events[..n]), Run(cfg, events);
      DeniedAreOwed(cfg, events[..n]);
      StepHeard(cfg, s, events[n]);
      HeardOn(HeardBy(cfg, events[..n]), HeardIn(s, events[n], s'), s.retryOwed, s'.retryOwed);
    }
  }
}
