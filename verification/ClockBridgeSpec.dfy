/** The four stages of the clock bridge (its parametric mode), what its callbacks do, and what every run preserves. */
module ClockBridgeSpec {
  import opened Arith
  import opened IoV2

  /** A transaction in a stage, until a cycle of the stage's own clock. */
  datatype Txn = Txn(id: nat, deadline: int)

  /** A stage: its queue, and the cycle its event is scheduled for. */
  datatype Stage = Stage(queue: seq<Txn>, armed: Option<int>)

  datatype Config = Config(kSrc: nat, kDst: nat, depth: pos)

  datatype State = State(
    fwdSrc: Stage, fwdDst: Stage, revSrc: Stage, revDst: Stage, retryOwed: bool,
    // history: requests accepted, handed to the slave with its answers, returned by it, answered to the master
    accepted: seq<nat>, delivered: seq<nat>, answers: seq<ReqStatus>, returned: seq<nat>, responded: seq<nat>,
    // requests the slave holds, and those it refused, which are lost; retries sent to the master
    held: multiset<nat>, lost: multiset<nat>, retries: nat)

  const EMPTY := Stage([], None)

  const INITIAL := State(EMPTY, EMPTY, EMPTY, EMPTY, false, [], [], [], [], [], multiset{}, multiset{}, 0)

  // ---------------------------------------------------------------- queues

  /** Appends a transaction, at least one cycle behind its predecessor. */
  function Enqueue(queue: seq<Txn>, id: nat, deadline: int): seq<Txn> {
    var back := |queue| - 1;
    queue + [Txn(id, if queue != [] && deadline < queue[back].deadline + 1 then queue[back].deadline + 1 else deadline)]
  }

  /** The stage's event follows the front of its queue. */
  function Scheduled(queue: seq<Txn>, now: int): Stage {
    Stage(queue, if queue == [] then None else Some(now + Max(queue[0].deadline - now, 1)))
  }

  datatype Queues = Queues(from: seq<Txn>, to: seq<Txn>)

  /** The transactions whose time has come move to the next stage. */
  function Moved(q: Queues, now: int, target: int): Queues
    decreases |q.from|
  {
    if q.from != [] && q.from[0].deadline <= now
    then Moved(Queues(q.from[1..], Enqueue(q.to, q.from[0].id, target)), now, target)
    else q
  }

  /** How many transactions at the front are due. */
  function Due(queue: seq<Txn>, now: int): (n: nat)
    ensures n <= |queue|
  {
    if queue != [] && queue[0].deadline <= now then 1 + Due(queue[1..], now) else 0
  }

  /** They are all that are due. */
  lemma {:induction false} DueAreFirst(queue: seq<Txn>, now: int)
    requires Spaced(queue)
    ensures forall i :: 0 <= i < |queue| ==> (queue[i].deadline <= now <==> i < Due(queue, now))
  {
    if queue != [] && queue[0].deadline <= now {
      DueAreFirst(queue[1..], now);
      forall i | 0 <= i < |queue| ensures queue[i].deadline <= now <==> i < Due(queue, now) {
        if i > 0 { assert queue[i] == queue[1..][i - 1]; }
      }
    }
  }

  // As in Arith, a name and one step of the definition.

  function Ids(queue: seq<Txn>): seq<nat>
    decreases |queue|, 1
  {
    IdsStep(queue)
  }

  function IdsStep(queue: seq<Txn>): seq<nat>
    decreases |queue|, 0
  {
    if queue == [] then [] else Ids(queue[..|queue| - 1]) + [queue[|queue| - 1].id]
  }

  /** Deadlines strictly increase. */
  ghost predicate Spaced(queue: seq<Txn>) {
    forall i, j :: 0 <= i < j < |queue| ==> queue[i].deadline < queue[j].deadline
  }

  /** The event is scheduled exactly while there is something to do, and not before the front is due. */
  ghost predicate StageOk(t: Stage) {
    Spaced(t.queue) && (if t.queue == [] then t.armed.None? else t.armed.Some? && t.armed.value >= t.queue[0].deadline)
  }

  lemma IdsUnfold(queue: seq<Txn>)
    ensures Ids(queue) ==
            if queue == [] then [] else Ids(queue[..|queue| - 1]) + [queue[|queue| - 1].id]
  {
    assert Ids(queue) == IdsStep(queue);
  }

  lemma IdsEnqueue(queue: seq<Txn>, id: nat, deadline: int)
    requires Spaced(queue)
    ensures Ids(Enqueue(queue, id, deadline)) == Ids(queue) + [id] && Spaced(Enqueue(queue, id, deadline))
  {
    IdsUnfold(Enqueue(queue, id, deadline));
    assert Enqueue(queue, id, deadline)[..|queue|] == queue;
  }

  lemma {:induction false} IdsPop(queue: seq<Txn>)
    requires queue != []
    ensures Ids(queue) == [queue[0].id] + Ids(queue[1..])
  {
    IdsUnfold(queue);
    IdsUnfold(queue[1..]);
    if |queue| > 1 {
      IdsPop(queue[..|queue| - 1]);
      assert queue[1..][..|queue| - 2] == queue[..|queue| - 1][1..];
    } else {
      assert queue[..0] == [] && queue[1..] == [];
    }
  }

  lemma {:induction false} IdsLength(queue: seq<Txn>)
    ensures |Ids(queue)| == |queue|
  {
    IdsUnfold(queue);
    if queue != [] { IdsLength(queue[..|queue| - 1]); }
  }

  lemma MoveOne(q: Queues, target: int)
    requires q.from != [] && Spaced(q.from) && Spaced(q.to)
    ensures var from, to := q.from[1..], Enqueue(q.to, q.from[0].id, target);
            && Spaced(from) && Spaced(to) && |to| + |from| == |q.to| + |q.from|
            && Ids(to) + Ids(from) == Ids(q.to) + Ids(q.from)
  {
    IdsPop(q.from);
    IdsEnqueue(q.to, q.from[0].id, target);
    assert Ids(q.to) + ([q.from[0].id] + Ids(q.from[1..])) == Ids(q.to) + [q.from[0].id] + Ids(q.from[1..]);
  }

  /** Moving keeps the order of transactions across the two queues, and takes exactly what is due. */
  lemma {:induction false} MoveKeeps(q: Queues, now: int, target: int)
    requires Spaced(q.from) && Spaced(q.to)
    ensures var q' := Moved(q, now, target);
            && Spaced(q'.from) && Spaced(q'.to)
            && Ids(q'.to) + Ids(q'.from) == Ids(q.to) + Ids(q.from)
            && |q'.to| + |q'.from| == |q.to| + |q.from|
            && q'.from == q.from[Due(q.from, now)..] && (q'.from != [] ==> q'.from[0].deadline > now)
    decreases |q.from|
  {
    if q.from != [] && q.from[0].deadline <= now {
      MoveOne(q, target);
      MoveKeeps(Queues(q.from[1..], Enqueue(q.to, q.from[0].id, target)), now, target);
    }
  }

  lemma ScheduleOk(queue: seq<Txn>, now: int)
    requires Spaced(queue)
    ensures StageOk(Scheduled(queue, now))
  {}

  // ---------------------------------------------------------------- steps

  function InFlight(s: State): nat {
    |s.fwdSrc.queue| + |s.fwdDst.queue| + |s.revSrc.queue| + |s.revDst.queue|
  }

  /** A request arrives. */
  function Requested(cfg: Config, s: State, id: nat, master: int): State {
    if InFlight(s) >= cfg.depth then s.(retryOwed := true)
    else
      s.(fwdSrc := Scheduled(Enqueue(s.fwdSrc.queue, id, master + cfg.kSrc), master), accepted := s.accepted + [id])
  }

  /** The first stage's event fires. */
  function FwdSrcDone(cfg: Config, s: State, master: int, slave: int): State {
    var q := Moved(Queues(s.fwdSrc.queue, s.fwdDst.queue), master, slave + cfg.kDst);
    s.(fwdSrc := Scheduled(q.from, master), fwdDst := Scheduled(q.to, slave))
  }

  /** The front of the second stage is handed to the slave. */
  function Delivered(cfg: Config, s: State, slave: int, a: ReqStatus): State
    requires s.fwdDst.queue != []
  {
    var id := s.fwdDst.queue[0].id;
    var s1 := s.(fwdDst := s.fwdDst.(queue := s.fwdDst.queue[1..]), delivered := s.delivered + [id],
                 answers := s.answers + [a]);
    match a
    case Done => s1.(revSrc := s.revSrc.(queue := Enqueue(s.revSrc.queue, id, slave + cfg.kSrc)),
                     returned := s.returned + [id])
    case Granted => s1.(held := s.held + multiset{id})
    case Denied => s1.(lost := s.lost + multiset{id})
  }

  /** What is due is handed to the slave, which gives these answers in turn. */
  function DeliveredAll(cfg: Config, s: State, slave: int, answers: seq<ReqStatus>): State {
    if answers == [] then s
    else
      var s1 := DeliveredAll(cfg, s, slave, answers[..|answers| - 1]);
      if s1.fwdDst.queue != [] && s1.fwdDst.queue[0].deadline <= slave
      then Delivered(cfg, s1, slave, answers[|answers| - 1])
      else s1
  }

  /** The second stage's event fires. */
  function FwdDstDone(cfg: Config, s: State, slave: int, answers: seq<ReqStatus>): State {
    var s1 := DeliveredAll(cfg, s, slave, answers);
    s1.(fwdDst := Scheduled(s1.fwdDst.queue, slave), revSrc := Scheduled(s1.revSrc.queue, slave))
  }

  /** The slave answers a request it holds. */
  function Returned(cfg: Config, s: State, id: nat, slave: int): State {
    s.(revSrc := Scheduled(Enqueue(s.revSrc.queue, id, slave + cfg.kSrc), slave),
       returned := s.returned + [id], held := s.held - multiset{id})
  }

  function RevSrcDone(cfg: Config, s: State, master: int, slave: int): State {
    var q := Moved(Queues(s.revSrc.queue, s.revDst.queue), slave, master + cfg.kDst);
    s.(revSrc := Scheduled(q.from, slave), revDst := Scheduled(q.to, master))
  }

  /** The front of the last stage is answered. */
  function AnsweredOne(s: State): State
    requires s.revDst.queue != []
  {
    s.(revDst := s.revDst.(queue := s.revDst.queue[1..]), responded := s.responded + [s.revDst.queue[0].id])
  }

  /** The transactions of the last stage whose time has come are answered. */
  function Answered(s: State, master: int): State
    decreases |s.revDst.queue|
  {
    if s.revDst.queue != [] && s.revDst.queue[0].deadline <= master
    then Answered(AnsweredOne(s), master)
    else s
  }

  function RetryPaid(cfg: Config, s: State): State {
    if s.retryOwed && InFlight(s) < cfg.depth then s.(retryOwed := false, retries := s.retries + 1) else s
  }

  /** The last stage's event fires. */
  function RevDstDone(cfg: Config, s: State, master: int): State {
    var s1 := RetryPaid(cfg, Answered(s, master));
    s1.(revDst := Scheduled(s1.revDst.queue, master))
  }

  // ---------------------------------------------------------------- the invariant

  /** `all == a + b + c` (lemma `JoinedMeans`), in a form that the verifier unfolds only where it is asked to. */
  ghost predicate Joined(all: seq<nat>, a: seq<nat>, b: seq<nat>, c: seq<nat>)
    decreases |c|, 1
  {
    JoinedStep(all, a, b, c)
  }

  ghost predicate JoinedStep(all: seq<nat>, a: seq<nat>, b: seq<nat>, c: seq<nat>)
    decreases |c|, 0
  {
    if c == [] then all == a + b
    else all != [] && all[|all| - 1] == c[|c| - 1] && Joined(all[..|all| - 1], a, b, c[..|c| - 1])
  }

  lemma {:induction false} JoinedMeans(all: seq<nat>, a: seq<nat>, b: seq<nat>, c: seq<nat>)
    ensures Joined(all, a, b, c) <==> all == a + b + c
  {
    assert Joined(all, a, b, c) == JoinedStep(all, a, b, c);
    if c != [] {
      assert a + b + c == a + b + c[..|c| - 1] + [c[|c| - 1]];
      if all != [] { JoinedMeans(all[..|all| - 1], a, b, c[..|c| - 1]); }
    }
  }

  /** A transaction enters the last part. */
  lemma EnqueueJoined(all: seq<nat>, a: seq<nat>, b: seq<nat>, queue: seq<Txn>, id: nat, deadline: int)
    requires Joined(all, a, b, Ids(queue)) && Spaced(queue)
    ensures Joined(all + [id], a, b, Ids(Enqueue(queue, id, deadline))) && Spaced(Enqueue(queue, id, deadline))
  {
    JoinedMeans(all, a, b, Ids(queue));
    JoinedMeans(all + [id], a, b, Ids(Enqueue(queue, id, deadline)));
    IdsEnqueue(queue, id, deadline);
  }

  /** The front of the middle part joins the first part. */
  lemma PopJoined(all: seq<nat>, a: seq<nat>, queue: seq<Txn>, c: seq<nat>)
    requires queue != [] && Joined(all, a, Ids(queue), c) && Spaced(queue)
    ensures Joined(all, a + [queue[0].id], Ids(queue[1..]), c) && Spaced(queue[1..])
  {
    JoinedMeans(all, a, Ids(queue), c);
    JoinedMeans(all, a + [queue[0].id], Ids(queue[1..]), c);
    IdsPop(queue);
    assert a + ([queue[0].id] + Ids(queue[1..])) == a + [queue[0].id] + Ids(queue[1..]);
  }

  lemma JoinRegroup(all: seq<nat>, a: seq<nat>, b: seq<nat>, c: seq<nat>, b': seq<nat>, c': seq<nat>)
    requires Joined(all, a, b, c) && b + c == b' + c'
    ensures Joined(all, a, b', c')
  {
    JoinedMeans(all, a, b, c);
    JoinedMeans(all, a, b', c');
    assert a + b + c == a + (b + c);
    assert a + b' + c' == a + (b' + c');
  }

  /** Transactions move from the last part to the middle one. */
  lemma MoveJoined(all: seq<nat>, a: seq<nat>, q: Queues, now: int, target: int)
    requires Joined(all, a, Ids(q.to), Ids(q.from)) && Spaced(q.from) && Spaced(q.to)
    ensures var q' := Moved(q, now, target);
            && Joined(all, a, Ids(q'.to), Ids(q'.from)) && Spaced(q'.from) && Spaced(q'.to)
            && |q'.to| + |q'.from| == |q.to| + |q.from|
  {
    var q' := Moved(q, now, target);
    MoveKeeps(q, now, target);
    JoinRegroup(all, a, Ids(q.to), Ids(q.from), Ids(q'.to), Ids(q'.from));
  }

  /** Requests keep their order on the way out, and answers on the way back. */
  ghost predicate InOrder(s: State) {
    && Joined(s.accepted, s.delivered, Ids(s.fwdDst.queue), Ids(s.fwdSrc.queue))
    && Joined(s.returned, s.responded, Ids(s.revDst.queue), Ids(s.revSrc.queue))
  }

  ghost predicate NoneGranted(answers: seq<ReqStatus>) {
    answers == [] || (answers[|answers| - 1] != Granted && NoneGranted(answers[..|answers| - 1]))
  }

  ghost predicate AllDone(answers: seq<ReqStatus>) {
    answers == [] || (answers[|answers| - 1] == Done && AllDone(answers[..|answers| - 1]))
  }

  /**
    What was handed to the slave has returned, is held by it or was refused; a slave that grants nothing holds
    nothing.
   */
  ghost predicate Conserved(delivered: seq<nat>, answers: seq<ReqStatus>, returned: seq<nat>, held: multiset<nat>,
                            lost: multiset<nat>) {
    && multiset(delivered) == multiset(returned) + held + lost
    && (NoneGranted(answers) ==> held == multiset{})
    && (AllDone(answers) ==> NoneGranted(answers) && returned == delivered && lost == multiset{})
  }

  /**
    As many requests as the bridge takes are unanswered while a retry is owed; with a slave that grants nothing,
    it holds no more.
   */
  ghost predicate Capped(cfg: Config, s: State) {
    && (s.retryOwed ==> |s.accepted| - |s.responded| >= cfg.depth)
    && (NoneGranted(s.answers) ==> InFlight(s) <= cfg.depth)
  }

  ghost predicate Stages(s: State) {
    StageOk(s.fwdSrc) && StageOk(s.fwdDst) && StageOk(s.revSrc) && StageOk(s.revDst)
  }

  ghost predicate QueuesSpaced(s: State) {
    Spaced(s.fwdSrc.queue) && Spaced(s.fwdDst.queue) && Spaced(s.revSrc.queue) && Spaced(s.revDst.queue)
  }

  ghost predicate Books(cfg: Config, s: State) {
    InOrder(s) && Conserved(s.delivered, s.answers, s.returned, s.held, s.lost) && Capped(cfg, s)
  }

  ghost predicate Inv(cfg: Config, s: State) {
    Books(cfg, s) && Stages(s)
  }

  lemma InitialInv(cfg: Config)
    ensures Inv(cfg, INITIAL)
  {
    IdsUnfold([]);
    JoinedMeans([], [], [], []);
  }

  lemma AcceptBooks(cfg: Config, s: State, id: nat, master: int)
    requires Books(cfg, s) && QueuesSpaced(s) && InFlight(s) < cfg.depth
    ensures Books(cfg, Requested(cfg, s, id, master)) && Spaced(Enqueue(s.fwdSrc.queue, id, master + cfg.kSrc))
  {
    EnqueueJoined(s.accepted, s.delivered, Ids(s.fwdDst.queue), s.fwdSrc.queue, id, master + cfg.kSrc);
  }

  lemma RequestKeeps(cfg: Config, s: State, id: nat, master: int)
    requires Inv(cfg, s)
    ensures Inv(cfg, Requested(cfg, s, id, master))
  {
    if InFlight(s) < cfg.depth {
      AcceptBooks(cfg, s, id, master);
      ScheduleOk(Enqueue(s.fwdSrc.queue, id, master + cfg.kSrc), master);
    } else {
      InFlightUnanswered(s);
    }
  }

  lemma OrderMeans(s: State)
    requires InOrder(s)
    ensures s.accepted == s.delivered + Ids(s.fwdDst.queue) + Ids(s.fwdSrc.queue)
    ensures s.returned == s.responded + Ids(s.revDst.queue) + Ids(s.revSrc.queue)
  {
    JoinedMeans(s.accepted, s.delivered, Ids(s.fwdDst.queue), Ids(s.fwdSrc.queue));
    JoinedMeans(s.returned, s.responded, Ids(s.revDst.queue), Ids(s.revSrc.queue));
  }

  /** What is in the bridge is unanswered; with a slave that is always done, nothing else is. */
  lemma InFlightUnanswered(s: State)
    requires InOrder(s) && Conserved(s.delivered, s.answers, s.returned, s.held, s.lost)
    ensures InFlight(s) <= |s.accepted| - |s.responded|
    ensures AllDone(s.answers) ==> InFlight(s) == |s.accepted| - |s.responded|
  {
    OrderMeans(s);
    IdsLength(s.fwdSrc.queue);
    IdsLength(s.fwdDst.queue);
    IdsLength(s.revSrc.queue);
    IdsLength(s.revDst.queue);
    assert |s.delivered| == |multiset(s.delivered)| && |s.returned| == |multiset(s.returned)|;
  }

  /** Every unanswered request is in the bridge, held by the slave, or lost. */
  lemma WhereRequestsAre(s: State)
    requires InOrder(s) && Conserved(s.delivered, s.answers, s.returned, s.held, s.lost)
    ensures |s.accepted| - |s.responded| == InFlight(s) + |s.held| + |s.lost|
  {
    OrderMeans(s);
    IdsLength(s.fwdSrc.queue);
    IdsLength(s.fwdDst.queue);
    IdsLength(s.revSrc.queue);
    IdsLength(s.revDst.queue);
    assert |multiset(s.delivered)| == |multiset(s.returned) + s.held + s.lost|;
  }

  /** No event is scheduled and the slave holds nothing: nothing more will happen of its own accord. */
  ghost predicate Asleep(s: State) {
    s.fwdSrc.armed.None? && s.fwdDst.armed.None? && s.revSrc.armed.None? && s.revDst.armed.None? && s.held == multiset{}
  }

  /** A master that waits for a retry waits in vain exactly if every unanswered request was refused by the slave. */
  lemma StrandedIff(cfg: Config, s: State)
    requires Inv(cfg, s) && s.retryOwed
    ensures Asleep(s) <==> |s.lost| == |s.accepted| - |s.responded|
    ensures Asleep(s) ==> |s.lost| >= cfg.depth
  {
    WhereRequestsAre(s);
  }

  lemma FwdSrcBooks(cfg: Config, s: State, master: int, slave: int)
    requires Books(cfg, s) && QueuesSpaced(s)
    ensures Books(cfg, FwdSrcDone(cfg, s, master, slave))
  {
    MoveJoined(s.accepted, s.delivered, Queues(s.fwdSrc.queue, s.fwdDst.queue), master, slave + cfg.kDst);
  }

  lemma RevSrcBooks(cfg: Config, s: State, master: int, slave: int)
    requires Books(cfg, s) && QueuesSpaced(s)
    ensures Books(cfg, RevSrcDone(cfg, s, master, slave))
  {
    MoveJoined(s.returned, s.responded, Queues(s.revSrc.queue, s.revDst.queue), slave, master + cfg.kDst);
  }

  /** Both stages are scheduled anew. */
  lemma MoveStages(q: Queues, now: int, target: int, now': int)
    requires Spaced(q.from) && Spaced(q.to)
    ensures var q' := Moved(q, now, target); StageOk(Scheduled(q'.from, now)) && StageOk(Scheduled(q'.to, now'))
  {
    MoveKeeps(q, now, target);
    ScheduleOk(Moved(q, now, target).from, now);
    ScheduleOk(Moved(q, now, target).to, now');
  }

  lemma FwdSrcKeeps(cfg: Config, s: State, master: int, slave: int)
    requires Inv(cfg, s)
    ensures Inv(cfg, FwdSrcDone(cfg, s, master, slave))
  {
    FwdSrcBooks(cfg, s, master, slave);
    MoveStages(Queues(s.fwdSrc.queue, s.fwdDst.queue), master, slave + cfg.kDst, slave);
  }

  lemma RevSrcKeeps(cfg: Config, s: State, master: int, slave: int)
    requires Inv(cfg, s)
    ensures Inv(cfg, RevSrcDone(cfg, s, master, slave))
  {
    RevSrcBooks(cfg, s, master, slave);
    MoveStages(Queues(s.revSrc.queue, s.revDst.queue), slave, master + cfg.kDst, master);
  }

  lemma ReturnBooks(cfg: Config, s: State, id: nat, slave: int)
    requires Books(cfg, s) && QueuesSpaced(s) && id in s.held
    ensures Books(cfg, Returned(cfg, s, id, slave)) && Spaced(Enqueue(s.revSrc.queue, id, slave + cfg.kSrc))
  {
    EnqueueJoined(s.returned, s.responded, Ids(s.revDst.queue), s.revSrc.queue, id, slave + cfg.kSrc);
  }

  lemma ReturnKeeps(cfg: Config, s: State, id: nat, slave: int)
    requires Inv(cfg, s) && id in s.held
    ensures Inv(cfg, Returned(cfg, s, id, slave))
  {
    ReturnBooks(cfg, s, id, slave);
    ScheduleOk(Enqueue(s.revSrc.queue, id, slave + cfg.kSrc), slave);
  }

  lemma AnswersAppend(answers: seq<ReqStatus>, a: ReqStatus)
    ensures AllDone(answers + [a]) == (AllDone(answers) && a == Done)
    ensures NoneGranted(answers + [a]) == (NoneGranted(answers) && a != Granted)
  {
    assert (answers + [a])[..|answers|] == answers;
  }

  lemma DeliverOrder(cfg: Config, s: State, slave: int, a: ReqStatus)
    requires InOrder(s) && QueuesSpaced(s) && s.fwdDst.queue != []
    ensures var s' := Delivered(cfg, s, slave, a); InOrder(s') && QueuesSpaced(s')
  {
    var id := s.fwdDst.queue[0].id;
    PopJoined(s.accepted, s.delivered, s.fwdDst.queue, Ids(s.fwdSrc.queue));
    EnqueueJoined(s.returned, s.responded, Ids(s.revDst.queue), s.revSrc.queue, id, slave + cfg.kSrc);
  }

  lemma DeliverKeeps(cfg: Config, s: State, slave: int, a: ReqStatus)
    requires Books(cfg, s) && QueuesSpaced(s) && s.fwdDst.queue != []
    ensures var s' := Delivered(cfg, s, slave, a); Books(cfg, s') && QueuesSpaced(s')
  {
    DeliverOrder(cfg, s, slave, a);
    AnswersAppend(s.answers, a);
  }

  lemma {:induction false} DeliverAllKeeps(cfg: Config, s: State, slave: int, answers: seq<ReqStatus>)
    requires Books(cfg, s) && QueuesSpaced(s)
    ensures var s' := DeliveredAll(cfg, s, slave, answers);
            Books(cfg, s') && QueuesSpaced(s') && s'.fwdSrc == s.fwdSrc && s'.revDst == s.revDst
  {
    if answers != [] {
      DeliverAllKeeps(cfg, s, slave, answers[..|answers| - 1]);
      var s1 := DeliveredAll(cfg, s, slave, answers[..|answers| - 1]);
      if s1.fwdDst.queue != [] && s1.fwdDst.queue[0].deadline <= slave {
        DeliverKeeps(cfg, s1, slave, answers[|answers| - 1]);
      }
    }
  }

  lemma FwdDstKeeps(cfg: Config, s: State, slave: int, answers: seq<ReqStatus>)
    requires Inv(cfg, s)
    ensures Inv(cfg, FwdDstDone(cfg, s, slave, answers))
  {
    DeliverAllKeeps(cfg, s, slave, answers);
    var s1 := DeliveredAll(cfg, s, slave, answers);
    ScheduleOk(s1.fwdDst.queue, slave);
    ScheduleOk(s1.revSrc.queue, slave);
  }

  /** The books but for the retry that may now be due. */
  ghost predicate BooksUnpaid(cfg: Config, s: State) {
    InOrder(s) && Conserved(s.delivered, s.answers, s.returned, s.held, s.lost)
      && (NoneGranted(s.answers) ==> InFlight(s) <= cfg.depth)
  }

  lemma {:induction false} AnswerKeeps(cfg: Config, s: State, master: int)
    requires BooksUnpaid(cfg, s) && Spaced(s.revDst.queue)
    ensures var s' := Answered(s, master);
            && BooksUnpaid(cfg, s') && Spaced(s'.revDst.queue)
            && s'.fwdSrc == s.fwdSrc && s'.fwdDst == s.fwdDst && s'.revSrc == s.revSrc
    decreases |s.revDst.queue|
  {
    if s.revDst.queue != [] && s.revDst.queue[0].deadline <= master {
      PopJoined(s.returned, s.responded, s.revDst.queue, Ids(s.revSrc.queue));
      AnswerKeeps(cfg, AnsweredOne(s), master);
    }
  }

  lemma RevDstKeeps(cfg: Config, s: State, master: int)
    requires Inv(cfg, s)
    ensures Inv(cfg, RevDstDone(cfg, s, master))
  {
    AnswerKeeps(cfg, s, master);
    var s1 := Answered(s, master);
    InFlightUnanswered(s1);
    ScheduleOk(s1.revDst.queue, master);
  }

  // ---------------------------------------------------------------- whole runs

  /** The cycle counts of the two clocks come with each event. */
  datatype Event =
    | Submit(id: nat, master: int)
    | FwdSrc(master: int, slave: int)
    | FwdDst(slave: int, answers: seq<ReqStatus>)
    | Return(id: nat, slave: int)
    | RevSrc(master: int, slave: int)
    | RevDst(master: int)

  function Step(cfg: Config, s: State, e: Event): (s': State)
    requires Inv(cfg, s)
    ensures Inv(cfg, s')
  {
    match e
    case Submit(id, master) => RequestKeeps(cfg, s, id, master); Requested(cfg, s, id, master)
    case FwdSrc(master, slave) => FwdSrcKeeps(cfg, s, master, slave); FwdSrcDone(cfg, s, master, slave)
    case FwdDst(slave, answers) => FwdDstKeeps(cfg, s, slave, answers); FwdDstDone(cfg, s, slave, answers)
    case Return(id, slave) => if id in s.held then ReturnKeeps(cfg, s, id, slave); Returned(cfg, s, id, slave) else s
    case RevSrc(master, slave) => RevSrcKeeps(cfg, s, master, slave); RevSrcDone(cfg, s, master, slave)
    case RevDst(master) => RevDstKeeps(cfg, s, master); RevDstDone(cfg, s, master)
  }

  function RunFrom(cfg: Config, s: State, events: seq<Event>): (s': State)
    requires Inv(cfg, s)
    ensures Inv(cfg, s')
  {
    if events == [] then s else Step(cfg, RunFrom(cfg, s, events[..|events| - 1]), events[|events| - 1])
  }

  function Run(cfg: Config, events: seq<Event>): (s: State)
    ensures Inv(cfg, s)
  {
    InitialInv(cfg);
    RunFrom(cfg, INITIAL, events)
  }

  /**
    Any run. Requests are handed on, and answers given, in order. With a slave that grants nothing the four queues
    hold never more than `depth`; with one that is always done they hold, in order, exactly what is accepted and not
    answered, a retry is owed only while the bridge is full, and then some stage's event is scheduled.
   */
  lemma AnyRun(cfg: Config, events: seq<Event>)
    ensures var s := Run(cfg, events);
            && s.accepted == s.delivered + Ids(s.fwdDst.queue) + Ids(s.fwdSrc.queue)
            && s.returned == s.responded + Ids(s.revDst.queue) + Ids(s.revSrc.queue)
            && (NoneGranted(s.answers) ==> InFlight(s) <= cfg.depth)
            && (AllDone(s.answers) ==>
                  && s.accepted ==
                     s.responded + Ids(s.revDst.queue) + Ids(s.revSrc.queue) + Ids(s.fwdDst.queue) + Ids(s.fwdSrc.queue)
                  && (s.retryOwed ==> InFlight(s) == cfg.depth && !Asleep(s)))
  {
    OrderMeans(Run(cfg, events));
    InFlightUnanswered(Run(cfg, events));
  }

  // ---------------------------------------------------------------- the retry

  /**
    An event fires in the cycle it is scheduled for, or the slave answers a request that it holds; the master
    waits.
   */
  ghost predicate Fires(s: State, e: Event) {
    match e
    case Submit(_, _) => false
    case FwdSrc(master, _) => s.fwdSrc.armed == Some(master)
    case FwdDst(slave, answers) => s.fwdDst.armed == Some(slave) && |answers| == Due(s.fwdDst.queue, slave)
    case Return(id, _) => id in s.held
    case RevSrc(_, slave) => s.revSrc.armed == Some(slave)
    case RevDst(master) => s.revDst.armed == Some(master)
  }

  ghost predicate AllFire(cfg: Config, s: State, events: seq<Event>)
    requires Inv(cfg, s)
  {
    events == [] ||
    (var n := |events| - 1; AllFire(cfg, s, events[..n]) && Fires(RunFrom(cfg, s, events[..n]), events[n]))
  }

  /** How many steps the transactions in the bridge have before them at most. */
  function Work(s: State): nat {
    5 * |s.fwdSrc.queue| + 4 * |s.fwdDst.queue| + 3 * |s.held| + 2 * |s.revSrc.queue| + |s.revDst.queue|
  }

  /** From `s` to `t`, `n` transactions have been handed to the slave. */
  ghost predicate Handed(s: State, t: State, n: nat) {
    && n <= |s.fwdDst.queue| && t.fwdDst.queue == s.fwdDst.queue[n..] && Work(t) + n <= Work(s)
    && |s.lost| <= |t.lost| && (NoneGranted(t.answers) ==> NoneGranted(s.answers))
    && t.accepted == s.accepted && t.responded == s.responded && t.retryOwed == s.retryOwed && t.retries == s.retries
  }

  lemma HandOne(cfg: Config, s: State, t: State, n: nat, slave: int, a: ReqStatus)
    requires Handed(s, t, n) && t.fwdDst.queue != []
    ensures Handed(s, Delivered(cfg, t, slave, a), n + 1)
  {
    AnswersAppend(t.answers, a);
  }

  lemma {:induction false} HandAll(cfg: Config, s: State, slave: int, answers: seq<ReqStatus>)
    requires Spaced(s.fwdDst.queue)
    ensures Handed(s, DeliveredAll(cfg, s, slave, answers), Min(|answers|, Due(s.fwdDst.queue, slave)))
  {
    if answers != [] {
      var k, n := |answers| - 1, Due(s.fwdDst.queue, slave);
      HandAll(cfg, s, slave, answers[..k]);
      DueAreFirst(s.fwdDst.queue, slave);
      if k < n { HandOne(cfg, s, DeliveredAll(cfg, s, slave, answers[..k]), k, slave, answers[k]); }
    }
  }

  lemma {:induction false} AnswerWorks(s: State, master: int)
    ensures var s', n := Answered(s, master), Due(s.revDst.queue, master);
            && s' == s.(revDst := s'.revDst, responded := s'.responded)
            && |s'.revDst.queue| == |s.revDst.queue| - n && |s'.responded| == |s.responded| + n
    decreases |s.revDst.queue|
  {
    if s.revDst.queue != [] && s.revDst.queue[0].deadline <= master { AnswerWorks(AnsweredOne(s), master); }
  }

  lemma MoveWorks(q: Queues, now: int, target: int)
    requires StageOk(Stage(q.from, Some(now))) && Spaced(q.to)
    ensures var q' := Moved(q, now, target); |q'.to| + |q'.from| == |q.to| + |q.from| && |q'.from| < |q.from|
  {
    MoveKeeps(q, now, target);
  }

  lemma FwdSrcWorks(cfg: Config, s: State, master: int, slave: int)
    requires Inv(cfg, s) && s.fwdSrc.armed == Some(master)
    ensures Work(FwdSrcDone(cfg, s, master, slave)) < Work(s)
  {
    MoveWorks(Queues(s.fwdSrc.queue, s.fwdDst.queue), master, slave + cfg.kDst);
  }

  lemma FwdDstWorks(cfg: Config, s: State, slave: int, answers: seq<ReqStatus>)
    requires Inv(cfg, s) && s.fwdDst.armed == Some(slave) && |answers| == Due(s.fwdDst.queue, slave)
    ensures Work(FwdDstDone(cfg, s, slave, answers)) < Work(s)
  {
    HandAll(cfg, s, slave, answers);
  }

  lemma RevSrcWorks(cfg: Config, s: State, master: int, slave: int)
    requires Inv(cfg, s) && s.revSrc.armed == Some(slave)
    ensures Work(RevSrcDone(cfg, s, master, slave)) < Work(s)
  {
    MoveWorks(Queues(s.revSrc.queue, s.revDst.queue), slave, master + cfg.kDst);
  }

  lemma RevDstWorks(cfg: Config, s: State, master: int)
    requires Inv(cfg, s) && s.revDst.armed == Some(master)
    ensures Work(RevDstDone(cfg, s, master)) < Work(s)
    ensures var s' := RevDstDone(cfg, s, master);
            && s'.lost == s.lost && s'.answers == s.answers && s'.accepted == s.accepted
            && |s'.responded| > |s.responded|
            && s'.retryOwed == (s.retryOwed && InFlight(s') >= cfg.depth)
            && s'.retries == s.retries + (if s.retryOwed && !s'.retryOwed then 1 else 0)
  {
    AnswerWorks(s, master);
  }

  /** Every event that fires leaves less to do. */
  lemma FiringWorks(cfg: Config, s: State, e: Event)
    requires Inv(cfg, s) && Fires(s, e)
    ensures Work(Step(cfg, s, e)) < Work(s)
  {
    match e
    case FwdSrc(master, slave) => FwdSrcWorks(cfg, s, master, slave);
    case FwdDst(slave, answers) => FwdDstWorks(cfg, s, slave, answers);
    case Return(id, slave) =>
    case RevSrc(master, slave) => RevSrcWorks(cfg, s, master, slave);
    case RevDst(master) => RevDstWorks(cfg, s, master);
  }

  /** A bridge that is not asleep has an event to fire. */
  lemma AwakeFires(s: State)
    requires !Asleep(s)
    ensures exists e :: Fires(s, e)
  {
    if s.fwdSrc.armed.Some? { assert Fires(s, FwdSrc(s.fwdSrc.armed.value, 0)); }
    if s.fwdDst.armed.Some? {
      var slave := s.fwdDst.armed.value;
      assert Fires(s, FwdDst(slave, seq(Due(s.fwdDst.queue, slave), i => Done)));
    }
    if s.revSrc.armed.Some? { assert Fires(s, RevSrc(0, s.revSrc.armed.value)); }
    if s.revDst.armed.Some? { assert Fires(s, RevDst(s.revDst.armed.value)); }
    if s.held != multiset{} {
      var id :| id in s.held;
      assert Fires(s, Return(id, 0));
    }
  }

  /** Since `s`, where a request was denied: the retry is paid once fewer than `depth` requests can still return. */
  ghost predicate Waiting(cfg: Config, s: State, t: State) {
    var unanswered := |t.accepted| - |t.responded| - |s.lost|;
    && |s.lost| <= |t.lost|
    && (if t.retryOwed then t.retries == s.retries && unanswered >= cfg.depth else t.retries == s.retries + 1)
    && (NoneGranted(t.answers) ==> (t.retryOwed <==> unanswered >= cfg.depth) && unanswered <= cfg.depth)
  }

  lemma WaitingStep(cfg: Config, s: State, t: State, e: Event)
    requires Inv(cfg, t) && Waiting(cfg, s, t) && Fires(t, e)
    ensures Waiting(cfg, s, Step(cfg, t, e))
  {
    match e
    case FwdSrc(master, slave) =>
    case FwdDst(slave, answers) => HandAll(cfg, t, slave, answers);
    case Return(id, slave) =>
    case RevSrc(master, slave) =>
    case RevDst(master) =>
      RevDstWorks(cfg, t, master);
      WhereRequestsAre(Step(cfg, t, e));
  }

  lemma {:induction false} WaitingRun(cfg: Config, s: State, more: seq<Event>)
    requires Inv(cfg, s) && s.retryOwed && InFlight(s) >= cfg.depth && AllFire(cfg, s, more)
    ensures var t := RunFrom(cfg, s, more); Waiting(cfg, s, t) && |more| <= Work(s) - Work(t)
  {
    if more == [] {
      WhereRequestsAre(s);
    } else {
      var n := |more| - 1;
      var t := RunFrom(cfg, s, more[..n]);
      WaitingRun(cfg, s, more[..n]);
      WaitingStep(cfg, s, t, more[n]);
      FiringWorks(cfg, t, more[n]);
    }
  }

  /**
    A master has just been denied a request, and waits. Only finitely many events fire, and another one can until
    the bridge is asleep. By then the retry has been sent if the slave has denied fewer than `depth` requests
    meanwhile; and, with a slave that grants nothing, only if so.
   */
  lemma RetryComes(cfg: Config, s: State, more: seq<Event>)
    requires Inv(cfg, s) && s.retryOwed && InFlight(s) >= cfg.depth && AllFire(cfg, s, more)
    ensures var t := RunFrom(cfg, s, more);
            var denied := |t.lost| - |s.lost|;
            var paid := !t.retryOwed && t.retries == s.retries + 1;
            && |more| <= Work(s)
            && (Asleep(t) || exists e :: Fires(t, e))
            && (Asleep(t) && denied < cfg.depth ==> paid)
            && (Asleep(t) && NoneGranted(t.answers) ==> (paid <==> denied < cfg.depth))
  {
    var t := RunFrom(cfg, s, more);
    WaitingRun(cfg, s, more);
    WhereRequestsAre(t);
    if !Asleep(t) { AwakeFires(t); }
  }
}
