/** What the beat adapter keeps, what its callbacks do to it, and what every run preserves. */
module BeatAdapterSpec {
  import opened Arith
  import opened IoV2
  import opened Beats

  datatype Emission = Emission(beat: Beat, cycle: int)

  datatype State = State(
    inFlight: map<nat, Flight>, pending: seq<Beat>, armed: Option<int>,
    // history: cycle of the last callback, requests passed on, their responses, beats sent upstream
    time: int, subs: seq<Submission>, chunks: seq<Chunk>, emitted: seq<Emission>)

  const INITIAL := State(map[], [], None, 0, [], [], [])

  // ---------------------------------------------------------------- steps

  /** The emission event is scheduled for the beat at the front. */
  function Armed(s: State, now: int): State {
    if s.pending == [] || s.armed.Some? then s else s.(armed := Some(now + Max(s.pending[0].ready - now, 1)))
  }

  ghost predicate Known(s: State) {
    forall id :: id in s.inFlight ==> s.inFlight[id].serial < |s.subs|
  }

  /** A response of `size` bytes arrives for a request in flight. */
  function Recorded(s: State, r: Response, size: nat, latency: int, now: int, w: pos): State
    requires r.id in s.inFlight && s.inFlight[r.id].serial < |s.subs|
  {
    var id, f := r.id, s.inFlight[r.id];
    var routed := f.routed + size;
    s.(pending := s.pending + BeatsOf(f, r, size, now, latency, w),
       inFlight := if routed >= f.total then s.inFlight - {id} else s.inFlight[id := f.(routed := routed)],
       subs := s.subs[f.serial := s.subs[f.serial].(routed := routed)], chunks := s.chunks + [Chunk(f.serial, size)])
  }

  /** A response arrives; one for an unknown request is dropped. */
  function Responded(s: State, r: Response, size: nat, latency: int, now: int, w: pos): State
    requires Known(s)
  {
    if r.id !in s.inFlight then s else Armed(Recorded(s, r, size, latency, now, w), now)
  }

  function Registered(s: State, id: nat, addr: nat, size: nat): State {
    s.(inFlight := s.inFlight[id := Flight(size, 0, addr, |s.subs|)], subs := s.subs + [Submission(size, addr, 0)])
  }

  /** A request is passed on; `a` is the slave's answer. */
  function Submitted(s: State, id: nat, addr: nat, size: nat, now: int, a: Answer, w: pos): State
    requires Known(s)
  {
    var s1 := Registered(s, id, addr, size);
    match a.status
    case Done => Responded(s1, Response(id, a.resp), size, a.latency, now, w)
    case Granted => s1
    case Denied => s1.(inFlight := s1.inFlight - {id})
  }

  /** The beats that are ready leave. */
  function Flushed(s: State, now: int): State
    decreases |s.pending|
  {
    if s.pending != [] && s.pending[0].ready <= now
    then Flushed(Popped(s, now), now)
    else s
  }

  function Ticked(s: State, now: int): State {
    Armed(Flushed(s.(armed := None), now), now)
  }

  // ---------------------------------------------------------------- the invariant

  function Sent(emitted: seq<Emission>): seq<Beat> {
    if emitted == [] then [] else Sent(emitted[..|emitted| - 1]) + [emitted[|emitted| - 1].beat]
  }

  /** All beats so far, sent or not. */
  function All(s: State): seq<Beat> {
    Sent(s.emitted) + s.pending
  }

  /** Each beat left in the later of the cycle it was ready and the cycle its predecessor left; none after `until`. */
  ghost predicate Prompt(emitted: seq<Emission>, until: int) {
    emitted == [] ||
    (var n := |emitted| - 1;
     && emitted[n].cycle <= until && Prompt(emitted[..n], emitted[n].cycle)
     && emitted[n].cycle == if n == 0 then emitted[n].beat.ready else Max(emitted[n].beat.ready, emitted[n - 1].cycle))
  }

  /** The event is scheduled for the cycle in which the beat at the front is ready, which is after all emissions. */
  ghost predicate Timed(s: State) {
    && Prompt(s.emitted, s.time)
    && (if s.pending == [] then s.armed.None?
        else s.armed == Some(s.pending[0].ready) && s.time <= s.pending[0].ready
             && (s.emitted == [] || s.emitted[|s.emitted| - 1].cycle < s.pending[0].ready))
  }

  /** Submission `k`: its beats tile what has been answered of it, and are as many as its responses call for. */
  ghost predicate Filed(all: seq<Beat>, chunks: seq<Chunk>, k: nat, sub: Submission, w: pos) {
    Tiled(all, k, sub, w, sub.routed) && CountOf(all, k) == ChunkBeats(chunks, k, w)
      && Answered(chunks, k) == sub.routed
  }

  /** Requests in flight keep their own submissions. */
  ghost predicate FlightsOk(s: State) {
    && (forall id :: id in s.inFlight ==>
          && s.inFlight[id].serial < |s.subs|
          && s.subs[s.inFlight[id].serial] ==
             Submission(s.inFlight[id].total, s.inFlight[id].addr, s.inFlight[id].routed))
    && (forall id, id' :: id in s.inFlight && id' in s.inFlight && id != id' ==>
        s.inFlight[id].serial != s.inFlight[id'].serial)
  }

  ghost predicate Books(s: State, w: pos) {
    && (forall k :: 0 <= k < |s.subs| ==> Filed(All(s), s.chunks, k, s.subs[k], w))
    && FlightsOk(s)
    && (forall i :: 0 <= i < |All(s)| ==> All(s)[i].serial < |s.subs|)
    && (forall i :: 0 <= i < |s.chunks| ==> s.chunks[i].serial < |s.subs|)
  }

  ghost predicate Inv(s: State, w: pos) {
    Timed(s) && Books(s, w)
  }

  lemma InitialInv(w: pos)
    ensures Inv(INITIAL, w)
  {}

  // ---------------------------------------------------------------- timing

  lemma PromptLater(emitted: seq<Emission>, until: int, later: int)
    requires Prompt(emitted, until) && until <= later
    ensures Prompt(emitted, later)
  {}

  /** The beat at the front leaves at `now`, and all before it have left. */
  ghost predicate Leaving(s: State, now: int) {
    && Prompt(s.emitted, now)
    && (s.pending != [] && s.pending[0].ready < now ==> s.emitted != [] && s.emitted[|s.emitted| - 1].cycle == now)
  }

  lemma EmitPrompt(emitted: seq<Emission>, e: Emission)
    requires Prompt(emitted, e.cycle) && e.beat.ready <= e.cycle
    requires e.beat.ready < e.cycle ==> emitted != [] && emitted[|emitted| - 1].cycle == e.cycle
    ensures Prompt(emitted + [e], e.cycle)
  {
    assert (emitted + [e])[..|emitted|] == emitted;
  }

  /** The beat at the front leaves. */
  function Popped(s: State, now: int): State
    requires s.pending != []
  {
    s.(pending := s.pending[1..], emitted := s.emitted + [Emission(s.pending[0], now)])
  }

  lemma PopLeaves(s: State, now: int)
    requires Leaving(s, now) && s.pending != [] && s.pending[0].ready <= now
    ensures Leaving(Popped(s, now), now)
  {
    EmitPrompt(s.emitted, Emission(s.pending[0], now));
  }

  lemma {:induction false} FlushPrompt(s: State, now: int)
    requires Leaving(s, now)
    ensures var s' := Flushed(s, now); Leaving(s', now) && (s'.pending != [] ==> s'.pending[0].ready > now)
    decreases |s.pending|
  {
    if s.pending != [] && s.pending[0].ready <= now {
      PopLeaves(s, now);
      FlushPrompt(Popped(s, now), now);
    }
  }

  lemma TickTimed(s: State, now: int)
    requires Timed(s) && s.armed == Some(now)
    ensures Timed(Ticked(s.(time := now), now))
  {
    var s1 := s.(time := now, armed := None);
    PromptLater(s.emitted, s.time, now);
    FlushPrompt(s1, now);
    FlushAll(s1, now);
    var s2 := Flushed(s1, now);
    LastCycle(s2.emitted, now);
  }

  lemma LastCycle(emitted: seq<Emission>, until: int)
    requires Prompt(emitted, until)
    ensures emitted != [] ==> emitted[|emitted| - 1].cycle <= until
  {}

  // ---------------------------------------------------------------- the books

  lemma {:induction false} FlushAll(s: State, now: int)
    ensures All(Flushed(s, now)) == All(s)
    ensures var s' := Flushed(s, now); s' == s.(pending := s'.pending, emitted := s'.emitted)
    decreases |s.pending|
  {
    if s.pending != [] && s.pending[0].ready <= now {
      var s1 := Popped(s, now);
      assert s1.emitted[..|s.emitted|] == s.emitted;
      assert All(s1) == Sent(s.emitted) + [s.pending[0]] + s.pending[1..] == All(s);
      FlushAll(s1, now);
    }
  }

  lemma SameBooks(s: State, s': State, w: pos)
    requires Books(s, w) && All(s') == All(s) && s'.inFlight == s.inFlight && s'.subs == s.subs && s'.chunks == s.chunks
    ensures Books(s', w)
  {
    forall k | 0 <= k < |s'.subs| ensures Filed(All(s'), s'.chunks, k, s'.subs[k], w) {
      assert Filed(All(s), s.chunks, k, s.subs[k], w);
    }
  }

  lemma {:induction false} NoneOf(all: seq<Beat>, chunks: seq<Chunk>, k: nat, sub: Submission, w: pos)
    requires forall i :: 0 <= i < |all| ==> all[i].serial != k
    requires forall i :: 0 <= i < |chunks| ==> chunks[i].serial != k
    ensures Tiled(all, k, sub, w, 0) && CountOf(all, k) == 0 == ChunkBeats(chunks, k, w) && Answered(chunks, k) == 0
    decreases |all| + |chunks|
  {
    if all != [] { NoneOf(all[..|all| - 1], chunks, k, sub, w); }
    if chunks != [] { NoneOf(all, chunks[..|chunks| - 1], k, sub, w); }
  }

  lemma RegisterBooks(s: State, id: nat, addr: nat, size: nat, w: pos)
    requires Books(s, w)
    ensures Books(Registered(s, id, addr, size), w)
  {
    var s' := Registered(s, id, addr, size);
    assert All(s') == All(s);
    forall k | 0 <= k < |s'.subs| ensures Filed(All(s'), s'.chunks, k, s'.subs[k], w) {
      if k < |s.subs| {
        assert Filed(All(s), s.chunks, k, s.subs[k], w);
      } else {
        NoneOf(All(s), s.chunks, k, s'.subs[k], w);
      }
    }
  }

  lemma EraseBooks(s: State, id: nat, w: pos)
    requires Books(s, w)
    ensures Books(s.(inFlight := s.inFlight - {id}), w)
  {
    var s' := s.(inFlight := s.inFlight - {id});
    forall k | 0 <= k < |s'.subs| ensures Filed(All(s'), s'.chunks, k, s'.subs[k], w) {
      assert Filed(All(s), s.chunks, k, s.subs[k], w);
    }
  }

  lemma ChunkAppend(chunks: seq<Chunk>, c: Chunk, k: nat, w: pos)
    ensures ChunkBeats(chunks + [c], k, w) == ChunkBeats(chunks, k, w) + (if c.serial == k then Ceil(c.size, w) else 0)
    ensures Answered(chunks + [c], k) == Answered(chunks, k) + (if c.serial == k then c.size else 0)
  {
    assert (chunks + [c])[..|chunks|] == chunks;
  }

  lemma CeilOfZero(w: pos)
    ensures Ceil(0, w) == 0 && Rem(0, w) == 0
  {
    QuotUnfold(w - 1, w);
    QuotUnfold(0, w);
  }

  lemma {:induction false} BeatSerials(f: Flight, r: Response, size: nat, w: pos, at: nat, ready: int, gap: pos)
    ensures forall i :: 0 <= i < |BeatsFrom(f, r, size, w, at, ready, gap)| ==>
            BeatsFrom(f, r, size, w, at, ready, gap)[i].serial == f.serial
    decreases size - at
  {
    if at < size {
      var b := BeatAt(f, r, size, w, at, ready);
      BeatSerials(f, r, size, w, at + b.size, ready + gap, gap);
    }
  }

  /** A response adds its beats and its size to its own submission's books, and to no other's. */
  lemma RecordFiled(all: seq<Beat>, chunks: seq<Chunk>, f: Flight, r: Response, size: nat, latency: int, now: int,
                    k: nat, sub: Submission, w: pos)
    requires Filed(all, chunks, k, sub, w) && (k == f.serial ==> sub == Submission(f.total, f.addr, f.routed))
    ensures Filed(all + BeatsOf(f, r, size, now, latency, w), chunks + [Chunk(f.serial, size)], k,
                  if k == f.serial then sub.(routed := f.routed + size) else sub, w)
  {
    var n: pos := Max(Ceil(size, w), 1);
    var gap, first := Gap(n, latency), FirstReady(now, n, latency);
    CeilOfZero(w);
    BeatsSpread(f, r, size, w, 0, first, gap);
    ResponseTiles(all, f, r, size, w, 0, first, gap, k, sub, sub.routed);
    ChunkAppend(chunks, Chunk(f.serial, size), k, w);
    var sub' := sub.(routed := f.routed + size);
    if k == f.serial { TiledAny(all + BeatsOf(f, r, size, now, latency, w), k, sub, sub', w, f.routed + size); }
  }

  lemma {:induction false} TiledAny(beats: seq<Beat>, k: nat, sub: Submission, sub': Submission, w: pos, upto: nat)
    requires Tiled(beats, k, sub, w, upto) && sub'.total == sub.total && sub'.addr == sub.addr
    ensures Tiled(beats, k, sub', w, upto)
  {
    if beats != [] {
      var b := beats[|beats| - 1];
      TiledAny(beats[..|beats| - 1], k, sub, sub', w, if b.serial == k then b.offset else upto);
    }
  }

  lemma RecordFlights(s: State, r: Response, size: nat, latency: int, now: int, w: pos)
    requires FlightsOk(s) && r.id in s.inFlight
    ensures FlightsOk(Recorded(s, r, size, latency, now, w))
  {}

  lemma RecordBooks(s: State, r: Response, size: nat, latency: int, now: int, w: pos)
    requires Books(s, w) && r.id in s.inFlight
    ensures Books(Recorded(s, r, size, latency, now, w), w)
  {
    var s', f := Recorded(s, r, size, latency, now, w), s.inFlight[r.id];
    var more := BeatsOf(f, r, size, now, latency, w);
    assert All(s') == All(s) + more;
    RecordFlights(s, r, size, latency, now, w);
    forall k | 0 <= k < |s'.subs| ensures Filed(All(s'), s'.chunks, k, s'.subs[k], w) {
      assert Filed(All(s), s.chunks, k, s.subs[k], w);
      RecordFiled(All(s), s.chunks, f, r, size, latency, now, k, s.subs[k], w);
    }
    var n: pos := Max(Ceil(size, w), 1);
    BeatSerials(f, r, size, w, 0, FirstReady(now, n, latency), Gap(n, latency));
  }

  /** The event is scheduled for a response's first beat if nothing is waiting before it. */
  lemma RecordTimed(s: State, r: Response, size: nat, latency: int, now: int, w: pos)
    requires Timed(s) && Known(s) && r.id in s.inFlight && s.time == now
    ensures Timed(Armed(Recorded(s, r, size, latency, now, w), now))
  {
    LastCycle(s.emitted, s.time);
    if size > 0 { ResponseTiming(s.inFlight[r.id], r, size, now, latency, w); }
  }

  // ---------------------------------------------------------------- the callbacks

  /** A callback runs at cycle `now`: time does not run backwards, nor past an event that is due. */
  predicate InTime(s: State, now: int) {
    s.time <= now && (s.armed.Some? ==> now <= s.armed.value)
  }

  lemma TimePasses(s: State, now: int, w: pos)
    requires Inv(s, w) && InTime(s, now)
    ensures Inv(s.(time := now), w)
  {
    PromptLater(s.emitted, s.time, now);
    SameBooks(s, s.(time := now), w);
  }

  lemma RespondKeeps(s: State, r: Response, size: nat, latency: int, now: int, w: pos)
    requires Inv(s, w) && s.time == now
    ensures Known(s) && Inv(Responded(s, r, size, latency, now, w), w)
  {
    if r.id in s.inFlight {
      RecordBooks(s, r, size, latency, now, w);
      RecordTimed(s, r, size, latency, now, w);
      SameBooks(Recorded(s, r, size, latency, now, w), Responded(s, r, size, latency, now, w), w);
    }
  }

  lemma SubmitKeeps(s: State, id: nat, addr: nat, size: nat, now: int, a: Answer, w: pos)
    requires Inv(s, w) && s.time == now
    ensures Known(s) && Inv(Submitted(s, id, addr, size, now, a, w), w)
  {
    var s1 := Registered(s, id, addr, size);
    RegisterBooks(s, id, addr, size, w);
    match a.status
    case Done => RespondKeeps(s1, Response(id, a.resp), size, a.latency, now, w);
    case Granted =>
    case Denied => EraseBooks(s1, id, w);
  }

  lemma TickKeeps(s: State, now: int, w: pos)
    requires Inv(s, w) && s.armed == Some(now)
    ensures Inv(Ticked(s.(time := now), now), w)
  {
    TickTimed(s, now);
    FlushAll(s.(time := now, armed := None), now);
    SameBooks(s, Ticked(s.(time := now), now), w);
  }

  // ---------------------------------------------------------------- whole runs

  datatype Event =
    | Submit(id: nat, addr: nat, size: nat, now: int, a: Answer)
    | Respond(r: Response, size: nat, latency: int, now: int)
    | Tick

  function Step(s: State, e: Event, w: pos): (s': State)
    requires Inv(s, w)
    ensures Inv(s', w)
  {
    match e
    case Submit(id, addr, size, now, a) =>
      if InTime(s, now) then
        TimePasses(s, now, w);
        SubmitKeeps(s.(time := now), id, addr, size, now, a, w);
        Submitted(s.(time := now), id, addr, size, now, a, w)
      else s
    case Respond(r, size, latency, now) =>
      if InTime(s, now) then
        TimePasses(s, now, w);
        RespondKeeps(s.(time := now), r, size, latency, now, w);
        Responded(s.(time := now), r, size, latency, now, w)
      else s
    case Tick =>
      if s.armed.Some? then TickKeeps(s, s.armed.value, w); Ticked(s.(time := s.armed.value), s.armed.value) else s
  }

  function Run(events: seq<Event>, w: pos): (s: State)
    ensures Inv(s, w)
  {
    if events == [] then InitialInv(w); INITIAL else Step(Run(events[..|events| - 1], w), events[|events| - 1], w)
  }

  /**
    Any run: each beat leaves in the later of the cycle it is ready and the cycle its predecessor leaves; the
    beats of a request tile what has been answered of it in order; exactly one is flagged first, exactly one
    last once all is answered, and never two; and there are `ceil(answered / width)` of them exactly if its
    responses leave less than a beat of padding.
   */
  lemma AnyRun(events: seq<Event>, w: pos, k: nat)
    ensures var s := Run(events, w);
            && Prompt(s.emitted, s.time)
            && (k < |s.subs| ==>
                  && var sub, beats := s.subs[k], All(s);
                     && Tiled(beats, k, sub, w, sub.routed)
                     && (CountOf(beats, k) == Ceil(sub.routed, w) <==> Padding(s.chunks, k, w) < w)
                     && (0 < sub.routed ==> CountFirst(beats, k) == 1 && CountLast(beats, k) <= 1)
                     && (0 < sub.routed <= sub.total ==>
                         CountLast(beats, k) == if sub.routed == sub.total then 1 else 0))
  {
    var s := Run(events, w);
    if k < |s.subs| {
      assert Filed(All(s), s.chunks, k, s.subs[k], w);
      BeatCount(s.chunks, k, w);
      OneFirstOneLast(All(s), k, s.subs[k], w, s.subs[k].routed);
    }
  }

  // ---------------------------------------------------------------- one beat too many

  const GRANT := Answer(Granted, 0, Ok)

  /** A request of one beat that is answered in two halves takes two beats. */
  lemma TooManyBeats()
    ensures var submit, respond := Submit(0, 0, 2, 0, GRANT), Respond(Response(0, Ok), 1, 0, 0);
            TakesTwoBeats(Run([submit, respond, respond], 2))
  {
    var e1, e2 := Submit(0, 0, 2, 0, GRANT), Respond(Response(0, Ok), 1, 0, 0);
    var s1 := RunOne(e1);
    var s2 := HalfAnswered(s1, e2, 0);
    var s3 := HalfAnswered(s2, e2, 1);
    RunThree(e1, e2, e2, s1, s2, s3);
    CountedTwice(s3);
  }

  /** The first request is of two bytes, both answered, and has two beats; with a beat width of 2 one would do. */
  ghost predicate TakesTwoBeats(s: State) {
    |s.subs| == 1 && s.subs[0].total == 2 == s.subs[0].routed && Ceil(2, 2) == 1 && CountOf(All(s), 0) == 2
  }

  /** Of two bytes the first `n` have been answered one by one. */
  ghost predicate Answering(s: State, n: nat) {
    && n <= 2 && InTime(s, 0) && |s.subs| == 1 && s.subs[0] == Submission(2, 0, n)
    && |s.chunks| == n && (forall i :: 0 <= i < n ==> s.chunks[i] == Chunk(0, 1))
    && (n < 2 ==> 0 in s.inFlight && s.inFlight[0] == Flight(2, n, 0, 0))
  }

  lemma RunThree(e1: Event, e2: Event, e3: Event, s1: State, s2: State, s3: State)
    requires s1 == Run([e1], 2) && s2 == Step(s1, e2, 2) && s3 == Step(s2, e3, 2)
    ensures s3 == Run([e1, e2, e3], 2)
  {
    RunOneMore([e1], e2);
    RunOneMore([e1, e2], e3);
    assert [e1] + [e2] == [e1, e2] && [e1, e2] + [e3] == [e1, e2, e3];
  }

  lemma RunOneMore(events: seq<Event>, e: Event)
    ensures Run(events + [e], 2) == Step(Run(events, 2), e, 2)
  {
    assert (events + [e])[..|events|] == events;
  }

  /** The request is passed on. */
  lemma RunOne(e: Event) returns (s: State)
    requires e == Submit(0, 0, 2, 0, GRANT)
    ensures s == Run([e], 2) && Answering(s, 0)
  {
    RunOneMore([], e);
    s := Run([e], 2);
  }

  /** One more byte of it is answered. */
  lemma HalfAnswered(s: State, e: Event, n: nat) returns (t: State)
    requires Inv(s, 2) && Answering(s, n) && n < 2 && e.Respond? && e.r.id == e.latency == e.now == 0 && e.size == 1
    ensures t == Step(s, e, 2) && Answering(t, n + 1)
  {
    t := Step(s, e, 2);
    ResponseFiles(s, e, 2);
    OneMoreAnswered(s, e, t, n);
  }

  /** What a response changes in the books. */
  ghost predicate ResponseFiled(s: State, e: Event, t: State)
    requires e.Respond? && e.r.id in s.inFlight
  {
    var f := s.inFlight[e.r.id];
    && InTime(t, e.now) && t.chunks == s.chunks + [Chunk(f.serial, e.size)]
    && f.serial < |s.subs| == |t.subs| && t.subs[f.serial] == s.subs[f.serial].(routed := f.routed + e.size)
    && (f.routed + e.size < f.total ==> e.r.id in t.inFlight && t.inFlight[e.r.id] == f.(routed := f.routed + e.size))
  }

  lemma ResponseFiles(s: State, e: Event, w: pos)
    requires Inv(s, w) && e.Respond? && InTime(s, e.now) && e.r.id in s.inFlight
    ensures ResponseFiled(s, e, Step(s, e, w))
  {}

  lemma OneMoreAnswered(s: State, e: Event, t: State, n: nat)
    requires Answering(s, n) && n < 2 && e.Respond? && e.r.id == e.latency == e.now == 0 && e.size == 1
    requires ResponseFiled(s, e, t)
    ensures Answering(t, n + 1)
  {}

  lemma CountedTwice(s: State)
    requires Inv(s, 2) && Answering(s, 2)
    ensures TakesTwoBeats(s)
  {
    assert Filed(All(s), s.chunks, 0, s.subs[0], 2);
    assert s.chunks == [Chunk(0, 1), Chunk(0, 1)];
    TwoShortResponses();
  }
}
