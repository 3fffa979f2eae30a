/** The beat adapter told by its history alone: which request a response belongs to, and the beats that it brings. */
module BeatAdapterEvents {
  import opened Arith
  import opened IoV2
  import opened Beats
  import opened BeatAdapterSpec

  // ---------------------------------------------------------------- requests

  /** A request is passed on, at a time that it can be. */
  predicate Submits(s: State, e: Event) {
    e.Submit? && InTime(s, e.now)
  }

  predicate Responds(s: State, e: Event) {
    e.Respond? && InTime(s, e.now)
  }

  /** The requests that were passed on, with their sizes and addresses. */
  function Requests(events: seq<Event>, w: pos): seq<(nat, nat)> {
    if events == [] then []
    else
      var n := |events| - 1;
      var before, e := events[..n], events[n];
      if Submits(Run(before, w), e) then Requests(before, w) + [(e.size, e.addr)] else Requests(before, w)
  }

  /** What an event makes of the request with this id that awaits responses, if there is one. */
  function NextFlight(s: State, e: Event, id: nat, serial: nat, was: Option<Flight>): Option<Flight> {
    if Submits(s, e) && e.id == id then
      (if e.a.status == Granted then Some(Flight(e.size, 0, e.addr, serial)) else None)
    else if Responds(s, e) && e.r.id == id && was.Some? then
      (if was.value.routed + e.size >= was.value.total then None
       else Some(was.value.(routed := was.value.routed + e.size)))
    else was
  }

  /**
    The request with this id that awaits responses: the last one that was granted, unless it was submitted again, with
    the bytes that responses have brought; none once all have come.
   */
  function Awaited(events: seq<Event>, w: pos, id: nat): Option<Flight> {
    if events == [] then None
    else
      var n := |events| - 1;
      var before := events[..n];
      NextFlight(Run(before, w), events[n], id, |Requests(before, w)|, Awaited(before, w, id))
  }

  // ---------------------------------------------------------------- beats

  /** What an event brings: the answer to a request that is done at once, or a response for one that is awaited. */
  datatype Arrival = Nothing | Arrival(f: Flight, r: Response, size: nat, now: int, latency: int)

  function ArrivalIn(s: State, e: Event, serial: nat, awaited: Option<Flight>): Arrival {
    if Submits(s, e) && e.a.status == Done
      then Arrival(Flight(e.size, 0, e.addr, serial), Response(e.id, e.a.resp), e.size, e.now, e.a.latency)
    else if Responds(s, e) && awaited.Some? then Arrival(awaited.value, e.r, e.size, e.now, e.latency)
    else Nothing
  }

  ghost predicate Brings(a: Arrival, more: seq<Beat>, w: pos) {
    match a
    case Nothing => more == []
    case Arrival(f, r, size, now, latency) => Spreads(more, f, r, size, now, latency, w)
  }

  // ---------------------------------------------------------------- the adapter follows its history

  function FlightIn(s: State, id: nat): Option<Flight> {
    if id in s.inFlight then Some(s.inFlight[id]) else None
  }

  ghost predicate Same(s: State, requests: seq<(nat, nat)>) {
    |s.subs| == |requests| && forall k :: 0 <= k < |requests| ==> (s.subs[k].total, s.subs[k].addr) == requests[k]
  }

  lemma RespondFlight(s: State, r: Response, size: nat, latency: int, now: int, w: pos, id: nat)
    requires Known(s)
    ensures var t := Responded(s, r, size, latency, now, w);
            && |t.subs| == |s.subs|
            && FlightIn(t, id) ==
               if id == r.id && id in s.inFlight then
                 (if s.inFlight[id].routed + size >= s.inFlight[id].total then None
                  else Some(s.inFlight[id].(routed := s.inFlight[id].routed + size)))
               else FlightIn(s, id)
  {}

  lemma RespondSame(s: State, r: Response, size: nat, latency: int, now: int, w: pos, requests: seq<(nat, nat)>)
    requires Known(s) && Same(s, requests)
    ensures Same(Responded(s, r, size, latency, now, w), requests)
  {}

  lemma SubmitFlight(s: State, id0: nat, addr: nat, size: nat, now: int, a: Answer, w: pos, id: nat)
    requires Known(s)
    ensures FlightIn(Submitted(s, id0, addr, size, now, a, w), id) ==
            if id != id0 then FlightIn(s, id)
            else if a.status == Granted then Some(Flight(size, 0, addr, |s.subs|)) else None
  {
    if a.status == Done {
      RespondFlight(Registered(s, id0, addr, size), Response(id0, a.resp), size, a.latency, now, w, id);
    }
  }

  lemma SubmitSame(s: State, id: nat, addr: nat, size: nat, now: int, a: Answer, w: pos, requests: seq<(nat, nat)>)
    requires Known(s) && Same(s, requests)
    ensures Same(Submitted(s, id, addr, size, now, a, w), requests + [(size, addr)])
  {
    if a.status == Done {
      RespondSame(Registered(s, id, addr, size), Response(id, a.resp), size, a.latency, now, w,
                  requests + [(size, addr)]);
    }
  }

  lemma {:induction false} FlushSame(s: State, now: int)
    ensures Flushed(s, now).inFlight == s.inFlight && Flushed(s, now).subs == s.subs
    decreases |s.pending|
  {
    if s.pending != [] && s.pending[0].ready <= now { FlushSame(Popped(s, now), now); }
  }

  lemma SubmitStep(s: State, e: Event, w: pos, id: nat)
    requires Inv(s, w) && e.Submit?
    ensures FlightIn(Step(s, e, w), id) == NextFlight(s, e, id, |s.subs|, FlightIn(s, id))
  {
    if InTime(s, e.now) { SubmitFlight(s.(time := e.now), e.id, e.addr, e.size, e.now, e.a, w, id); }
  }

  lemma RespondStep(s: State, e: Event, w: pos, id: nat)
    requires Inv(s, w) && e.Respond?
    ensures FlightIn(Step(s, e, w), id) == NextFlight(s, e, id, |s.subs|, FlightIn(s, id))
  {
    if InTime(s, e.now) { RespondFlight(s.(time := e.now), e.r, e.size, e.latency, e.now, w, id); }
  }

  lemma StepFlight(s: State, e: Event, w: pos, id: nat)
    requires Inv(s, w)
    ensures FlightIn(Step(s, e, w), id) == NextFlight(s, e, id, |s.subs|, FlightIn(s, id))
  {
    match e
    case Submit(_, _, _, _, _) => SubmitStep(s, e, w, id);
    case Respond(_, _, _, _) => RespondStep(s, e, w, id);
    case Tick =>
      if s.armed.Some? { FlushSame(s.(time := s.armed.value, armed := None), s.armed.value); }
  }

  lemma StepSame(s: State, e: Event, w: pos, requests: seq<(nat, nat)>)
    requires Inv(s, w) && Same(s, requests)
    ensures Same(Step(s, e, w), if Submits(s, e) then requests + [(e.size, e.addr)] else requests)
  {
    match e
    case Submit(id0, addr, size, now, a) =>
      if InTime(s, now) { SubmitSame(s.(time := now), id0, addr, size, now, a, w, requests); }
    case Respond(r, size, latency, now) =>
      if InTime(s, now) { RespondSame(s.(time := now), r, size, latency, now, w, requests); }
    case Tick =>
      if s.armed.Some? { FlushSame(s.(time := s.armed.value, armed := None), s.armed.value); }
  }

  /** In every run the adapter awaits responses for exactly the requests that its history says, as they were made. */
  lemma {:induction false} HistoryDecides(events: seq<Event>, w: pos, id: nat)
    ensures Same(Run(events, w), Requests(events, w)) && FlightIn(Run(events, w), id) == Awaited(events, w, id)
  {
    if events != [] {
      var n := |events| - 1;
      HistoryDecides(events[..n], w, id);
      StepSame(Run(events[..n], w), events[n], w, Requests(events[..n], w));
      StepFlight(Run(events[..n], w), events[n], w, id);
    }
  }

  lemma RespondBrings(s: State, r: Response, size: nat, latency: int, now: int, w: pos)
    returns (more: seq<Beat>)
    requires Known(s)
    ensures All(Responded(s, r, size, latency, now, w)) == All(s) + more
    ensures if r.id in s.inFlight then Spreads(more, s.inFlight[r.id], r, size, now, latency, w) else more == []
  {
    more := [];
    if r.id in s.inFlight {
      more := BeatsOf(s.inFlight[r.id], r, size, now, latency, w);
      ResponseSpreads(s.inFlight[r.id], r, size, now, latency, w);
      AllGrows(s.emitted, s.pending, more);
    } else {
      AllGrows(s.emitted, s.pending, []);
      assert s.pending + [] == s.pending;
    }
  }

  lemma AllGrows(emitted: seq<Emission>, pending: seq<Beat>, more: seq<Beat>)
    ensures Sent(emitted) + (pending + more) == Sent(emitted) + pending + more
  {}

  lemma SubmitBrings(s: State, id: nat, addr: nat, size: nat, now: int, a: Answer, w: pos) returns (more: seq<Beat>)
    requires Known(s)
    ensures All(Submitted(s, id, addr, size, now, a, w)) == All(s) + more
    ensures if a.status == Done
            then Spreads(more, Flight(size, 0, addr, |s.subs|), Response(id, a.resp), size, now, a.latency, w)
            else more == []
  {
    more := [];
    if a.status == Done {
      more := RespondBrings(Registered(s, id, addr, size), Response(id, a.resp), size, a.latency, now, w);
    } else {
      assert All(s) + [] == All(s);
    }
  }

  lemma StepBrings(s: State, e: Event, w: pos) returns (more: seq<Beat>)
    requires Inv(s, w)
    ensures All(Step(s, e, w)) == All(s) + more
    ensures Brings(ArrivalIn(s, e, |s.subs|, if e.Respond? then FlightIn(s, e.r.id) else None), more, w)
  {
    more := [];
    assert All(s) + [] == All(s);
    match e
    case Submit(id, addr, size, now, a) =>
      if InTime(s, now) { more := SubmitBrings(s.(time := now), id, addr, size, now, a, w); }
    case Respond(r, size, latency, now) =>
      if InTime(s, now) { more := RespondBrings(s.(time := now), r, size, latency, now, w); }
    case Tick =>
      if s.armed.Some? { FlushAll(s.(time := s.armed.value, armed := None), s.armed.value); }
  }

  /**
    In every run an event brings the beats of the response that it carries, and no others: for the request that awaits
    it, at that request's address, with the response's status, spread over the cycles until it is complete.
   */
  lemma ResponsesSpread(events: seq<Event>, e: Event, w: pos) returns (more: seq<Beat>)
    ensures var s := Run(events, w);
            && All(Run(events + [e], w)) == All(s) + more
            && Brings(ArrivalIn(s, e, |Requests(events, w)|, if e.Respond? then Awaited(events, w, e.r.id) else None),
                      more, w)
  {
    assert (events + [e])[..|events|] == events;
    more := StepBrings(Run(events, w), e, w);
    HistoryDecides(events, w, if e.Respond? then e.r.id else 0);
  }
}
