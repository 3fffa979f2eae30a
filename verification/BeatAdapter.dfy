/** The beat adapter component: requests pass through, responses come back as timed beats. */
module BeatAdapter {
  import opened Arith
  import opened IoV2
  import opened Beats
  import opened BeatAdapterSpec

  /** A call of the output, and its answer. */
  datatype Call = Call(id: nat, addr: nat, size: nat, answer: Answer)

  class Adapter {
    const beatWidth: pos
    var st: State
    // history: the calls of the output
    ghost var calls: seq<Call>

    ghost predicate Valid()
      reads this
    {
      Inv(st, beatWidth)
    }

    constructor (beatWidth: pos)
      ensures Valid() && st == INITIAL && this.beatWidth == beatWidth && calls == []
    {
      this.beatWidth := beatWidth;
      st := INITIAL;
      calls := [];
      InitialInv(beatWidth);
    }

    /** The output is called with a request, and is free to answer anything. */
    method OutReq(id: nat, addr: nat, size: nat) returns (a: Answer)
      modifies `calls
      ensures calls == old(calls) + [Call(id, addr, size, a)]
    {
      a := SlaveAnswers();
      calls := calls + [Call(id, addr, size, a)];
    }

    /**
      A request arrives and is passed on as it is, and `a` is the answer; a slave that is done at once is made to look
      like one that is not.
     */
    method ReqHandler(id: nat, addr: nat, size: nat, now: int) returns (status: ReqStatus, ghost a: Answer)
      requires Valid() && InTime(st, now)
      modifies this
      ensures Valid() && Known(old(st).(time := now))
      ensures st == Submitted(old(st).(time := now), id, addr, size, now, a, beatWidth)
      ensures calls == old(calls) + [Call(id, addr, size, a)]
      ensures status == if a.status == Denied then Denied else Granted
    {
      ghost var s := st;
      TimePasses(st, now, beatWidth);
      status, a := Submit(id, addr, size, now);
      SubmitKeeps(s.(time := now), id, addr, size, now, a, beatWidth);
    }

    method Submit(id: nat, addr: nat, size: nat, now: int) returns (status: ReqStatus, answer: Answer)
      requires Known(st)
      modifies `st, `calls
      ensures st == Submitted(old(st).(time := now), id, addr, size, now, answer, beatWidth)
      ensures calls == old(calls) + [Call(id, addr, size, answer)]
      ensures status == if answer.status == Denied then Denied else Granted
    {
      // A request that is already in flight has its bookkeeping reset.
      st := st.(time := now, inFlight := st.inFlight[id := Flight(size, 0, addr, |st.subs|)],
                subs := st.subs + [Submission(size, addr, 0)]);
      answer := OutReq(id, addr, size);
      if answer.status == Done {
        ScheduleChunk(Response(id, answer.resp), size, answer.latency, now);
        return Granted, answer;
      }
      if answer.status == Denied {
        st := st.(inFlight := st.inFlight - {id});
      }
      status := answer.status;
    }

    /** A response, or part of one, arrives. */
    method RespHandler(r: Response, size: nat, latency: int, now: int)
      requires Valid() && InTime(st, now)
      modifies `st
      ensures Valid() && Known(old(st).(time := now))
      ensures st == Responded(old(st).(time := now), r, size, latency, now, beatWidth)
    {
      TimePasses(st, now, beatWidth);
      RespondKeeps(st.(time := now), r, size, latency, now, beatWidth);
      st := st.(time := now);
      ScheduleChunk(r, size, latency, now);
    }

    /** Spreads a response over beats. */
    method ScheduleChunk(r: Response, size: nat, latency: int, now: int)
      requires Known(st)
      modifies `st
      ensures st == Responded(old(st), r, size, latency, now, beatWidth)
    {
      if r.id !in st.inFlight {
        return;
      }
      var f := st.inFlight[r.id];
      var n := Ceil(size, beatWidth);
      if n <= 0 { n := 1; }
      var step := if n > 1 && latency > 0 then Max(1, Quot(latency, n)) else 1;
      var firstReady := now + latency - Times(n - 1, step);
      if firstReady < now + 1 { firstReady := now + 1; }

      var beats := MakeBeats(f, r, size, firstReady, step);
      Record(r, f, size, beats);
      RescheduleFsm(now);
    }

    /** The beats of a response are queued; a request that is completely answered is forgotten. */
    method Record(r: Response, f: Flight, size: nat, beats: seq<Beat>)
      requires r.id in st.inFlight && f == st.inFlight[r.id] && f.serial < |st.subs|
      modifies `st
      ensures forall now, latency :: beats == BeatsOf(f, r, size, now, latency, beatWidth) ==>
                                       st == Recorded(old(st), r, size, latency, now, beatWidth)
    {
      var routed := f.routed + size;
      st := st.(pending := st.pending + beats, chunks := st.chunks + [Chunk(f.serial, size)]);
      st := st.(subs := st.subs[f.serial := st.subs[f.serial].(routed := routed)]);
      if routed >= f.total {
        st := st.(inFlight := st.inFlight - {r.id});
      } else {
        st := st.(inFlight := st.inFlight[r.id := f.(routed := routed)]);
      }
    }

    /** The loop over the bytes of a response. */
    method MakeBeats(f: Flight, r: Response, size: nat, firstReady: int, step: pos) returns (beats: seq<Beat>)
      ensures beats == BeatsFrom(f, r, size, beatWidth, 0, firstReady, step)
    {
      beats := [];
      var cursor, ready := 0, firstReady;
      while cursor < size
        invariant 0 <= cursor <= size
        invariant beats + BeatsFrom(f, r, size, beatWidth, cursor, ready, step) ==
                  BeatsFrom(f, r, size, beatWidth, 0, firstReady, step)
      {
        var beat := Min(size - cursor, beatWidth);
        var offset := f.routed + cursor;
        NextBeat(f, r, size, beatWidth, cursor, ready, step, beats);
        beats := beats + [Beat(f.serial, r, cursor, beat, offset, f.addr + offset, ready, offset == 0,
                               offset + beat == f.total)];
        cursor := cursor + beat;
        ready := ready + step;
      }
    }

    method RescheduleFsm(now: int)
      modifies `st
      ensures st == Armed(old(st), now)
    {
      if st.pending == [] || st.armed.Some? {
        return;
      }
      st := st.(armed := Some(now + Max(st.pending[0].ready - now, 1)));
    }

    /** The emission event fires: all beats that are ready leave. */
    method FsmHandler(now: int)
      requires Valid() && st.armed == Some(now)
      modifies `st
      ensures Valid() && st == Ticked(old(st).(time := now), now)
    {
      TickKeeps(st, now, beatWidth);
      st := st.(time := now, armed := None);
      EmitReady(now);
      if st.pending != [] {
        st := st.(armed := Some(now + Max(st.pending[0].ready - now, 1)));
      }
    }

    method EmitReady(now: int)
      requires st.armed.None?
      modifies `st
      ensures st == Flushed(old(st), now) && st.armed.None?
    {
      while st.pending != [] && st.pending[0].ready <= now
        invariant Flushed(st, now) == Flushed(old(st), now) && st.armed.None?
        decreases |st.pending|
      {
        st := st.(pending := st.pending[1..], emitted := st.emitted + [Emission(st.pending[0], now)]);
      }
    }
  }
}
