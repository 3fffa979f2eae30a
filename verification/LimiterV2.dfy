/** The limiter component: bandwidth-wide chunks, one a cycle, of one request at a time. */
module LimiterV2 {
  import opened Arith
  import opened IoV2
  import opened LimiterSpec

  /** A chunk that the output was called with, and what it answered. */
  datatype Call = Call(sub: Sub, answer: Answer)

  class Limiter {
    const bandwidth: pos
    var st: State
    // history: the calls of the output
    ghost var calls: seq<Call>

    ghost predicate Valid()
      reads this
    {
      Inv(st, bandwidth)
    }

    constructor (bandwidth: pos)
      ensures Valid() && st == INITIAL && this.bandwidth == bandwidth && calls == []
    {
      this.bandwidth := bandwidth;
      st := INITIAL;
      calls := [];
      InitialInv(bandwidth);
    }

    /** A request arrives at the input. An empty one is accepted too, and stalls the limiter. */
    method InputReq(req: Request, now: int) returns (status: ReqStatus)
      requires Valid() && InTime(st, now)
      modifies `st
      ensures Valid() && st == Requested(old(st).(time := now), req)
      ensures status == if old(st).pending.Some? then Denied else Granted
      ensures status == Granted && req.size == 0 ==> Stalled(st, |old(st).reqs|)
    {
      TimePasses(st, now, bandwidth);
      st := st.(time := now);
      RequestKeeps(st, req, bandwidth);
      if st.pending.Some? {
        st := st.(needsRetry := true);
        return Denied;
      }
      st := st.(pending := Some(|st.reqs|), pendingSize := req.size, pendingAddr := req.addr, pendingData := 0,
        reqs := st.reqs + [req], parents := st.parents + [Parent(req.size, Ok, false)]);
      if st.armed.None? {
        st := st.(armed := Some(now + 1));
      }
      return Granted;
    }

    /** Sends the retry owed, if one is and the emission slot is free. */
    method PayRetry()
      modifies `st
      ensures st == RetryPaid(old(st))
    {
      if st.pending.None? && st.needsRetry {
        st := st.(needsRetry := false);
        st := st.(upstream := st.upstream + [Retry]);
      }
    }

    /** If all of request `k` is in, answers it and pays the retry owed. */
    method CheckLastChunk(k: nat)
      requires k < |st.parents|
      modifies `st
      ensures st == if old(st).parents[k].remaining != 0 then old(st)
                    else RetryPaid(old(st).(upstream := old(st).upstream + [Resp(k)],
                                            parents := old(st).parents[k := old(st).parents[k].(answered := true)]))
    {
      if st.parents[k].remaining != 0 {
        return;
      }
      st := st.(upstream := st.upstream + [Resp(k)], parents := st.parents[k := st.parents[k].(answered := true)]);
      PayRetry();
    }

    /** Chunk `i` at the output has completed. */
    method FinishChunk(i: nat, resp: RespStatus)
      requires i < |st.granted| && st.granted[i].parent < |st.parents|
      modifies `st
      ensures st == Finished(old(st), i, resp)
    {
      var sub := st.granted[i];
      var k := sub.parent;
      st := st.(granted := Without(st.granted, i), settled := st.settled + [Settle(sub, resp)]);
      if resp == Invalid {
        st := st.(parents := st.parents[k := st.parents[k].(status := Invalid)]);
      }
      st := st.(parents := st.parents[k := st.parents[k].(remaining := st.parents[k].remaining - sub.size)]);
      ghost var p := old(st).parents[k];
      ghost var status := if resp == Invalid then Invalid else p.status;
      assert st.parents == old(st).parents[k := Parent(p.remaining - sub.size, status, p.answered)];
      CheckLastChunk(k);
    }

    /** Cuts the next chunk and offers it to the output. */
    method EmitChunk()
      requires st.pending.Some? && st.pending.value < |st.reqs| && st.pendingSize > 0
      modifies `st
      ensures st == Emitted(old(st), bandwidth)
    {
      var chunk := Min(st.pendingSize, bandwidth);
      var sub := Sub(st.pending.value, st.pendingAddr, chunk, st.pendingData, st.reqs[st.pending.value].opcode);
      st := st.(pendingAddr := st.pendingAddr + chunk, pendingData := st.pendingData + chunk,
        pendingSize := st.pendingSize - chunk);
      st := st.(nextTimestamp := st.time + 1);
      if st.pendingSize == 0 {
        st := st.(pending := None);
      }
      st := st.(emitted := st.emitted + [Emission(st.time, sub)], granted := st.granted + [sub],
        taken := st.taken + [Emission(st.time, sub)]);
    }

    /** The output refuses the chunk it was offered last: it is kept for its retry. */
    method KeepRefused()
      requires |st.granted| > 0 && |st.taken| > 0
      modifies `st
      ensures st == Refused(old(st))
    {
      var n := |st.granted| - 1;
      st := st.(denied := Some(st.granted[n]), granted := st.granted[..n], taken := st.taken[..|st.taken| - 1]);
    }

    /** After an accepted chunk: the next one in the next cycle, or the retry owed. */
    method ScheduleNext()
      modifies `st
      ensures st == Rescheduled(old(st))
    {
      if st.pending.Some? && st.pendingSize > 0 {
        st := st.(armed := Some(st.time + 1));
      } else {
        PayRetry();
      }
    }

    /** The output is called with a chunk, and is free to answer anything. */
    method OutputReq(sub: Sub) returns (a: Answer)
      modifies `calls
      ensures calls == old(calls) + [Call(sub, a)]
    {
      a := SlaveAnswers();
      calls := calls + [Call(sub, a)];
    }

    /** The next chunk goes to the output. */
    method OfferChunk() returns (a: Answer)
      requires st.pending.Some? && st.pending.value < |st.reqs| == |st.parents| && st.pendingSize > 0
      modifies `st, `calls
      ensures var e := Emitted(old(st), bandwidth);
              st == if a.status == Denied then Refused(e) else Rescheduled(Taken(e, a))
      ensures calls == old(calls) + [Call(NextSub(old(st), bandwidth), a)]
    {
      EmitChunk();
      a := OutputReq(st.granted[|st.granted| - 1]);
      if a.status == Denied {
        KeepRefused();
        return;
      }
      if a.status == Done {
        FinishChunk(|st.granted| - 1, a.resp);
      }
      ScheduleNext();
    }

    /** What the emission event does. */
    method Emit() returns (a: Answer)
      requires Known(st)
      modifies `st, `calls
      ensures st == Ticked(old(st), a, bandwidth)
      ensures calls == old(calls) + Called(old(st), a, bandwidth)
    {
      a := Answer(Granted, 0, Ok);
      st := st.(armed := None);
      if st.denied.Some? || st.pending.None? || st.pendingSize == 0 {
        return;
      }
      if st.nextTimestamp > st.time {
        st := st.(armed := Some(st.nextTimestamp));
        return;
      }
      a := OfferChunk();
    }

    /**
      The emission event fires: one chunk goes out, unless a refused one is still waiting. `a` is what the output
      answers to the chunk it is called with, and the chunk is the one that is emitted.
     */
    method EventHandler(now: int) returns (ghost a: Answer)
      requires Valid() && st.armed == Some(now)
      modifies this
      ensures Known(old(st).(time := now)) && Valid() && st == Ticked(old(st).(time := now), a, bandwidth)
      ensures exists more :: calls == old(calls) + more && IsEmitted(more, old(st).emitted, st.emitted, a)
    {
      TimePasses(st, now, bandwidth);
      st := st.(time := now);
      ghost var s := st;
      a := Emit();
      TickCalls(s, st, a, bandwidth);
    }

    /** The output answers chunk `i`. */
    method OutputResp(i: nat, resp: RespStatus)
      requires Valid() && i < |st.granted|
      modifies `st
      ensures Valid() && st == Finished(old(st), i, resp)
    {
      RespondKeeps(st, i, resp, bandwidth);
      FinishChunk(i, resp);
    }

    /** The output can accept requests again: the refused chunk is sent again, and `a` is the answer to it. */
    method OutputRetry(now: int) returns (ghost a: Answer)
      requires Valid() && InTime(st, now)
      modifies this
      ensures Known(old(st).(time := now)) && Valid() && st == Retried(old(st).(time := now), a)
      ensures calls == old(calls) + (if old(st).denied.Some? then [Call(old(st).denied.value, a)] else [])
    {
      TimePasses(st, now, bandwidth);
      st := st.(time := now);
      ghost var s := st;
      a := Resend();
      RetryKeeps(s, a, bandwidth);
    }

    /** Sends the refused chunk again. */
    method Resend() returns (a: Answer)
      requires Known(st)
      modifies `st, `calls
      ensures st == Retried(old(st), a)
      ensures calls == old(calls) + (if old(st).denied.Some? then [Call(old(st).denied.value, a)] else [])
    {
      if st.denied.None? {
        a := Answer(Granted, 0, Ok);
        return;
      }
      var sub := st.denied.value;
      st := st.(denied := None, granted := st.granted + [sub], taken := st.taken + [Emission(st.time, sub)]);
      a := OutputReq(sub);
      if a.status == Denied {
        KeepRefused();
        return;
      }
      if a.status == Done {
        FinishChunk(|st.granted| - 1, a.resp);
      }
      Wake();
    }

    /** What is left in emission goes on in the next cycle. */
    method Wake()
      modifies `st
      ensures st == Woken(old(st))
    {
      if st.pending.Some? && st.pendingSize > 0 && st.armed.None? {
        st := st.(armed := Some(st.time + 1));
      }
    }
  }

  /** The emission event calls the output. */
  predicate Offering(s: State) {
    s.denied.None? && s.pending.Some? && s.pendingSize > 0 && s.nextTimestamp <= s.time
  }

  function Called(s: State, a: Answer, bw: pos): seq<Call>
    requires Known(s)
  {
    if Offering(s) then [Call(NextSub(s, bw), a)] else []
  }

  /** These calls are those with what is emitted anew, at most one chunk. */
  ghost predicate IsEmitted(calls: seq<Call>, before: seq<Emission>, after: seq<Emission>, a: Answer) {
    if calls == [] then after == before
    else |after| == |before| + 1 && calls == [Call(after[|before|].sub, a)]
  }

  lemma TickCalls(s: State, t: State, a: Answer, bw: pos)
    requires Inv(s, bw) && Known(s) && t == Ticked(s, a, bw)
    ensures Inv(t, bw) && IsEmitted(Called(s, a, bw), s.emitted, t.emitted, a)
  {
    TickKeeps(s, a, bw);
    TickEmitted(s, a, bw);
  }

  lemma TickEmitted(s: State, a: Answer, bw: pos)
    requires Known(s)
    ensures IsEmitted(Called(s, a, bw), s.emitted, Ticked(s, a, bw).emitted, a)
  {}
}
