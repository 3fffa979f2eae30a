/** What a master hears of the requests that it was denied. */
module Retries {
  import opened IoV2

  datatype Notice = Denial | Wake

  /** The master has been denied a request and has not been told to try again since. */
  predicate Owes(heard: seq<Notice>) {
    heard != [] && heard[|heard| - 1] == Denial
  }

  /** It is told to try again only if it has been denied a request since it was told so before. */
  ghost predicate NoneIdle(heard: seq<Notice>) {
    forall i :: 0 <= i < |heard| && heard[i] == Wake ==> i > 0 && heard[i - 1] == Denial
  }

  /** The retries among upstream calls. */
  function Wakes(upstream: seq<Upstream>): seq<Notice> {
    if upstream == [] then []
    else Wakes(upstream[..|upstream| - 1]) + (if upstream[|upstream| - 1].Retry? then [Wake] else [])
  }

  lemma WakesAppend(upstream: seq<Upstream>, u: Upstream)
    ensures Wakes(upstream + [u]) == Wakes(upstream) + (if u.Retry? then [Wake] else [])
  {
    assert (upstream + [u])[..|upstream|] == upstream;
  }

  /** The retries that were sent between two states. */
  function Since(before: seq<Upstream>, after: seq<Upstream>): seq<Notice> {
    if |before| <= |after| then Wakes(after[|before|..]) else []
  }

  lemma SinceNone(before: seq<Upstream>)
    ensures Since(before, before) == []
  {
    assert before[|before|..] == [];
  }

  lemma SinceMore(before: seq<Upstream>, after: seq<Upstream>, u: Upstream)
    requires |before| <= |after|
    ensures Since(before, after + [u]) == Since(before, after) + (if u.Retry? then [Wake] else [])
  {
    WakesAppend(after[|before|..], u);
    assert (after + [u])[|before|..] == after[|before|..] + [u];
  }

  /** At most one retry is sent, and only if it is owed. */
  predicate Pays(owed: bool, more: seq<Notice>, owed': bool) {
    (more == [] && owed' == owed) || (more == [Wake] && owed && !owed')
  }

  /** What is heard in one step, and whether a retry is owed before and after it. */
  predicate Heard(owed: bool, more: seq<Notice>, owed': bool) {
    Pays(owed, more, owed') || (more == [Denial] && owed')
  }

  lemma HeardOn(heard: seq<Notice>, more: seq<Notice>, owed: bool, owed': bool)
    requires NoneIdle(heard) && Owes(heard) == owed && Heard(owed, more, owed')
    ensures NoneIdle(heard + more) && Owes(heard + more) == owed'
  {
    assert heard + [] == heard;
  }

  /** With nothing owed, every denial has a retry behind it. */
  lemma AllWoken(heard: seq<Notice>, i: nat)
    requires !Owes(heard) && i < |heard| && heard[i] == Denial
    ensures exists j :: i < j < |heard| && heard[j] == Wake
  {
    assert heard[|heard| - 1] == Wake;
  }

  lemma HeardTogether(a: seq<Notice>, b: seq<Notice>, c: seq<Notice>)
    ensures a + b + c == a + (b + c)
  {}
}
