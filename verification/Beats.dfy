/** How the beat adapter spreads a response over beats, and how beats tile a request. */
module Beats {
  import opened Arith
  import opened IoV2

  /**
    One beat of submission number `serial`: `size` bytes from byte `offset` of the request, byte `at` of its
    response, on.
   */
  datatype Beat = Beat(serial: nat, from: Response, at: nat, size: nat, offset: nat, addr: nat, ready: int, first: bool,
                       last: bool)

  /** A response: the request that it answers, and its status. */
  datatype Response = Response(id: nat, resp: RespStatus)

  /** A request whose response is not complete. */
  datatype Flight = Flight(total: nat, routed: nat, addr: nat, serial: nat)

  /** A request that was passed on, and how many of its bytes have been answered. */
  datatype Submission = Submission(total: nat, addr: nat, routed: nat)

  /** A response of `size` bytes. */
  datatype Chunk = Chunk(serial: nat, size: nat)

  // ---------------------------------------------------------------- the beats of one response

  /** The cycles between beats. */
  function Gap(n: pos, latency: int): pos {
    if n > 1 && latency > 0 then Max(1, Quot(latency, n)) else 1
  }

  function FirstReady(now: int, n: pos, latency: int): int {
    Max(now + latency - Times(n - 1, Gap(n, latency)), now + 1)
  }

  /** The beat that starts at byte `at` of a response of `size` bytes. */
  function BeatAt(f: Flight, r: Response, size: nat, w: pos, at: nat, ready: int): Beat
    requires at < size
  {
    var n := Min(size - at, w);
    var offset := f.routed + at;
    Beat(f.serial, r, at, n, offset, f.addr + offset, ready, offset == 0, offset + n == f.total)
  }

  /** The beats of a response from its byte `at` on, the first of them ready at `ready`. */
  function BeatsFrom(f: Flight, r: Response, size: nat, w: pos, at: nat, ready: int, gap: pos): seq<Beat>
    decreases size - at
  {
    if at >= size then []
    else
      var b := BeatAt(f, r, size, w, at, ready);
      [b] + BeatsFrom(f, r, size, w, at + b.size, ready + gap, gap)
  }

  /** The loop over a response: one more beat, and those from there on. */
  lemma NextBeat(f: Flight, r: Response, size: nat, w: pos, at: nat, ready: int, gap: pos, done: seq<Beat>)
    requires at < size
    ensures var b := BeatAt(f, r, size, w, at, ready);
            done + BeatsFrom(f, r, size, w, at, ready, gap) ==
              done + [b] + BeatsFrom(f, r, size, w, at + b.size, ready + gap, gap)
  {
    var b := BeatAt(f, r, size, w, at, ready);
    var rest := BeatsFrom(f, r, size, w, at + b.size, ready + gap, gap);
    assert done + ([b] + rest) == done + [b] + rest;
  }

  function BeatsOf(f: Flight, r: Response, size: nat, now: int, latency: int, w: pos): seq<Beat> {
    var n: pos := Max(Ceil(size, w), 1);
    BeatsFrom(f, r, size, w, 0, FirstReady(now, n, latency), Gap(n, latency))
  }

  /** Beats follow each other `gap` cycles apart; there are `ceil(size / width)` of them. */
  lemma {:induction false} BeatsSpread(f: Flight, r: Response, size: nat, w: pos, at: nat, ready: int, gap: pos)
    requires at <= size && Rem(at, w) == 0
    ensures var beats := BeatsFrom(f, r, size, w, at, ready, gap);
            && |beats| == Ceil(size, w) - Ceil(at, w)
            && (forall i :: 0 <= i < |beats| ==> beats[i].ready == ready + Times(i, gap))
    decreases size - at
  {
    if at < size {
      var n := Min(size - at, w);
      var rest := BeatsFrom(f, r, size, w, at + n, ready + gap, gap);
      CeilStep(at, n, w);
      if at + n < size {
        QuotUnfold(at + w, w);
        BeatsSpread(f, r, size, w, at + n, ready + gap, gap);
      }
      var beats := BeatsFrom(f, r, size, w, at, ready, gap);
      forall i | 0 <= i < |beats| ensures beats[i].ready == ready + Times(i, gap) {
        TimesUnfold(i, gap);
        if i > 0 { assert beats[i] == rest[i - 1]; }
      }
    }
  }

  /** The last of `n` beats is ready when the response as a whole is, or after `n` cycles if that is later. */
  lemma LastReady(now: int, n: pos, latency: int)
    ensures FirstReady(now, n, latency) + Times(n - 1, Gap(n, latency)) == now + Max(latency, n)
    ensures FirstReady(now, n, latency) > now
  {
    TimesOne(n - 1);
    TimesUnfold(0, Gap(n, latency));
    if n > 1 && latency > 0 {
      var q := Quot(latency, n);
      QuotRem(latency, n);
      TimesOne(n);
      if q >= 2 {
        TimesCommute(q, n);
        TimesUnfold(n, q);
      } else {
        TimesUnfold(q, n);
        TimesUnfold(0, n);
      }
    }
  }

  /**
    The beats of a response of `size` bytes that is complete `latency` cycles from now: `n`, rounded up, in
    strictly later cycles, all after now, the last one at `now + max(latency, n)`.
   */
  lemma ResponseTiming(f: Flight, r: Response, size: pos, now: int, latency: int, w: pos)
    ensures var beats := BeatsOf(f, r, size, now, latency, w);
            && |beats| == Ceil(size, w) > 0
            && now < beats[0].ready
            && (forall i, j :: 0 <= i < j < |beats| ==> beats[i].ready < beats[j].ready)
            && beats[|beats| - 1].ready == now + Max(latency, |beats|)
  {
    var n := Ceil(size, w);
    CeilOfPositive(size, w);
    var gap, first := Gap(n, latency), FirstReady(now, n, latency);
    CeilFrom(0, 1, w);
    TimesUnfold(0, w);
    TimesUnfold(0, gap);
    QuotUnfold(0, w);
    BeatsSpread(f, r, size, w, 0, first, gap);
    LastReady(now, n, latency);
    forall i: nat, j: nat | i < j < n ensures Times(i, gap) < Times(j, gap) {
      TimesUnfold(j, gap);
      TimesMonotone(i, j - 1, gap);
    }
  }

  /** The widest gap, of at least one cycle, with which `n` beats fit a response's latency. */
  predicate IsWidestGap(gap: pos, n: nat, latency: int) {
    (gap == 1 || Times(n, gap) <= latency) && (n > 1 ==> latency < Times(n, gap + 1))
  }

  lemma GapIsWidest(n: pos, latency: int)
    ensures IsWidestGap(Gap(n, latency), n, latency)
  {
    if n > 1 {
      var gap := Gap(n, latency);
      TimesCommute(n, gap + 1);
      TimesCommute(n, gap);
      TimesUnfold(gap + 1, n);
      TimesUnfold(1, n);
      TimesUnfold(0, n);
      if latency > 0 { QuotRem(latency, n); }
    }
  }

  /** Beat number `i` of a response of `size` bytes: which bytes it carries, and for whom. */
  ghost predicate Carries(b: Beat, f: Flight, r: Response, size: nat, w: pos, i: nat) {
    && b.serial == f.serial && b.from == r
    && b.at == Times(i, w) < size && b.size == Min(w, size - b.at)
    && b.offset == f.routed + b.at && b.addr == f.addr + b.offset
    && (b.first <==> b.offset == 0) && (b.last <==> b.offset + b.size == f.total)
  }

  /** Beats leave evenly, as far apart as fits, all after now and the last one when the response is complete. */
  ghost predicate Evenly(beats: seq<Beat>, now: int, latency: int) {
    && beats != [] && now < beats[0].ready && beats[|beats| - 1].ready == now + Max(latency, |beats|)
    && exists gap: pos :: IsWidestGap(gap, |beats|, latency) && Apart(beats, gap)
  }

  ghost predicate Apart(beats: seq<Beat>, gap: pos) {
    forall i :: 0 <= i < |beats| ==> beats[i].ready == beats[0].ready + Times(i, gap)
  }

  /** The beats of a response, told by their bytes and their cycles. */
  ghost predicate Spreads(beats: seq<Beat>, f: Flight, r: Response, size: nat, now: int, latency: int, w: pos) {
    && |beats| == Ceil(size, w) && (forall i :: 0 <= i < |beats| ==> Carries(beats[i], f, r, size, w, i))
    && (size > 0 ==> Evenly(beats, now, latency))
  }

  lemma {:induction false} BeatsCarry(f: Flight, r: Response, size: nat, w: pos, k: nat, ready: int, gap: pos, i: nat)
    requires Times(k, w) <= size || k == 0
    requires var at := Times(k, w); at <= size && i < |BeatsFrom(f, r, size, w, at, ready, gap)|
    ensures Carries(BeatsFrom(f, r, size, w, Times(k, w), ready, gap)[i], f, r, size, w, k + i)
    decreases i
  {
    var at := Times(k, w);
    if i > 0 {
      var b := BeatAt(f, r, size, w, at, ready);
      TimesNext(k, w);
      if at + b.size < size {
        BeatsCarry(f, r, size, w, k + 1, ready + gap, gap, i - 1);
      }
      assert k + 1 + (i - 1) == k + i;
    }
  }

  /** A response is spread over its beats. */
  lemma ResponseSpreads(f: Flight, r: Response, size: nat, now: int, latency: int, w: pos)
    ensures Spreads(BeatsOf(f, r, size, now, latency, w), f, r, size, now, latency, w)
  {
    var beats := BeatsOf(f, r, size, now, latency, w);
    var n: pos := Max(Ceil(size, w), 1);
    var gap, first := Gap(n, latency), FirstReady(now, n, latency);
    TimesUnfold(0, w);
    QuotUnfold(0, w);
    QuotUnfold(w - 1, w);
    BeatsSpread(f, r, size, w, 0, first, gap);
    forall i | 0 <= i < |beats| ensures Carries(beats[i], f, r, size, w, i) {
      BeatsCarry(f, r, size, w, 0, first, gap, i);
    }
    if size > 0 {
      ResponseTiming(f, r, size, now, latency, w);
      GapIsWidest(n, latency);
      TimesUnfold(0, gap);
      assert Apart(beats, gap);
    }
  }

  lemma CeilOfPositive(x: pos, m: pos)
    ensures Ceil(x, m) > 0
  {
    QuotUnfold(x + m - 1, m);
  }

  // ---------------------------------------------------------------- how beats tile their request

  /**
    Those of `beats` that belong to submission `k` tile its bytes `[0, upto)` in order, and only the outer ones
    are flagged.
   */
  ghost predicate Tiled(beats: seq<Beat>, k: nat, sub: Submission, w: pos, upto: nat) {
    if beats == [] then upto == 0
    else
      var b, rest := beats[|beats| - 1], beats[..|beats| - 1];
      if b.serial != k then Tiled(rest, k, sub, w, upto)
      else
        && 0 < b.size <= w && b.offset + b.size == upto && b.addr == sub.addr + b.offset
        && b.first == (b.offset == 0) && b.last == (upto == sub.total)
        && Tiled(rest, k, sub, w, b.offset)
  }

  function CountOf(beats: seq<Beat>, k: nat): nat {
    if beats == [] then 0 else CountOf(beats[..|beats| - 1], k) + (if beats[|beats| - 1].serial == k then 1 else 0)
  }

  function CountFirst(beats: seq<Beat>, k: nat): nat {
    if beats == [] then 0
    else
      CountFirst(beats[..|beats| - 1], k)
      + (if beats[|beats| - 1].serial == k && beats[|beats| - 1].first then 1 else 0)
  }

  function CountLast(beats: seq<Beat>, k: nat): nat {
    if beats == [] then 0
    else
      CountLast(beats[..|beats| - 1], k)
      + (if beats[|beats| - 1].serial == k && beats[|beats| - 1].last then 1 else 0)
  }

  /**
    Exactly one beat is flagged first, and, once all of the request is answered and not before, one last; no more
    than one if it is answered with more bytes than it has.
   */
  lemma {:induction false} OneFirstOneLast(beats: seq<Beat>, k: nat, sub: Submission, w: pos, upto: nat)
    requires Tiled(beats, k, sub, w, upto)
    ensures CountFirst(beats, k) == (if upto > 0 then 1 else 0)
    ensures upto <= sub.total ==> CountLast(beats, k) == (if upto > 0 && upto == sub.total then 1 else 0)
    ensures CountLast(beats, k) <= 1
  {
    if beats != [] {
      var b, rest := beats[|beats| - 1], beats[..|beats| - 1];
      OneFirstOneLast(rest, k, sub, w, if b.serial == k then b.offset else upto);
    }
  }

  lemma TiledAppend(beats: seq<Beat>, b: Beat, k: nat, sub: Submission, w: pos, upto: nat)
    requires Tiled(beats, k, sub, w, upto)
    requires b.serial == k ==>
               && b.offset == upto && 0 < b.size <= w && b.addr == sub.addr + upto
               && b.first == (upto == 0) && b.last == (upto + b.size == sub.total)
    ensures Tiled(beats + [b], k, sub, w, if b.serial == k then upto + b.size else upto)
  {
    assert (beats + [b])[..|beats|] == beats;
  }

  lemma CountAppend(beats: seq<Beat>, b: Beat, k: nat)
    ensures CountOf(beats + [b], k) == CountOf(beats, k) + (if b.serial == k then 1 else 0)
  {
    assert (beats + [b])[..|beats|] == beats;
  }

  /** The beats of a response carry on where those before it stopped. */
  lemma {:induction false} ResponseTiles(beats: seq<Beat>, f: Flight, r: Response, size: nat, w: pos, at: nat,
                                         ready: int, gap: pos, k: nat, sub: Submission, upto: nat)
    requires at <= size && Tiled(beats, k, sub, w, upto)
    requires k == f.serial ==> upto == f.routed + at && sub.total == f.total && sub.addr == f.addr
    ensures var more := BeatsFrom(f, r, size, w, at, ready, gap);
            && Tiled(beats + more, k, sub, w, if k == f.serial then f.routed + size else upto)
            && CountOf(beats + more, k) == CountOf(beats, k) + (if k == f.serial then |more| else 0)
    decreases size - at
  {
    if at >= size {
      assert beats + [] == beats;
    } else {
      var b := BeatAt(f, r, size, w, at, ready);
      var rest := BeatsFrom(f, r, size, w, at + b.size, ready + gap, gap);
      TiledAppend(beats, b, k, sub, w, upto);
      CountAppend(beats, b, k);
      ResponseTiles(beats + [b], f, r, size, w, at + b.size, ready + gap, gap, k, sub,
                    if k == f.serial then upto + b.size else upto);
      assert beats + BeatsFrom(f, r, size, w, at, ready, gap) == beats + [b] + rest;
    }
  }

  // ---------------------------------------------------------------- how many beats there are

  /** Bytes of the responses to submission `k`. */
  function Answered(chunks: seq<Chunk>, k: nat): nat {
    if chunks == [] then 0
    else
      Answered(chunks[..|chunks| - 1], k)
      + (if chunks[|chunks| - 1].serial == k then chunks[|chunks| - 1].size else 0)
  }

  function ChunkBeats(chunks: seq<Chunk>, k: nat, w: pos): nat {
    if chunks == [] then 0
    else
      ChunkBeats(chunks[..|chunks| - 1], k, w)
      + (if chunks[|chunks| - 1].serial == k then Ceil(chunks[|chunks| - 1].size, w) else 0)
  }

  /** What the last beats of the responses to submission `k` lack of full width, all together. */
  function Padding(chunks: seq<Chunk>, k: nat, w: pos): int {
    if chunks == [] then 0
    else
      var c := chunks[|chunks| - 1];
      Padding(chunks[..|chunks| - 1], k, w) + (if c.serial == k then Times(Ceil(c.size, w), w) - c.size else 0)
  }

  lemma {:induction false} PaddingSum(chunks: seq<Chunk>, k: nat, w: pos)
    ensures Times(ChunkBeats(chunks, k, w), w) == Answered(chunks, k) + Padding(chunks, k, w)
            && Padding(chunks, k, w) >= 0
  {
    if chunks == [] {
      TimesUnfold(0, w);
    } else {
      var c, rest := chunks[|chunks| - 1], chunks[..|chunks| - 1];
      PaddingSum(rest, k, w);
      TimesAdd(ChunkBeats(rest, k, w), Ceil(c.size, w), w);
      CeilCovers(c.size, w);
    }
  }

  lemma CeilCovers(x: nat, m: pos)
    ensures x <= Times(Ceil(x, m), m) < x + m
  {
    QuotRem(x + m - 1, m);
  }

  lemma CeilUnique(x: nat, q: nat, m: pos)
    requires x <= Times(q, m) < x + m
    ensures q == Ceil(x, m)
  {
    QuotUnique(q, x + m - 1 - Times(q, m), m);
  }

  /**
    A request is answered in `ceil(size / width)` beats exactly if its responses leave less than one beat of
    padding in all.
   */
  lemma BeatCount(chunks: seq<Chunk>, k: nat, w: pos)
    ensures ChunkBeats(chunks, k, w) == Ceil(Answered(chunks, k), w) <==> Padding(chunks, k, w) < w
  {
    PaddingSum(chunks, k, w);
    CeilCovers(Answered(chunks, k), w);
    if Padding(chunks, k, w) < w { CeilUnique(Answered(chunks, k), ChunkBeats(chunks, k, w), w); }
  }

  /** Two one-byte responses take two beats where one would do. */
  lemma TwoShortResponses()
    ensures var chunks := [Chunk(0, 1), Chunk(0, 1)]; ChunkBeats(chunks, 0, 2) == 2 && Ceil(Answered(chunks, 0), 2) == 1
  {
    var chunks := [Chunk(0, 1), Chunk(0, 1)];
    assert chunks[..1] == [Chunk(0, 1)] && chunks[..1][..0] == [];
    CeilUnique(1, 1, 2);
    CeilUnique(2, 1, 2);
    TimesOne(2);
    TimesUnfold(1, 2);
    TimesUnfold(0, 2);
  }
}
