/** The ring of bytes between a socket and the packet codec. */
module CircularBuffer {
  import opened Bytes

  /** Index `i` steps around the ring from `head`. */
  function At(head: nat, i: nat, max: nat): nat
    requires head < max && i <= max
  {
    if head + i < max then head + i else head + i - max
  }

  // As in Arith, a name and one step of the definition.

  /** The `n` bytes from index `head` on, around the end of `buf`. */
  function Window(buf: seq<byte>, head: nat, n: nat): (bytes: seq<byte>)
    requires head < |buf| && n <= |buf|
    ensures |bytes| == n
    decreases n, 1
  {
    WindowStep(buf, head, n)
  }

  function WindowStep(buf: seq<byte>, head: nat, n: nat): (bytes: seq<byte>)
    requires head < |buf| && n <= |buf|
    ensures |bytes| == n
    decreases n, 0
  {
    if n == 0 then [] else Window(buf, head, n - 1) + [buf[At(head, n - 1, |buf|)]]
  }

  lemma AtAt(head: nat, l: nat, i: nat, max: nat)
    requires head < max && l + i < max
    ensures At(At(head, l, max), i, max) == At(head, l + i, max)
  {}

  lemma {:induction false} WindowAt(buf: seq<byte>, head: nat, n: nat, i: nat)
    requires head < |buf| && i < n <= |buf|
    ensures Window(buf, head, n)[i] == buf[At(head, i, |buf|)]
  {
    assert Window(buf, head, n) == WindowStep(buf, head, n);
    if i < n - 1 { WindowAt(buf, head, n - 1, i); }
  }

  /** What lies before the end of `buf` is a slice of it. */
  lemma WindowSlice(buf: seq<byte>, head: nat, n: nat, l: nat)
    requires head < |buf| && l <= n <= |buf| && head + l <= |buf|
    ensures Window(buf, head, n)[..l] == buf[head..head + l]
  {
    var w := Window(buf, head, n);
    forall i | 0 <= i < l ensures w[i] == buf[head + i] { WindowAt(buf, head, n, i); }
  }

  lemma GrownAt(buf: seq<byte>, head: nat, n: nat, l: nat, i: nat)
    requires head < |buf| && 0 < l && n + l <= |buf| && At(head, n, |buf|) + l <= |buf| && i < n + l
    ensures Window(buf, head, n + l)[i] == if i < n then Window(buf, head, n)[i] else buf[At(head, n, |buf|) + (i - n)]
  {
    WindowAt(buf, head, n + l, i);
    if i < n { WindowAt(buf, head, n, i); }
  }

  /** Bytes are appended behind the window, in one block. */
  lemma WindowGrows(buf: seq<byte>, head: nat, n: nat, l: nat)
    requires head < |buf| && n + l <= |buf| && (l > 0 ==> At(head, n, |buf|) + l <= |buf|)
    ensures Window(buf, head, n + l) ==
            Window(buf, head, n) + (if l == 0 then [] else buf[At(head, n, |buf|)..At(head, n, |buf|) + l])
  {
    if l > 0 {
      var t := At(head, n, |buf|);
      var w, sum := Window(buf, head, n + l), Window(buf, head, n) + buf[t..t + l];
      forall i | 0 <= i < n + l ensures w[i] == sum[i] { GrownAt(buf, head, n, l, i); }
      assert w == sum;
    }
  }

  lemma ShrunkAt(buf: seq<byte>, head: nat, n: nat, l: nat, i: nat)
    requires head < |buf| && l <= n <= |buf| && i < n - l
    ensures Window(buf, At(head, l, |buf|), n - l)[i] == Window(buf, head, n)[l + i]
  {
    AtAt(head, l, i, |buf|);
    if l < |buf| { WindowAt(buf, At(head, l, |buf|), n - l, i); }
    WindowAt(buf, head, n, l + i);
  }

  /** The first `l` bytes are dropped. */
  lemma WindowShrinks(buf: seq<byte>, head: nat, n: nat, l: nat)
    requires head < |buf| && l <= n <= |buf|
    ensures Window(buf, At(head, l, |buf|), n - l) == Window(buf, head, n)[l..]
  {
    var w := Window(buf, At(head, l, |buf|), n - l);
    forall i | 0 <= i < n - l ensures w[i] == Window(buf, head, n)[l + i] {
      ShrunkAt(buf, head, n, l, i);
    }
  }

  /** Bytes outside the window do not matter. */
  lemma WindowFrame(buf: seq<byte>, buf': seq<byte>, head: nat, n: nat, t: nat, l: nat)
    requires head < |buf| == |buf'| && n + l <= |buf| && t == At(head, n, |buf|) && t + l <= |buf|
    requires forall i :: 0 <= i < |buf| && !(t <= i < t + l) ==> buf'[i] == buf[i]
    ensures Window(buf', head, n) == Window(buf, head, n)
  {
    forall i | 0 <= i < n ensures Window(buf', head, n)[i] == Window(buf, head, n)[i] {
      WindowAt(buf, head, n, i);
      WindowAt(buf', head, n, i);
    }
  }

  /** The ring holds the sequence `Contents()`. */
  class CircularCharBuffer {
    const buf: array<byte>
    var head: nat
    var tail: nat
    var full: bool

    ghost predicate Valid()
      reads this
    {
      head < buf.Length && tail < buf.Length && (full ==> head == tail)
    }

    function Size(): (n: nat)
      requires Valid()
      reads this
      ensures n <= buf.Length && tail == At(head, n, buf.Length)
    {
      if full then buf.Length else if head <= tail then tail - head else buf.Length - head + tail
    }

    ghost function Contents(): (s: seq<byte>)
      requires Valid()
      reads this, buf
      ensures |s| == Size()
    {
      Window(buf[..], head, Size())
    }

    predicate IsEmpty()
      reads this
    {
      head == tail && !full
    }

    /** The free bytes that follow the tail without wrapping. */
    function Room(): nat
      requires Valid()
      reads this
    {
      if full then 0 else if tail < head then head - tail else buf.Length - tail
    }

    constructor (size: nat)
      requires size > 0
      ensures Valid() && Contents() == [] && buf.Length == size && fresh(buf) && head == 0
    {
      buf := new byte[size](i => 0);
      head, tail, full := 0, 0, false;
    }

    /** Offers the block that bytes may be written to: all of the room behind the tail. */
    method WriteBlock() returns (start: nat, len: nat)
      requires Valid()
      modifies this
      ensures Valid() && Contents() == old(Contents()) && Size() == old(Size())
      ensures start == tail && len == Room() && start + len <= buf.Length && Size() + len <= buf.Length
      ensures len == 0 <==> Size() == buf.Length
      ensures if old(IsEmpty()) then head == 0 && len == buf.Length else head == old(head)
    {
      if IsEmpty() {
        head, tail := 0, 0;
        start, len := 0, buf.Length;
      } else if full {
        start, len := tail, 0;
      } else if tail < head {
        start, len := tail, head - tail;
      } else {
        start, len := tail, buf.Length - tail;
      }
    }

    /** Copies bytes into the block that was offered; they are not in the ring yet. */
    method Fill(bytes: seq<byte>)
      requires Valid() && |bytes| <= Room()
      modifies buf
      ensures Valid() && Contents() == old(Contents()) && buf[tail..tail + |bytes|] == bytes
    {
      var i := 0;
      ghost var was := buf[..];
      while i < |bytes|
        invariant 0 <= i <= |bytes|
        invariant forall k :: 0 <= k < buf.Length ==> buf[k] == if tail <= k < tail + i then bytes[k - tail] else was[k]
      {
        buf[tail + i] := bytes[i];
        i := i + 1;
      }
      forall k | 0 <= k < |bytes| ensures buf[tail..tail + |bytes|][k] == bytes[k] {
        assert buf[tail + k] == bytes[tail + k - tail];
      }
      WindowFrame(was, buf[..], head, Size(), tail, |bytes|);
    }

    /** Takes the first `l` bytes of the block into the ring. */
    method CommitWrite(l: nat)
      requires Valid() && l <= Room()
      modifies this
      ensures Valid() && head == old(head) && Size() == old(Size()) + l
      ensures Contents() == old(Contents()) + buf[old(tail)..old(tail) + l]
    {
      WindowGrows(buf[..], head, Size(), l);
      AdvanceTail(l);
    }

    method AdvanceTail(l: nat)
      requires Valid() && l <= Room()
      modifies `tail, `full
      ensures Valid() && Size() == old(Size()) + l
    {
      if l > 0 {
        tail := tail + l;
        if tail >= buf.Length { tail := tail - buf.Length; }
        if tail == head { full := true; }
      }
    }

    /** Offers the bytes that follow the head without wrapping. */
    method ReadBlock() returns (start: nat, len: nat)
      requires Valid()
      ensures start + len <= buf.Length && len <= Size() && buf[start..start + len] == Contents()[..len]
      ensures len == 0 <==> Contents() == []
      ensures Contents() != [] ==> len == if head + Size() <= buf.Length then Size() else buf.Length - head
    {
      if IsEmpty() {
        start, len := 0, 0;
      } else if tail <= head {
        start, len := head, buf.Length - head;
      } else {
        start, len := head, tail - head;
      }
      if len > 0 { WindowSlice(buf[..], head, Size(), len); }
    }

    /** Drops the first `l` bytes. */
    method CommitRead(l: nat)
      requires Valid() && l <= Size()
      modifies this
      ensures Valid() && Contents() == old(Contents())[l..] && Size() == old(Size()) - l
      ensures head == At(old(head), l, buf.Length) && (l > 0 && old(head) + l < buf.Length ==> head == old(head) + l)
    {
      WindowShrinks(buf[..], head, Size(), l);
      if l > 0 {
        head := head + l;
        if head >= buf.Length { head := head - buf.Length; }
        full := false;
      }
    }

    method Reset()
      requires Valid()
      modifies this
      ensures Valid() && Contents() == []
    {
      head, tail, full := 0, 0, false;
    }

    /** The free bytes behind the tail, once an empty ring has been rewound. */
    function FirstBlock(): nat
      requires Valid()
      reads this
    {
      if IsEmpty() then buf.Length else Room()
    }

    /** The free bytes left once the first block is full. */
    function SecondBlock(): nat
      requires Valid()
      reads this
    {
      buf.Length - Size() - FirstBlock()
    }

    /** One round of `WriteCopy`: as much of `s` as the free block takes. */
    method CopyRound(s: seq<byte>) returns (n: nat)
      requires Valid()
      modifies this, buf
      ensures Valid() && n == (if |s| < old(FirstBlock()) then |s| else old(FirstBlock()))
      ensures Contents() == old(Contents()) + s[..n]
      ensures n == old(FirstBlock()) ==> FirstBlock() == old(SecondBlock()) || (old(SecondBlock()) == 0 && full)
      ensures full <==> Size() == buf.Length
      ensures old(IsEmpty()) ==> head == 0
    {
      var start, len := WriteBlock();
      n := if |s| < len then |s| else len;
      Fill(s[..n]);
      CommitWrite(n);
    }

    /** Copies `s` in. A second round, when the free space wraps, copies from the start of `s` again. */
    method WriteCopy(s: seq<byte>) returns (copied: nat)
      requires Valid()
      modifies this, buf
      ensures Valid() && copied == |Copied(s, old(FirstBlock()), old(SecondBlock()))|
      ensures Contents() == old(Contents()) + Copied(s, old(FirstBlock()), old(SecondBlock()))
      ensures old(IsEmpty()) && s != [] ==> head == 0
    {
      ghost var b1, b2, was := FirstBlock(), SecondBlock(), Contents();
      ghost var rounds := 0;
      copied := 0;
      while copied < |s| && !full
        invariant 0 <= rounds <= 2 && Valid()
        invariant copied == |Sofar(s, b1, b2, rounds)| && Contents() == was + Sofar(s, b1, b2, rounds)
        invariant full <==> Size() == buf.Length
        invariant rounds == 0 ==> FirstBlock() == b1 && SecondBlock() == b2 && IsEmpty() == old(IsEmpty())
        invariant rounds == 1 && |s| > b1 ==> if b2 == 0 then full else FirstBlock() == b2
        invariant rounds == 2 ==> |s| > b1 && (copied >= |s| || full)
        invariant rounds > 0 && old(IsEmpty()) ==> head == 0
        decreases 2 - rounds
      {
        // A ring that is not full always has a free block.
        var n := CopyRound(s);
        NextRound(was, s, b1, b2, rounds);
        copied := copied + n;
        rounds := rounds + 1;
      }
      LastRound(s, b1, b2, rounds);
    }
  }

  /** What the first `rounds` rounds of `WriteCopy` append. */
  function Sofar(s: seq<byte>, b1: nat, b2: nat, rounds: nat): seq<byte> {
    if rounds == 0 then [] else if rounds == 1 then Copied(s, b1, 0) else Copied(s, b1, b2)
  }

  lemma NextRound(was: seq<byte>, s: seq<byte>, b1: nat, b2: nat, rounds: nat)
    requires rounds == 0 || (rounds == 1 && |s| > b1)
    ensures var room := if rounds == 0 then b1 else b2;
            var n := if |s| < room then |s| else room;
            && was + Sofar(s, b1, b2, rounds + 1) == was + Sofar(s, b1, b2, rounds) + s[..n]
            && |Sofar(s, b1, b2, rounds + 1)| == |Sofar(s, b1, b2, rounds)| + n
  {
    Rounds(s, b1, b2);
  }

  lemma LastRound(s: seq<byte>, b1: nat, b2: nat, rounds: nat)
    requires rounds == 0 ==> s == [] || (b1 == 0 && b2 == 0)
    requires rounds == 1 ==> |s| <= b1 || b2 == 0
    ensures Sofar(s, b1, b2, rounds) == Copied(s, b1, b2)
  {
    Rounds(s, b1, b2);
  }

  lemma Rounds(s: seq<byte>, b1: nat, b2: nat)
    ensures Copied(s, b1, 0) == s[..if |s| < b1 then |s| else b1]
    ensures |s| > b1 ==> Copied(s, b1, b2) == Copied(s, b1, 0) + s[..if |s| < b2 then |s| else b2]
    ensures |s| <= b1 || b2 == 0 ==> Copied(s, b1, b2) == Copied(s, b1, 0)
    ensures b1 == 0 && b2 == 0 ==> Copied(s, b1, b2) == []
  {}

  /** What `WriteCopy` appends, with `b1` free bytes behind the tail and `b2` more at the start of the ring. */
  function Copied(s: seq<byte>, b1: nat, b2: nat): seq<byte> {
    if |s| <= b1 then s else s[..b1] + (if |s| < b2 then s else s[..b2])
  }

  /** Byte for byte: behind the first block the copy begins with the first byte of the data again. */
  lemma CopiedAt(s: seq<byte>, b1: nat, b2: nat, i: nat)
    ensures var all := Copied(s, b1, b2);
            && |all| == (if |s| <= b1 then |s| else if |s| < b2 then b1 + |s| else b1 + b2)
            && (i < |all| ==> all[i] == if i < b1 then s[i] else s[i - b1])
  {}

  /** `WriteCopy` took a prefix of `s`. */
  ghost predicate TakesPrefix(s: seq<byte>, b1: nat, b2: nat) {
    Copied(s, b1, b2) <= s
  }

  /**
    `WriteCopy` is right for all data of length `l` exactly if the data fits the block behind the tail, or
    nothing is free at the start of the ring. Otherwise there is data it garbles.
   */
  lemma WriteCopyRight(b1: nat, b2: nat, l: nat)
    requires b1 > 0
    ensures (forall s: seq<byte> :: |s| == l ==> TakesPrefix(s, b1, b2)) <==> (l <= b1 || b2 == 0)
  {
    if l > b1 && b2 > 0 {
      var s: seq<byte> := [1] + seq<byte>(l - 1, i => 0);
      assert Copied(s, b1, b2)[b1] == 1 && |Copied(s, b1, b2)| > b1;
      assert s[b1] == 0;
      assert !TakesPrefix(s, b1, b2);
    } else {
      forall s: seq<byte> | |s| == l ensures TakesPrefix(s, b1, b2) {
        if l > b1 { assert s == s[..b1] + s[b1..]; }
      }
    }
  }
}
