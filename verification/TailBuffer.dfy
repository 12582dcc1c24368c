/** The buffer that keeps the end of a helper's standard error (internal/dockerx/helper.go). */
module TailBuffers {
  import opened Common

  /** The last max bytes of s, or all of it. */
  function Tail(max: nat, s: Bytes): (t: Bytes)
    ensures |t| == if |s| <= max then |s| else max
    ensures s[|s| - |t|..] == t
  {
    if |s| <= max then s else s[|s| - max..]
  }

  class TailBuffer {
    var buf: Bytes
    const max: nat

    constructor (max: nat)
      ensures this.max == max && buf == []
    {
      this.max := max;
      buf := [];
    }

    method Write(p: Bytes) returns (n: nat)
      modifies this`buf
      ensures n == |p|
      ensures buf == Tail(max, old(buf) + p)
    {
      buf := buf + p;
      if |buf| > max {
        buf := buf[|buf| - max..];
      }
      return |p|;
    }
  }

  /** The buffer after a sequence of calls to Write. */
  function AfterWrites(max: nat, buf: Bytes, chunks: seq<Bytes>): Bytes
    decreases |chunks|
  {
    if chunks == [] then buf else AfterWrites(max, Tail(max, buf + chunks[0]), chunks[1..])
  }

  /** However the output was cut into writes, the buffer holds exactly the last max bytes of all of it. */
  lemma {:induction false} WritesKeepTheTail(max: nat, buf: Bytes, chunks: seq<Bytes>)
    requires |buf| <= max
    ensures AfterWrites(max, buf, chunks) == Tail(max, buf + Concat(chunks))
    decreases |chunks|
  {
    if chunks == [] {
      assert buf + [] == buf;
    } else {
      hide Tail;
      TailAtMost(max, buf + chunks[0]);
      WritesKeepTheTail(max, Tail(max, buf + chunks[0]), chunks[1..]);
      TailTwice(max, buf, chunks[0], Concat(chunks[1..]));
    }
  }

  lemma TailTwice(max: nat, buf: Bytes, first: Bytes, rest: Bytes)
    ensures Tail(max, Tail(max, buf + first) + rest) == Tail(max, buf + (first + rest))
  {
    TailOfTail(max, buf + first, rest);
    assert buf + first + rest == buf + (first + rest);
  }

  lemma TailAtMost(max: nat, s: Bytes)
    ensures |Tail(max, s)| <= max
  {
  }

  /** Trimming early loses nothing that a later trim would have kept. */
  lemma TailOfTail(max: nat, s: Bytes, p: Bytes)
    ensures Tail(max, Tail(max, s) + p) == Tail(max, s + p)
  {
    var t := Tail(max, s);
    assert s == s[..|s| - |t|] + t;
    assert s + p == s[..|s| - |t|] + (t + p);
  }
}
