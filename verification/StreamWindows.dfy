/** Bounded writers that keep the end or the beginning of a stream. */
module StreamWindows {

  type Bytes = seq<bv8>

  function Joined(chunks: seq<Bytes>): Bytes
  {
    if chunks == [] then [] else Joined(chunks[..|chunks| - 1]) + chunks[|chunks| - 1]
  }

  function Last(s: Bytes, max: nat): Bytes
  {
    if |s| > max then s[|s| - max..] else s
  }

  /** The buffers after one write. */
  function TailWrite(buf: Bytes, p: Bytes, max: nat): Bytes
  {
    Last(buf + p, max)
  }

  function CappedWrite(buf: Bytes, p: Bytes, cap: nat): Bytes
  {
    if cap <= |buf| then buf
    else if |p| > cap - |buf| then buf + p[..cap - |buf|]
    else buf + p
  }

  function TailAfter(chunks: seq<Bytes>, max: nat): Bytes
  {
    if chunks == [] then [] else TailWrite(TailAfter(chunks[..|chunks| - 1], max), chunks[|chunks| - 1], max)
  }

  function CappedAfter(chunks: seq<Bytes>, cap: nat): Bytes
  {
    if chunks == [] then [] else CappedWrite(CappedAfter(chunks[..|chunks| - 1], cap), chunks[|chunks| - 1], cap)
  }

  /** However the stream is cut into writes, the tail buffer holds its last bytes. */
  lemma {:induction false} TailIsChunkingFree(chunks: seq<Bytes>, max: nat)
    ensures var s := Joined(chunks);
            TailAfter(chunks, max) == if |s| > max then s[|s| - max..] else s
  {
    if chunks != [] {
      var init, p := chunks[..|chunks| - 1], chunks[|chunks| - 1];
      TailIsChunkingFree(init, max);
      var s := Joined(init);
      if |s| > max {
        assert s + p == s[..|s| - max] + (s[|s| - max..] + p);
        assert Last(Last(s, max) + p, max) == Last(s + p, max);
      }
    }
  }

  /** And the capped buffer holds its first bytes. */
  lemma {:induction false} CapIsChunkingFree(chunks: seq<Bytes>, cap: nat)
    ensures var s := Joined(chunks);
            CappedAfter(chunks, cap) == if |s| > cap then s[..cap] else s
  {
    if chunks != [] {
      CapIsChunkingFree(chunks[..|chunks| - 1], cap);
    }
  }

  class TailBuffer {
    var buf: Bytes
    const max: nat

    constructor (max: nat)
      ensures this.max == max && buf == TailAfter([], max)
    {
      this.max, buf := max, [];
    }

    method Write(p: Bytes) returns (n: nat)
      modifies this
      ensures n == |p| && buf == TailWrite(old(buf), p, max)
    {
      buf := buf + p;
      if |buf| > max {
        buf := buf[|buf| - max..];
      }
      return |p|;
    }
  }

  class CappedBuffer {
    var buf: Bytes
    const cap: nat

    constructor (cap: nat)
      ensures this.cap == cap && buf == CappedAfter([], cap)
    {
      this.cap, buf := cap, [];
    }

    method Write(p: Bytes) returns (n: nat)
      modifies this
      ensures n == |p| && buf == CappedWrite(old(buf), p, cap)
    {
      if cap > |buf| {
        var remaining := cap - |buf|;
        if |p| > remaining {
          buf := buf + p[..remaining];
        } else {
          buf := buf + p;
        }
      }
      return |p|;
    }
  }
}
