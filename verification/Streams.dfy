/** Reading a stream exactly, whatever pieces recv hands out. */
module Streams {
  datatype Read<T> = Got(data: seq<T>) | Closed | TooLong | TimedOut

  /**
   One end of a connection: pending is everything the other side will have sent before closing, minus
   what has been read; written is everything sent. A time-out can strike at any call.
   */
  class Stream<T(==)> {
    var pending: seq<T>
    var written: seq<T>

    constructor (pending: seq<T>)
      ensures this.pending == pending && written == []
    {
      this.pending, written := pending, [];
    }

    /** recv: some nonempty piece of at most size elements, and the empty one only at the end. */
    method Recv(size: nat) returns (r: Read<T>)
      requires size > 0
      modifies this`pending
      ensures r.Got? || r.TimedOut?
      ensures r.TimedOut? ==> pending == old(pending)
      ensures r.Got? ==> r.data + pending == old(pending) && |r.data| <= size && (r.data == [] ==> old(pending) == [])
    {
      if * {
        return TimedOut;
      }
      if pending == [] {
        return Got([]);
      }
      var n :| 1 <= n <= size && n <= |pending|;
      r := Got(pending[..n]);
      pending := pending[n..];
    }

    /** sendall: everything, or a fault after some prefix. */
    method Send(payload: seq<T>) returns (ok: bool)
      modifies this`written
      ensures ok ==> written == old(written) + payload
      ensures old(written) <= written <= old(written) + payload
    {
      var n: nat :| n <= |payload|;
      written := written + payload[..n];
      ok := n == |payload|;
    }
  }

  /** What reading exactly size elements yields, time-outs apart. */
  function Exactly<T>(s: seq<T>, size: nat): Read<T> {
    if |s| >= size then Got(s[..size]) else Closed
  }

  /** The same bytes in the same number, for every fragmentation: only a time-out can differ. */
  method ReceiveExact<T>(stream: Stream<T>, size: nat) returns (r: Read<T>)
    modifies stream`pending
    ensures r.TimedOut? || r == Exactly(old(stream.pending), size)
    ensures r.Got? ==> stream.pending == old(stream.pending)[size..]
    ensures r.Closed? ==> stream.pending == []
    ensures r.TimedOut? ==> |stream.pending| <= |old(stream.pending)|
                            && stream.pending == old(stream.pending)[|old(stream.pending)| - |stream.pending|..]
  {
    var data: seq<T> := [];
    while |data| < size
      invariant |data| <= size
      invariant data + stream.pending == old(stream.pending)
      decreases size - |data|
    {
      var chunk := stream.Recv(size - |data|);
      if chunk.TimedOut? {
        return TimedOut;
      }
      if chunk.data == [] {
        return Closed;
      }
      data := data + chunk.data;
    }
    return Got(data);
  }

  predicate EndsWith<T(==)>(s: seq<T>, marker: seq<T>) {
    |s| >= |marker| && s[|s| - |marker|..] == marker
  }

  /** Reading up to a marker: the shortest prefix ending in it, unless the limit or the end comes first. */
  function Until<T(==)>(s: seq<T>, marker: seq<T>, limit: nat): (r: Read<T>)
    ensures r.Got? ==> |r.data| <= limit && r.data <= s && EndsWith(r.data, marker)
                       && forall k | 0 <= k < |r.data| :: !EndsWith(s[..k], marker)
    ensures r.TooLong? ==> limit <= |s| && forall k | 0 <= k <= limit :: !EndsWith(s[..k], marker)
    ensures r.Closed? ==> |s| < limit && forall k | 0 <= k <= |s| :: !EndsWith(s[..k], marker)
    ensures !r.TimedOut?
  {
    UntilFrom(s, marker, limit, 0)
  }

  function UntilFrom<T(==)>(s: seq<T>, marker: seq<T>, limit: nat, n: nat): (r: Read<T>)
    requires n <= |s| && n <= limit
    requires forall k | 0 <= k < n :: !EndsWith(s[..k], marker)
    ensures r.Got? ==> |r.data| <= limit && r.data <= s && EndsWith(r.data, marker)
                       && forall k | 0 <= k < |r.data| :: !EndsWith(s[..k], marker)
    ensures r.TooLong? ==> limit <= |s| && forall k | 0 <= k <= limit :: !EndsWith(s[..k], marker)
    ensures r.Closed? ==> |s| < limit && forall k | 0 <= k <= |s| :: !EndsWith(s[..k], marker)
    ensures !r.TimedOut?
    decreases |s| - n
  {
    if EndsWith(s[..n], marker) then Got(s[..n])
    else if n >= limit then TooLong
    else if n >= |s| then Closed
    else UntilFrom(s, marker, limit, n + 1)
  }

  /** How many elements a finished read has taken from the stream. */
  function Taken<T>(r: Read<T>, s: seq<T>, limit: nat): nat {
    match r
    case Got(data) => |data|
    case TooLong => limit
    case _ => |s|
  }

  /** The three kinds of outcome exclude one another, so the prefix read is the only one possible. */
  lemma UntilIsTheOnlyPrefix<T>(s: seq<T>, marker: seq<T>, limit: nat, n: nat)
    requires n <= |s| && n <= limit && EndsWith(s[..n], marker)
    requires forall k | 0 <= k < n :: !EndsWith(s[..k], marker)
    ensures Until(s, marker, limit) == Got(s[..n])
  {
    var r := Until(s, marker, limit);
    if r.Got? {
      assert r.data == s[..|r.data|];
      assert |r.data| == n;
    }
  }

  /** One more element is read exactly when the prefix so far neither ends in the marker nor has hit the limit or the end. */
  lemma UntilStep<T>(s: seq<T>, marker: seq<T>, limit: nat, n: nat)
    requires n <= |s| && n <= limit && forall k | 0 <= k < n :: !EndsWith(s[..k], marker)
    ensures EndsWith(s[..n], marker) ==> UntilFrom(s, marker, limit, n) == Got(s[..n])
    ensures !EndsWith(s[..n], marker) && n == limit ==> UntilFrom(s, marker, limit, n) == TooLong
    ensures !EndsWith(s[..n], marker) && n < limit && n == |s| ==> UntilFrom(s, marker, limit, n) == Closed
    ensures !EndsWith(s[..n], marker) && n < limit && n < |s| ==>
              && (forall k | 0 <= k < n + 1 :: !EndsWith(s[..k], marker))
              && UntilFrom(s, marker, limit, n) == UntilFrom(s, marker, limit, n + 1)
  {
    hide EndsWith;
  }

  method ReceiveUntil<T>(stream: Stream<T>, marker: seq<T>, limit: nat) returns (r: Read<T>)
    modifies stream`pending
    ensures r.TimedOut? || r == Until(old(stream.pending), marker, limit)
    ensures !r.TimedOut? ==> Taken(r, old(stream.pending), limit) <= |old(stream.pending)|
                             && stream.pending == old(stream.pending)[Taken(r, old(stream.pending), limit)..]
    ensures r.TimedOut? ==> |stream.pending| <= |old(stream.pending)|
                            && stream.pending == old(stream.pending)[|old(stream.pending)| - |stream.pending|..]
  {
    hide EndsWith, UntilFrom;
    var data: seq<T> := [];
    ghost var s := stream.pending;
    ghost var n := 0;
    while !EndsWith(data, marker)
      invariant n == |data| <= |s| && n <= limit
      invariant data == s[..n] && stream.pending == s[n..]
      invariant forall k | 0 <= k < n :: !EndsWith(s[..k], marker)
      invariant Until(s, marker, limit) == UntilFrom(s, marker, limit, n)
      decreases limit - |data|
    {
      UntilStep(s, marker, limit, n);
      if |data| >= limit {
        return TooLong;
      }
      var one := ReceiveExact(stream, 1);
      if one.TimedOut? {
        return TimedOut;
      }
      if one.Closed? {
        return Closed;
      }
      assert s[..n + 1] == s[..n] + s[n..][..1] && s[n..][1..] == s[n + 1..];
      data := data + one.data;
      n := n + 1;
    }
    UntilStep(s, marker, limit, n);
    return Got(data);
  }
}
