/**
 The byte-limited response body.  The underlying reader is any io.Reader over a fixed
 body: it may read short, return nothing without an error, report the end together
 with the last bytes or later, or fail.
 */
module LimitedBody {
  import opened Options

  type Bytes = seq<bv8>

  datatype Error = EndOfFile | TooLarge | Broken

  /** How the underlying reader answers one call: at most `wish` bytes, and its error if any. */
  datatype Reply = Reply(wish: nat, atEnd: bool, broken: bool)

  function Least(a: nat, b: nat): nat {
    if a < b then a else b
  }

  function Taken(data: Bytes, pos: nat, room: nat, reply: Reply): nat
    requires pos <= |data|
  {
    Least(reply.wish, Least(room, |data| - pos))
  }

  /** The end may be reported once everything has been handed out. */
  function ReplyError(data: Bytes, pos: nat, n: nat, reply: Reply): Option<Error>
    requires pos + n <= |data|
  {
    if reply.broken then Some(Broken)
    else if reply.atEnd && pos + n == |data| then Some(EndOfFile) else None
  }

  class Source {
    const data: Bytes
    var pos: nat

    constructor (data: Bytes)
      ensures this.data == data && pos == 0
    {
      this.data, pos := data, 0;
    }

    method Read(p: array<bv8>, room: nat, reply: Reply) returns (n: nat, error: Option<Error>)
      requires pos <= |data| && room <= p.Length
      modifies this, p
      ensures n == Taken(data, old(pos), room, reply) && pos == old(pos) + n <= |data|
      ensures error == ReplyError(data, old(pos), n, reply)
      ensures forall k :: 0 <= k < n ==> p[k] == data[old(pos) + k]
      ensures forall k :: n <= k < p.Length ==> p[k] == old(p[k])
    {
      n := Taken(data, pos, room, reply);
      error := ReplyError(data, pos, n, reply);
      for i := 0 to n
        invariant pos == old(pos)
        invariant forall k :: 0 <= k < i ==> p[k] == data[pos + k]
        invariant forall k :: i <= k < p.Length ==> p[k] == old(p[k])
      {
        p[i] := data[pos + i];
      }
      pos := pos + n;
    }
  }

  /** Position in the body, what the limit still allows, and what the caller has received. */
  datatype State = State(pos: nat, remaining: nat, delivered: Bytes)

  datatype Outcome = Outcome(state: State, error: Option<Error>)

  /** One Read with a buffer of `size` bytes. */
  function ReadOnce(data: Bytes, s: State, size: nat, reply: Reply): Outcome
    requires s.pos <= |data|
  {
    if size == 0 then Outcome(s, None)
    else if s.remaining == 0 then
      var n := Taken(data, s.pos, 1, reply);
      Outcome(s.(pos := s.pos + n), if n > 0 then Some(TooLarge) else ReplyError(data, s.pos, 0, reply))
    else
      var n := Taken(data, s.pos, Least(size, s.remaining), reply);
      Outcome(State(s.pos + n, s.remaining - n, s.delivered + data[s.pos..s.pos + n]), ReplyError(data, s.pos, n, reply))
  }

  class LimitedResponseBody {
    const source: Source
    var remaining: nat
    ghost var delivered: Bytes

    ghost predicate Valid()
      reads this, source
    {
      source.pos <= |source.data|
    }

    ghost function View(): State
      reads this, source
    {
      State(source.pos, remaining, delivered)
    }

    constructor (source: Source, limit: nat)
      ensures this.source == source && remaining == limit && delivered == []
    {
      this.source, remaining, delivered := source, limit, [];
    }

    /** The caller's buffer gets the bytes that the state counts as delivered, and keeps the rest. */
    method Read(p: array<bv8>, reply: Reply) returns (n: nat, error: Option<Error>)
      requires Valid()
      modifies this, source, p
      ensures Valid() && n <= p.Length
      ensures Outcome(View(), error) == ReadOnce(source.data, old(View()), p.Length, reply)
      ensures delivered == old(delivered) + p[..n] && p[n..] == old(p[..])[n..]
    {
      if p.Length == 0 {
        return 0, None;
      }
      if remaining == 0 {
        var probe := new bv8[1];
        var m;
        m, error := source.Read(probe, 1, reply);
        if m > 0 {
          return 0, Some(TooLarge);
        }
        return 0, error;
      }
      var room := p.Length;
      if room > remaining {
        room := remaining;
      }
      n, error := source.Read(p, room, reply);
      assert p[..n] == source.data[old(source.pos)..old(source.pos) + n];
      remaining := remaining - n;
      delivered := delivered + p[..n];
    }
  }

  // ------------------------------------------------------------ reading to the end

  datatype Call = Call(size: nat, reply: Reply)

  /** Reads until the first error, at the latest after the given calls. */
  function ReadAll(data: Bytes, s: State, calls: seq<Call>): Outcome
    requires s.pos <= |data|
    decreases |calls|
  {
    if calls == [] then Outcome(s, None)
    else
      var first := ReadOnce(data, s, calls[0].size, calls[0].reply);
      if first.error.Some? then first else ReadAll(data, first.state, calls[1..])
  }

  ghost predicate Inv(data: Bytes, limit: nat, s: State) {
    s.pos <= |data| && s.delivered == data[..s.pos] && s.pos + s.remaining == limit
  }

  /**
   Whatever the reader and the buffers, reading to the first error delivers a prefix of
   at most `limit` bytes: the whole body when it ends with end-of-file, exactly `limit`
   bytes of a longer body when it ends with the too-large error.
   */
  lemma {:induction false} ReadsPrefix(data: Bytes, limit: nat, s: State, calls: seq<Call>)
    requires Inv(data, limit, s)
    ensures var r := ReadAll(data, s, calls);
            && r.state.delivered <= data && |r.state.delivered| <= limit
            && (r.error == Some(EndOfFile) ==> r.state.delivered == data)
            && (r.error == Some(TooLarge) ==> |r.state.delivered| == limit < |data|)
    decreases |calls|
  {
    if calls != [] {
      var first := ReadOnce(data, s, calls[0].size, calls[0].reply);
      assert first.error != Some(TooLarge) ==>
          first.state.delivered == data[..first.state.pos] && first.state.pos + first.state.remaining == limit;
      assert data[..|data|] == data;
      if first.error.None? {
        ReadsPrefix(data, limit, first.state, calls[1..]);
      }
    }
  }

  lemma {:induction false} NotBroken(data: Bytes, s: State, calls: seq<Call>)
    requires s.pos <= |data| && forall i :: 0 <= i < |calls| ==> !calls[i].reply.broken
    ensures ReadAll(data, s, calls).error != Some(Broken)
    decreases |calls|
  {
    if calls != [] {
      var first := ReadOnce(data, s, calls[0].size, calls[0].reply);
      assert first.error != Some(Broken);
      if first.error.None? {
        NotBroken(data, first.state, calls[1..]);
      }
    }
  }

  lemma EndTells(data: Bytes, limit: nat, r: Outcome)
    requires r.error == Some(EndOfFile) || r.error == Some(TooLarge)
    requires r.state.delivered <= data && |r.state.delivered| <= limit
    requires r.error == Some(EndOfFile) ==> r.state.delivered == data
    requires r.error == Some(TooLarge) ==> |r.state.delivered| == limit < |data|
    ensures r.error == Some(EndOfFile) <==> |data| <= limit
    ensures r.state.delivered == data[..Least(limit, |data|)]
  {
  }

  /** With a reader that does not fail, the error a full read ends with tells whether the body fits. */
  lemma FitsExactlyAtEndOfFile(data: Bytes, limit: nat, calls: seq<Call>, s: State)
    requires s == State(0, limit, [])
    requires forall i :: 0 <= i < |calls| ==> !calls[i].reply.broken
    requires ReadAll(data, s, calls).error.Some?
    ensures var r := ReadAll(data, s, calls);
            && (r.error == Some(EndOfFile) <==> |data| <= limit)
            && (r.error == Some(TooLarge) <==> |data| > limit)
            && r.state.delivered == data[..Least(limit, |data|)]
  {
    var r := ReadAll(data, s, calls);
    ReadsPrefix(data, limit, s, calls);
    NotBroken(data, s, calls);
    match r.error.value
    case EndOfFile => EndTells(data, limit, r);
    case TooLarge => EndTells(data, limit, r);
    case Broken =>
  }

  /** A reader that makes progress: it hands out at least a byte if asked and any is left, and reports the end. */
  predicate Progresses(call: Call) {
    call.size > 0 && call.reply.wish > 0 && call.reply.atEnd && !call.reply.broken
  }

  lemma {:induction false} ProgressEnds(data: Bytes, s: State, calls: seq<Call>)
    requires s.pos <= |data| && |calls| > |data| - s.pos && forall i :: 0 <= i < |calls| ==> Progresses(calls[i])
    ensures ReadAll(data, s, calls).error.Some?
    decreases |calls|
  {
    var first := ReadOnce(data, s, calls[0].size, calls[0].reply);
    assert Progresses(calls[0]);
    if first.error.None? {
      ProgressEnds(data, first.state, calls[1..]);
    }
  }

  /** With such a reader, reading ends after at most one call more than there are bytes: with the whole body, or too large. */
  lemma ReadingEnds(data: Bytes, limit: nat, calls: seq<Call>)
    requires |calls| > |data| && forall i :: 0 <= i < |calls| ==> Progresses(calls[i])
    ensures var r := ReadAll(data, State(0, limit, []), calls);
            && r.error == Some(if |data| <= limit then EndOfFile else TooLarge)
            && r.state.delivered == data[..Least(limit, |data|)]
  {
    var s := State(0, limit, []);
    ProgressEnds(data, s, calls);
    forall i | 0 <= i < |calls| ensures !calls[i].reply.broken {
      assert Progresses(calls[i]);
    }
    FitsExactlyAtEndOfFile(data, limit, calls, s);
    NotBroken(data, s, calls);
  }

  /**
   A failure of the reader is passed on, unless the byte that proves the body too large
   has come with it; an empty buffer reads nothing.
   */
  lemma FailurePassesThrough(data: Bytes, s: State, size: nat, reply: Reply)
    requires s.pos <= |data|
    ensures size == 0 ==> ReadOnce(data, s, size, reply) == Outcome(s, None)
    ensures size > 0 && reply.broken ==>
              var r := ReadOnce(data, s, size, reply);
              r.error == Some(Broken) || (r.error == Some(TooLarge) && s.remaining == 0 && r.state.pos > s.pos)
  {
  }
}
