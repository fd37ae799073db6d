/** The stateful readers: each call takes bytes off the stream. */
module RespReader {
  import opened Patterns
  import opened DecimalText
  import opened RespCodec

  /**
   A connection's incoming bytes, and how many of them each coming read finds arrived; one
   read may return fewer bytes than asked for.
   */
  class Stream {
    var unread: Bytes
    var arrivals: seq<nat>

    constructor (unread: Bytes, arrivals: seq<nat>)
      ensures this.unread == unread && this.arrivals == arrivals
    {
      this.unread, this.arrivals := unread, arrivals;
    }

    /** Between one and `wanted` bytes, as many as have arrived; none at the end. */
    method Read(wanted: nat) returns (chunk: Bytes)
      requires wanted > 0
      modifies this
      ensures old(unread) == chunk + unread
      ensures |chunk| <= wanted && (old(unread) != [] ==> chunk != [])
    {
      var n := if arrivals == [] || arrivals[0] == 0 then 1 else arrivals[0];
      var m := if n < wanted then n else wanted;
      var k := if m < |unread| then m else |unread|;
      chunk := unread[..k];
      unread := unread[k..];
      arrivals := if arrivals == [] then [] else arrivals[1..];
    }

    /** Reads chunk by chunk until the size is reached: the chunking does not matter. */
    method Exact(size: nat) returns (r: Option<Bytes>)
      modifies this
      ensures match ReadExact(old(unread), size)
              case Got(value, rest) => r == Some(value) && unread == rest
              case _ => r == None
    {
      ghost var start := unread;
      var chunks: Bytes := [];
      while |chunks| < size
        invariant |chunks| <= size
        invariant start == chunks + unread
        decreases size - |chunks|
      {
        var chunk := Read(size - |chunks|);
        if chunk == [] {
          return None;
        }
        chunks := chunks + chunk;
      }
      assert start[..size] == chunks && start[size..] == unread;
      return Some(chunks);
    }

    /** Takes bytes up to a line feed, or to one more than a line may have. */
    method UpToLf() returns (line: Bytes)
      modifies this
      ensures old(unread) == line + unread && |line| <= MAX_LINE + 1
      ensures forall i :: 0 <= i < |line| - 1 ==> line[i] != LF
      ensures (line != [] && line[|line| - 1] == LF) || unread == [] || |line| == MAX_LINE + 1
    {
      ghost var start := unread;
      line := [];
      while unread != [] && |line| <= MAX_LINE && (line == [] || line[|line| - 1] != LF)
        invariant start == line + unread && |line| <= MAX_LINE + 1
        invariant forall i :: 0 <= i < |line| - 1 ==> line[i] != LF
        decreases |unread|
      {
        line, unread := line + [unread[0]], unread[1..];
      }
    }

    /** One line ended by CR LF. */
    method Line() returns (r: Option<Bytes>)
      modifies this
      ensures match ReadLine(old(unread))
              case Got(value, rest) => r == Some(value) && unread == rest
              case _ => r == None
    {
      ghost var start := unread;
      var line := UpToLf();
      var n := |line|;
      TakenLine(start, line, unread);
      if n < 2 || n > MAX_LINE || line[n - 2] != CR || line[n - 1] != LF {
        return None;
      }
      return Some(line[..n - 2]);
    }

    method Int() returns (r: Option<int>)
      modifies this
      ensures match ReadInt(old(unread))
              case Got(value, rest) => r == Some(value) && unread == rest
              case _ => r == None
    {
      var line := Line();
      if line.None? {
        return None;
      }
      return ParseInt(line.value);
    }

    /** One response off the stream. */
    method Response(limits: Limits, depth: nat) returns (r: Parsed<Resp>)
      modifies this
      ensures r == Parse(limits, depth, old(unread))
      ensures r.Got? ==> unread == r.rest
      decreases |unread|, 0
    {
      if TooDeep(limits, depth) || unread == [] {
        return Broken;
      }
      var prefix := unread[0];
      unread := unread[1..];
      match prefix
      case 43 =>
        var line := Line();
        return if line.Some? then Got(Simple(line.value), unread) else Broken;
      case 45 =>
        var line := Line();
        return if line.Some? then ErrorReply else Broken;
      case 58 =>
        var n := Int();
        return if n.Some? then Got(Integer(n.value), unread) else Broken;
      case 36 =>
        var n := Int();
        if n.None? {
          return Broken;
        }
        r := BulkResponse(limits, n.value);
      case 42 =>
        r := ArrayResponse(limits, depth);
      case _ =>
        return Broken;
    }

    /** A bulk string after its length line: its bytes, and the CR LF behind them. */
    method BulkResponse(limits: Limits, n: int) returns (r: Parsed<Resp>)
      modifies this
      ensures r == BulkBody(limits, n, old(unread))
      ensures r.Got? ==> unread == r.rest
    {
      ghost var start := unread;
      if n == -1 {
        return Got(Null, unread);
      }
      if n < 0 || n > limits.bulk {
        return Broken;
      }
      var bytes := Exact(n);
      if bytes.None? {
        return Broken;
      }
      var terminator := Exact(2);
      if terminator.None? || terminator.value != CRLF {
        assert n + 2 <= |start| ==> start[n..][..2] == [start[n], start[n + 1]];
        return Broken;
      }
      assert start[n..][..2] == [start[n], start[n + 1]];
      assert start[n..][2..] == start[n + 2..];
      return Got(Bulk(bytes.value), unread);
    }

    /** An array after its prefix. */
    method ArrayResponse(limits: Limits, depth: nat) returns (r: Parsed<Resp>)
      modifies this
      ensures r == ParseArray(limits, depth, old(unread))
      ensures r.Got? ==> unread == r.rest
      decreases |unread|, 2
    {
      var count := Int();
      if count.None? {
        return Broken;
      }
      var n := count.value;
      if n == -1 && limits.nullArray {
        return Got(Null, unread);
      }
      if n < 0 || n > limits.items {
        return Broken;
      }
      var items := Items(limits, depth + 1, n);
      match items
      case Got(value, rest) => return Got(Array(value), rest);
      case ErrorReply => return ErrorReply;
      case Broken => return Broken;
    }

    /** The elements of an array, one response after another. */
    method Items(limits: Limits, depth: nat, n: nat) returns (r: Parsed<seq<Resp>>)
      modifies this
      ensures r == ParseItems(limits, depth, [], n, old(unread))
      ensures r.Got? ==> unread == r.rest
      decreases |unread|, 1
    {
      ghost var start := unread;
      var items: seq<Resp> := [];
      var left := n;
      while left > 0
        invariant |unread| <= |start|
        invariant ParseItems(limits, depth, [], n, start) == ParseItems(limits, depth, items, left, unread)
      {
        var item := Response(limits, depth);
        if item.ErrorReply? {
          return ErrorReply;
        }
        if item.Broken? {
          return Broken;
        }
        items, left := items + [item.value], left - 1;
      }
      return Got(items, unread);
    }
  }

  /** What was taken up to a line feed is the line, exactly when the input starts with one. */
  lemma TakenLine(start: Bytes, line: Bytes, unread: Bytes)
    requires start == line + unread && |line| <= MAX_LINE + 1
    requires forall i :: 0 <= i < |line| - 1 ==> line[i] != LF
    requires (line != [] && line[|line| - 1] == LF) || unread == [] || |line| == MAX_LINE + 1
    ensures var n := |line|;
            ReadLine(start) ==
            if n < 2 || n > MAX_LINE || line[n - 2] != CR || line[n - 1] != LF then Broken
            else Got(line[..n - 2], unread)
  {
    var n := |line|;
    if n > 0 && line[n - 1] == LF {
      FirstLfIs(start, n - 1);
      assert start[n..] == unread;
      if n >= 2 {
        assert start[..n - 2] == line[..n - 2];
      }
    }
  }
}
