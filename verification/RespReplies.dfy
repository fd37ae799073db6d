/**
 What either client makes of any reply a server can frame: values, null values, error replies
 and arrays of all of these, within and beyond the client's limits.
 */
module RespReplies {
  import opened Patterns
  import opened DecimalText
  import opened RespCodec

  /** A reply as the server means it. */
  datatype Reply =
    | Status(text: Bytes)
    | Failure(text: Bytes)
    | Int(n: int)
    | Payload(bytes: Bytes)
    | NullBulk
    | NullArray
    | List(items: Replies)

  datatype Replies = Nil | Cons(head: Reply, tail: Replies)

  function Length(rs: Replies): nat {
    match rs
    case Nil => 0
    case Cons(_, tail) => 1 + Length(tail)
  }

  // ---- the bytes of a reply ------------------------------------------------------------

  function Signed(n: int): Bytes {
    if n < 0 then [45] + Decimal(-n) else Decimal(n)
  }

  /** The wire form of a reply. */
  function Framed(r: Reply): Bytes {
    match r
    case Status(text) => [43] + text + CRLF
    case Failure(text) => [45] + text + CRLF
    case Int(n) => [58] + Signed(n) + CRLF
    case Payload(bytes) => EncodeBulk(bytes)
    case NullBulk => [36] + Signed(-1) + CRLF
    case NullArray => [42] + Signed(-1) + CRLF
    case List(items) => [42] + Decimal(Length(items)) + CRLF + FramedAll(items)
  }

  function FramedAll(rs: Replies): Bytes {
    match rs
    case Nil => []
    case Cons(head, tail) => Framed(head) + FramedAll(tail)
  }

  /** No line holds a line feed, and no number has more than twenty digits. */
  predicate Frameable(r: Reply) {
    match r
    case Status(text) => LF !in text
    case Failure(text) => LF !in text
    case Int(n) => n < SIZE_BOUND && n + SIZE_BOUND > 0
    case Payload(bytes) => |bytes| < SIZE_BOUND
    case NullBulk => true
    case NullArray => true
    case List(items) => Length(items) < SIZE_BOUND && AllFrameable(items)
  }

  predicate AllFrameable(rs: Replies) {
    match rs
    case Nil => true
    case Cons(head, tail) => Frameable(head) && AllFrameable(tail)
  }

  // ---- what the client should make of it ----------------------------------------------------

  datatype Meaning<+T> = Value(value: T) | AnError | Refused

  /** The depth, counted from zero, is allowed. */
  predicate DeepEnough(limits: Limits, depth: nat) {
    limits.depth.None? || depth <= limits.depth.value
  }

  function Meant(limits: Limits, depth: nat, r: Reply): Meaning<Resp>
    decreases r
  {
    if !DeepEnough(limits, depth) then Refused
    else
      match r
      case Status(text) => if |text| + 2 <= 65536 then Value(Simple(text)) else Refused
      case Failure(text) => if |text| + 2 <= 65536 then AnError else Refused
      case Int(n) => Value(Integer(n))
      case Payload(bytes) => if |bytes| <= limits.bulk then Value(Bulk(bytes)) else Refused
      case NullBulk => Value(Null)
      case NullArray => if limits.nullArray then Value(Null) else Refused
      case List(items) =>
        if Length(items) > limits.items then Refused
        else
          match MeantAll(limits, depth + 1, items)
          case Value(values) => Value(Array(values))
          case AnError => AnError
          case Refused => Refused
  }

  /** The first item that is no value decides. */
  function MeantAll(limits: Limits, depth: nat, rs: Replies): Meaning<seq<Resp>>
    decreases rs
  {
    match rs
    case Nil => Value([])
    case Cons(head, tail) =>
      match Meant(limits, depth, head)
      case AnError => AnError
      case Refused => Refused
      case Value(first) =>
        match MeantAll(limits, depth, tail)
        case Value(others) => Value([first] + others)
        case AnError => AnError
        case Refused => Refused
  }

  function Result<T>(m: Meaning<T>, rest: Bytes): Parsed<T> {
    match m
    case Value(value) => Got(value, rest)
    case AnError => ErrorReply
    case Refused => Broken
  }

  // ---- lines and numbers -----------------------------------------------------------------------

  lemma ShortLine(line: Bytes, rest: Bytes)
    requires LF !in line
    ensures ReadLine(line + CRLF + rest) == if |line| + 2 <= 65536 then Got(line, rest) else Broken
  {
    if |line| + 2 <= MAX_LINE {
      LineOf(line, rest);
    } else {
      var input := line + CRLF + rest;
      assert forall i :: 0 <= i < |line| ==> input[i] == line[i];
      FirstLfIs(input, |line| + 1);
    }
  }

  lemma DecimalIsDigits(n: nat)
    requires n < SIZE_BOUND
    ensures AllDigits(Decimal(n)) && Decimal(n) != [] && LF !in Decimal(n) && |Decimal(n)| <= 20
  {
    SizeBound();
    DecimalLength(n, 20);
  }

  predicate Spaces(s: Bytes) {
    forall i :: 0 <= i < |s| ==> s[i] in {9, 10, 11, 12, 13, 32}
  }

  lemma {:induction false} StripBefore(before: Bytes, core: Bytes)
    requires Spaces(before) && (core != [] ==> !IsSpace(core[0]))
    ensures StripLeft(before + core) == core
  {
    if before == [] {
      assert before + core == core;
    } else {
      var all := before + core;
      assert all[0] == before[0] && all[1..] == before[1..] + core;
      StripBefore(before[1..], core);
    }
  }

  lemma {:induction false} StripAfter(core: Bytes, after: Bytes)
    requires Spaces(after) && core != [] && !IsSpace(core[|core| - 1])
    ensures StripRight(core + after) == core
    decreases |after|
  {
    if after == [] {
      assert core + after == core;
    } else {
      var all, n := core + after, |after| - 1;
      assert all[|all| - 1] == after[n] && all[..|all| - 1] == core + after[..n];
      StripAfter(core, after[..n]);
    }
  }

  lemma NothingToStrip(s: Bytes)
    requires s != [] && !IsSpace(s[0]) && !IsSpace(s[|s| - 1])
    ensures StripRight(StripLeft(s)) == s
  {
    assert StripLeft(s) == s;
  }

  /** As Python does, a number is read with white space around it. */
  lemma SpacesDoNotMatter(before: Bytes, core: Bytes, after: Bytes)
    requires Spaces(before) && Spaces(after)
    requires core != [] && !IsSpace(core[0]) && !IsSpace(core[|core| - 1])
    ensures ParseInt(before + core + after) == ParseInt(core)
  {
    assert before + core + after == before + (core + after);
    StripBefore(before, core + after);
    StripAfter(core, after);
    NothingToStrip(core);
  }

  /** And with a plus sign. */
  lemma PlusDoesNotMatter(n: nat)
    requires n < SIZE_BOUND
    ensures ParseInt([43] + Decimal(n)) == Some(n as int)
  {
    var d := Decimal(n);
    var s := [43] + d;
    DecimalIsDigits(n);
    assert s[0] == 43 && s[1..] == d;
    assert IsDigitByte(d[|d| - 1]) && s[|s| - 1] == d[|d| - 1];
    NothingToStrip(s);
    DigitsAreGrouped(d);
    PlainDigits(d);
    NumberOfDecimal(n);
  }

  /** Single underscores between digits are allowed, others are not: `1_0`, `_1`, `1_` and `1__0`. */
  lemma Underscores()
    ensures ParseInt([49, 95, 48]) == Some(10)
    ensures ParseInt([95, 49]) == None && ParseInt([49, 95]) == None && ParseInt([49, 95, 95, 48]) == None
    ensures ParseInt([]) == None && ParseInt([45]) == None
  {
    assert Digits([49, 95, 48]) == [49, 48];
    assert Number([49, 48]) == 10;
    NothingToStrip([49, 95, 48]);
    NothingToStrip([95, 49]);
    NothingToStrip([49, 95]);
    NothingToStrip([49, 95, 95, 48]);
    NothingToStrip([45]);
  }

  lemma ParseNegative(n: nat)
    requires n < SIZE_BOUND
    ensures ParseInt([45] + Decimal(n)) == Some(-(n as int))
  {
    var d := Decimal(n);
    var s := [45] + d;
    DecimalIsDigits(n);
    assert s[0] == 45 && s[1..] == d;
    assert IsDigitByte(d[|d| - 1]) && s[|s| - 1] == d[|d| - 1];
    NothingToStrip(s);
    DigitsAreGrouped(d);
    PlainDigits(d);
    NumberOfDecimal(n);
  }

  lemma ReadSigned(n: int, rest: Bytes)
    requires n < SIZE_BOUND && n + SIZE_BOUND > 0
    ensures ReadInt(Signed(n) + CRLF + rest) == Got(n, rest)
  {
    if n < 0 {
      var d := Decimal(-n);
      DecimalIsDigits(-n);
      ParseNegative(-n);
      assert LF !in [45] + d;
      ShortLine([45] + d, rest);
    } else {
      ReadDecimal(n, rest);
    }
  }

  // ---- one reply ----------------------------------------------------------------------------------

  lemma Tail(prefix: Byte, tail: Bytes)
    ensures ([prefix] + tail)[0] == prefix && ([prefix] + tail)[1..] == tail
  {
  }

  lemma LineReply(limits: Limits, depth: nat, r: Reply, rest: Bytes)
    requires (r.Status? || r.Failure?) && Frameable(r)
    ensures Parse(limits, depth, Framed(r) + rest) == Result(Meant(limits, depth, r), rest)
  {
    var prefix: Byte := if r.Status? then 43 else 45;
    var tail := r.text + CRLF + rest;
    assert Framed(r) + rest == [prefix] + tail;
    Tail(prefix, tail);
    ShortLine(r.text, rest);
  }

  lemma IntReply(limits: Limits, depth: nat, r: Reply, rest: Bytes)
    requires (r.Int? || r.NullBulk? || r.NullArray?) && Frameable(r)
    ensures Parse(limits, depth, Framed(r) + rest) == Result(Meant(limits, depth, r), rest)
  {
    var prefix: Byte := if r.Int? then 58 else if r.NullBulk? then 36 else 42;
    var n := if r.Int? then r.n else -1;
    var tail := Signed(n) + CRLF + rest;
    assert Framed(r) + rest == [prefix] + tail;
    Tail(prefix, tail);
    ReadSigned(n, rest);
  }

  lemma PayloadReply(limits: Limits, depth: nat, r: Reply, rest: Bytes)
    requires r.Payload? && Frameable(r)
    ensures Parse(limits, depth, Framed(r) + rest) == Result(Meant(limits, depth, r), rest)
  {
    var body := r.bytes + CRLF + rest;
    var tail := Decimal(|r.bytes|) + CRLF + body;
    assert Framed(r) + rest == [36] + tail;
    if DeepEnough(limits, depth) {
      ParseBulkPrefix(limits, depth, Framed(r) + rest, tail);
    }
    ReadDecimal(|r.bytes|, body);
    if |r.bytes| <= limits.bulk {
      BulkBodyOf(limits, r.bytes, rest);
    }
  }

  lemma ListReply(limits: Limits, depth: nat, items: Replies, rest: Bytes)
    requires Length(items) < SIZE_BOUND && DeepEnough(limits, depth) && Length(items) <= limits.items
    ensures var body := FramedAll(items) + rest;
            Parse(limits, depth, Framed(List(items)) + rest) ==
            match ParseItems(limits, depth + 1, [], Length(items), body)
            case Got(values, after) => Got(Array(values), after)
            case ErrorReply => ErrorReply
            case Broken => Broken
  {
    var body := FramedAll(items) + rest;
    var tail := Decimal(Length(items)) + CRLF + body;
    assert Framed(List(items)) + rest == [42] + tail;
    if DeepEnough(limits, depth) {
      ParseArrayPrefix(limits, depth, Framed(List(items)) + rest, tail);
    }
    ReadDecimal(Length(items), body);
  }

  lemma LongList(limits: Limits, depth: nat, items: Replies, rest: Bytes)
    requires Length(items) < SIZE_BOUND && (!DeepEnough(limits, depth) || Length(items) > limits.items)
    ensures Parse(limits, depth, Framed(List(items)) + rest) == Broken
  {
    var body := FramedAll(items) + rest;
    var tail := Decimal(Length(items)) + CRLF + body;
    assert Framed(List(items)) + rest == [42] + tail;
    if DeepEnough(limits, depth) {
      ParseArrayPrefix(limits, depth, Framed(List(items)) + rest, tail);
    }
    ReadDecimal(Length(items), body);
  }

  /** What parsing the rest of an array gives, onto the items already read. */
  function Onto(items: seq<Resp>, m: Meaning<seq<Resp>>): Meaning<seq<Resp>> {
    match m
    case Value(values) => Value(items + values)
    case AnError => AnError
    case Refused => Refused
  }

  lemma OntoOneMore(items: seq<Resp>, first: Resp, m: Meaning<seq<Resp>>)
    ensures Onto(items, Onto([first], m)) == Onto(items + [first], m)
  {
    if m.Value? {
      assert items + ([first] + m.value) == items + [first] + m.value;
    }
  }

  /**
   Every reply: both clients take from the stream exactly what the server meant, leave
   exactly what follows, and refuse exactly the replies beyond their limits.
   */
  lemma {:induction false} ReplyOutcome(limits: Limits, depth: nat, r: Reply, rest: Bytes)
    requires Frameable(r)
    ensures Parse(limits, depth, Framed(r) + rest) == Result(Meant(limits, depth, r), rest)
    decreases r
  {
    match r
    case Status(_) => LineReply(limits, depth, r, rest);
    case Failure(_) => LineReply(limits, depth, r, rest);
    case Payload(_) => PayloadReply(limits, depth, r, rest);
    case List(items) =>
      if DeepEnough(limits, depth) && Length(items) <= limits.items {
        ListReply(limits, depth, items, rest);
        ItemsOutcome(limits, depth + 1, [], items, rest);
        OntoNothing(MeantAll(limits, depth + 1, items));
      } else {
        LongList(limits, depth, items, rest);
      }
    case _ => IntReply(limits, depth, r, rest);
  }

  lemma OntoNothing(m: Meaning<seq<Resp>>)
    ensures Onto([], m) == m
  {
    if m.Value? {
      assert [] + m.value == m.value;
    }
  }

  lemma {:induction false} ItemsOutcome(limits: Limits, depth: nat, items: seq<Resp>, rs: Replies, rest: Bytes)
    requires AllFrameable(rs)
    ensures ParseItems(limits, depth, items, Length(rs), FramedAll(rs) + rest)
            == Result(Onto(items, MeantAll(limits, depth, rs)), rest)
    decreases rs
  {
    match rs
    case Nil =>
      assert FramedAll(rs) + rest == rest;
      assert items + [] == items;
    case Cons(head, tail) =>
      var others := FramedAll(tail) + rest;
      Associates(Framed(head), FramedAll(tail), rest);
      ReplyOutcome(limits, depth, head, others);
      var first := Meant(limits, depth, head);
      if first.Value? {
        ItemsOutcome(limits, depth, items + [first.value], tail, rest);
        OntoOneMore(items, first.value, MeantAll(limits, depth, tail));
      }
  }
}
