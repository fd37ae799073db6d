/** RESP2 framing: encoding commands and taking responses off a byte stream. */
module RespCodec {
  import opened Patterns
  import opened DecimalText

  const MAX_LINE: nat := 65536

  /** What the two readers allow: the guard has no depth limit and accepts a null array. */
  datatype Limits = Limits(bulk: nat, items: nat, depth: Option<nat>, nullArray: bool)

  const GUARD_LIMITS := Limits(64 * 1024 * 1024, 1_000_000, None, true)
  const MANIFEST_LIMITS := Limits(256 * 1024 * 1024, 1_000_016, Some(8), false)

  datatype Resp =
    | Simple(line: Bytes)
    | Integer(n: int)
    | Bulk(bytes: Bytes)
    | Null
    | Array(items: seq<Resp>)

  /** A value and the bytes after it; an error reply; or a protocol error. */
  datatype Parsed<+T> = Got(value: T, rest: Bytes) | ErrorReply | Broken

  // ---- lines ---------------------------------------------------------------------------

  /** The index of the first line feed, or the length when there is none. */
  function FirstLf(b: Bytes): (i: nat)
    ensures i <= |b| && (i < |b| ==> b[i] == LF)
  {
    if b == [] || b[0] == LF then 0 else 1 + FirstLf(b[1..])
  }

  lemma {:induction false} FirstLfIs(b: Bytes, k: nat)
    requires k < |b| && b[k] == LF && forall i :: 0 <= i < k ==> b[i] != LF
    ensures FirstLf(b) == k
  {
    if k == 0 {
    } else {
      FirstLfIs(b[1..], k - 1);
    }
  }

  lemma {:induction false} NoneBeforeFirstLf(b: Bytes, i: nat)
    requires i < FirstLf(b)
    ensures b[i] != LF
  {
    if i == 0 {
    } else {
      NoneBeforeFirstLf(b[1..], i - 1);
    }
  }

  /** One line ended by CR LF, of at most the line limit with its ending. */
  function ReadLine(input: Bytes): (r: Parsed<Bytes>)
    ensures r.Got? ==> |r.rest| < |input|
    ensures !r.ErrorReply?
  {
    var i := FirstLf(input);
    if i == |input| || i + 1 > MAX_LINE || i == 0 || input[i - 1] != CR then Broken
    else Got(input[..i - 1], input[i + 1..])
  }

  lemma ReadLineExtends(input: Bytes, more: Bytes)
    requires ReadLine(input).Got?
    ensures ReadLine(input + more) == Got(ReadLine(input).value, ReadLine(input).rest + more)
  {
    var i := FirstLf(input);
    var longer := input + more;
    forall k | 0 <= k < i
      ensures longer[k] != LF
    {
      NoneBeforeFirstLf(input, k);
    }
    FirstLfIs(longer, i);
    assert longer[..i - 1] == input[..i - 1];
    assert longer[i + 1..] == input[i + 1..] + more;
  }

  // ---- integers, as Python reads them ---------------------------------------------------

  predicate IsSpace(b: Byte) {
    9 <= b <= 13 || b == 32
  }

  function StripLeft(b: Bytes): (r: Bytes)
    ensures |r| <= |b|
  {
    if b != [] && IsSpace(b[0]) then StripLeft(b[1..]) else b
  }

  function StripRight(b: Bytes): (r: Bytes)
    ensures |r| <= |b|
  {
    if b != [] && IsSpace(b[|b| - 1]) then StripRight(b[..|b| - 1]) else b
  }

  const UNDERSCORE: Byte := 95
  const PLUS: Byte := 43

  /** Digits, with single underscores between them. */
  predicate GroupedDigits(b: Bytes) {
    && b != [] && IsDigitByte(b[0])
    && (|b| == 1 || GroupedDigits(if b[1] == UNDERSCORE then b[2..] else b[1..]))
  }

  function Digits(b: Bytes): (r: Bytes)
    ensures AllDigits(r)
  {
    if b == [] then []
    else if IsDigitByte(b[0]) then [b[0]] + Digits(b[1..])
    else Digits(b[1..])
  }

  /** Longer numerals are refused when they are converted. */
  const MAX_INT_DIGITS: nat := 4300

  function ParseInt(b: Bytes): Option<int> {
    var s := StripRight(StripLeft(b));
    if s == [] then None
    else
      var signed := s[0] == MINUS || s[0] == PLUS;
      var digits := if signed then s[1..] else s;
      if !GroupedDigits(digits) || |Digits(digits)| > MAX_INT_DIGITS then None
      else
        var n: int := Number(Digits(digits));
        Some(if s[0] == MINUS then -n else n)
  }

  lemma {:induction false} PlainDigits(b: Bytes)
    requires AllDigits(b)
    ensures Digits(b) == b
  {
    if b == [] {
    } else {
      PlainDigits(b[1..]);
      assert b == [b[0]] + b[1..];
    }
  }

  lemma {:induction false} DigitsAreGrouped(d: Bytes)
    requires d != [] && AllDigits(d)
    ensures GroupedDigits(d)
  {
    if |d| <= 1 {
    } else {
      assert IsDigitByte(d[1]);
      DigitsAreGrouped(d[1..]);
    }
  }

  lemma ParseDecimal(n: nat)
    requires |Decimal(n)| <= MAX_INT_DIGITS
    ensures ParseInt(Decimal(n)) == Some(n)
  {
    var d := Decimal(n);
    assert IsDigitByte(d[0]) && IsDigitByte(d[|d| - 1]);
    assert StripLeft(d) == d;
    assert StripRight(d) == d;
    DigitsAreGrouped(d);
    PlainDigits(d);
    NumberOfDecimal(n);
  }

  // ---- responses -----------------------------------------------------------------------------

  function ReadExact(input: Bytes, n: nat): (r: Parsed<Bytes>)
    ensures r.Got? ==> |r.rest| == |input| - n
  {
    if n <= |input| then Got(input[..n], input[n..]) else Broken
  }

  function ReadInt(input: Bytes): (r: Parsed<int>)
    ensures r.Got? ==> |r.rest| < |input|
  {
    match ReadLine(input)
    case Got(line, rest) => (match ParseInt(line) case Some(n) => Got(n, rest) case None => Broken)
    case _ => Broken
  }

  /** The payload of a bulk string after its length line. */
  function BulkBody(limits: Limits, n: int, rest: Bytes): (r: Parsed<Resp>)
    ensures r.Got? ==> |r.rest| <= |rest|
  {
    if n == -1 then Got(Null, rest)
    else if n < 0 || n > limits.bulk || n + 2 > |rest| || rest[n] != CR || rest[n + 1] != LF then Broken
    else Got(Bulk(rest[..n]), rest[n + 2..])
  }

  function ReadBulk(limits: Limits, input: Bytes): (r: Parsed<Resp>)
    ensures r.Got? ==> |r.rest| < |input|
  {
    match ReadInt(input)
    case Got(n, rest) => BulkBody(limits, n, rest)
    case _ => Broken
  }

  function TooDeep(limits: Limits, depth: nat): bool {
    limits.depth.Some? && depth > limits.depth.value
  }

  function Parse(limits: Limits, depth: nat, input: Bytes): (r: Parsed<Resp>)
    ensures r.Got? ==> |r.rest| < |input|
    decreases |input|, 0
  {
    if TooDeep(limits, depth) || input == [] then Broken
    else
      var prefix, rest := input[0], input[1..];
      if prefix == 43 then                                       // +
        (match ReadLine(rest) case Got(line, more) => Got(Simple(line), more) case _ => Broken)
      else if prefix == 45 then                                  // -
        (match ReadLine(rest) case Got(_, _) => ErrorReply case _ => Broken)
      else if prefix == 58 then                                  // :
        (match ReadInt(rest) case Got(n, more) => Got(Integer(n), more) case _ => Broken)
      else if prefix == 36 then ReadBulk(limits, rest)           // $
      else if prefix == 42 then ParseArray(limits, depth, rest)  // *
      else Broken
  }

  function ParseArray(limits: Limits, depth: nat, input: Bytes): (r: Parsed<Resp>)
    ensures r.Got? ==> |r.rest| < |input|
    decreases |input|, 2
  {
    match ReadInt(input)
    case Got(n, more) =>
      if n == -1 && limits.nullArray then Got(Null, more)
      else if n < 0 || n > limits.items then Broken
      else
        (match ParseItems(limits, depth + 1, [], n, more)
         case Got(items, after) => Got(Array(items), after)
         case ErrorReply => ErrorReply
         case Broken => Broken)
    case _ => Broken
  }

  /** The `n` items still to be read, after those read already. */
  function ParseItems(limits: Limits, depth: nat, items: seq<Resp>, n: nat, input: Bytes): (r: Parsed<seq<Resp>>)
    ensures r.Got? ==> |r.rest| <= |input| && |r.value| == |items| + n
    decreases |input|, 1, n
  {
    if n == 0 then Got(items, input)
    else
      match Parse(limits, depth, input)
      case Got(item, rest) => ParseItems(limits, depth, items + [item], n - 1, rest)
      case ErrorReply => ErrorReply
      case Broken => Broken
  }

  // ---- self-delimiting ---------------------------------------------------------------------

  lemma ReadIntExtends(input: Bytes, more: Bytes)
    requires ReadInt(input).Got?
    ensures ReadInt(input + more) == Got(ReadInt(input).value, ReadInt(input).rest + more)
  {
    ReadLineExtends(input, more);
  }

  lemma BulkBodyExtends(limits: Limits, n: int, rest: Bytes, more: Bytes)
    requires BulkBody(limits, n, rest).Got?
    ensures BulkBody(limits, n, rest + more)
            == Got(BulkBody(limits, n, rest).value, BulkBody(limits, n, rest).rest + more)
  {
    if n != -1 {
      assert (rest + more)[..n] == rest[..n];
      assert (rest + more)[n + 2..] == rest[n + 2..] + more;
    }
  }

  lemma ReadBulkExtends(limits: Limits, input: Bytes, more: Bytes)
    requires ReadBulk(limits, input).Got?
    ensures ReadBulk(limits, input + more) == Got(ReadBulk(limits, input).value, ReadBulk(limits, input).rest + more)
  {
    ReadIntExtends(input, more);
    BulkBodyExtends(limits, ReadInt(input).value, ReadInt(input).rest, more);
  }

  /** Framing: a complete response is taken off identically whatever follows it. */
  lemma {:induction false} ParseExtends(limits: Limits, depth: nat, input: Bytes, more: Bytes)
    requires Parse(limits, depth, input).Got?
    ensures Parse(limits, depth, input + more)
            == Got(Parse(limits, depth, input).value, Parse(limits, depth, input).rest + more)
    decreases |input|, 0
  {
    var rest := input[1..];
    assert (input + more)[0] == input[0] && (input + more)[1..] == rest + more;
    if input[0] == 43 {
      ReadLineExtends(rest, more);
    } else if input[0] == 58 {
      ReadIntExtends(rest, more);
    } else if input[0] == 36 {
      ReadBulkExtends(limits, rest, more);
    } else {
      ParseArrayExtends(limits, depth, rest, more);
    }
  }

  lemma {:induction false} ParseArrayExtends(limits: Limits, depth: nat, input: Bytes, more: Bytes)
    requires ParseArray(limits, depth, input).Got?
    ensures ParseArray(limits, depth, input + more)
            == Got(ParseArray(limits, depth, input).value, ParseArray(limits, depth, input).rest + more)
    decreases |input|, 2
  {
    ReadIntExtends(input, more);
    var n := ReadInt(input).value;
    if n != -1 || !limits.nullArray {
      ParseItemsExtends(limits, depth + 1, [], n, ReadInt(input).rest, more);
    }
  }

  lemma {:induction false} ParseItemsExtends(limits: Limits, depth: nat, items: seq<Resp>, n: nat, input: Bytes,
                                             more: Bytes)
    requires ParseItems(limits, depth, items, n, input).Got?
    ensures ParseItems(limits, depth, items, n, input + more)
            == Got(ParseItems(limits, depth, items, n, input).value,
                   ParseItems(limits, depth, items, n, input).rest + more)
    decreases |input|, 1, n
  {
    if n == 0 {
    } else {
      ParseExtends(limits, depth, input, more);
      var next := Parse(limits, depth, input);
      ParseItemsExtends(limits, depth, items + [next.value], n - 1, next.rest, more);
    }
  }

  // ---- commands ------------------------------------------------------------------------------

  const CRLF: Bytes := [CR, LF]

  /** Sizes below this have at most twenty digits; both clients' limits are far below. */
  const SIZE_BOUND: nat := 100_000_000_000_000_000_000

  lemma SizeBound()
    ensures Pow10(20) == SIZE_BOUND
  {
    assert Pow10(10) == 10_000_000_000;
    assert Pow10(15) == 1_000_000_000_000_000;
  }

  function EncodeBulk(part: Bytes): Bytes {
    [36] + Decimal(|part|) + CRLF + part + CRLF
  }

  function EncodeBulks(parts: seq<Bytes>): Bytes {
    if parts == [] then [] else EncodeBulk(parts[0]) + EncodeBulks(parts[1..])
  }

  function Encode(parts: seq<Bytes>): Bytes {
    [42] + Decimal(|parts|) + CRLF + EncodeBulks(parts)
  }

  function Bulks(parts: seq<Bytes>): (r: seq<Resp>)
    ensures |r| == |parts|
  {
    if parts == [] then [] else [Bulk(parts[0])] + Bulks(parts[1..])
  }

  /** Builds the request part by part, as both clients do. */
  method EncodeCommand(parts: seq<Bytes>) returns (payload: Bytes)
    ensures payload == Encode(parts)
  {
    payload := [42] + Decimal(|parts|) + CRLF;
    for n := 0 to |parts|
      invariant payload == [42] + Decimal(|parts|) + CRLF + EncodeBulks(parts[..n])
    {
      assert parts[..n + 1] == parts[..n] + [parts[n]];
      EncodeBulksAppend(parts[..n], parts[n]);
      payload := payload + ([36] + Decimal(|parts[n]|) + CRLF) + parts[n] + CRLF;
    }
    assert parts[..|parts|] == parts;
  }

  lemma Associates(a: Bytes, b: Bytes, c: Bytes)
    ensures a + (b + c) == (a + b) + c
  {
  }

  lemma {:induction false} EncodeBulksAppend(parts: seq<Bytes>, part: Bytes)
    ensures EncodeBulks(parts + [part]) == EncodeBulks(parts) + EncodeBulk(part)
  {
    if parts == [] {
      assert parts + [part] == [part];
      assert [part][1..] == [];
      assert EncodeBulks([part]) == EncodeBulk(part) + [];
    } else {
      var head, longer := EncodeBulk(parts[0]), parts + [part];
      assert longer[0] == parts[0] && longer[1..] == parts[1..] + [part];
      EncodeBulksAppend(parts[1..], part);
      assert EncodeBulks(longer) == head + EncodeBulks(longer[1..]);
      Associates(head, EncodeBulks(parts[1..]), EncodeBulk(part));
    }
  }

  lemma LineOf(line: Bytes, rest: Bytes)
    requires |line| + 2 <= MAX_LINE && forall i :: 0 <= i < |line| ==> line[i] != LF
    ensures ReadLine(line + CRLF + rest) == Got(line, rest)
  {
    var input := line + CRLF + rest;
    assert forall i :: 0 <= i < |line| ==> input[i] == line[i];
    FirstLfIs(input, |line| + 1);
    assert input[..|line|] == line && input[|line| + 2..] == rest;
  }

  lemma ReadDecimal(n: nat, rest: Bytes)
    requires n < SIZE_BOUND
    ensures ReadInt(Decimal(n) + CRLF + rest) == Got(n as int, rest)
  {
    var d := Decimal(n);
    SizeBound();
    DecimalLength(n, 20);
    forall i | 0 <= i < |d|
      ensures d[i] != LF
    {
      assert IsDigitByte(d[i]);
    }
    LineOf(d, rest);
    ParseDecimal(n);
  }

  lemma ParseBulkPrefix(limits: Limits, depth: nat, input: Bytes, tail: Bytes)
    requires !TooDeep(limits, depth) && input == [36] + tail
    ensures Parse(limits, depth, input) == ReadBulk(limits, tail)
  {
    assert input[0] == 36;
    assert input[1..] == tail;
  }

  lemma ParseArrayPrefix(limits: Limits, depth: nat, input: Bytes, tail: Bytes)
    requires !TooDeep(limits, depth) && input == [42] + tail
    ensures Parse(limits, depth, input) == ParseArray(limits, depth, tail)
  {
    assert input[0] == 42;
    assert input[1..] == tail;
  }

  lemma BulkBodyOf(limits: Limits, part: Bytes, rest: Bytes)
    requires |part| <= limits.bulk
    ensures BulkBody(limits, |part|, part + CRLF + rest) == Got(Bulk(part), rest)
  {
    var body := part + CRLF + rest;
    assert body[..|part|] == part && body[|part| + 2..] == rest;
  }

  lemma ParseBulk(limits: Limits, depth: nat, part: Bytes, rest: Bytes)
    requires |part| <= limits.bulk && |part| < SIZE_BOUND && !TooDeep(limits, depth)
    ensures Parse(limits, depth, EncodeBulk(part) + rest) == Got(Bulk(part), rest)
  {
    var body := part + CRLF + rest;
    var tail := Decimal(|part|) + CRLF + body;
    assert EncodeBulk(part) + rest == [36] + tail;
    ParseBulkPrefix(limits, depth, EncodeBulk(part) + rest, tail);
    ReadDecimal(|part|, body);
    BulkBodyOf(limits, part, rest);
  }

  lemma BulksAfter(items: seq<Resp>, parts: seq<Bytes>)
    requires parts != []
    ensures items + Bulks(parts) == items + [Bulk(parts[0])] + Bulks(parts[1..])
  {
  }

  /** One more encoded part in front is taken off as one more item. */
  lemma ParseOneBulk(limits: Limits, depth: nat, items: seq<Resp>, parts: seq<Bytes>, rest: Bytes)
    requires parts != [] && |parts[0]| <= limits.bulk && |parts[0]| < SIZE_BOUND && !TooDeep(limits, depth)
    ensures ParseItems(limits, depth, items, |parts|, EncodeBulks(parts) + rest)
            == ParseItems(limits, depth, items + [Bulk(parts[0])], |parts| - 1, EncodeBulks(parts[1..]) + rest)
  {
    Associates(EncodeBulk(parts[0]), EncodeBulks(parts[1..]), rest);
    ParseBulk(limits, depth, parts[0], EncodeBulks(parts[1..]) + rest);
  }

  lemma ParseNoBulk(limits: Limits, depth: nat, items: seq<Resp>, rest: Bytes)
    ensures ParseItems(limits, depth, items, 0, EncodeBulks([]) + rest) == Got(items + Bulks([]), rest)
  {
    assert EncodeBulks([]) + rest == rest;
    assert items + Bulks([]) == items;
  }

  predicate Within(limits: Limits, parts: seq<Bytes>) {
    forall i :: 0 <= i < |parts| ==> |parts[i]| <= limits.bulk
  }

  lemma WithinTail(limits: Limits, parts: seq<Bytes>)
    requires Within(limits, parts) && parts != []
    ensures |parts[0]| <= limits.bulk && Within(limits, parts[1..])
  {
  }

  /** The encoded parts are taken off as items, onto those already read. */
  lemma {:induction false} ParseBulks(
      limits: Limits, depth: nat, items: seq<Resp>, parts: seq<Bytes>, rest: Bytes, all: seq<Resp>)
    requires Within(limits, parts) && limits.bulk < SIZE_BOUND && !TooDeep(limits, depth)
    requires all == items + Bulks(parts)
    ensures ParseItems(limits, depth, items, |parts|, EncodeBulks(parts) + rest) == Got(all, rest)
    decreases |parts|
  {
    if parts == [] {
      ParseNoBulk(limits, depth, items, rest);
    } else {
      WithinTail(limits, parts);
      ParseOneBulk(limits, depth, items, parts, rest);
      BulksAfter(items, parts);
      ParseBulks(limits, depth, items + [Bulk(parts[0])], parts[1..], rest, all);
    }
  }

  /**
   Round trip: parsing the encoded form of a command within the limits returns exactly its
   parts and consumes exactly its bytes, whatever follows in the stream.
   */
  lemma CommandRoundTrip(limits: Limits, parts: seq<Bytes>, rest: Bytes)
    requires Fits(limits, parts)
    requires limits.items < SIZE_BOUND && limits.bulk < SIZE_BOUND
    requires limits.depth.Some? ==> limits.depth.value >= 1
    ensures Parse(limits, 0, Encode(parts) + rest) == Got(Array(Bulks(parts)), rest)
  {
    var body := EncodeBulks(parts) + rest;
    var tail := Decimal(|parts|) + CRLF + body;
    assert Encode(parts) + rest == [42] + tail;
    ParseArrayPrefix(limits, 0, Encode(parts) + rest, tail);
    ReadDecimal(|parts|, body);
    assert [] + Bulks(parts) == Bulks(parts);
    ParseBulks(limits, 1, [], parts, rest, Bulks(parts));
  }

  /** A command within a client's own limits. */
  predicate Fits(limits: Limits, parts: seq<Bytes>) {
    |parts| <= limits.items && Within(limits, parts)
  }

  /** The round trip applies to each client at its own full limits. */
  lemma BothClientsRoundTrip(parts: seq<Bytes>, rest: Bytes)
    ensures |parts| <= 1_000_000 && (forall i :: 0 <= i < |parts| ==> |parts[i]| <= 67_108_864) ==>
              Parse(GUARD_LIMITS, 0, Encode(parts) + rest) == Got(Array(Bulks(parts)), rest)
    ensures |parts| <= 1_000_016 && (forall i :: 0 <= i < |parts| ==> |parts[i]| <= 268_435_456) ==>
              Parse(MANIFEST_LIMITS, 0, Encode(parts) + rest) == Got(Array(Bulks(parts)), rest)
  {
    if Fits(GUARD_LIMITS, parts) {
      CommandRoundTrip(GUARD_LIMITS, parts, rest);
    }
    if Fits(MANIFEST_LIMITS, parts) {
      CommandRoundTrip(MANIFEST_LIMITS, parts, rest);
    }
  }

  lemma {:induction false} BulksInjective(a: seq<Bytes>, b: seq<Bytes>)
    requires Bulks(a) == Bulks(b)
    ensures a == b
  {
    assert |a| == |b|;
    if a == [] {
    } else {
      assert Bulks(a)[0] == Bulks(b)[0] && Bulks(a)[1..] == Bulks(b)[1..];
      BulksInjective(a[1..], b[1..]);
      assert a == [a[0]] + a[1..] && b == [b[0]] + b[1..];
    }
  }

  /** No encoded command is a prefix of another one's encoding. */
  lemma CommandsArePrefixFree(limits: Limits, a: seq<Bytes>, b: seq<Bytes>, rest: Bytes)
    requires Fits(limits, a) && Fits(limits, b)
    requires limits.items < SIZE_BOUND && limits.bulk < SIZE_BOUND && limits.depth.None?
    requires Encode(a) + rest == Encode(b)
    ensures a == b && rest == []
  {
    CommandRoundTrip(limits, a, rest);
    CommandRoundTrip(limits, b, []);
    assert Encode(b) + [] == Encode(b);
    BulksInjective(a, b);
  }
}
