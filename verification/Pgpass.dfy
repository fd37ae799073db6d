/** The password-file record: escaped fields between colons. */
module Pgpass {
  import opened Patterns

  /** Every occurrence of a character replaced, left to right. */
  function Replace(s: string, c: char, repl: string): string {
    if s == "" then ""
    else (if s[0] == c then repl else [s[0]]) + Replace(s[1..], c, repl)
  }

  /** The source's two passes: backslashes first, colons second. */
  function Escape(s: string): string {
    Replace(Replace(s, '\\', "\\\\"), ':', "\\:")
  }

  function EscapeChar(c: char): string {
    if c == '\\' || c == ':' then ['\\', c] else [c]
  }

  /** The reference: each character escaped on its own. */
  function EscapeOnce(s: string): string {
    if s == "" then "" else EscapeChar(s[0]) + EscapeOnce(s[1..])
  }

  lemma {:induction false} ReplaceAppend(a: string, b: string, c: char, repl: string)
    ensures Replace(a + b, c, repl) == Replace(a, c, repl) + Replace(b, c, repl)
  {
    if a == "" {
      assert a + b == b;
    } else {
      assert (a + b)[0] == a[0] && (a + b)[1..] == a[1..] + b;
      ReplaceAppend(a[1..], b, c, repl);
    }
  }

  lemma ReplaceShort(c: char)
    ensures Replace("\\\\", ':', "\\:") == "\\\\"
    ensures c != '\\' ==> Replace([c], ':', "\\:") == EscapeChar(c)
  {
    var pair := "\\\\";
    assert pair[1..] == "\\" && pair[1..][1..] == "";
    assert Replace("\\", ':', "\\:") == "\\" + Replace("", ':', "\\:");
    assert [c][1..] == "";
  }

  /** The two passes do not disturb each other: they equal one pass over the characters. */
  lemma {:induction false} TwoPassesAreOne(s: string)
    ensures Escape(s) == EscapeOnce(s)
  {
    if s == "" {
    } else {
      var rest := Replace(s[1..], '\\', "\\\\");
      TwoPassesAreOne(s[1..]);
      ReplaceShort(s[0]);
      ReplaceAppend(if s[0] == '\\' then "\\\\" else [s[0]], rest, ':', "\\:");
    }
  }

  datatype Configuration = Configuration(host: string, port: string, database: string, user: string, password: string)

  function FieldList(c: Configuration): seq<string> {
    [c.host, c.port, c.database, c.user, c.password]
  }

  /** The parts with colons between them. */
  function Join(parts: seq<string>): string
    requires parts != []
  {
    if |parts| == 1 then parts[0] else parts[0] + ":" + Join(parts[1..])
  }

  function Escaped(fields: seq<string>): (r: seq<string>)
    ensures |r| == |fields|
  {
    if fields == [] then [] else [Escape(fields[0])] + Escaped(fields[1..])
  }

  /** The record line that is written. */
  function Record(c: Configuration): string {
    Join(Escaped(FieldList(c))) + "\n"
  }

  /** How a reader takes a record apart: colons separate, a backslash keeps the next character. */
  function Split(line: string): (fields: seq<string>)
    ensures fields != []
    decreases |line|
  {
    if line == "" then [""]
    else if line[0] == ':' then [""] + Split(line[1..])
    else if line[0] == '\\' && |line| > 1 then Prepend(line[1], Split(line[2..]))
    else Prepend(line[0], Split(line[1..]))
  }

  function Prepend(c: char, fields: seq<string>): (r: seq<string>)
    requires fields != []
    ensures r != []
  {
    [[c] + fields[0]] + fields[1..]
  }

  predicate OneLine(s: string) {
    '\n' !in s && '\0' !in s
  }

  /** The line up to the newline. */
  function FirstLineOf(text: string): string {
    if text == "" || text[0] == '\n' then "" else [text[0]] + FirstLineOf(text[1..])
  }

  function Glue(s: string, fields: seq<string>): (r: seq<string>)
    requires fields != []
    ensures r != []
  {
    [s + fields[0]] + fields[1..]
  }

  lemma PrependGlue(c: char, s: string, fields: seq<string>)
    requires fields != []
    ensures Prepend(c, Glue(s, fields)) == Glue([c] + s, fields)
  {
    assert Glue(s, fields)[1..] == fields[1..];
    assert [c] + (s + fields[0]) == ([c] + s) + fields[0];
  }

  lemma SplitOne(c: char, tail: string)
    ensures Split(EscapeChar(c) + tail) == Prepend(c, Split(tail))
    ensures Split(":" + tail) == [""] + Split(tail)
  {
    var line := EscapeChar(c) + tail;
    if c == '\\' || c == ':' {
      assert line[0] == '\\' && line[1] == c && line[2..] == tail;
    } else {
      assert line[0] == c && line[1..] == tail;
    }
    assert (":" + tail)[1..] == tail;
  }

  /** An escaped field is read back into the first field, whatever follows it. */
  lemma {:induction false} SplitEscaped(s: string, rest: string)
    ensures Split(EscapeOnce(s) + rest) == Glue(s, Split(rest))
  {
    if s == "" {
      assert EscapeOnce(s) + rest == rest;
      assert "" + Split(rest)[0] == Split(rest)[0];
      assert Glue(s, Split(rest)) == Split(rest);
    } else {
      var tail := EscapeOnce(s[1..]) + rest;
      SplitEscaped(s[1..], rest);
      assert EscapeOnce(s) + rest == EscapeChar(s[0]) + tail;
      SplitOne(s[0], tail);
      PrependGlue(s[0], s[1..], Split(rest));
      assert s == [s[0]] + s[1..];
    }
  }

  lemma GlueEmpty(s: string, fields: seq<string>)
    ensures Glue(s, [""] + fields) == [s] + fields
  {
    assert ([""] + fields)[1..] == fields;
    assert s + "" == s;
  }

  lemma JoinStep(first: string, fields: seq<string>)
    requires fields != []
    ensures Join(Escaped([first] + fields)) == EscapeOnce(first) + (":" + Join(Escaped(fields)))
  {
    TwoPassesAreOne(first);
    assert ([first] + fields)[1..] == fields;
    var parts := Escaped([first] + fields);
    assert parts[1..] == Escaped(fields);
    assert Join(parts) == EscapeOnce(first) + ":" + Join(Escaped(fields));
  }

  lemma SplitLast(last: string)
    ensures Split(Join(Escaped([last]))) == [last]
  {
    TwoPassesAreOne(last);
    assert [last][1..] == [];
    assert Join(Escaped([last])) == EscapeOnce(last) + "";
    SplitEscaped(last, "");
    assert Split("") == [""] + [];
    GlueEmpty(last, []);
  }

  lemma {:induction false} SplitJoin(fields: seq<string>)
    requires fields != []
    ensures Split(Join(Escaped(fields))) == fields
  {
    var first, rest := fields[0], fields[1..];
    assert fields == [first] + rest;
    if rest == [] {
      SplitLast(first);
    } else {
      SplitJoin(rest);
      JoinStep(first, rest);
      SplitEscaped(first, ":" + Join(Escaped(rest)));
      SplitOne(':', Join(Escaped(rest)));
      GlueEmpty(first, rest);
    }
  }

  lemma {:induction false} EscapeKeepsOneLine(s: string)
    requires OneLine(s)
    ensures OneLine(EscapeOnce(s))
  {
    if s == "" {
    } else {
      assert s[0] in s && OneLine(s[1..]);
      EscapeKeepsOneLine(s[1..]);
    }
  }

  lemma {:induction false} FirstLineStops(line: string, rest: string)
    requires '\n' !in line
    ensures FirstLineOf(line + "\n" + rest) == line
  {
    if line == "" {
      assert line + "\n" + rest == "\n" + rest;
    } else {
      assert (line + "\n" + rest)[0] == line[0];
      assert (line + "\n" + rest)[1..] == line[1..] + "\n" + rest;
      FirstLineStops(line[1..], rest);
    }
  }

  lemma {:induction false} JoinIsOneLine(fields: seq<string>)
    requires fields != [] && forall f :: f in fields ==> OneLine(f)
    ensures '\n' !in Join(Escaped(fields))
  {
    TwoPassesAreOne(fields[0]);
    EscapeKeepsOneLine(fields[0]);
    if |fields| <= 1 {
    } else {
      JoinIsOneLine(fields[1..]);
    }
  }

  /** Round trip: the written record, followed by anything, reads back as the five fields. */
  lemma RecordRoundTrip(c: Configuration, rest: string)
    requires forall f :: f in FieldList(c) ==> OneLine(f)
    ensures Split(FirstLineOf(Record(c) + rest)) == [c.host, c.port, c.database, c.user, c.password]
  {
    JoinIsOneLine(FieldList(c));
    FirstLineStops(Join(Escaped(FieldList(c))), rest);
    SplitJoin(FieldList(c));
  }

  /** Two configurations have the same record only if they are the same. */
  lemma RecordInjective(a: Configuration, b: Configuration)
    requires forall f :: f in FieldList(a) ==> OneLine(f)
    requires forall f :: f in FieldList(b) ==> OneLine(f)
    ensures Record(a) == Record(b) <==> a == b
  {
    if Record(a) == Record(b) {
      RecordRoundTrip(a, "");
      RecordRoundTrip(b, "");
      assert FieldList(a)[0] == a.host && FieldList(a)[1] == a.port && FieldList(a)[2] == a.database;
      assert FieldList(a)[3] == a.user && FieldList(a)[4] == a.password;
      assert FieldList(b)[0] == b.host && FieldList(b)[1] == b.port && FieldList(b)[2] == b.database;
      assert FieldList(b)[3] == b.user && FieldList(b)[4] == b.password;
    }
  }
}
