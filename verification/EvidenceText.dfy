/** The text of an evidence file: sorted `key=value` lines, and loading them back. */
module EvidenceText {
  import opened Patterns
  import opened Ordering

  type Fields = map<string, string>

  predicate ValidFields(f: Fields) {
    && f.Keys != {}
    && forall k :: k in f ==> IsFieldName(k) && IsSafeValue(f[k])
  }

  function Line(key: string, value: string): string {
    key + "=" + value + "\n"
  }

  function Render(keys: seq<string>, f: Fields): string
    requires forall k :: k in keys ==> k in f
  {
    if keys == [] then "" else Line(keys[0], f[keys[0]]) + Render(keys[1..], f)
  }

  /** The keys in the order in which they are written. */
  ghost predicate WrittenOrder(keys: seq<string>, f: Fields) {
    SortedBy(Codes, keys) && forall k :: k in keys <==> k in f
  }

  /** The bytes that an atomic write of these fields leaves. */
  ghost predicate IsPayload(f: Fields, text: string) {
    exists keys :: WrittenOrder(keys, f) && text == Render(keys, f)
  }

  /** Refuses invalid fields; otherwise the payload of an atomic write. */
  method Payload(f: Fields) returns (r: Option<string>)
    ensures r.Some? <==> ValidFields(f)
    ensures r.Some? ==> IsPayload(f, r.value)
  {
    if !ValidFields(f) {
      return None;
    }
    forall x, y | x in f.Keys && y in f.Keys && Codes(x) == Codes(y)
      ensures x == y
    {
      CodesInjective(x, y);
    }
    var keys := Sort(Codes, f.Keys);
    var text := "";
    for n := 0 to |keys|
      invariant text == Render(keys[..n], f)
    {
      assert keys[..n + 1] == keys[..n] + [keys[n]];
      RenderAppend(keys[..n], keys[n], f);
      text := text + Line(keys[n], f[keys[n]]);
    }
    assert keys[..|keys|] == keys;
    return Some(text);
  }

  lemma {:induction false} RenderAppend(keys: seq<string>, k: string, f: Fields)
    requires k in f && forall x :: x in keys ==> x in f
    ensures Render(keys + [k], f) == Render(keys, f) + Line(k, f[k])
  {
    if keys == [] {
      assert [k][1..] == [];
      assert Render([k], f) == Line(k, f[k]) + "";
      assert keys + [k] == [k];
    } else {
      assert (keys + [k])[1..] == keys[1..] + [k] && (keys + [k])[0] == keys[0];
      RenderAppend(keys[1..], k, f);
      var head := Line(keys[0], f[keys[0]]);
      assert Render(keys + [k], f) == head + (Render(keys[1..], f) + Line(k, f[k]));
    }
  }

  // ---- loading ---------------------------------------------------------------------------

  /** The characters at which text lines end, as the loader splits them. */
  predicate IsBreak(c: char) {
    var n := c as int;
    10 <= n <= 13 || 28 <= n <= 30 || n == 133 || n == 8232 || n == 8233
  }

  predicate NoBreak(s: string) {
    forall i :: 0 <= i < |s| ==> !IsBreak(s[i])
  }

  function FirstBreak(s: string): (i: nat)
    requires !NoBreak(s)
    ensures i < |s| && IsBreak(s[i]) && NoBreak(s[..i])
  {
    if IsBreak(s[0]) then 0
    else
      assert NoBreak(s[1..]) ==> NoBreak(s);
      var i := 1 + FirstBreak(s[1..]);
      assert forall k :: 0 < k < i ==> s[..i][k] == s[1..][..i - 1][k - 1];
      i
  }

  function AfterBreak(s: string, i: nat): string
    requires i < |s|
  {
    if s[i] == '\r' && i + 1 < |s| && s[i + 1] == '\n' then s[i + 2..] else s[i + 1..]
  }

  function SplitLines(s: string): seq<string>
    decreases |s|
  {
    if s == "" then []
    else if NoBreak(s) then [s]
    else [s[..FirstBreak(s)]] + SplitLines(AfterBreak(s, FirstBreak(s)))
  }

  predicate HasSeparator(line: string) {
    '=' in line
  }

  /** The part before the first equals sign. */
  function KeyOf(line: string): string
    requires HasSeparator(line)
  {
    if line[0] == '=' then "" else [line[0]] + KeyOf(line[1..])
  }

  function ValueOf(line: string): string
    requires HasSeparator(line)
  {
    if line[0] == '=' then line[1..] else ValueOf(line[1..])
  }

  /** The fields of the lines; nothing on a line without separator or a repeated key. */
  function FieldsOf(lines: seq<string>): Option<Fields> {
    if lines == [] then Some(map[])
    else
      var last := lines[|lines| - 1];
      match FieldsOf(lines[..|lines| - 1])
      case None => None
      case Some(f) =>
        if !HasSeparator(last) || KeyOf(last) in f then None else Some(f[KeyOf(last) := ValueOf(last)])
  }

  function Field(f: Fields, name: string): Option<string> {
    if name in f then Some(f[name]) else None
  }

  function Load(text: string): Option<Fields> {
    match FieldsOf(SplitLines(text))
    case None => None
    case Some(f) => if ValidFields(f) then Some(f) else None
  }

  /** Fills the fields line by line, as the loader does. */
  method LoadFields(text: string) returns (r: Option<Fields>)
    ensures r == Load(text)
  {
    var lines := SplitLines(text);
    var fields: Fields := map[];
    for n := 0 to |lines|
      invariant FieldsOf(lines[..n]) == Some(fields)
    {
      var line := lines[n];
      assert lines[..n + 1][..n] == lines[..n];
      if !HasSeparator(line) || KeyOf(line) in fields {
        MalformedPrefix(lines, n + 1);
        return None;
      }
      fields := fields[KeyOf(line) := ValueOf(line)];
    }
    assert lines[..|lines|] == lines;
    return if ValidFields(fields) then Some(fields) else None;
  }

  /** A line with a separator is its key, an equals sign and its value. */
  lemma {:induction false} EntryOfLine(line: string)
    requires HasSeparator(line)
    ensures '=' !in KeyOf(line) && line == KeyOf(line) + "=" + ValueOf(line)
  {
    if line[0] == '=' {
    } else {
      EntryOfLine(line[1..]);
      assert line == [line[0]] + line[1..];
    }
  }

  lemma {:induction false} FieldOfLine(lines: seq<string>, i: nat)
    requires FieldsOf(lines).Some? && i < |lines|
    ensures HasSeparator(lines[i])
    ensures Field(FieldsOf(lines).value, KeyOf(lines[i])) == Some(ValueOf(lines[i]))
    decreases |lines|
  {
    if i == |lines| - 1 {
    } else {
      FieldOfLine(lines[..|lines| - 1], i);
    }
  }

  lemma {:induction false} KeysDifferByLine(lines: seq<string>, i: nat, j: nat)
    requires FieldsOf(lines).Some? && i < j < |lines|
    ensures HasSeparator(lines[i]) && HasSeparator(lines[j]) && KeyOf(lines[i]) != KeyOf(lines[j])
    decreases |lines|
  {
    if j == |lines| - 1 {
      FieldOfLine(lines[..j], i);
    } else {
      KeysDifferByLine(lines[..|lines| - 1], i, j);
    }
  }

  lemma OneMoreKey(f: Fields, key: string, value: string)
    requires key !in f
    ensures |f[key := value]| == |f| + 1
  {
    assert f[key := value].Keys == f.Keys + {key};
  }

  lemma {:induction false} OneFieldPerLine(lines: seq<string>)
    requires FieldsOf(lines).Some?
    ensures |FieldsOf(lines).value| == |lines|
    decreases |lines|
  {
    if lines == [] {
    } else {
      var n := |lines| - 1;
      OneFieldPerLine(lines[..n]);
      OneMoreKey(FieldsOf(lines[..n]).value, KeyOf(lines[n]), ValueOf(lines[n]));
    }
  }

  lemma {:induction false} KeyHasLine(lines: seq<string>, k: string)
    requires FieldsOf(lines).Some? && k in FieldsOf(lines).value
    ensures exists i :: 0 <= i < |lines| && HasSeparator(lines[i]) && KeyOf(lines[i]) == k
    decreases |lines|
  {
    var n := |lines| - 1;
    if KeyOf(lines[n]) == k {
    } else {
      KeyHasLine(lines[..n], k);
      var i :| 0 <= i < n && HasSeparator(lines[..n][i]) && KeyOf(lines[..n][i]) == k;
      assert lines[i] == lines[..n][i];
    }
  }

  /** Nothing else is refused: lines with separators and distinct keys give fields. */
  lemma {:induction false} DistinctLinesLoad(lines: seq<string>)
    requires forall i :: 0 <= i < |lines| ==> HasSeparator(lines[i])
    requires forall i, j :: 0 <= i < j < |lines| ==> KeyOf(lines[i]) != KeyOf(lines[j])
    ensures FieldsOf(lines).Some?
    decreases |lines|
  {
    if lines == [] {
    } else {
      var n := |lines| - 1;
      DistinctLinesLoad(lines[..n]);
      if KeyOf(lines[n]) in FieldsOf(lines[..n]).value {
        KeyHasLine(lines[..n], KeyOf(lines[n]));
      }
    }
  }

  /**
   What a loaded text says: each line is one field with its value, no two lines name the
   same field, and there are no other fields.
   */
  lemma LoadSpells(text: string, i: nat, j: nat)
    requires Load(text).Some? && i < |SplitLines(text)| && j < |SplitLines(text)|
    ensures var lines, f := SplitLines(text), Load(text).value;
            && HasSeparator(lines[i]) && lines[i] == KeyOf(lines[i]) + "=" + ValueOf(lines[i])
            && KeyOf(lines[i]) in f && f[KeyOf(lines[i])] == ValueOf(lines[i])
            && (i != j && HasSeparator(lines[j]) ==> KeyOf(lines[i]) != KeyOf(lines[j]))
            && |f| == |lines|
  {
    var lines := SplitLines(text);
    FieldOfLine(lines, i);
    EntryOfLine(lines[i]);
    OneFieldPerLine(lines);
    if i < j {
      KeysDifferByLine(lines, i, j);
    } else if j < i {
      KeysDifferByLine(lines, j, i);
    }
  }

  /** A malformed line spoils everything after it. */
  lemma {:induction false} MalformedPrefix(lines: seq<string>, n: nat)
    requires n <= |lines| && FieldsOf(lines[..n]) == None
    ensures FieldsOf(lines) == None
    decreases |lines| - n
  {
    if n == |lines| {
      assert lines[..n] == lines;
    } else {
      assert lines[..n + 1][..n] == lines[..n];
      MalformedPrefix(lines, n + 1);
    }
  }

  // ---- round trip ----------------------------------------------------------------------------

  lemma {:induction false} FirstBreakIs(s: string, k: nat)
    requires k < |s| && IsBreak(s[k]) && NoBreak(s[..k])
    ensures !NoBreak(s) && FirstBreak(s) == k
  {
    if k == 0 {
    } else {
      assert s[0] == s[..k][0];
      assert s[1..][..k - 1] == s[..k][1..];
      FirstBreakIs(s[1..], k - 1);
    }
  }

  lemma FirstLine(line: string, rest: string)
    requires NoBreak(line)
    ensures SplitLines(line + "\n" + rest) == [line] + SplitLines(rest)
  {
    var s := line + "\n" + rest;
    assert s[..|line|] == line && s[|line|] == '\n' && s[|line| + 1..] == rest;
    FirstBreakIs(s, |line|);
  }

  lemma {:induction false} KeyAndValue(key: string, value: string)
    requires '=' !in key
    ensures HasSeparator(key + "=" + value)
    ensures KeyOf(key + "=" + value) == key && ValueOf(key + "=" + value) == value
  {
    var line := key + "=" + value;
    assert line[|key|] == '=';
    if key == "" {
      assert line[1..] == value;
    } else {
      assert line[0] == key[0];
      assert line[1..] == key[1..] + "=" + value;
      KeyAndValue(key[1..], value);
      assert key == [key[0]] + key[1..];
    }
  }

  function Bare(key: string, value: string): string {
    key + "=" + value
  }

  function BareLines(keys: seq<string>, f: Fields): (r: seq<string>)
    requires forall k :: k in keys ==> k in f
    ensures |r| == |keys|
    ensures forall i :: 0 <= i < |keys| ==> r[i] == Bare(keys[i], f[keys[i]])
  {
    seq(|keys|, i requires 0 <= i < |keys| => Bare(keys[i], f[keys[i]]))
  }

  lemma BareIsOneLine(key: string, value: string)
    requires IsFieldName(key) && IsSafeValue(value)
    ensures NoBreak(Bare(key, value)) && '=' !in key
  {
    forall i | 0 <= i < |Bare(key, value)|
      ensures !IsBreak(Bare(key, value)[i])
    {
      if i > |key| {
        assert Bare(key, value)[i] == value[i - |key| - 1];
      }
    }
  }

  lemma {:induction false} RenderedLines(keys: seq<string>, f: Fields)
    requires ValidFields(f) && forall k :: k in keys ==> k in f
    ensures SplitLines(Render(keys, f)) == BareLines(keys, f)
  {
    if keys == [] {
    } else {
      var line := Bare(keys[0], f[keys[0]]);
      BareIsOneLine(keys[0], f[keys[0]]);
      RenderedLines(keys[1..], f);
      FirstLine(line, Render(keys[1..], f));
      assert Render(keys, f) == line + "\n" + Render(keys[1..], f);
      assert BareLines(keys, f) == [line] + BareLines(keys[1..], f);
    }
  }

  /** The fields restricted to some keys. */
  function Part(keys: seq<string>, f: Fields): Fields {
    map k | k in f && k in keys :: f[k]
  }

  /** Loading one more line of a new key. */
  lemma OneMoreLine(lines: seq<string>, f: Fields, key: string, value: string)
    requires FieldsOf(lines) == Some(f) && key !in f
    requires IsFieldName(key) && IsSafeValue(value)
    ensures FieldsOf(lines + [Bare(key, value)]) == Some(f[key := value])
  {
    var longer := lines + [Bare(key, value)];
    assert longer[..|longer| - 1] == lines;
    BareIsOneLine(key, value);
    KeyAndValue(key, value);
  }

  lemma SortedInit(keys: seq<string>)
    requires SortedBy(Codes, keys) && keys != []
    ensures SortedBy(Codes, keys[..|keys| - 1]) && keys[|keys| - 1] !in keys[..|keys| - 1]
  {
    var n := |keys| - 1;
    forall i | 0 <= i < n
      ensures keys[i] != keys[n]
    {
      LessAsymmetric(Codes(keys[i]), Codes(keys[n]));
    }
  }

  lemma LongerBareLines(before: seq<string>, k: string, f: Fields)
    requires (forall x :: x in before ==> x in f) && k in f && k !in before
    ensures BareLines(before + [k], f) == BareLines(before, f) + [Bare(k, f[k])]
    ensures Part(before + [k], f) == Part(before, f)[k := f[k]] && k !in Part(before, f)
  {
  }

  lemma {:induction false} BareLinesLoad(keys: seq<string>, f: Fields)
    requires ValidFields(f) && (forall k :: k in keys ==> k in f) && SortedBy(Codes, keys)
    ensures FieldsOf(BareLines(keys, f)) == Some(Part(keys, f))
    decreases |keys|
  {
    if keys == [] {
      assert Part(keys, f) == map[];
    } else {
      var before, k := keys[..|keys| - 1], keys[|keys| - 1];
      assert keys == before + [k];
      SortedInit(keys);
      BareLinesLoad(before, f);
      LongerBareLines(before, k, f);
      OneMoreLine(BareLines(before, f), Part(before, f), k, f[k]);
    }
  }

  /** Round trip: loading what an atomic write leaves returns exactly the written fields. */
  lemma LoadOfPayload(f: Fields, text: string)
    requires ValidFields(f) && IsPayload(f, text)
    ensures Load(text) == Some(f)
  {
    var keys :| WrittenOrder(keys, f) && text == Render(keys, f);
    RenderedLines(keys, f);
    BareLinesLoad(keys, f);
    assert Part(keys, f) == f;
  }

  /** The fields determine the bytes and the bytes determine the fields. */
  lemma PayloadIffFields(f: Fields, g: Fields, text: string, other: string)
    requires ValidFields(f) && ValidFields(g) && IsPayload(f, text) && IsPayload(g, other)
    ensures text == other <==> f == g
  {
    if text == other {
      LoadOfPayload(f, text);
      LoadOfPayload(g, other);
    }
    if f == g {
      var a :| WrittenOrder(a, f) && text == Render(a, f);
      var b :| WrittenOrder(b, g) && other == Render(b, g);
      SortedUnique(Codes, a, b);
    }
  }
}
