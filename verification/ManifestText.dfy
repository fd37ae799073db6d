/** Bar-separated manifest lines: fields, families and canonical integers. */
module ManifestText {

  predicate NoBar(s: string) {
    '|' !in s
  }

  /** The position of the first bar. */
  function FirstBar(s: string): (i: nat)
    requires '|' in s
    ensures i < |s| && s[i] == '|' && NoBar(s[..i])
  {
    if s[0] == '|' then 0
    else
      assert s == [s[0]] + s[1..];
      var i := 1 + FirstBar(s[1..]);
      assert s[..i] == [s[0]] + s[1..][..i - 1];
      i
  }

  /** The fields between the bars. */
  function Split(s: string): (fields: seq<string>)
    ensures |fields| >= 1
    decreases |s|
  {
    if '|' !in s then [s]
    else [s[..FirstBar(s)]] + Split(s[FirstBar(s) + 1..])
  }

  lemma {:induction false} FirstBarIs(s: string, k: nat)
    requires k < |s| && s[k] == '|' && NoBar(s[..k])
    ensures FirstBar(s) == k
  {
    if k == 0 {
    } else {
      assert s[0] == s[..k][0];
      assert s[1..][..k - 1] == s[..k][1..];
      FirstBarIs(s[1..], k - 1);
    }
  }

  lemma SplitFirst(a: string, rest: string)
    requires NoBar(a)
    ensures Split(a + "|" + rest) == [a] + Split(rest)
  {
    var s := a + "|" + rest;
    assert s[..|a|] == a && s[|a|] == '|' && s[|a| + 1..] == rest;
    FirstBarIs(s, |a|);
  }

  lemma SplitThree(a: string, b: string, c: string)
    requires NoBar(a) && NoBar(b) && NoBar(c)
    ensures Split(a + "|" + (b + "|" + c)) == [a, b, c]
  {
    SplitFirst(a, b + "|" + c);
    SplitFirst(b, c);
    assert Split(c) == [c];
  }

  /** The line is a record of the family: it starts with the name and a bar. */
  predicate InFamily(line: string, family: string) {
    family + "|" <= line
  }

  /** A line has one first field, so it is in at most one family. */
  lemma OneFamily(line: string, f: string, g: string)
    requires NoBar(f) && NoBar(g) && InFamily(line, f) && InFamily(line, g)
    ensures f == g
  {
    assert line == f + "|" + line[|f| + 1..];
    assert line == g + "|" + line[|g| + 1..];
    SplitFirst(f, line[|f| + 1..]);
    SplitFirst(g, line[|g| + 1..]);
    assert Split(line)[0] == f && Split(line)[0] == g;
  }

  /** A line that starts with two fields has them as its first two. */
  lemma TwoFields(line: string, a: string, b: string)
    requires NoBar(a) && NoBar(b) && a + "|" + b + "|" <= line
    ensures InFamily(line, a) && |Split(line)| >= 3 && Split(line)[0] == a && Split(line)[1] == b
  {
    var head := a + "|" + b + "|";
    var rest := line[|head|..];
    assert line == a + "|" + (b + "|" + rest);
    SplitFirst(a, b + "|" + rest);
    SplitFirst(b, rest);
  }

  predicate IsDigit(c: char) {
    '0' <= c <= '9'
  }

  /** `0|[1-9][0-9]*` */
  predicate IsUnsigned(s: string) {
    && s != ""
    && (forall i :: 0 <= i < |s| ==> IsDigit(s[i]))
    && (s[0] == '0' ==> |s| == 1)
  }

  /** `0|-?[1-9][0-9]*` */
  predicate IsSigned(s: string) {
    IsUnsigned(s) || (|s| > 1 && s[0] == '-' && IsUnsigned(s[1..]) && s[1] != '0')
  }

  function Value(s: string): nat {
    if s == "" then 0
    else Value(s[..|s| - 1]) * 10 + (if IsDigit(s[|s| - 1]) then s[|s| - 1] as int - '0' as int else 0)
  }

  /** The numeral of a number. */
  function Numeral(n: nat): (s: string)
    ensures s != "" && (s[0] == '0' ==> |s| == 1 && n == 0)
    ensures forall i :: 0 <= i < |s| ==> IsDigit(s[i])
  {
    if n < 10 then [('0' as int + n) as char]
    else Numeral(n / 10) + [('0' as int + n % 10) as char]
  }

  /** Every number has its numeral, and the only canonical one. */
  lemma {:induction false} ValueOfNumeral(n: nat)
    ensures IsUnsigned(Numeral(n)) && Value(Numeral(n)) == n
  {
    if n < 10 {
      assert Numeral(n)[..0] == "";
    } else {
      ValueOfNumeral(n / 10);
      assert Numeral(n)[..|Numeral(n)| - 1] == Numeral(n / 10);
    }
  }

  lemma {:induction false} CanonicalIsNumeral(s: string)
    requires IsUnsigned(s)
    ensures s == Numeral(Value(s)) && (s[0] != '0' ==> Value(s) > 0)
    decreases |s|
  {
    var n := |s| - 1;
    if n == 0 {
      assert s[..0] == "";
    } else {
      CanonicalIsNumeral(s[..n]);
      assert s == s[..n] + [s[n]];
    }
  }

  /** A non-empty field without separators or NUL. */
  predicate IsPlain(s: string) {
    s != "" && '\0' !in s && '\r' !in s && '\n' !in s && NoBar(s)
  }

  /** The lines of one family, in order. */
  function Only(lines: seq<string>, family: string): (r: seq<string>)
    ensures forall l {:trigger l in r} :: l in r <==> l in lines && InFamily(l, family)
  {
    if lines == [] then []
    else if InFamily(lines[0], family) then [lines[0]] + Only(lines[1..], family)
    else Only(lines[1..], family)
  }

  lemma {:induction false} OnlyAppend(a: seq<string>, b: seq<string>, family: string)
    ensures Only(a + b, family) == Only(a, family) + Only(b, family)
  {
    if a == [] {
      assert a + b == b;
    } else {
      assert (a + b)[1..] == a[1..] + b;
      OnlyAppend(a[1..], b, family);
    }
  }

  lemma {:induction false} OnlyCounts(lines: seq<string>, family: string, x: string)
    ensures multiset(Only(lines, family))[x] == if InFamily(x, family) then multiset(lines)[x] else 0
  {
    if lines == [] {
    } else {
      assert lines == [lines[0]] + lines[1..];
      OnlyCounts(lines[1..], family, x);
    }
  }

  /** A family's lines, as a multiset, do not depend on the order of the manifest. */
  lemma OnlyOfPermutation(a: seq<string>, b: seq<string>, family: string)
    requires multiset(a) == multiset(b)
    ensures multiset(Only(a, family)) == multiset(Only(b, family))
    ensures |Only(a, family)| == |Only(b, family)|
  {
    forall x: string
      ensures multiset(Only(a, family))[x] == multiset(Only(b, family))[x]
    {
      OnlyCounts(a, family, x);
      OnlyCounts(b, family, x);
    }
    var x, y := Only(a, family), Only(b, family);
    assert multiset(x) == multiset(y);
    assert |x| == |multiset(x)| == |multiset(y)| == |y|;
  }
}
