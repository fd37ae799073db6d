/** No transition creates or loses a row: the fingerprinted row counts keep their total. */
module RowConservation {
  import opened ManifestText
  import opened SchemaManifest
  import opened SchemaTransition

  /** The row count that a fingerprint records. */
  function RowCount(line: string): nat {
    if |Split(line)| > 2 then Value(Split(line)[2]) else 0
  }

  function Total(rows: seq<string>): nat {
    if rows == [] then 0 else RowCount(rows[0]) + Total(rows[1..])
  }

  /** All rows of all fingerprinted tables. */
  function TotalRows(lines: seq<string>): nat {
    Total(Only(Body(lines), "TABLE"))
  }

  predicate NoRepeat(rows: seq<string>) {
    forall i, j :: 0 <= i < j < |rows| ==> rows[i] != rows[j]
  }

  lemma {:induction false} TotalWithout(rows: seq<string>, k: nat)
    requires k < |rows|
    ensures Total(rows) == RowCount(rows[k]) + Total(rows[..k] + rows[k + 1..])
  {
    if k == 0 {
      assert rows[..0] + rows[1..] == rows[1..];
    } else {
      TotalWithout(rows[1..], k - 1);
      assert (rows[..k] + rows[k + 1..])[1..] == rows[1..][..k - 1] + rows[1..][k..];
      assert (rows[..k] + rows[k + 1..])[0] == rows[0];
    }
  }

  lemma WithoutMembers(rows: seq<string>, k: nat)
    requires k < |rows| && NoRepeat(rows)
    ensures var rest := rows[..k] + rows[k + 1..];
            NoRepeat(rest) && forall y :: y in rest <==> y in rows && y != rows[k]
  {
    assert rows == rows[..k] + [rows[k]] + rows[k + 1..];
  }

  /** Lists of distinct lines that differ only in lines counting no row have one total. */
  lemma {:induction false} SameTotal(a: seq<string>, b: seq<string>)
    requires NoRepeat(a) && NoRepeat(b)
    requires forall x :: x in b ==> x in a
    requires forall x :: x in a && x !in b ==> RowCount(x) == 0
    ensures Total(a) == Total(b)
    decreases |a|
  {
    assert b != [] ==> b[0] in b && b[0] in a;
    if a == [] {
    } else {
      WithoutMembers(a, 0);
      assert a[..0] + a[1..] == a[1..];
      if a[0] in b {
        var k :| 0 <= k < |b| && b[k] == a[0];
        WithoutMembers(b, k);
        TotalWithout(b, k);
        SameTotal(a[1..], b[..k] + b[k + 1..]);
      } else {
        SameTotal(a[1..], b);
      }
    }
  }

  lemma DistinctNamesNoRepeat(rows: seq<string>)
    requires DistinctNames(rows)
    ensures NoRepeat(rows)
  {
    forall i, j | 0 <= i < j < |rows|
      ensures rows[i] != rows[j]
    {
      OneRowPerName(rows, i, j);
    }
  }

  lemma EmptyRowCountsNothing(t: string)
    requires NoBar(t)
    ensures RowCount(EmptyRow(t)) == 0
  {
    assert EmptyRow(t) == "TABLE" + "|" + (t + "|" + ("0" + "|" + "0|0"));
    SplitFirst("TABLE", t + "|" + ("0" + "|" + "0|0"));
    SplitFirst(t, "0" + "|" + "0|0");
    SplitFirst("0", "0|0");
    assert Value("0") == Value("") * 10;
  }

  lemma RowsConserved(c: Contract, before: seq<string>, after: seq<string>)
    requires ContractLoaded(c) && Fingerprinted(c, before) && Fingerprinted(c, after)
    requires AddsExactlyMissing(c, before, after)
    ensures TotalRows(before) == TotalRows(after)
  {
    var a, b := Only(Body(after), "TABLE"), Only(Body(before), "TABLE");
    DistinctNamesNoRepeat(a);
    DistinctNamesNoRepeat(b);
    forall x | x in b
      ensures x in a
    {
      assert x in Data(before);
      assert x in Data(after);
    }
    forall x | x in a && x !in b
      ensures RowCount(x) == 0
    {
      assert x in Data(after) && x !in Data(before);
      var t :| t in Missing(c, Body(before)) && x == EmptyRow(t);
      assert t in c.expected;
      EmptyRowCountsNothing(t);
    }
    SameTotal(a, b);
  }

  /** The total row count is conserved by every accepted transition. */
  lemma TransitionConservesRows(c: Contract, md5: Md5, before: seq<string>, after: seq<string>)
    requires ContractLoaded(c) && TransitionAccepted(c, md5, before, after)
    ensures TotalRows(before) == TotalRows(after)
  {
    ExactDifference(c, md5, before, after);
    IntegrityFingerprints(c, md5, before, true);
    IntegrityFingerprints(c, md5, after, false);
    RowsConserved(c, before, after);
  }
}
