/** Tamper evidence: what may and may not change in an accepted manifest. */
module ManifestTamper {
  import opened ManifestText
  import opened SchemaManifest

  /** Every family name is a plain word, so a record belongs to one family only. */
  lemma FamiliesHaveNoBar(f: string)
    requires f in MANIFEST_FAMILIES || f == "MANIFEST_COMPLETE"
    ensures NoBar(f)
  {
  }

  /** Each non-blank record of an accepted manifest is in exactly one family. */
  lemma ExactlyOneFamily(c: Contract, md5: Md5, lines: seq<string>, allowLegacy: bool, line: string)
    requires Integrity(c, md5, lines, allowLegacy) && line in Body(lines) && line != ""
    ensures exists f :: f in MANIFEST_FAMILIES && InFamily(line, f)
                        && forall g :: g in MANIFEST_FAMILIES && InFamily(line, g) ==> g == f
  {
    var f :| f in MANIFEST_FAMILIES && InFamily(line, f);
    forall g | g in MANIFEST_FAMILIES && InFamily(line, g)
      ensures g == f
    {
      FamiliesHaveNoBar(f);
      FamiliesHaveNoBar(g);
      OneFamily(line, f, g);
    }
  }

  lemma SameMembers(a: seq<string>, b: seq<string>)
    requires multiset(a) == multiset(b)
    ensures |a| == |b|
    ensures forall x :: x in a <==> x in b
  {
    assert |a| == |multiset(a)| == |multiset(b)| == |b|;
    forall x: string
      ensures x in a <==> x in b
    {
      assert x in a <==> x in multiset(a);
      assert x in b <==> x in multiset(b);
    }
  }

  /** The rows of a family and their names, in any order. */
  lemma RowsOfPermutation(a: seq<string>, b: seq<string>, family: string)
    requires multiset(a) == multiset(b)
    ensures var x, y := Only(a, family), Only(b, family);
            && multiset(x) == multiset(y) && |x| == |y|
            && (forall l :: l in x <==> l in y)
            && Names(x) == Names(y) && StatusKeys(x) == StatusKeys(y)
            && (|x| == 1 ==> x == y)
  {
    var x, y := Only(a, family), Only(b, family);
    OnlyOfPermutation(a, b, family);
    SameMembers(x, y);
    if |x| == 1 {
      assert x[0] in y;
    }
  }

  lemma TablesOfPermutation(c: Contract, a: seq<string>, b: seq<string>, allowLegacy: bool)
    requires multiset(a) == multiset(b)
    ensures TablesExact(c, a, allowLegacy) == TablesExact(c, b, allowLegacy)
  {
    RowsOfPermutation(a, b, "TABLE");
  }

  lemma AnomaliesOfPermutation(c: Contract, a: seq<string>, b: seq<string>)
    requires multiset(a) == multiset(b)
    ensures AnomaliesExact(c, a) == AnomaliesExact(c, b)
  {
    RowsOfPermutation(a, b, "TABLE");
    RowsOfPermutation(a, b, "ANOMALY");
  }

  lemma StatusesOfPermutation(c: Contract, a: seq<string>, b: seq<string>)
    requires multiset(a) == multiset(b)
    ensures StatusesExact(c, a) == StatusesExact(c, b)
  {
    RowsOfPermutation(a, b, "STATUS");
  }

  lemma CompatOfPermutation(c: Contract, a: seq<string>, b: seq<string>)
    requires multiset(a) == multiset(b)
    ensures CompatExact(c, a) == CompatExact(c, b)
  {
    RowsOfPermutation(a, b, "TABLE");
    RowsOfPermutation(a, b, "SCHEMA_COMPAT");
  }

  lemma BodyOfPermutation(c: Contract, md5: Md5, a: seq<string>, b: seq<string>, allowLegacy: bool)
    requires multiset(a) == multiset(b)
    ensures BodyExact(c, md5, a, allowLegacy) == BodyExact(c, md5, b, allowLegacy)
  {
    RowsOfPermutation(a, b, "DATABASE");
    RowsOfPermutation(a, b, "DATABASE_SIZE");
    RowsOfPermutation(a, b, "SCHEMA");
    RowsOfPermutation(a, b, "SCHEMA_OBJECT");
    RowsOfPermutation(a, b, "TABLE_DIFF");
    RowsOfPermutation(a, b, "UNVALIDATED_FK");
    RowsOfPermutation(a, b, "SCHEMA_COMPAT");
    TablesOfPermutation(c, a, b, allowLegacy);
    AnomaliesOfPermutation(c, a, b);
    StatusesOfPermutation(c, a, b);
    CompatOfPermutation(c, a, b);
  }

  lemma DeclaredOfPermutation(completion: string, version: string, a: seq<string>, b: seq<string>)
    requires multiset(a) == multiset(b)
    ensures Declares(completion, version, a) == Declares(completion, version, b)
  {
    forall i | 0 <= i < 10
      ensures |Only(a, MANIFEST_FAMILIES[i])| == |Only(b, MANIFEST_FAMILIES[i])|
    {
      OnlyOfPermutation(a, b, MANIFEST_FAMILIES[i]);
    }
  }

  lemma FramedOfPermutation(body: seq<string>, moved: seq<string>, last: string, version: string)
    requires multiset(body) == multiset(moved)
    ensures FramedBody(body, last, version) == FramedBody(moved, last, version)
  {
    SameMembers(body, moved);
    DeclaredOfPermutation(last, version, body, moved);
  }

  /** Acceptance does not depend on the order of the lines before the terminal record. */
  lemma OrderDoesNotMatter(
      c: Contract, md5: Md5, body: seq<string>, moved: seq<string>, last: string, allowLegacy: bool)
    requires multiset(body) == multiset(moved)
    ensures Integrity(c, md5, body + [last], allowLegacy) == Integrity(c, md5, moved + [last], allowLegacy)
  {
    assert Body(body + [last]) == body && Body(moved + [last]) == moved;
    FramedOfPermutation(body, moved, last, c.version);
    BodyOfPermutation(c, md5, body, moved, allowLegacy);
  }

  /** Two bodies that one completion record fits have equally many lines of each family. */
  lemma DeclaredCountsAgree(completion: string, version: string, a: seq<string>, b: seq<string>, f: string)
    requires Declares(completion, version, a) && Declares(completion, version, b) && f in MANIFEST_FAMILIES
    ensures |Only(a, f)| == |Only(b, f)|
  {
    var i :| 0 <= i < 10 && MANIFEST_FAMILIES[i] == f;
  }

  lemma OneMore(a: seq<string>, b: seq<string>, x: string, f: string)
    requires InFamily(x, f)
    ensures |Only(a + [x] + b, f)| == |Only(a + b, f)| + 1
  {
    OnlyAppend(a, b, f);
    OnlyAppend(a + [x], b, f);
    OnlyAppend(a, [x], f);
    assert Only([x], f) == [x] + Only([], f);
  }

  lemma InnerInsertion(version: string, a: seq<string>, b: seq<string>, last: string, x: string)
    requires Framed(a + b + [last], version) && x != ""
    ensures !Framed(a + [x] + b + [last], version)
  {
    assert Body(a + b + [last]) == a + b && Body(a + [x] + b + [last]) == a + [x] + b;
    assert x in a + [x] + b;
    if KnownFamily(x) && Declares(last, version, a + [x] + b) {
      var f :| f in MANIFEST_FAMILIES && InFamily(x, f);
      OneMore(a, b, x, f);
      DeclaredCountsAgree(last, version, a + b, a + [x] + b, f);
    }
  }

  /** A non-blank line more makes a framed manifest unframed, wherever it is put. */
  lemma InsertionIsRejected(version: string, lines: seq<string>, k: nat, x: string)
    requires Framed(lines, version) && k <= |lines| && x != ""
    ensures !Framed(lines[..k] + [x] + lines[k..], version)
  {
    var n := |lines|;
    var changed := lines[..k] + [x] + lines[k..];
    var last := lines[n - 1];
    if k == n {
      assert Body(changed) == lines && last in lines;
    } else {
      var a, b := lines[..k], lines[k..n - 1];
      assert a + b + [last] == lines;
      assert a + [x] + b + [last] == changed;
      InnerInsertion(version, a, b, last, x);
    }
  }

  /** A non-blank line less makes a framed manifest unframed. */
  lemma DeletionIsRejected(version: string, lines: seq<string>, k: nat)
    requires Framed(lines, version) && k < |lines| && lines[k] != ""
    ensures !Framed(lines[..k] + lines[k + 1..], version)
  {
    var changed := lines[..k] + lines[k + 1..];
    assert changed[..k] + [lines[k]] + changed[k..] == lines;
    if Framed(changed, version) {
      InsertionIsRejected(version, changed, k, lines[k]);
    }
  }

  /** Inserting or deleting any single non-blank line of an accepted manifest is noticed. */
  lemma SingleLineTamperIsNoticed(c: Contract, md5: Md5, lines: seq<string>, allowLegacy: bool, k: nat, x: string)
    requires Integrity(c, md5, lines, allowLegacy)
    ensures k <= |lines| && x != "" ==> !Integrity(c, md5, lines[..k] + [x] + lines[k..], allowLegacy)
    ensures k < |lines| && lines[k] != "" ==> !Integrity(c, md5, lines[..k] + lines[k + 1..], allowLegacy)
  {
    if k <= |lines| && x != "" {
      InsertionIsRejected(c.version, lines, k, x);
    }
    if k < |lines| && lines[k] != "" {
      DeletionIsRejected(c.version, lines, k);
    }
  }
}
