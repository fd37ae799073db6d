/** What accepted manifests and transitions say, line by line. */
module ManifestMeaning {
  import opened ManifestText
  import opened SchemaManifest
  import opened SchemaTransition
  import opened ManifestTamper

  // ---- fields and lines ------------------------------------------------------------------

  function Bars(fields: seq<string>): string
    requires fields != []
  {
    if |fields| == 1 then fields[0] else fields[0] + "|" + Bars(fields[1..])
  }

  /** A line is its fields with bars between them. */
  lemma {:induction false} SplitJoins(s: string)
    ensures Bars(Split(s)) == s
    decreases |s|
  {
    if '|' !in s {
    } else {
      var i := FirstBar(s);
      SplitJoins(s[i + 1..]);
      assert s == s[..i] + "|" + s[i + 1..];
      assert ([s[..i]] + Split(s[i + 1..]))[1..] == Split(s[i + 1..]);
    }
  }

  lemma FamilyField(line: string, family: string)
    requires NoBar(family) && InFamily(line, family)
    ensures Split(line)[0] == family
  {
    var rest := line[|family| + 1..];
    assert line == family + "|" + rest;
    SplitFirst(family, rest);
  }

  lemma ThreeBars(p: seq<string>)
    requires |p| == 3
    ensures Bars(p) == p[0] + "|" + p[1] + "|" + p[2]
  {
    assert p[1..] == [p[1], p[2]];
    assert [p[1], p[2]][1..] == [p[2]];
    assert Bars([p[1], p[2]]) == p[1] + "|" + p[2];
  }

  // ---- anomalies --------------------------------------------------------------------------

  function NoneFound(name: string): string {
    "ANOMALY|" + name + "|0"
  }

  lemma AnomalyIsZero(line: string)
    requires InFamily(line, "ANOMALY") && AnomalyExact(line)
    ensures line == NoneFound(NameOf(line))
  {
    FamilyField(line, "ANOMALY");
    SplitJoins(line);
    ThreeBars(Split(line));
  }

  lemma AnomalyRows(c: Contract, body: seq<string>, line: string)
    requires AnomaliesExact(c, body) && InFamily(line, "ANOMALY")
    ensures line in body <==> exists n :: n in ExpectedAnomalies(c, TableNames(body)) && line == NoneFound(n)
  {
    var rows := Only(body, "ANOMALY");
    if line in body {
      assert line in rows;
      AnomalyIsZero(line);
      assert NameOf(line) in Names(rows);
    }
    if n :| n in ExpectedAnomalies(c, TableNames(body)) && line == NoneFound(n) {
      var row :| row in rows && NameOf(row) == n;
      AnomalyIsZero(row);
    }
  }

  /** The table has a fingerprint line. */
  predicate Fingerprint(lines: seq<string>, t: string) {
    exists l :: l in lines && InFamily(l, "TABLE|" + t)
  }

  lemma FirstTwoBars(p: seq<string>)
    requires |p| >= 3
    ensures Bars(p) == (p[0] + "|" + p[1] + "|") + Bars(p[2..])
  {
    assert p[1..][1..] == p[2..];
    assert Bars(p) == p[0] + "|" + (p[1] + "|" + Bars(p[2..]));
  }

  lemma FamilyAndName(line: string, p: seq<string>)
    requires |p| >= 3 && line == Bars(p)
    ensures InFamily(line, p[0] + "|" + p[1])
  {
    FirstTwoBars(p);
    StartsWith(line, p[0] + "|" + p[1] + "|", Bars(p[2..]));
  }

  lemma RowOfTable(line: string)
    requires InFamily(line, "TABLE") && TableExact(line)
    ensures InFamily(line, "TABLE|" + NameOf(line)) && NoBar(NameOf(line))
  {
    FamilyField(line, "TABLE");
    SplitJoins(line);
    FamilyAndName(line, Split(line));
    assert "TABLE" + "|" == "TABLE|";
  }

  lemma StartsWith(line: string, head: string, rest: string)
    requires line == head + rest
    ensures head <= line
  {
  }

  lemma FingerprintIffNamed(c: Contract, body: seq<string>, t: string)
    requires TablesExact(c, body, true) && NoBar(t)
    ensures t in TableNames(body) <==> Fingerprint(body, t)
  {
    var rows := Only(body, "TABLE");
    if t in TableNames(body) {
      var row :| row in rows && NameOf(row) == t;
      RowOfTable(row);
      assert row in body && InFamily(row, "TABLE|" + t);
    }
    if l :| l in body && InFamily(l, "TABLE|" + t) {
      RowNames(l, t);
      assert l in rows;
    }
  }

  /** The anomaly check is due: a basic one, one of the provider table, or one of a product table. */
  predicate Due(c: Contract, body: seq<string>, n: string) {
    || n in c.vocabulary.baseAnomalies
    || (n in c.vocabulary.providerAnomalies && Fingerprint(body, "billing_payment_provider_sessions"))
    || exists t :: t in c.products && Fingerprint(body, t) && n == "invalid_" + t
  }

  /** The line reports a due check with nothing found. */
  ghost predicate SaysNoneFound(c: Contract, body: seq<string>, line: string) {
    exists n :: Due(c, body, n) && line == "ANOMALY|" + n + "|0"
  }

  lemma PlainTable(c: Contract, t: string)
    requires ContractLoaded(c) && (t in c.products || t == PROVIDER_TABLE)
    ensures NoBar(t) && t in c.expected
  {
    assert t in c.targets;
    assert t in c.expected;
  }

  lemma ExpectedIffDue(c: Contract, body: seq<string>, n: string)
    requires ContractLoaded(c) && TablesExact(c, body, true)
    ensures n in ExpectedAnomalies(c, TableNames(body)) <==> Due(c, body, n)
  {
    PlainTable(c, PROVIDER_TABLE);
    FingerprintIffNamed(c, body, PROVIDER_TABLE);
    forall t | t in c.products
      ensures t in TableNames(body) <==> Fingerprint(body, t)
    {
      PlainTable(c, t);
      FingerprintIffNamed(c, body, t);
    }
  }

  lemma BodyAnomalies(c: Contract, body: seq<string>, line: string)
    requires ContractLoaded(c) && TablesExact(c, body, true) && AnomaliesExact(c, body) && InFamily(line, "ANOMALY")
    ensures line in body <==> SaysNoneFound(c, body, line)
  {
    AnomalyRows(c, body, line);
    if n :| n in ExpectedAnomalies(c, TableNames(body)) && line == NoneFound(n) {
      ExpectedIffDue(c, body, n);
    }
    if n :| Due(c, body, n) && line == NoneFound(n) {
      ExpectedIffDue(c, body, n);
    }
  }

  lemma AnomalyParts(c: Contract, md5: Md5, lines: seq<string>, allowLegacy: bool)
    requires Integrity(c, md5, lines, allowLegacy)
    ensures TablesExact(c, Body(lines), true) && AnomaliesExact(c, Body(lines))
  {
  }

  /** An accepted manifest reports exactly the due anomaly checks, each with nothing found. */
  lemma AcceptedAnomalies(c: Contract, md5: Md5, lines: seq<string>, allowLegacy: bool, line: string)
    requires ContractLoaded(c) && Integrity(c, md5, lines, allowLegacy) && InFamily(line, "ANOMALY")
    ensures line in Body(lines) <==> SaysNoneFound(c, Body(lines), line)
  {
    AnomalyParts(c, md5, lines, allowLegacy);
    BodyAnomalies(c, Body(lines), line);
  }

  // ---- the other families ------------------------------------------------------------------

  lemma NoFailuresInBody(c: Contract, md5: Md5, body: seq<string>, allowLegacy: bool, line: string)
    requires BodyExact(c, md5, body, allowLegacy) && line in body
    ensures !InFamily(line, "TABLE_DIFF") && !InFamily(line, "UNVALIDATED_FK")
    ensures !allowLegacy ==> !InFamily(line, "SCHEMA_COMPAT")
  {
    assert line !in Only(body, "TABLE_DIFF") && line !in Only(body, "UNVALIDATED_FK");
    assert !allowLegacy ==> line !in Only(body, "SCHEMA_COMPAT");
  }

  /** An accepted manifest reports no difference and no unvalidated key; a strict one no legacy marker. */
  lemma AcceptedHasNoFailures(c: Contract, md5: Md5, lines: seq<string>, allowLegacy: bool, line: string)
    requires Integrity(c, md5, lines, allowLegacy) && line in Body(lines)
    ensures !InFamily(line, "TABLE_DIFF") && !InFamily(line, "UNVALIDATED_FK")
    ensures !allowLegacy ==> !InFamily(line, "SCHEMA_COMPAT")
  {
    NoFailuresInBody(c, md5, Body(lines), allowLegacy, line);
  }

  lemma FramedVersion(lines: seq<string>, version: string)
    requires Framed(lines, version)
    ensures lines != [] && |Split(lines[|lines| - 1])| == 22 && Split(lines[|lines| - 1])[1] == version
  {
  }

  /** A manifest is accepted under one version only. */
  lemma VersionSeparates(c: Contract, d: Contract, md5: Md5, lines: seq<string>, cLegacy: bool, dLegacy: bool)
    requires Integrity(c, md5, lines, cLegacy) && Integrity(d, md5, lines, dLegacy)
    ensures c.version == d.version
  {
    FramedVersion(lines, c.version);
    FramedVersion(lines, d.version);
  }

  lemma {:induction false} KeysAtMost(rows: seq<string>)
    ensures |StatusKeys(rows)| <= |rows|
  {
    if rows == [] {
      assert StatusKeys(rows) == {};
    } else {
      KeysAtMost(rows[1..]);
      assert rows == [rows[0]] + rows[1..];
      assert StatusKeys(rows) == {StatusKey(rows[0])} + StatusKeys(rows[1..]);
    }
  }

  lemma OneStatusPerKey(rows: seq<string>, i: nat, j: nat)
    requires DistinctKeys(rows) && i < j < |rows|
    ensures StatusKey(rows[i]) != StatusKey(rows[j])
  {
    var rest := rows[..j] + rows[j + 1..];
    assert rows == rows[..j] + [rows[j]] + rows[j + 1..];
    assert rest[i] == rows[i];
    if StatusKey(rows[i]) == StatusKey(rows[j]) {
      assert StatusKeys(rows) == StatusKeys(rest) + {StatusKey(rows[j])};
      assert StatusKey(rows[i]) in StatusKeys(rest);
      assert StatusKeys(rows) == StatusKeys(rest);
      KeysAtMost(rest);
    }
  }

  lemma SameKeySameStatus(rows: seq<string>, a: string, b: string)
    requires DistinctKeys(rows) && a in rows && b in rows && StatusKey(a) == StatusKey(b)
    ensures a == b
  {
    var i :| 0 <= i < |rows| && rows[i] == a;
    var j :| 0 <= j < |rows| && rows[j] == b;
    if i < j {
      OneStatusPerKey(rows, i, j);
    } else if j < i {
      OneStatusPerKey(rows, j, i);
    }
  }

  /** No status is counted twice. */
  lemma StatusesAgree(c: Contract, body: seq<string>, a: string, b: string)
    requires StatusesExact(c, body) && a in body && b in body
    requires InFamily(a, "STATUS") && InFamily(b, "STATUS")
    requires |Split(a)| >= 3 && |Split(b)| >= 3
    requires Split(a)[1] == Split(b)[1] && Split(a)[2] == Split(b)[2]
    ensures a == b
  {
    var rows := Only(body, "STATUS");
    SameKeySameStatus(rows, a, b);
  }

  // ---- schema objects ------------------------------------------------------------------------

  lemma SameSchemaLine(a: seq<string>, b: seq<string>, old': string, new': string)
    requires InFamily(old', "SCHEMA_OBJECT") && InFamily(new', "SCHEMA_OBJECT")
    ensures Only(a + [old'] + b, "SCHEMA") == Only(a + [new'] + b, "SCHEMA")
  {
    if InFamily(old', "SCHEMA") {
      OneFamily(old', "SCHEMA", "SCHEMA_OBJECT");
    }
    if InFamily(new', "SCHEMA") {
      OneFamily(new', "SCHEMA", "SCHEMA_OBJECT");
    }
    OnlyAppend(a + [old'], b, "SCHEMA");
    OnlyAppend(a, [old'], "SCHEMA");
    OnlyAppend(a + [new'], b, "SCHEMA");
    OnlyAppend(a, [new'], "SCHEMA");
    assert Only([old'], "SCHEMA") == Only([], "SCHEMA") == Only([new'], "SCHEMA");
  }

  lemma SchemaDigest(c: Contract, md5: Md5, body: seq<string>, allowLegacy: bool)
    requires BodyExact(c, md5, body, allowLegacy)
    ensures |Only(body, "SCHEMA")| == 1 && |Split(Only(body, "SCHEMA")[0])| == 3
    ensures Split(Only(body, "SCHEMA")[0])[2] == md5(multiset(Only(body, "SCHEMA_OBJECT")))
  {
  }

  lemma OneSchemaLineOneDigest(c: Contract, md5: Md5, body: seq<string>, changed: seq<string>, allowLegacy: bool)
    requires BodyExact(c, md5, body, allowLegacy) && BodyExact(c, md5, changed, allowLegacy)
    requires Only(body, "SCHEMA") == Only(changed, "SCHEMA")
    ensures md5(multiset(Only(body, "SCHEMA_OBJECT"))) == md5(multiset(Only(changed, "SCHEMA_OBJECT")))
  {
    SchemaDigest(c, md5, body, allowLegacy);
    SchemaDigest(c, md5, changed, allowLegacy);
  }

  /** Replacing a schema object by one that changes the digest is noticed. */
  lemma ObjectTamperIsNoticed(
      c: Contract, md5: Md5, a: seq<string>, b: seq<string>, last: string, allowLegacy: bool,
      old': string, new': string)
    requires InFamily(old', "SCHEMA_OBJECT") && InFamily(new', "SCHEMA_OBJECT")
    requires Integrity(c, md5, a + [old'] + b + [last], allowLegacy)
    requires md5(multiset(Only(a + [old'] + b, "SCHEMA_OBJECT")))
             != md5(multiset(Only(a + [new'] + b, "SCHEMA_OBJECT")))
    ensures !Integrity(c, md5, a + [new'] + b + [last], allowLegacy)
  {
    var body, changed := a + [old'] + b, a + [new'] + b;
    assert Body(body + [last]) == body && Body(changed + [last]) == changed;
    SameSchemaLine(a, b, old', new');
    if Integrity(c, md5, changed + [last], allowLegacy) {
      OneSchemaLineOneDigest(c, md5, body, changed, allowLegacy);
    }
  }

  /** The preserved table's records in an accepted manifest are exactly the reviewed ones. */
  lemma PreservedByLines(c: Contract, md5: Md5, lines: seq<string>, line: string)
    requires ContractLoaded(c) && LegacyAccepted(c, md5, lines)
    requires TableRecord(line, "billing_email_verifications")
    ensures line in lines <==> line in c.preserved
  {
    ObjectLine(lines, line, "billing_email_verifications");
    assert line in TableObjects(Objects(lines), PRESERVED_TABLE) <==> line in c.preserved;
  }

  lemma ObjectLine(lines: seq<string>, line: string, t: string)
    requires TableRecord(line, t)
    ensures InFamily(line, "SCHEMA_OBJECT")
    ensures line in lines <==> line in TableObjects(Objects(lines), t)
  {
    assert line in Objects(lines) <==> line in Only(lines, PREFIX);
  }

  // ---- transitions ------------------------------------------------------------------------------

  predicate DataLine(line: string) {
    InFamily(line, "DATABASE") || InFamily(line, "TABLE") || InFamily(line, "STATUS")
  }

  /** The line says that a table that was missing before is now there and empty. */
  predicate NewEmptyTable(c: Contract, before: seq<string>, line: string) {
    exists t :: t in Missing(c, Body(before)) && line == "TABLE|" + t + "|0|0|0"
  }

  /** The line is a reviewed record of a table that was missing before. */
  predicate NewRecord(c: Contract, before: seq<string>, line: string) {
    exists t :: t in Missing(c, Body(before)) && t in c.targets && line in c.targets[t]
  }

  lemma DifferenceByLines(c: Contract, before: seq<string>, after: seq<string>, line: string)
    requires AddsExactlyMissing(c, before, after)
    ensures DataLine(line) ==> (line in after <==> line in before || NewEmptyTable(c, before, line))
    ensures InFamily(line, "SCHEMA_OBJECT") ==> (line in after <==> line in before || NewRecord(c, before, line))
  {
    if DataLine(line) {
      assert line in after <==> line in Data(after);
      assert line in before <==> line in Data(before);
      assert line in EmptyRows(Missing(c, Body(before))) <==> NewEmptyTable(c, before, line);
    }
    if InFamily(line, "SCHEMA_OBJECT") {
      assert line in after <==> line in Objects(after);
      assert line in before <==> line in Objects(before);
      assert line in ContractsOf(c, Missing(c, Body(before))) <==> NewRecord(c, before, line);
    }
  }

  /**
   A transition line by line: every database, table, status and schema line of the source is
   in the target, and the target's others are one empty fingerprint and the reviewed records
   of each table that the source was missing.
   */
  lemma TransitionByLines(c: Contract, md5: Md5, before: seq<string>, after: seq<string>, line: string)
    requires ContractLoaded(c) && TransitionAccepted(c, md5, before, after)
    ensures DataLine(line) ==> (line in after <==> line in before || NewEmptyTable(c, before, line))
    ensures InFamily(line, "SCHEMA_OBJECT") ==> (line in after <==> line in before || NewRecord(c, before, line))
  {
    ExactDifference(c, md5, before, after);
    DifferenceByLines(c, before, after, line);
  }
}
