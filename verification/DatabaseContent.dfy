/** The manifest of a database without anomalies, and that it is accepted. */
module DatabaseContent {
  import opened ManifestText
  import opened SchemaManifest
  import opened ManifestMeaning
  import opened ManifestRendering
  import opened SchemaTransition

  /** A table with its number of rows and the two halves of its fingerprint. */
  datatype Table = Table(name: string, rows: nat, low: int, high: int)

  /** How many records of one kind are in one status. */
  datatype Count = Count(kind: string, status: string, n: nat)

  datatype Content = Content(
    encoding: string, collation: string, ctype: string, provider: string, locale: string, rules: string,
    size: nat, objects: seq<string>, tables: seq<Table>, counts: seq<Count>)

  // ---- lines -----------------------------------------------------------------------------

  function Signed(n: int): string {
    if n < 0 then "-" + Numeral(-n) else Numeral(n)
  }

  function TableLine(t: Table): string {
    Bars(["TABLE", t.name, Numeral(t.rows), Signed(t.low), Signed(t.high)])
  }

  function CountLine(k: Count): string {
    Bars(["STATUS", k.kind, k.status, Numeral(k.n)])
  }

  function CheckLine(name: string): string {
    Bars(["ANOMALY", name, "0"])
  }

  function DatabaseLine(db: Content): string {
    Bars(["DATABASE", "18", db.encoding, db.collation, db.ctype, db.provider, db.locale, db.rules])
  }

  function SizeLine(db: Content): string {
    Bars(["DATABASE_SIZE", Numeral(db.size)])
  }

  function SchemaLine(db: Content, md5: Md5): string {
    Bars(["SCHEMA", Numeral(|db.objects|), md5(multiset(db.objects))])
  }

  function TableLines(tables: seq<Table>): (lines: seq<string>)
    ensures |lines| == |tables| && forall i :: 0 <= i < |tables| ==> lines[i] == TableLine(tables[i])
  {
    seq(|tables|, i requires 0 <= i < |tables| => TableLine(tables[i]))
  }

  function CountLines(counts: seq<Count>): (lines: seq<string>)
    ensures |lines| == |counts| && forall i :: 0 <= i < |counts| ==> lines[i] == CountLine(counts[i])
  {
    seq(|counts|, i requires 0 <= i < |counts| => CountLine(counts[i]))
  }

  function CheckLines(checks: seq<string>): (lines: seq<string>)
    ensures |lines| == |checks| && forall i :: 0 <= i < |checks| ==> lines[i] == CheckLine(checks[i])
  {
    seq(|checks|, i requires 0 <= i < |checks| => CheckLine(checks[i]))
  }

  function MarkerLines(missing: seq<string>): (lines: seq<string>)
    ensures |lines| == |missing| && forall i :: 0 <= i < |missing| ==> lines[i] == LegacyMarker(missing[i])
  {
    seq(|missing|, i requires 0 <= i < |missing| => LegacyMarker(missing[i]))
  }

  /** The lines of each family: no differences, no unvalidated keys, and every check with zero. */
  function Segments(db: Content, md5: Md5, checks: seq<string>, missing: seq<string>): (s: seq<seq<string>>)
    ensures |s| == 10
  {
    [[DatabaseLine(db)], [SizeLine(db)], [SchemaLine(db, md5)], db.objects, TableLines(db.tables), [],
     CheckLines(checks), CountLines(db.counts), MarkerLines(missing), []]
  }

  // ---- each family is exact --------------------------------------------------------------------

  lemma SignedIsSigned(n: int)
    ensures IsSigned(Signed(n)) && NoBar(Signed(n))
  {
    if n < 0 {
      NumeralIsPlain(-n);
      assert Signed(n)[1..] == Numeral(-n);
    } else {
      NumeralIsPlain(n);
    }
  }

  predicate GoodIdentity(db: Content) {
    && IsEncoding(db.encoding) && IsPlain(db.collation) && IsPlain(db.ctype)
    && (db.provider == "b" || db.provider == "c" || db.provider == "i")
    && (db.locale == "" || IsPlain(db.locale)) && IsPlain(db.rules)
  }

  lemma IdentityIsExact(db: Content)
    requires GoodIdentity(db)
    ensures DatabaseExact(DatabaseLine(db)) && InFamily(DatabaseLine(db), "DATABASE")
  {
    var fields := ["DATABASE", "18", db.encoding, db.collation, db.ctype, db.provider, db.locale, db.rules];
    assert Plain(fields);
    SplitBars(fields);
    BarsFamily(fields);
  }

  lemma SizeIsExact(db: Content)
    requires db.size > 0
    ensures SizeExact(SizeLine(db)) && InFamily(SizeLine(db), "DATABASE_SIZE")
  {
    var fields := ["DATABASE_SIZE", Numeral(db.size)];
    NumeralIsPlain(db.size);
    assert Plain(fields);
    SplitBars(fields);
    BarsFamily(fields);
  }

  lemma SchemaIsExact(db: Content, md5: Md5)
    requires db.objects != [] && IsMd5(md5(multiset(db.objects)))
    ensures SchemaExact(SchemaLine(db, md5), multiset(db.objects), md5) && InFamily(SchemaLine(db, md5), "SCHEMA")
  {
    var fields := ["SCHEMA", Numeral(|db.objects|), md5(multiset(db.objects))];
    NumeralIsPlain(|db.objects|);
    assert Plain(fields);
    SplitBars(fields);
    BarsFamily(fields);
    assert |multiset(db.objects)| == |db.objects|;
  }

  lemma TableIsExact(t: Table)
    requires IsPlain(t.name)
    ensures TableExact(TableLine(t)) && InFamily(TableLine(t), "TABLE") && NameOf(TableLine(t)) == t.name
  {
    var fields := ["TABLE", t.name, Numeral(t.rows), Signed(t.low), Signed(t.high)];
    NumeralIsPlain(t.rows);
    SignedIsSigned(t.low);
    SignedIsSigned(t.high);
    assert Plain(fields);
    SplitBars(fields);
    BarsFamily(fields);
  }

  lemma CheckIsExact(name: string)
    requires IsPlain(name)
    ensures AnomalyExact(CheckLine(name)) && InFamily(CheckLine(name), "ANOMALY") && NameOf(CheckLine(name)) == name
  {
    var fields := ["ANOMALY", name, "0"];
    assert Plain(fields);
    SplitBars(fields);
    BarsFamily(fields);
  }

  lemma CountIsExact(c: Contract, k: Count)
    requires k.kind in c.vocabulary.statusFamilies && NoBar(k.kind) && IsStatusToken(k.status) && k.n > 0
    ensures StatusExact(c, CountLine(k)) && InFamily(CountLine(k), "STATUS")
    ensures StatusKey(CountLine(k)) == (k.kind, k.status)
  {
    var fields := ["STATUS", k.kind, k.status, Numeral(k.n)];
    NumeralIsPlain(k.n);
    assert Plain(fields);
    SplitBars(fields);
    BarsFamily(fields);
  }

  // ---- distinct names --------------------------------------------------------------------------

  function TableSet(tables: seq<Table>): set<string> {
    set t | t in tables :: t.name
  }

  predicate Distinct<T(==)>(items: seq<T>) {
    forall i, j :: 0 <= i < j < |items| ==> items[i] != items[j]
  }

  function TablesNames(tables: seq<Table>): (names: seq<string>)
    ensures |names| == |tables| && forall i :: 0 <= i < |tables| ==> names[i] == tables[i].name
  {
    seq(|tables|, i requires 0 <= i < |tables| => tables[i].name)
  }

  function CountsKeys(counts: seq<Count>): (keys: seq<(string, string)>)
    ensures |keys| == |counts| && forall i :: 0 <= i < |counts| ==> keys[i] == (counts[i].kind, counts[i].status)
  {
    seq(|counts|, i requires 0 <= i < |counts| => (counts[i].kind, counts[i].status))
  }

  lemma {:induction false} AsManyAsListed<T>(items: seq<T>, all: set<T>)
    requires Distinct(items) && forall x :: x in all <==> x in items
    ensures |all| == |items|
    decreases |items|
  {
    if items == [] {
      assert all == {};
    } else {
      var n := |items| - 1;
      assert items == items[..n] + [items[n]];
      AsManyAsListed(items[..n], all - {items[n]});
    }
  }

  lemma NamedRows(rows: seq<string>, names: seq<string>)
    requires |rows| == |names| && forall i :: 0 <= i < |rows| ==> NameOf(rows[i]) == names[i]
    requires Distinct(names)
    ensures Names(rows) == (set n | n in names) && DistinctNames(rows)
  {
    forall n
      ensures n in Names(rows) <==> n in names
    {
      if n in names {
        var i :| 0 <= i < |names| && names[i] == n;
        assert rows[i] in rows;
      }
      if n in Names(rows) {
        var row :| row in rows && NameOf(row) == n;
        var i :| 0 <= i < |rows| && rows[i] == row;
      }
    }
    AsManyAsListed(names, Names(rows));
  }

  lemma KeyedRows(rows: seq<string>, keys: seq<(string, string)>)
    requires |rows| == |keys| && forall i :: 0 <= i < |rows| ==> StatusKey(rows[i]) == keys[i]
    requires Distinct(keys)
    ensures DistinctKeys(rows)
  {
    forall k
      ensures k in StatusKeys(rows) <==> k in keys
    {
      if k in keys {
        var i :| 0 <= i < |keys| && keys[i] == k;
        assert rows[i] in rows;
      }
      if k in StatusKeys(rows) {
        var row :| row in rows && StatusKey(row) == k;
        var i :| 0 <= i < |rows| && rows[i] == row;
      }
    }
    AsManyAsListed(keys, StatusKeys(rows));
  }

  // ---- the whole manifest --------------------------------------------------------------------------

  /** The tables are expected ones, each once; only release tables are missing, and none when strict. */
  predicate GoodTables(c: Contract, db: Content, allowLegacy: bool) {
    && (forall t :: t in db.tables ==> IsPlain(t.name))
    && Distinct(TablesNames(db.tables))
    && (forall n :: n in TablesNames(db.tables) ==> n in c.expected)
    && (forall n :: n in c.expected ==> n in TablesNames(db.tables) || (allowLegacy && n in c.targets))
  }

  predicate GoodCounts(c: Contract, db: Content) {
    && (forall k :: k in db.counts ==>
          k.kind in c.vocabulary.statusFamilies && NoBar(k.kind) && IsStatusToken(k.status) && k.n > 0)
    && Distinct(CountsKeys(db.counts))
  }

  /** Every due anomaly check once. */
  ghost predicate GoodChecks(c: Contract, db: Content, checks: seq<string>) {
    && Distinct(checks)
    && forall n :: n in checks <==>
         || n in c.vocabulary.baseAnomalies
         || (n in c.vocabulary.providerAnomalies && "billing_payment_provider_sessions" in TablesNames(db.tables))
         || exists t :: t in c.products && t in TablesNames(db.tables) && n == "invalid_" + t
  }

  /** Every missing table once. */
  ghost predicate GoodMissing(c: Contract, db: Content, missing: seq<string>) {
    Distinct(missing) && forall t :: t in missing <==> t in c.expected && t !in TablesNames(db.tables)
  }

  predicate GoodObjects(db: Content) {
    db.objects != [] && forall i :: 0 <= i < |db.objects| ==> InFamily(db.objects[i], "SCHEMA_OBJECT")
  }

  ghost predicate Good(
      c: Contract, md5: Md5, db: Content, checks: seq<string>, missing: seq<string>, allowLegacy: bool) {
    && NoBar(c.version)
    && GoodIdentity(db) && db.size > 0 && GoodObjects(db) && IsMd5(md5(multiset(db.objects)))
    && GoodTables(c, db, allowLegacy) && GoodCounts(c, db)
    && (forall n :: n in checks ==> IsPlain(n)) && GoodChecks(c, db, checks) && GoodMissing(c, db, missing)
  }

  lemma TableSegment(c: Contract, db: Content, allowLegacy: bool)
    requires GoodTables(c, db, allowLegacy)
    ensures OfFamily(TableLines(db.tables), "TABLE")
    ensures forall l :: l in TableLines(db.tables) ==> TableExact(l)
    ensures DistinctNames(TableLines(db.tables))
    ensures Names(TableLines(db.tables)) == set n | n in TablesNames(db.tables)
  {
    var rows := TableLines(db.tables);
    forall i | 0 <= i < |rows|
      ensures InFamily(rows[i], "TABLE") && TableExact(rows[i]) && NameOf(rows[i]) == TablesNames(db.tables)[i]
    {
      assert db.tables[i] in db.tables;
      TableIsExact(db.tables[i]);
    }
    NamedRows(rows, TablesNames(db.tables));
  }

  lemma CheckSegment(checks: seq<string>)
    requires Distinct(checks) && forall n :: n in checks ==> IsPlain(n)
    ensures OfFamily(CheckLines(checks), "ANOMALY")
    ensures forall l :: l in CheckLines(checks) ==> AnomalyExact(l)
    ensures DistinctNames(CheckLines(checks)) && Names(CheckLines(checks)) == set n | n in checks
  {
    var rows := CheckLines(checks);
    forall i | 0 <= i < |rows|
      ensures InFamily(rows[i], "ANOMALY") && AnomalyExact(rows[i]) && NameOf(rows[i]) == checks[i]
    {
      assert checks[i] in checks;
      CheckIsExact(checks[i]);
    }
    NamedRows(rows, checks);
  }

  lemma CountSegment(c: Contract, db: Content)
    requires GoodCounts(c, db)
    ensures OfFamily(CountLines(db.counts), "STATUS")
    ensures forall l :: l in CountLines(db.counts) ==> StatusExact(c, l)
    ensures DistinctKeys(CountLines(db.counts))
  {
    var rows := CountLines(db.counts);
    forall i | 0 <= i < |rows|
      ensures InFamily(rows[i], "STATUS") && StatusExact(c, rows[i]) && StatusKey(rows[i]) == CountsKeys(db.counts)[i]
    {
      assert db.counts[i] in db.counts;
      CountIsExact(c, db.counts[i]);
    }
    KeyedRows(rows, CountsKeys(db.counts));
  }

  lemma {:induction false} MarkersOnce(missing: seq<string>, all: set<string>)
    requires Distinct(missing) && forall t :: t in all <==> t in missing
    ensures multiset(MarkerLines(missing)) == multiset(Markers(all))
    decreases |missing|
  {
    if missing == [] {
      assert all == {};
      assert Markers(all) == {};
    } else {
      var n := |missing| - 1;
      var init, last := missing[..n], missing[n];
      assert missing == init + [last];
      MarkersOnce(init, all - {last});
      assert MarkerLines(missing) == MarkerLines(init) + [LegacyMarker(last)];
      if LegacyMarker(last) in Markers(all - {last}) {
        var u :| u in all - {last} && LegacyMarker(u) == LegacyMarker(last);
        MarkerInjective(u, last);
      }
      assert Markers(all) == Markers(all - {last}) + {LegacyMarker(last)};
    }
  }

  lemma MarkerSegment(missing: seq<string>)
    ensures OfFamily(MarkerLines(missing), "SCHEMA_COMPAT")
  {
    forall i | 0 <= i < |missing|
      ensures InFamily(MarkerLines(missing)[i], "SCHEMA_COMPAT")
    {
      MarkerFamily(missing[i]);
    }
  }

  lemma SingleLine(line: string, family: string)
    requires InFamily(line, family)
    ensures OfFamily([line], family)
  {
  }

  lemma HeadFamilies(db: Content, md5: Md5)
    requires GoodIdentity(db) && db.size > 0 && db.objects != [] && IsMd5(md5(multiset(db.objects)))
    ensures OfFamily([DatabaseLine(db)], "DATABASE") && OfFamily([SizeLine(db)], "DATABASE_SIZE")
    ensures OfFamily([SchemaLine(db, md5)], "SCHEMA")
  {
    IdentityIsExact(db);
    SizeIsExact(db);
    SchemaIsExact(db, md5);
    SingleLine(DatabaseLine(db), "DATABASE");
    SingleLine(SizeLine(db), "DATABASE_SIZE");
    SingleLine(SchemaLine(db, md5), "SCHEMA");
  }

  lemma TailFamilies(c: Contract, db: Content, checks: seq<string>, allowLegacy: bool)
    requires GoodTables(c, db, allowLegacy) && GoodCounts(c, db)
    requires Distinct(checks) && forall n :: n in checks ==> IsPlain(n)
    ensures OfFamily(TableLines(db.tables), "TABLE")
    ensures OfFamily(CheckLines(checks), "ANOMALY")
    ensures OfFamily(CountLines(db.counts), "STATUS")
  {
    TableSegment(c, db, allowLegacy);
    CheckSegment(checks);
    CountSegment(c, db);
  }

  lemma SegmentsOrdered(
      c: Contract, md5: Md5, db: Content, checks: seq<string>, missing: seq<string>, allowLegacy: bool)
    requires Good(c, md5, db, checks, missing, allowLegacy)
    ensures Ordered(Segments(db, md5, checks, missing))
  {
    HeadFamilies(db, md5);
    TailFamilies(c, db, checks, allowLegacy);
    MarkerSegment(missing);
    FamiliesOrdered(Segments(db, md5, checks, missing));
  }

  lemma FamiliesOrdered(s: seq<seq<string>>)
    requires |s| == 10
    requires OfFamily(s[0], "DATABASE") && OfFamily(s[1], "DATABASE_SIZE") && OfFamily(s[2], "SCHEMA")
    requires OfFamily(s[3], "SCHEMA_OBJECT") && OfFamily(s[4], "TABLE") && s[5] == [] && OfFamily(s[6], "ANOMALY")
    requires OfFamily(s[7], "STATUS") && OfFamily(s[8], "SCHEMA_COMPAT") && s[9] == []
    ensures Ordered(s)
  {
    forall i | 0 <= i < 10
      ensures OfFamily(s[i], Family(i))
    {
      SegmentFamily(s, i);
    }
  }

  lemma SegmentFamily(s: seq<seq<string>>, i: nat)
    requires |s| == 10 && i < 10
    requires OfFamily(s[0], "DATABASE") && OfFamily(s[1], "DATABASE_SIZE") && OfFamily(s[2], "SCHEMA")
    requires OfFamily(s[3], "SCHEMA_OBJECT") && OfFamily(s[4], "TABLE") && s[5] == [] && OfFamily(s[6], "ANOMALY")
    requires OfFamily(s[7], "STATUS") && OfFamily(s[8], "SCHEMA_COMPAT") && s[9] == []
    ensures OfFamily(s[i], Family(i))
  {
  }

  lemma FamilyLines(s: seq<seq<string>>)
    requires Ordered(s)
    ensures var body := Concat(s);
            && Only(body, "DATABASE") == s[0] && Only(body, "DATABASE_SIZE") == s[1] && Only(body, "SCHEMA") == s[2]
            && Only(body, "SCHEMA_OBJECT") == s[3] && Only(body, "TABLE") == s[4] && Only(body, "TABLE_DIFF") == s[5]
            && Only(body, "ANOMALY") == s[6] && Only(body, "STATUS") == s[7] && Only(body, "SCHEMA_COMPAT") == s[8]
            && Only(body, "UNVALIDATED_FK") == s[9]
  {
    OnlySegment(s, 0);
    OnlySegment(s, 1);
    OnlySegment(s, 2);
    OnlySegment(s, 3);
    OnlySegment(s, 4);
    OnlySegment(s, 5);
    OnlySegment(s, 6);
    OnlySegment(s, 7);
    OnlySegment(s, 8);
    OnlySegment(s, 9);
  }

  lemma ChecksAreExpected(c: Contract, db: Content, checks: seq<string>)
    requires ContractLoaded(c) && GoodChecks(c, db, checks)
    ensures ExpectedAnomalies(c, set n | n in TablesNames(db.tables)) == set n | n in checks
  {
    var present := set n | n in TablesNames(db.tables);
    assert PROVIDER_TABLE in c.expected;
    forall n
      ensures n in ExpectedAnomalies(c, present) <==> n in checks
    {
    }
  }

  /** The printed manifest of a good database. */
  function Manifest(c: Contract, md5: Md5, db: Content, checks: seq<string>, missing: seq<string>): seq<string> {
    Printed(c.version, Segments(db, md5, checks, missing))
  }

  lemma TablesPart(c: Contract, db: Content, body: seq<string>, allowLegacy: bool)
    requires GoodTables(c, db, allowLegacy) && Only(body, "TABLE") == TableLines(db.tables)
    ensures TablesExact(c, body, allowLegacy)
    ensures Names(Only(body, "TABLE")) == set n | n in TablesNames(db.tables)
  {
    TableSegment(c, db, allowLegacy);
  }

  lemma ChecksPart(c: Contract, db: Content, checks: seq<string>, body: seq<string>)
    requires ContractLoaded(c) && GoodChecks(c, db, checks) && forall n :: n in checks ==> IsPlain(n)
    requires Only(body, "ANOMALY") == CheckLines(checks)
    requires Names(Only(body, "TABLE")) == set n | n in TablesNames(db.tables)
    ensures AnomaliesExact(c, body)
  {
    CheckSegment(checks);
    ChecksAreExpected(c, db, checks);
  }

  lemma CompatPart(c: Contract, db: Content, missing: seq<string>, body: seq<string>)
    requires GoodMissing(c, db, missing) && Only(body, "SCHEMA_COMPAT") == MarkerLines(missing)
    requires Names(Only(body, "TABLE")) == set n | n in TablesNames(db.tables)
    ensures CompatExact(c, body)
  {
    MarkersOnce(missing, c.expected - Names(Only(body, "TABLE")));
  }

  /**
   Nothing else is refused: the manifest of any database with a good identity and objects,
   expected tables, every due check at zero and a marker per missing release table passes.
   */
  lemma GoodContentIsAccepted(
      c: Contract, md5: Md5, db: Content, checks: seq<string>, missing: seq<string>, allowLegacy: bool)
    requires ContractLoaded(c) && Good(c, md5, db, checks, missing, allowLegacy)
    ensures Integrity(c, md5, Manifest(c, md5, db, checks, missing), allowLegacy)
    ensures Body(Manifest(c, md5, db, checks, missing)) == Concat(Segments(db, md5, checks, missing))
    ensures Ordered(Segments(db, md5, checks, missing))
  {
    var s := Segments(db, md5, checks, missing);
    SegmentsOrdered(c, md5, db, checks, missing, allowLegacy);
    PrintedIsFramed(c.version, s);
    ContentIsExact(c, md5, db, checks, missing, allowLegacy);
  }

  lemma ContentIsExact(
      c: Contract, md5: Md5, db: Content, checks: seq<string>, missing: seq<string>, allowLegacy: bool)
    requires ContractLoaded(c) && Good(c, md5, db, checks, missing, allowLegacy)
    requires Ordered(Segments(db, md5, checks, missing))
    ensures BodyExact(c, md5, Concat(Segments(db, md5, checks, missing)), allowLegacy)
  {
    var s := Segments(db, md5, checks, missing);
    var body := Concat(s);
    FamilyLines(s);
    IdentityIsExact(db);
    SizeIsExact(db);
    SchemaIsExact(db, md5);
    TablesPart(c, db, body, allowLegacy);
    ChecksPart(c, db, checks, body);
    CountSegment(c, db);
    CompatPart(c, db, missing, body);
    NoMissingWhenStrict(c, db, missing, allowLegacy);
  }

  lemma FirstIsMember<T>(items: seq<T>)
    requires items != []
    ensures items[0] in items
  {
  }

  lemma NoMissingWhenStrict(c: Contract, db: Content, missing: seq<string>, allowLegacy: bool)
    requires GoodTables(c, db, allowLegacy) && GoodMissing(c, db, missing)
    ensures !allowLegacy ==> missing == []
  {
    if !allowLegacy && missing != [] {
      FirstIsMember(missing);
    }
  }
}
