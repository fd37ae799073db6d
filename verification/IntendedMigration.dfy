/**
 The intended migrations are accepted: for every database, adding exactly the missing tables
 as reviewed and empty, and changing nothing else, is a transition.
 */
module IntendedMigration {
  import opened ManifestText
  import opened SchemaManifest
  import opened SchemaTransition
  import opened ManifestMeaning
  import opened ManifestRendering
  import opened DatabaseContent

  /** A database with the anomaly checks and markers that its manifest prints. */
  datatype Print = Print(db: Content, checks: seq<string>, missing: seq<string>)

  function Lines(c: Contract, md5: Md5, p: Print): seq<string> {
    Manifest(c, md5, p.db, p.checks, p.missing)
  }

  ghost predicate Sound(c: Contract, md5: Md5, p: Print, allowLegacy: bool) {
    Good(c, md5, p.db, p.checks, p.missing, allowLegacy)
  }

  predicate Has(db: Content, t: string) {
    t in TablesNames(db.tables)
  }

  /** The object is a record of this table. */
  predicate HasRecord(db: Content, t: string, r: string) {
    r in db.objects && TableRecord(r, t)
  }

  /** Objects are listed once, and release tables and the preserved one have their reviewed records. */
  ghost predicate Reviewed(c: Contract, db: Content) {
    && Distinct(db.objects)
    && (forall r :: HasRecord(db, PRESERVED_TABLE, r) <==> r in c.preserved)
    && (forall t, r :: t in c.targets && Has(db, t) ==> (HasRecord(db, t, r) <==> r in c.targets[t]))
    && (forall t, r :: t in c.targets && !Has(db, t) ==> !HasRecord(db, t, r))
  }

  // ---- what the printed lines hold -------------------------------------------------------

  lemma PrintedFamily(c: Contract, md5: Md5, p: Print, allowLegacy: bool, line: string, i: nat)
    requires ContractLoaded(c) && Sound(c, md5, p, allowLegacy) && i < 10 && InFamily(line, Family(i))
    ensures line in Lines(c, md5, p) <==> line in Segments(p.db, md5, p.checks, p.missing)[i]
  {
    var s := Segments(p.db, md5, p.checks, p.missing);
    SegmentsOrdered(c, md5, p.db, p.checks, p.missing, allowLegacy);
    CompletionSplits(c.version, s);
    FamilyShape(i);
    OnlySegment(s, i);
    BodyHoldsFamily(Concat(s), Completion(c.version, s), line, Family(i));
  }

  lemma PrintedObjects(c: Contract, md5: Md5, p: Print, allowLegacy: bool)
    requires ContractLoaded(c) && Sound(c, md5, p, allowLegacy) && Distinct(p.db.objects)
    ensures forall r :: r in Objects(Lines(c, md5, p)) <==> r in p.db.objects
    ensures ObjectsDistinct(Lines(c, md5, p))
  {
    var s := Segments(p.db, md5, p.checks, p.missing);
    var last := Completion(c.version, s);
    SegmentsOrdered(c, md5, p.db, p.checks, p.missing, allowLegacy);
    CompletionSplits(c.version, s);
    OnlySegment(s, 3);
    OnlyAppend(Concat(s), [last], PREFIX);
    FamilyShape(3);
    if InFamily(last, PREFIX) {
      OneFamily(last, PREFIX, "MANIFEST_COMPLETE");
    }
    assert Only([last], PREFIX) == [];
    assert Only(Lines(c, md5, p), PREFIX) == p.db.objects;
    AsManyAsListed(p.db.objects, Objects(Lines(c, md5, p)));
  }

  lemma PrintedNames(c: Contract, md5: Md5, p: Print, allowLegacy: bool)
    requires ContractLoaded(c) && Sound(c, md5, p, allowLegacy)
    ensures forall t :: t in TableNames(Body(Lines(c, md5, p))) <==> Has(p.db, t)
    ensures forall t :: t in Missing(c, Body(Lines(c, md5, p))) <==> t in c.expected && !Has(p.db, t)
  {
    var s := Segments(p.db, md5, p.checks, p.missing);
    GoodContentIsAccepted(c, md5, p.db, p.checks, p.missing, allowLegacy);
    OnlySegment(s, 4);
    TableSegment(c, p.db, allowLegacy);
  }

  // ---- one database ------------------------------------------------------------------------------

  lemma PrintedTable(c: Contract, db: Content, lines: seq<string>, t: string)
    requires Reviewed(c, db) && t in c.targets && forall r :: r in Objects(lines) <==> r in db.objects
    ensures Has(db, t) ==> TableObjects(Objects(lines), t) == c.targets[t]
    ensures !Has(db, t) ==> TableObjects(Objects(lines), t) == {}
  {
    forall r
      ensures r in TableObjects(Objects(lines), t) <==> HasRecord(db, t, r)
    {
    }
  }

  lemma PrintedPreserved(c: Contract, db: Content, lines: seq<string>)
    requires Reviewed(c, db) && forall r :: r in Objects(lines) <==> r in db.objects
    ensures PreservedExact(c, lines)
  {
    forall r
      ensures r in TableObjects(Objects(lines), PRESERVED_TABLE) <==> HasRecord(db, PRESERVED_TABLE, r)
    {
    }
  }

  lemma EachTable(c: Contract, db: Content, lines: seq<string>)
    requires ContractLoaded(c) && Fingerprinted(c, lines) && Reviewed(c, db)
    requires forall r :: r in Objects(lines) <==> r in db.objects
    requires forall t :: t in Missing(c, Body(lines)) <==> t in c.expected && !Has(db, t)
    ensures EachCurrentOrAbsent(c, lines)
  {
    forall t | t in c.targets
      ensures IsCurrent(c, lines, t) || IsAbsent(c, lines, t)
    {
      PrintedTable(c, db, lines, t);
      assert t in c.expected;
    }
  }

  /** Every sound and reviewed database is accepted as legacy; when nothing is missing, as current. */
  lemma ReviewedIsAccepted(c: Contract, md5: Md5, p: Print, allowLegacy: bool)
    requires ContractLoaded(c) && Sound(c, md5, p, allowLegacy) && Reviewed(c, p.db)
    ensures LegacyAccepted(c, md5, Lines(c, md5, p))
    ensures (forall t :: t in c.expected ==> Has(p.db, t)) ==> CurrentAccepted(c, md5, Lines(c, md5, p))
  {
    var lines := Lines(c, md5, p);
    GoodContentIsAccepted(c, md5, p.db, p.checks, p.missing, allowLegacy);
    LegacyIsWeaker(c, md5, lines, allowLegacy);
    IntegrityFingerprints(c, md5, lines, true);
    PrintedObjects(c, md5, p, allowLegacy);
    PrintedNames(c, md5, p, allowLegacy);
    PrintedPreserved(c, p.db, lines);
    EachTable(c, p.db, lines);
    if forall t :: t in c.expected ==> Has(p.db, t) {
      NothingIn(Missing(c, Body(lines)));
      CurrentIffNothingMissing(c, md5, lines);
    }
  }

  lemma NothingIn<T(!new)>(s: set<T>)
    requires forall x :: x !in s
    ensures s == {}
  {
  }

  lemma LegacyIsWeaker(c: Contract, md5: Md5, lines: seq<string>, allowLegacy: bool)
    requires Integrity(c, md5, lines, allowLegacy)
    ensures Integrity(c, md5, lines, true)
  {
    if !allowLegacy {
      StrictIsLegacyIntegrity(c, md5, lines);
    }
  }

  // ---- a migration -----------------------------------------------------------------------------------

  /** The migration adds the missing tables, empty, with their reviewed records, and nothing else. */
  ghost predicate Migrated(c: Contract, before: Content, after: Content) {
    && DatabaseLine(after) == DatabaseLine(before)
    && (forall r :: r in after.objects <==>
          r in before.objects || exists t :: t in c.targets && !Has(before, t) && r in c.targets[t])
    && (forall t: Table :: t in after.tables <==>
          t in before.tables || (t == Table(t.name, 0, 0, 0) && t.name in c.expected && !Has(before, t.name)))
    && (forall k: Count :: k in after.counts <==> k in before.counts)
  }

  lemma EmptyTableLine(t: string)
    ensures TableLine(Table(t, 0, 0, 0)) == EmptyRow(t)
  {
    var fields := ["TABLE", t, "0", "0", "0"];
    assert Numeral(0) == "0" && Signed(0) == "0";
    assert fields[1..] == [t, "0", "0", "0"];
    assert [t, "0", "0", "0"][1..] == ["0", "0", "0"];
    assert ["0", "0", "0"][1..] == ["0", "0"];
    assert ["0", "0"][1..] == ["0"];
    assert Bars(["0", "0", "0"]) == "0|0|0";
    assert Bars([t, "0", "0", "0"]) == t + "|" + "0|0|0";
  }

  lemma LineOfTable(tables: seq<Table>, line: string)
    ensures line in TableLines(tables) <==> exists t :: t in tables && line == TableLine(t)
  {
    if line in TableLines(tables) {
      var i :| 0 <= i < |tables| && TableLines(tables)[i] == line;
      assert tables[i] in tables;
    }
    if t :| t in tables && line == TableLine(t) {
      var i :| 0 <= i < |tables| && tables[i] == t;
      assert TableLines(tables)[i] == line;
    }
  }

  lemma LineOfCount(counts: seq<Count>, line: string)
    ensures line in CountLines(counts) <==> exists k :: k in counts && line == CountLine(k)
  {
    if line in CountLines(counts) {
      var i :| 0 <= i < |counts| && CountLines(counts)[i] == line;
      assert counts[i] in counts;
    }
    if k :| k in counts && line == CountLine(k) {
      var i :| 0 <= i < |counts| && counts[i] == k;
      assert CountLines(counts)[i] == line;
    }
  }

  /** The data lines of a printed manifest. */
  ghost predicate PrintsData(db: Content, line: string) {
    line == DatabaseLine(db) || line in TableLines(db.tables) || line in CountLines(db.counts)
  }

  lemma PrintedData(c: Contract, md5: Md5, p: Print, allowLegacy: bool, line: string)
    requires ContractLoaded(c) && Sound(c, md5, p, allowLegacy)
    ensures line in Data(Lines(c, md5, p)) <==> PrintsData(p.db, line)
  {
    var s := Segments(p.db, md5, p.checks, p.missing);
    HeadFamilies(p.db, md5);
    TailFamilies(c, p.db, p.checks, allowLegacy);
    DataFamilies();
    if InFamily(line, Family(0)) {
      PrintedFamily(c, md5, p, allowLegacy, line, 0);
    }
    if InFamily(line, Family(4)) {
      PrintedFamily(c, md5, p, allowLegacy, line, 4);
    }
    if InFamily(line, Family(7)) {
      PrintedFamily(c, md5, p, allowLegacy, line, 7);
    }
    DataIsOfOne(p.db, line);
  }

  lemma DataFamilies()
    ensures Family(0) == "DATABASE" && Family(4) == "TABLE" && Family(7) == "STATUS"
  {
  }

  /** A data line is in the segment of its own family. */
  lemma DataIsOfOne(db: Content, line: string)
    requires OfFamily([DatabaseLine(db)], "DATABASE") && OfFamily(TableLines(db.tables), "TABLE")
    requires OfFamily(CountLines(db.counts), "STATUS")
    ensures line == DatabaseLine(db) ==> InFamily(line, "DATABASE")
    ensures line in TableLines(db.tables) ==> InFamily(line, "TABLE")
    ensures line in CountLines(db.counts) ==> InFamily(line, "STATUS")
    ensures InFamily(line, "DATABASE") ==> !InFamily(line, "TABLE") && !InFamily(line, "STATUS")
    ensures InFamily(line, "TABLE") ==> !InFamily(line, "STATUS")
  {
    assert InFamily([DatabaseLine(db)][0], "DATABASE");
    if InFamily(line, "DATABASE") && InFamily(line, "TABLE") {
      OneFamily(line, "DATABASE", "TABLE");
    }
    if InFamily(line, "DATABASE") && InFamily(line, "STATUS") {
      OneFamily(line, "DATABASE", "STATUS");
    }
    if InFamily(line, "TABLE") && InFamily(line, "STATUS") {
      OneFamily(line, "TABLE", "STATUS");
    }
  }

  ghost predicate NewEmptyRow(c: Contract, before: Content, line: string) {
    exists n :: n in c.expected && !Has(before, n) && line == EmptyRow(n)
  }

  lemma DataGrows(c: Contract, before: Content, after: Content, line: string)
    requires Migrated(c, before, after)
    ensures PrintsData(after, line) <==> PrintsData(before, line) || NewEmptyRow(c, before, line)
  {
    LineOfTable(before.tables, line);
    LineOfTable(after.tables, line);
    LineOfCount(before.counts, line);
    LineOfCount(after.counts, line);
    if t :| t in after.tables && line == TableLine(t) {
      EmptyTableLine(t.name);
    }
    if n :| n in c.expected && !Has(before, n) && line == EmptyRow(n) {
      EmptyTableLine(n);
      assert Table(n, 0, 0, 0) in after.tables;
    }
  }

  /** The two prints have the objects, data and tables that the migration says. */
  ghost predicate PrintsMigration(
      c: Contract, before: Content, after: Content, source: seq<string>, target: seq<string>) {
    && (forall r :: r in Objects(source) <==> r in before.objects)
    && (forall r :: r in Objects(target) <==> r in after.objects)
    && (forall l :: l in Data(source) <==> PrintsData(before, l))
    && (forall l :: l in Data(target) <==> PrintsData(after, l))
    && (forall t :: t in Missing(c, Body(source)) <==> t in c.expected && !Has(before, t))
    && TableNames(Body(target)) == c.expected
  }

  lemma ObjectsGrow(c: Contract, before: Content, after: Content, source: seq<string>, target: seq<string>)
    requires ContractLoaded(c) && Migrated(c, before, after) && PrintsMigration(c, before, after, source, target)
    ensures Objects(target) == Objects(source) + ContractsOf(c, Missing(c, Body(source)))
  {
    var missing := Missing(c, Body(source));
    forall r
      ensures r in Objects(target) <==> r in Objects(source) + ContractsOf(c, missing)
    {
      if t :| t in c.targets && !Has(before, t) && r in c.targets[t] {
        assert t in c.expected;
        assert t in missing;
      }
      if r in ContractsOf(c, missing) {
        var t :| t in missing && t in c.targets && r in c.targets[t];
        assert !Has(before, t);
      }
    }
  }

  lemma RowsGrow(c: Contract, before: Content, after: Content, source: seq<string>, target: seq<string>)
    requires Migrated(c, before, after) && PrintsMigration(c, before, after, source, target)
    ensures Data(target) == Data(source) + EmptyRows(Missing(c, Body(source)))
  {
    var missing := Missing(c, Body(source));
    forall l
      ensures l in Data(target) <==> l in Data(source) + EmptyRows(missing)
    {
      DataGrows(c, before, after, l);
      if l in EmptyRows(missing) {
        var n :| n in missing && l == EmptyRow(n);
        assert NewEmptyRow(c, before, l);
      }
      if NewEmptyRow(c, before, l) {
        var n :| n in c.expected && !Has(before, n) && l == EmptyRow(n);
        assert n in missing;
      }
    }
  }

  /** The empty row of a missing table is not among the lines. */
  lemma EmptyRowIsNew(c: Contract, lines: seq<string>)
    requires ContractLoaded(c) && Fingerprinted(c, lines)
    ensures Data(lines) !! EmptyRows(Missing(c, Body(lines)))
  {
    forall l | l in EmptyRows(Missing(c, Body(lines)))
      ensures l !in Data(lines)
    {
      var n :| n in Missing(c, Body(lines)) && l == EmptyRow(n);
      assert n in c.targets;
      TargetsArePlain(c, n);
      EmptyRowNames(n);
    }
  }

  lemma PrintedMigration(c: Contract, md5: Md5, before: Print, after: Print)
    requires ContractLoaded(c) && Sound(c, md5, before, true) && Sound(c, md5, after, false)
    requires Reviewed(c, before.db) && Reviewed(c, after.db)
    ensures PrintsMigration(c, before.db, after.db, Lines(c, md5, before), Lines(c, md5, after))
  {
    var source, target := Lines(c, md5, before), Lines(c, md5, after);
    PrintedObjects(c, md5, before, true);
    PrintedObjects(c, md5, after, false);
    PrintedNames(c, md5, before, true);
    AllTablesThere(c, md5, after);
    forall l
      ensures l in Data(source) <==> PrintsData(before.db, l)
      ensures l in Data(target) <==> PrintsData(after.db, l)
    {
      PrintedData(c, md5, before, true, l);
      PrintedData(c, md5, after, false, l);
    }
  }

  lemma AllTablesThere(c: Contract, md5: Md5, p: Print)
    requires ContractLoaded(c) && Sound(c, md5, p, false)
    ensures TableNames(Body(Lines(c, md5, p))) == c.expected
    ensures forall t :: t in c.expected ==> Has(p.db, t)
  {
    PrintedNames(c, md5, p, false);
    forall t
      ensures t in TableNames(Body(Lines(c, md5, p))) <==> t in c.expected
    {
      assert Has(p.db, t) ==> t in TablesNames(p.db.tables);
    }
  }

  lemma MigrationAddsMissing(c: Contract, before: Content, after: Content, source: seq<string>, target: seq<string>)
    requires ContractLoaded(c) && Fingerprinted(c, source) && EachCurrentOrAbsent(c, source)
    requires Migrated(c, before, after) && PrintsMigration(c, before, after, source, target)
    ensures AddsExactlyMissing(c, source, target)
  {
    AbsentIsMissing(c, source);
    ObjectsGrow(c, before, after, source, target);
    RowsGrow(c, before, after, source, target);
    AddedObjectsAreNew(c, source);
    EmptyRowIsNew(c, source);
  }

  /**
   The intended migration is accepted: from any sound and reviewed database to the same one
   with the missing tables added, empty and as reviewed.
   */
  lemma MigrationIsAccepted(c: Contract, md5: Md5, before: Print, after: Print)
    requires ContractLoaded(c) && Sound(c, md5, before, true) && Sound(c, md5, after, false)
    requires Reviewed(c, before.db) && Reviewed(c, after.db) && Migrated(c, before.db, after.db)
    ensures TransitionAccepted(c, md5, Lines(c, md5, before), Lines(c, md5, after))
  {
    var source, target := Lines(c, md5, before), Lines(c, md5, after);
    ReviewedIsAccepted(c, md5, before, true);
    ReviewedIsAccepted(c, md5, after, false);
    AllTablesThere(c, md5, after);
    PrintedMigration(c, md5, before, after);
    LegacyParts(c, md5, source);
    MigrationAddsMissing(c, before.db, after.db, source, target);
    TransitionIffExact(c, md5, source, target);
  }

  lemma LegacyParts(c: Contract, md5: Md5, lines: seq<string>)
    requires LegacyAccepted(c, md5, lines)
    ensures Fingerprinted(c, lines) && EachCurrentOrAbsent(c, lines)
  {
    IntegrityFingerprints(c, md5, lines, true);
  }
}
