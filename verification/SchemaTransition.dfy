/** Which manifests are current, legacy or a permitted transition, and what that implies. */
module SchemaTransition {
  import opened ManifestText
  import opened SchemaManifest

  const PREFIX := "SCHEMA_OBJECT"

  function Objects(lines: seq<string>): set<string> {
    set l | l in Only(lines, PREFIX)
  }

  /** The schema objects are listed, each once. */
  predicate ObjectsDistinct(lines: seq<string>) {
    Only(lines, PREFIX) != [] && |Objects(lines)| == |Only(lines, PREFIX)|
  }

  function TableObjects(objects: set<string>, table: string): set<string> {
    set r | r in objects && TableRecord(r, table)
  }

  predicate IsTarget(c: Contract, record: string) {
    exists t :: t in c.targets && TableRecord(record, t)
  }

  function TargetObjects(c: Contract, objects: set<string>): set<string> {
    set r | r in objects && IsTarget(c, r)
  }

  /** The reviewed records of all release tables. */
  function Expected(c: Contract): set<string> {
    set t, r | t in c.targets && r in c.targets[t] :: r
  }

  predicate PreservedExact(c: Contract, lines: seq<string>) {
    TableObjects(Objects(lines), PRESERVED_TABLE) == c.preserved
  }

  /** The release table is as reviewed and not marked missing. */
  predicate IsCurrent(c: Contract, lines: seq<string>, t: string)
    requires t in c.targets
  {
    TableObjects(Objects(lines), t) == c.targets[t] && LegacyMarker(t) !in lines
  }

  /** The release table is marked missing and has no objects. */
  predicate IsAbsent(c: Contract, lines: seq<string>, t: string) {
    TableObjects(Objects(lines), t) == {} && LegacyMarker(t) in lines
  }

  predicate EachCurrentOrAbsent(c: Contract, lines: seq<string>) {
    forall t :: t in c.targets ==> IsCurrent(c, lines, t) || IsAbsent(c, lines, t)
  }

  function Absent(c: Contract, lines: seq<string>): set<string> {
    set t | t in c.targets && IsAbsent(c, lines, t)
  }

  function EmptyRow(t: string): string {
    "TABLE|" + t + "|0|0|0"
  }

  predicate IsData(line: string) {
    InFamily(line, "DATABASE") || InFamily(line, "TABLE") || InFamily(line, "STATUS")
  }

  function Data(lines: seq<string>): set<string> {
    set l | l in lines && IsData(l)
  }

  /** The data lines that do not fingerprint one of these tables. */
  function DataExcept(lines: seq<string>, tables: set<string>): set<string> {
    set l | l in lines && IsData(l) && forall t :: t in tables ==> !InFamily(l, "TABLE|" + t)
  }

  // ---- the three verifications ---------------------------------------------------------

  predicate CurrentAccepted(c: Contract, md5: Md5, lines: seq<string>) {
    && Integrity(c, md5, lines, false)
    && ObjectsDistinct(lines)
    && TargetObjects(c, Objects(lines)) == Expected(c)
    && PreservedExact(c, lines)
  }

  predicate LegacyAccepted(c: Contract, md5: Md5, lines: seq<string>) {
    && Integrity(c, md5, lines, true)
    && ObjectsDistinct(lines)
    && PreservedExact(c, lines)
    && EachCurrentOrAbsent(c, lines)
  }

  /** The comparisons of a transition, beyond the integrity of its two manifests. */
  predicate TransitionChecks(c: Contract, before: seq<string>, after: seq<string>) {
    && ObjectsDistinct(before) && ObjectsDistinct(after)
    && PreservedExact(c, before) && PreservedExact(c, after)
    && TargetObjects(c, Objects(after)) == Expected(c)
    && Objects(before) - TargetObjects(c, Objects(before)) == Objects(after) - TargetObjects(c, Objects(after))
    && EachCurrentOrAbsent(c, before)
    && (forall t :: t in Absent(c, before) ==> EmptyRow(t) in after)
    && Data(before) == DataExcept(after, Absent(c, before))
  }

  predicate TransitionAccepted(c: Contract, md5: Md5, before: seq<string>, after: seq<string>) {
    Integrity(c, md5, before, true) && Integrity(c, md5, after, false) && TransitionChecks(c, before, after)
  }

  datatype State = StateCurrent | LegacyMissingReleaseTables

  datatype Label = CurrentToCurrent | LegacyToCurrent

  function StateOf(c: Contract, lines: seq<string>): State {
    if Absent(c, lines) == {} then StateCurrent else LegacyMissingReleaseTables
  }

  function LabelOf(c: Contract, before: seq<string>): Label {
    if Absent(c, before) == {} then CurrentToCurrent else LegacyToCurrent
  }

  // ---- names and prefixes ----------------------------------------------------------------

  /** A schema record belongs to the columns, indexes or constraints of one table at most. */
  lemma OneTable(record: string, t: string, u: string)
    requires NoBar(t) && NoBar(u) && TableRecord(record, t) && TableRecord(record, u)
    ensures t == u
  {
    RecordFields(record, t);
    RecordFields(record, u);
    var named := Split(record)[2];
    if Split(record)[1] == "C" {
      assert named == "public." + t && named == "public." + u;
      assert named[7..] == t && named[7..] == u;
    }
  }

  /** The kind and the table are the second and third fields of a record. */
  lemma RecordFields(record: string, t: string)
    requires NoBar(t) && TableRecord(record, t)
    ensures |Split(record)| >= 3
    ensures Split(record)[1] == "C" || Split(record)[1] == "I" || Split(record)[1] == "K"
    ensures Split(record)[1] == "C" ==> Split(record)[2] == "public." + t
    ensures Split(record)[1] != "C" ==> Split(record)[2] == t
  {
    if "SCHEMA_OBJECT|C|public." + t + "|" <= record {
      ThreeFields(record, "C", "public." + t);
    } else if "SCHEMA_OBJECT|I|" + t + "|" <= record {
      ThreeFields(record, "I", t);
    } else {
      ThreeFields(record, "K", t);
    }
  }

  lemma ThreeFields(record: string, kind: string, name: string)
    requires NoBar(kind) && NoBar(name) && PREFIX + "|" + kind + "|" + name + "|" <= record
    ensures |Split(record)| >= 3 && Split(record)[1] == kind && Split(record)[2] == name
  {
    var head := PREFIX + "|" + kind + "|" + name + "|";
    var rest := record[|head|..];
    assert record == PREFIX + "|" + (kind + "|" + (name + "|" + rest));
    SplitFirst(PREFIX, kind + "|" + (name + "|" + rest));
    SplitFirst(kind, name + "|" + rest);
    SplitFirst(name, rest);
  }

  lemma MarkerInjective(t: string, u: string)
    requires LegacyMarker(t) == LegacyMarker(u)
    ensures t == u
  {
    var head := "SCHEMA_COMPAT" + "|" + "legacy_missing_table|";
    var tail := "|integrity_checks_deferred_to_current_schema_migration";
    assert LegacyMarker(t) == head + t + tail;
    assert LegacyMarker(u) == head + u + tail;
    SameMiddle(head, t, u, tail);
  }

  lemma SameMiddle(head: string, t: string, u: string, tail: string)
    requires head + t + tail == head + u + tail
    ensures t == u
  {
    assert |t| == |u|;
    assert (head + t + tail)[|head|..|head| + |t|] == t;
    assert (head + u + tail)[|head|..|head| + |u|] == u;
  }

  lemma MarkerFamily(t: string)
    ensures InFamily(LegacyMarker(t), "SCHEMA_COMPAT")
  {
  }

  /** The terminal record is in no other family. */
  lemma BodyHoldsFamily(body: seq<string>, last: string, line: string, family: string)
    requires IsComplete(last) && InFamily(line, family) && NoBar(family) && family != "MANIFEST_COMPLETE"
    ensures line in body + [last] <==> line in Only(body, family)
  {
    if line == last {
      OneFamily(line, family, "MANIFEST_COMPLETE");
    }
  }

  lemma MarkerMember(t: string, tables: set<string>)
    ensures LegacyMarker(t) in Markers(tables) <==> t in tables
  {
    if LegacyMarker(t) in Markers(tables) {
      var u :| u in tables && LegacyMarker(u) == LegacyMarker(t);
      MarkerInjective(t, u);
    }
  }

  /** The markers among the lines are exactly those of the missing tables. */
  lemma MarkedIffMissing(c: Contract, body: seq<string>, last: string, t: string)
    requires CompatExact(c, body) && IsComplete(last)
    ensures LegacyMarker(t) in body + [last] <==> t in Missing(c, body)
  {
    MarkerFamily(t);
    BodyHoldsFamily(body, last, LegacyMarker(t), "SCHEMA_COMPAT");
    MarkerMember(t, Missing(c, body));
    var rows := Only(body, "SCHEMA_COMPAT");
    assert LegacyMarker(t) in rows <==> LegacyMarker(t) in multiset(rows);
    assert LegacyMarker(t) in multiset(Markers(Missing(c, body))) <==> LegacyMarker(t) in Markers(Missing(c, body));
  }

  /** What the integrity of a manifest says about its fingerprints and markers. */
  ghost predicate Fingerprinted(c: Contract, lines: seq<string>) {
    && (forall t :: LegacyMarker(t) in lines <==> t in Missing(c, Body(lines)))
    && (forall l :: InFamily(l, "TABLE") ==> (l in lines <==> l in Only(Body(lines), "TABLE")))
    && DistinctNames(Only(Body(lines), "TABLE"))
    && TableNames(Body(lines)) <= c.expected
    && Missing(c, Body(lines)) <= c.targets.Keys
  }

  lemma IntegrityParts(c: Contract, md5: Md5, lines: seq<string>, allowLegacy: bool)
    requires Integrity(c, md5, lines, allowLegacy)
    ensures lines != [] && IsComplete(lines[|lines| - 1])
    ensures TablesExact(c, Body(lines), allowLegacy) && CompatExact(c, Body(lines))
  {
  }

  lemma TablesFingerprint(c: Contract, lines: seq<string>, allowLegacy: bool)
    requires lines != [] && IsComplete(lines[|lines| - 1])
    requires TablesExact(c, Body(lines), allowLegacy) && CompatExact(c, Body(lines))
    ensures Fingerprinted(c, lines)
    ensures !allowLegacy ==> Missing(c, Body(lines)) == {}
  {
    var body, last := Body(lines), lines[|lines| - 1];
    assert lines == body + [last];
    forall t
      ensures LegacyMarker(t) in lines <==> t in Missing(c, body)
    {
      MarkedIffMissing(c, body, last, t);
    }
    forall l | InFamily(l, "TABLE")
      ensures l in lines <==> l in Only(body, "TABLE")
    {
      BodyHoldsFamily(body, last, l, "TABLE");
    }
  }

  lemma IntegrityFingerprints(c: Contract, md5: Md5, lines: seq<string>, allowLegacy: bool)
    requires Integrity(c, md5, lines, allowLegacy)
    ensures Fingerprinted(c, lines)
    ensures !allowLegacy ==> Missing(c, Body(lines)) == {}
  {
    IntegrityParts(c, md5, lines, allowLegacy);
    TablesFingerprint(c, lines, allowLegacy);
  }

  /** The absent tables of an accepted manifest are those without a fingerprint. */
  lemma AbsentIsMissing(c: Contract, lines: seq<string>)
    requires Fingerprinted(c, lines) && EachCurrentOrAbsent(c, lines)
    ensures Absent(c, lines) == Missing(c, Body(lines))
  {
  }

  // ---- schema objects ----------------------------------------------------------------------

  lemma TargetsArePlain(c: Contract, t: string)
    requires ContractLoaded(c) && t in c.targets
    ensures NoBar(t)
  {
    assert t in c.expected;
  }

  /** Of the expected records, those of one table are exactly its contract. */
  lemma ExpectedOfTable(c: Contract, t: string)
    requires ContractLoaded(c) && t in c.targets
    ensures TableObjects(Expected(c), t) == c.targets[t]
  {
    forall r | r in Expected(c) && TableRecord(r, t)
      ensures r in c.targets[t]
    {
      var u :| u in c.targets && r in c.targets[u];
      TargetsArePlain(c, t);
      TargetsArePlain(c, u);
      OneTable(r, t, u);
    }
  }

  /** Target objects that match their contracts, table by table. */
  lemma TargetsExactByTable(c: Contract, objects: set<string>)
    requires ContractLoaded(c) && TargetObjects(c, objects) == Expected(c)
    ensures forall t :: t in c.targets ==> TableObjects(objects, t) == c.targets[t]
  {
    forall t | t in c.targets
      ensures TableObjects(objects, t) == c.targets[t]
    {
      ExpectedOfTable(c, t);
      assert TableObjects(objects, t) == TableObjects(TargetObjects(c, objects), t);
    }
  }

  /** The reviewed records of some release tables. */
  function ContractsOf(c: Contract, tables: set<string>): set<string> {
    set t, r | t in tables && t in c.targets && r in c.targets[t] :: r
  }

  /** The target objects of a source are the contracts of its tables that are not absent. */
  lemma SourceTargets(c: Contract, before: seq<string>)
    requires ContractLoaded(c) && EachCurrentOrAbsent(c, before)
    ensures TargetObjects(c, Objects(before)) == ContractsOf(c, c.targets.Keys - Absent(c, before))
  {
    forall r | r in TargetObjects(c, Objects(before))
      ensures r in ContractsOf(c, c.targets.Keys - Absent(c, before))
    {
      var t :| t in c.targets && TableRecord(r, t);
      assert r in TableObjects(Objects(before), t);
      assert t !in Absent(c, before);
    }
    forall r | r in ContractsOf(c, c.targets.Keys - Absent(c, before))
      ensures r in TargetObjects(c, Objects(before))
    {
      var t :| t in c.targets && t !in Absent(c, before) && r in c.targets[t];
      assert r in TableObjects(Objects(before), t);
    }
  }

  // ---- data lines ------------------------------------------------------------------------------

  /** A fingerprint line with this table's prefix names this table. */
  lemma RowNames(line: string, t: string)
    requires NoBar(t) && InFamily(line, "TABLE|" + t)
    ensures InFamily(line, "TABLE") && NameOf(line) == t
  {
    assert "TABLE" + "|" + t + "|" == "TABLE|" + t + "|";
    TwoFields(line, "TABLE", t);
  }

  lemma EmptyRowNames(t: string)
    requires NoBar(t)
    ensures InFamily(EmptyRow(t), "TABLE|" + t)
    ensures InFamily(EmptyRow(t), "TABLE") && NameOf(EmptyRow(t)) == t
  {
    assert EmptyRow(t) == "TABLE|" + t + "|" + "0|0|0";
    RowNames(EmptyRow(t), t);
  }

  lemma {:induction false} NamesAtMost(rows: seq<string>)
    ensures |Names(rows)| <= |rows|
  {
    if rows == [] {
      assert Names(rows) == {};
    } else {
      NamesAtMost(rows[1..]);
      assert rows == [rows[0]] + rows[1..];
      assert Names(rows) == {NameOf(rows[0])} + Names(rows[1..]);
    }
  }

  /** Rows with as many names as rows have no name twice. */
  lemma OneRowPerName(rows: seq<string>, i: nat, j: nat)
    requires DistinctNames(rows) && i < j < |rows|
    ensures NameOf(rows[i]) != NameOf(rows[j])
  {
    var rest := rows[..j] + rows[j + 1..];
    assert rows == rows[..j] + [rows[j]] + rows[j + 1..];
    assert rest[i] == rows[i];
    if NameOf(rows[i]) == NameOf(rows[j]) {
      assert Names(rows) == Names(rest) + {NameOf(rows[j])};
      assert NameOf(rows[i]) in Names(rest);
      assert Names(rows) == Names(rest);
      NamesAtMost(rest);
    }
  }

  lemma SameNameSameRow(rows: seq<string>, a: string, b: string)
    requires DistinctNames(rows) && a in rows && b in rows && NameOf(a) == NameOf(b)
    ensures a == b
  {
    var i :| 0 <= i < |rows| && rows[i] == a;
    var j :| 0 <= j < |rows| && rows[j] == b;
    if i < j {
      OneRowPerName(rows, i, j);
    } else if j < i {
      OneRowPerName(rows, j, i);
    }
  }

  function EmptyRows(tables: set<string>): set<string> {
    set t | t in tables :: EmptyRow(t)
  }

  /** The only fingerprint of a newly added table is the empty row. */
  lemma AddedRowIsEmpty(c: Contract, lines: seq<string>, t: string, line: string)
    requires Fingerprinted(c, lines) && NoBar(t)
    requires EmptyRow(t) in lines && line in lines && InFamily(line, "TABLE|" + t)
    ensures line == EmptyRow(t)
  {
    RowNames(line, t);
    EmptyRowNames(t);
    SameNameSameRow(Only(Body(lines), "TABLE"), line, EmptyRow(t));
  }

  /** The data lines after a transition: those before, and one empty row per added table. */
  lemma DataGrowsByEmptyRows(c: Contract, before: seq<string>, after: seq<string>)
    requires ContractLoaded(c) && Fingerprinted(c, after) && TransitionChecks(c, before, after)
    ensures Data(after) == Data(before) + EmptyRows(Absent(c, before))
  {
    var added := Absent(c, before);
    forall l | l in Data(after)
      ensures l in Data(before) + EmptyRows(added)
    {
      if l !in DataExcept(after, added) {
        var t :| t in added && InFamily(l, "TABLE|" + t);
        TargetsArePlain(c, t);
        AddedRowIsEmpty(c, after, t, l);
      }
    }
    forall l | l in EmptyRows(added)
      ensures l in Data(after)
    {
      var t :| t in added && l == EmptyRow(t);
      TargetsArePlain(c, t);
      EmptyRowNames(t);
    }
  }

  /** The two manifests differ by exactly these tables. */
  predicate DiffersBy(c: Contract, before: seq<string>, after: seq<string>, added: set<string>) {
    && Objects(after) == Objects(before) + ContractsOf(c, added)
    && Objects(before) !! ContractsOf(c, added)
    && Data(after) == Data(before) + EmptyRows(added)
    && Data(before) !! EmptyRows(added)
  }

  lemma ContractsSplit(c: Contract, added: set<string>)
    requires added <= c.targets.Keys
    ensures Expected(c) == ContractsOf(c, c.targets.Keys - added) + ContractsOf(c, added)
  {
  }

  lemma AbsentHasNoObject(objects: set<string>, t: string, r: string)
    requires TableObjects(objects, t) == {} && TableRecord(r, t)
    ensures r !in objects
  {
    assert r in objects ==> r in TableObjects(objects, t);
  }

  lemma AddedObjectsAreNew(c: Contract, before: seq<string>)
    requires ContractLoaded(c)
    ensures Objects(before) !! ContractsOf(c, Absent(c, before))
  {
    forall r | r in ContractsOf(c, Absent(c, before))
      ensures r !in Objects(before)
    {
      var t :| t in Absent(c, before) && t in c.targets && r in c.targets[t];
      AbsentHasNoObject(Objects(before), t, r);
    }
  }

  lemma OnlyTargetsDiffer<T>(source: set<T>, sourceTargets: set<T>, target: set<T>, targetTargets: set<T>,
                             kept: set<T>, added: set<T>)
    requires sourceTargets <= source && targetTargets <= target
    requires source - sourceTargets == target - targetTargets
    requires sourceTargets == kept && targetTargets == kept + added
    ensures target == source + added
  {
    assert source == (source - sourceTargets) + sourceTargets;
    assert target == (target - targetTargets) + targetTargets;
  }

  lemma ObjectsDifference(c: Contract, before: seq<string>, after: seq<string>)
    requires ContractLoaded(c) && EachCurrentOrAbsent(c, before)
    requires TargetObjects(c, Objects(after)) == Expected(c)
    requires Objects(before) - TargetObjects(c, Objects(before)) == Objects(after) - TargetObjects(c, Objects(after))
    ensures Objects(after) == Objects(before) + ContractsOf(c, Absent(c, before))
  {
    var added := Absent(c, before);
    SourceTargets(c, before);
    ContractsSplit(c, added);
    OnlyTargetsDiffer(Objects(before), TargetObjects(c, Objects(before)), Objects(after), Expected(c),
                      ContractsOf(c, c.targets.Keys - added), ContractsOf(c, added));
  }

  lemma AddedRowsAreNew(c: Contract, before: seq<string>, after: seq<string>)
    requires ContractLoaded(c) && TransitionChecks(c, before, after)
    ensures Data(before) !! EmptyRows(Absent(c, before))
  {
    forall l | l in EmptyRows(Absent(c, before))
      ensures l !in Data(before)
    {
      var t :| t in Absent(c, before) && l == EmptyRow(t);
      TargetsArePlain(c, t);
      EmptyRowNames(t);
    }
  }

  /** The source and target of a transition, seen by their fingerprints and markers. */
  lemma ChecksDifference(c: Contract, before: seq<string>, after: seq<string>)
    requires ContractLoaded(c) && TransitionChecks(c, before, after)
    requires Fingerprinted(c, before) && Fingerprinted(c, after) && Missing(c, Body(after)) == {}
    ensures AddsExactlyMissing(c, before, after)
  {
    AbsentIsMissing(c, before);
    ObjectsDifference(c, before, after);
    AddedObjectsAreNew(c, before);
    DataGrowsByEmptyRows(c, before, after);
    AddedRowsAreNew(c, before, after);
  }

  /** Exactly the tables that the source did not fingerprint are added. */
  predicate AddsExactlyMissing(c: Contract, before: seq<string>, after: seq<string>) {
    && Absent(c, before) == Missing(c, Body(before))
    && DiffersBy(c, before, after, Missing(c, Body(before)))
    && TableNames(Body(after)) == c.expected
  }

  /**
   The exact difference: an accepted transition adds exactly the tables that the source
   did not fingerprint, with exactly their reviewed objects and no rows; every other
   object and data line is unchanged, and afterwards every expected table is there.
   */
  lemma ExactDifference(c: Contract, md5: Md5, before: seq<string>, after: seq<string>)
    requires ContractLoaded(c) && TransitionAccepted(c, md5, before, after)
    ensures AddsExactlyMissing(c, before, after)
  {
    IntegrityFingerprints(c, md5, before, true);
    IntegrityFingerprints(c, md5, after, false);
    ChecksDifference(c, before, after);
  }

  /** Expected objects outside the added tables were there already; the added ones are targets. */
  lemma SameOutsideTargets(c: Contract, before: set<string>, after: set<string>, added: set<string>)
    requires added <= c.targets.Keys && after == before + ContractsOf(c, added)
    requires ContractLoaded(c)
    ensures before - TargetObjects(c, before) == after - TargetObjects(c, after)
  {
    forall r | r in ContractsOf(c, added)
      ensures IsTarget(c, r)
    {
      var t :| t in added && t in c.targets && r in c.targets[t];
      assert TableRecord(r, t);
    }
  }

  /** A table without a fingerprint has no data line of its own. */
  lemma NoLineOfMissing(c: Contract, lines: seq<string>, t: string, l: string)
    requires ContractLoaded(c) && Fingerprinted(c, lines) && t in Missing(c, Body(lines)) && l in lines
    ensures !InFamily(l, "TABLE|" + t)
  {
    assert t in c.targets;
    TargetsArePlain(c, t);
    if InFamily(l, "TABLE|" + t) {
      RowNames(l, t);
    }
  }

  lemma DataIsExcept(c: Contract, before: seq<string>, after: seq<string>, added: set<string>)
    requires ContractLoaded(c) && Fingerprinted(c, before) && added == Missing(c, Body(before))
    requires Data(after) == Data(before) + EmptyRows(added)
    ensures Data(before) == DataExcept(after, added)
  {
    forall l | l in Data(before)
      ensures l in DataExcept(after, added)
    {
      assert l in Data(after);
      forall t | t in added
        ensures !InFamily(l, "TABLE|" + t)
      {
        NoLineOfMissing(c, before, t, l);
      }
    }
    forall l | l in DataExcept(after, added)
      ensures l in Data(before)
    {
      assert l in Data(after);
      if l in EmptyRows(added) {
        var t :| t in added && l == EmptyRow(t);
        EmptyRowNames(t);
      }
    }
  }

  lemma ExactChecks(c: Contract, md5: Md5, before: seq<string>, after: seq<string>)
    requires ContractLoaded(c) && Fingerprinted(c, before)
    requires LegacyAccepted(c, md5, before) && CurrentAccepted(c, md5, after)
    requires AddsExactlyMissing(c, before, after)
    ensures TransitionChecks(c, before, after)
  {
    var added := Absent(c, before);
    SameOutsideTargets(c, Objects(before), Objects(after), added);
    DataIsExcept(c, before, after, added);
    forall t | t in added
      ensures EmptyRow(t) in after
    {
      assert EmptyRow(t) in Data(after);
    }
  }

  /**
   What a transition is: accepted if and only if the source is accepted as legacy, the
   target as current, and the two differ by exactly the tables the source was missing.
   */
  lemma TransitionIffExact(c: Contract, md5: Md5, before: seq<string>, after: seq<string>)
    requires ContractLoaded(c)
    ensures TransitionAccepted(c, md5, before, after) <==>
            && LegacyAccepted(c, md5, before) && CurrentAccepted(c, md5, after)
            && AddsExactlyMissing(c, before, after)
  {
    if TransitionAccepted(c, md5, before, after) {
      ExactDifference(c, md5, before, after);
    }
    if LegacyAccepted(c, md5, before) && CurrentAccepted(c, md5, after) && AddsExactlyMissing(c, before, after) {
      IntegrityFingerprints(c, md5, before, true);
      ExactChecks(c, md5, before, after);
    }
  }

  // ---- current manifests -----------------------------------------------------------------------

  lemma TargetsFromTables(c: Contract, objects: set<string>)
    requires forall t :: t in c.targets ==> TableObjects(objects, t) == c.targets[t]
    ensures TargetObjects(c, objects) == Expected(c)
  {
    forall r | r in TargetObjects(c, objects)
      ensures r in Expected(c)
    {
      var t :| t in c.targets && TableRecord(r, t);
      assert r in TableObjects(objects, t);
    }
    forall r | r in Expected(c)
      ensures r in TargetObjects(c, objects)
    {
      var t :| t in c.targets && r in c.targets[t];
      assert r in TableObjects(objects, t);
    }
  }

  lemma NoMarkerLines(c: Contract, md5: Md5, lines: seq<string>)
    requires Integrity(c, md5, lines, true) && Missing(c, Body(lines)) == {}
    ensures Integrity(c, md5, lines, false)
  {
    var rows := Only(Body(lines), "SCHEMA_COMPAT");
    assert multiset(rows) == multiset(Markers(Missing(c, Body(lines))));
    assert Markers(Missing(c, Body(lines))) == {};
    assert |rows| == |multiset(rows)| == 0;
  }

  /** Every release table has exactly its reviewed objects, none is missing or marked missing. */
  predicate Complete(c: Contract, lines: seq<string>) {
    && TableNames(Body(lines)) == c.expected
    && forall t :: t in c.targets ==> TableObjects(Objects(lines), t) == c.targets[t] && LegacyMarker(t) !in lines
  }

  lemma CurrentIsComplete(c: Contract, md5: Md5, lines: seq<string>)
    requires ContractLoaded(c) && CurrentAccepted(c, md5, lines)
    ensures Missing(c, Body(lines)) == {} && Complete(c, lines)
  {
    IntegrityFingerprints(c, md5, lines, false);
    CompleteFromTargets(c, lines);
  }

  lemma NothingMissingIsAll<T>(expected: set<T>, present: set<T>)
    requires expected - present == {} && present <= expected
    ensures present == expected
  {
    forall x | x in expected
      ensures x in present
    {
      assert x !in expected - present;
    }
  }

  lemma CompleteFromTargets(c: Contract, lines: seq<string>)
    requires ContractLoaded(c) && Fingerprinted(c, lines) && Missing(c, Body(lines)) == {}
    requires TargetObjects(c, Objects(lines)) == Expected(c)
    ensures Complete(c, lines)
  {
    TargetsExactByTable(c, Objects(lines));
    NothingAbsent(c, lines);
    NothingMissingIsAll(c.expected, TableNames(Body(lines)));
  }

  lemma CompleteIsCurrent(c: Contract, md5: Md5, lines: seq<string>)
    requires LegacyAccepted(c, md5, lines) && Missing(c, Body(lines)) == {}
    ensures CurrentAccepted(c, md5, lines)
  {
    NoMarkerLines(c, md5, lines);
    IntegrityFingerprints(c, md5, lines, false);
    NothingAbsent(c, lines);
    TargetsFromTables(c, Objects(lines));
  }

  /**
   What current means: a manifest is current if and only if it is accepted as legacy and
   fingerprints every expected table, and then every release table is exactly as reviewed.
   */
  lemma CurrentIffNothingMissing(c: Contract, md5: Md5, lines: seq<string>)
    requires ContractLoaded(c)
    ensures CurrentAccepted(c, md5, lines) <==> LegacyAccepted(c, md5, lines) && Missing(c, Body(lines)) == {}
    ensures CurrentAccepted(c, md5, lines) ==> Complete(c, lines)
  {
    if CurrentAccepted(c, md5, lines) {
      CurrentIsLegacy(c, md5, lines);
      CurrentIsComplete(c, md5, lines);
    }
    if LegacyAccepted(c, md5, lines) && Missing(c, Body(lines)) == {} {
      CompleteIsCurrent(c, md5, lines);
    }
  }

  // ---- algebra ---------------------------------------------------------------------------------

  /** An accepted transition accepts its two ends, with the agreeing state. */
  lemma TransitionImpliesEnds(c: Contract, md5: Md5, before: seq<string>, after: seq<string>)
    requires TransitionAccepted(c, md5, before, after)
    ensures LegacyAccepted(c, md5, before) && CurrentAccepted(c, md5, after)
    ensures StateOf(c, before) == StateCurrent <==> LabelOf(c, before) == CurrentToCurrent
  {
  }

  /** Nothing is absent where no expected table is missing. */
  lemma NothingAbsent(c: Contract, lines: seq<string>)
    requires Fingerprinted(c, lines) && Missing(c, Body(lines)) == {}
    ensures Absent(c, lines) == {}
    ensures forall t :: LegacyMarker(t) !in lines
  {
  }

  lemma ChecksCompose(c: Contract, first: seq<string>, second: seq<string>, third: seq<string>)
    requires ContractLoaded(c)
    requires TransitionChecks(c, first, second) && TransitionChecks(c, second, third)
    requires Absent(c, second) == {}
    ensures TransitionChecks(c, first, third)
  {
    var added := Absent(c, first);
    assert DataExcept(third, {}) == Data(third);
    assert Data(second) == Data(third);
    forall t | t in added
      ensures EmptyRow(t) in third
    {
      TargetsArePlain(c, t);
      EmptyRowNames(t);
      assert EmptyRow(t) in Data(second);
    }
    forall l
      ensures l in DataExcept(second, added) <==> l in DataExcept(third, added)
    {
      assert l in Data(second) <==> l in Data(third);
    }
  }

  /** Accepted transitions compose, and the composite has the label of the first. */
  lemma TransitionsCompose(c: Contract, md5: Md5, first: seq<string>, second: seq<string>, third: seq<string>)
    requires ContractLoaded(c)
    requires TransitionAccepted(c, md5, first, second) && TransitionAccepted(c, md5, second, third)
    ensures TransitionAccepted(c, md5, first, third)
    ensures LabelOf(c, second) == CurrentToCurrent
  {
    IntegrityFingerprints(c, md5, second, false);
    NothingAbsent(c, second);
    ChecksCompose(c, first, second, third);
  }

  lemma StrictIsLegacyIntegrity(c: Contract, md5: Md5, lines: seq<string>)
    requires Integrity(c, md5, lines, false)
    ensures Integrity(c, md5, lines, true)
  {
  }

  lemma SelfChecks(c: Contract, lines: seq<string>)
    requires ContractLoaded(c) && Absent(c, lines) == {} && forall t :: LegacyMarker(t) !in lines
    ensures TransitionChecks(c, lines, lines) <==>
            ObjectsDistinct(lines) && TargetObjects(c, Objects(lines)) == Expected(c) && PreservedExact(c, lines)
  {
    assert DataExcept(lines, {}) == Data(lines);
    if TargetObjects(c, Objects(lines)) == Expected(c) {
      TargetsExactByTable(c, Objects(lines));
    }
  }

  /** A manifest is a transition of itself if and only if it is current. */
  lemma SelfTransitionIffCurrent(c: Contract, md5: Md5, lines: seq<string>)
    requires ContractLoaded(c)
    ensures TransitionAccepted(c, md5, lines, lines) <==> CurrentAccepted(c, md5, lines)
  {
    if Integrity(c, md5, lines, false) {
      StrictIsLegacyIntegrity(c, md5, lines);
      IntegrityFingerprints(c, md5, lines, false);
      NothingAbsent(c, lines);
      SelfChecks(c, lines);
    }
  }

  /** A manifest that is current is also accepted as legacy, in the current state. */
  lemma CurrentIsLegacy(c: Contract, md5: Md5, lines: seq<string>)
    requires ContractLoaded(c) && CurrentAccepted(c, md5, lines)
    ensures LegacyAccepted(c, md5, lines) && StateOf(c, lines) == StateCurrent
  {
    SelfTransitionIffCurrent(c, md5, lines);
    IntegrityFingerprints(c, md5, lines, false);
    NothingAbsent(c, lines);
  }
}
