/** The integrity of one database manifest. */
module SchemaManifest {
  import opened ManifestText

  /** The anomaly checks and status families that a verifier version knows. */
  datatype Vocabulary = Vocabulary(
    baseAnomalies: set<string>, providerAnomalies: set<string>, statusFamilies: set<string>)

  /** One frozen schema contract: its tables, and the reviewed records of each release table. */
  datatype Contract = Contract(
    version: string,
    expected: set<string>,
    products: set<string>,
    targets: map<string, set<string>>,
    preserved: set<string>,
    vocabulary: Vocabulary)

  const PROVIDER_TABLE := "billing_payment_provider_sessions"
  const TERMS_TABLE := "billing_purchase_terms"
  const PRESERVED_TABLE := "billing_email_verifications"

  const MANIFEST_FAMILIES: seq<string> :=
    ["DATABASE", "DATABASE_SIZE", "SCHEMA", "SCHEMA_OBJECT", "TABLE", "TABLE_DIFF", "ANOMALY", "STATUS",
     "SCHEMA_COMPAT", "UNVALIDATED_FK"]

  /** The schema record is a column, index or constraint of this table. */
  predicate TableRecord(record: string, table: string) {
    || "SCHEMA_OBJECT|C|public." + table + "|" <= record
    || "SCHEMA_OBJECT|I|" + table + "|" <= record
    || "SCHEMA_OBJECT|K|" + table + "|" <= record
  }

  /** The marker of a release table that the manifest's database does not have yet. */
  function LegacyMarker(table: string): string {
    "SCHEMA_COMPAT" + "|" + ("legacy_missing_table|" + table + "|integrity_checks_deferred_to_current_schema_migration")
  }

  /** What loading the frozen contract files guarantees. */
  predicate ContractLoaded(c: Contract) {
    && (forall t :: t in c.expected ==> IsPlain(t))
    && c.targets.Keys <= c.expected
    && PROVIDER_TABLE in c.targets && TERMS_TABLE in c.targets
    && c.products == c.targets.Keys - {PROVIDER_TABLE, TERMS_TABLE}
    && PRESERVED_TABLE !in c.targets
    && (forall t, r :: t in c.targets && r in c.targets[t] ==> TableRecord(r, t))
    && (forall r :: r in c.preserved ==> TableRecord(r, PRESERVED_TABLE))
  }

  /** MD5 of the sorted schema objects. */
  type Md5 = multiset<string> -> string

  predicate IsComplete(line: string) {
    InFamily(line, "MANIFEST_COMPLETE")
  }

  predicate KnownFamily(line: string) {
    exists f :: f in MANIFEST_FAMILIES && InFamily(line, f)
  }

  /** The completion record declares this version and the count of every family. */
  predicate Declares(completion: string, version: string, body: seq<string>) {
    var parts := Split(completion);
    && |parts| == 22
    && parts[0] == "MANIFEST_COMPLETE" && parts[1] == version
    && forall i :: 0 <= i < 10 ==>
         && parts[2 + 2 * i] == MANIFEST_FAMILIES[i]
         && IsUnsigned(parts[3 + 2 * i])
         && Value(parts[3 + 2 * i]) == |Only(body, MANIFEST_FAMILIES[i])|
  }

  /** The manifest's own records, without the terminal one. */
  function Body(lines: seq<string>): seq<string> {
    if lines == [] then [] else lines[..|lines| - 1]
  }

  /** One completion record, last; all other lines blank or of a known family. */
  predicate FramedBody(body: seq<string>, last: string, version: string) {
    && IsComplete(last)
    && (forall l :: l in body ==> !IsComplete(l) && (l == "" || KnownFamily(l)))
    && Declares(last, version, body)
  }

  predicate Framed(lines: seq<string>, version: string) {
    lines != [] && FramedBody(Body(lines), lines[|lines| - 1], version)
  }

  /** `[A-Z][A-Z0-9_]*` */
  predicate IsEncoding(s: string) {
    && s != "" && 'A' <= s[0] <= 'Z'
    && forall i :: 0 <= i < |s| ==> 'A' <= s[i] <= 'Z' || IsDigit(s[i]) || s[i] == '_'
  }

  /** `[a-z][a-z0-9_]*` */
  predicate IsStatusToken(s: string) {
    && s != "" && 'a' <= s[0] <= 'z'
    && forall i :: 0 <= i < |s| ==> 'a' <= s[i] <= 'z' || IsDigit(s[i]) || s[i] == '_'
  }

  predicate IsMd5(s: string) {
    |s| == 32 && forall i :: 0 <= i < 32 ==> IsDigit(s[i]) || 'a' <= s[i] <= 'f'
  }

  predicate DatabaseExact(line: string) {
    var p := Split(line);
    && |p| == 8 && p[1] == "18" && IsEncoding(p[2]) && IsPlain(p[3]) && IsPlain(p[4])
    && (p[5] == "b" || p[5] == "c" || p[5] == "i")
    && (p[6] == "" || IsPlain(p[6])) && IsPlain(p[7])
  }

  predicate SizeExact(line: string) {
    var p := Split(line);
    |p| == 2 && IsUnsigned(p[1]) && Value(p[1]) > 0
  }

  predicate SchemaExact(line: string, objects: multiset<string>, md5: Md5) {
    var p := Split(line);
    && |p| == 3 && IsUnsigned(p[1]) && Value(p[1]) > 0 && Value(p[1]) == |objects|
    && IsMd5(p[2]) && p[2] == md5(objects)
  }

  predicate TableExact(line: string) {
    var p := Split(line);
    |p| == 5 && IsPlain(p[1]) && IsUnsigned(p[2]) && IsSigned(p[3]) && IsSigned(p[4])
  }

  predicate AnomalyExact(line: string) {
    var p := Split(line);
    |p| == 3 && IsPlain(p[1]) && IsUnsigned(p[2]) && p[2] == "0"
  }

  predicate StatusExact(c: Contract, line: string) {
    var p := Split(line);
    |p| == 4 && p[1] in c.vocabulary.statusFamilies && IsStatusToken(p[2]) && IsUnsigned(p[3]) && Value(p[3]) > 0
  }

  /** The field that names the record, or "" when there is none. */
  function NameOf(line: string): string {
    if |Split(line)| > 1 then Split(line)[1] else ""
  }

  function StatusKey(line: string): (string, string) {
    (NameOf(line), if |Split(line)| > 2 then Split(line)[2] else "")
  }

  function Names(rows: seq<string>): set<string> {
    set l | l in rows :: NameOf(l)
  }

  function StatusKeys(rows: seq<string>): set<(string, string)> {
    set l | l in rows :: StatusKey(l)
  }

  predicate DistinctNames(rows: seq<string>) {
    |Names(rows)| == |rows|
  }

  predicate DistinctKeys(rows: seq<string>) {
    |StatusKeys(rows)| == |rows|
  }

  function TableNames(lines: seq<string>): set<string> {
    Names(Only(lines, "TABLE"))
  }

  function Missing(c: Contract, lines: seq<string>): set<string> {
    c.expected - TableNames(lines)
  }

  function ExpectedAnomalies(c: Contract, present: set<string>): set<string> {
    c.vocabulary.baseAnomalies
    + (if PROVIDER_TABLE in c.expected - present then {} else c.vocabulary.providerAnomalies)
    + set t | t in c.products * present :: "invalid_" + t
  }

  function Markers(tables: set<string>): set<string> {
    set t | t in tables :: LegacyMarker(t)
  }

  predicate TablesExact(c: Contract, body: seq<string>, allowLegacy: bool) {
    var rows := Only(body, "TABLE");
    && (forall l :: l in rows ==> TableExact(l))
    && DistinctNames(rows)
    && Names(rows) <= c.expected
    && (c.expected - Names(rows) != {} ==> allowLegacy && c.expected - Names(rows) <= c.targets.Keys)
  }

  predicate AnomaliesExact(c: Contract, body: seq<string>) {
    var rows := Only(body, "ANOMALY");
    && (forall l :: l in rows ==> AnomalyExact(l))
    && DistinctNames(rows)
    && Names(rows) == ExpectedAnomalies(c, Names(Only(body, "TABLE")))
  }

  predicate StatusesExact(c: Contract, body: seq<string>) {
    var rows := Only(body, "STATUS");
    (forall l :: l in rows ==> StatusExact(c, l)) && DistinctKeys(rows)
  }

  /** The compatibility markers are exactly those of the missing tables, once each. */
  predicate CompatExact(c: Contract, body: seq<string>) {
    multiset(Only(body, "SCHEMA_COMPAT")) == multiset(Markers(c.expected - Names(Only(body, "TABLE"))))
  }

  predicate BodyExact(c: Contract, md5: Md5, body: seq<string>, allowLegacy: bool) {
    && |Only(body, "DATABASE")| == 1 && DatabaseExact(Only(body, "DATABASE")[0])
    && |Only(body, "DATABASE_SIZE")| == 1 && SizeExact(Only(body, "DATABASE_SIZE")[0])
    && |Only(body, "SCHEMA")| == 1 && |Only(body, "SCHEMA_OBJECT")| > 0
    && SchemaExact(Only(body, "SCHEMA")[0], multiset(Only(body, "SCHEMA_OBJECT")), md5)
    && TablesExact(c, body, allowLegacy)
    && AnomaliesExact(c, body)
    && StatusesExact(c, body)
    && Only(body, "TABLE_DIFF") == [] && Only(body, "UNVALIDATED_FK") == []
    && CompatExact(c, body)
    && (!allowLegacy ==> Only(body, "SCHEMA_COMPAT") == [])
  }

  predicate Integrity(c: Contract, md5: Md5, lines: seq<string>, allowLegacy: bool) {
    Framed(lines, c.version) && BodyExact(c, md5, Body(lines), allowLegacy)
  }
}
