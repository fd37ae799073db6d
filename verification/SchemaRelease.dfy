/**
 The psql release drivers: one transaction that commits only after the verifier accepted
 the difference between its two manifests.
 */
module SchemaRelease {
  import opened Patterns
  import opened ManifestText
  import opened SchemaManifest
  import opened SchemaTransition
  import opened SchemaVerifier

  datatype Statement = Statement(table: string, sql: string)

  /** One of the three drivers: what it may add, its reviewed DDL and its closing grants. */
  datatype Release = Release(
    tables: set<string>,
    allowedMissing: set<string>,
    first: seq<Statement>,
    script: seq<Statement>,
    grants: seq<Statement>)

  /** What PostgreSQL makes of a database: its manifests and the effect of statements. */
  datatype Server<!D> = Server(
    manifest: (D, bool) -> seq<string>,
    apply: (D, seq<Statement>) -> Option<D>)

  /** The request that fails, if any; a failing commit may or may not have taken effect. */
  datatype Fault = NoFault | FailsAt(request: nat, durable: bool)

  const LOCK_REQUEST: nat := 0
  const BEFORE_REQUEST: nat := 1
  const DDL_REQUEST: nat := 2
  const AFTER_REQUEST: nat := 3
  const COMMIT_REQUEST: nat := 4

  /** The statements for the missing tables, in script order. */
  function Selected(script: seq<Statement>, missing: set<string>): seq<Statement> {
    if script == [] then []
    else (if script[0].table in missing then [script[0]] else []) + Selected(script[1..], missing)
  }

  lemma {:induction false} SelectedAppend(a: seq<Statement>, s: Statement, missing: set<string>)
    ensures Selected(a + [s], missing) == Selected(a, missing) + Selected([s], missing)
  {
    if a == [] {
      assert a + [s] == [s];
      assert Selected(a, missing) == [];
    } else {
      var head := if a[0].table in missing then [a[0]] else [];
      SelectedAppend(a[1..], s, missing);
      assert (a + [s])[0] == a[0] && (a + [s])[1..] == a[1..] + [s];
      assert Selected(a + [s], missing) == head + Selected(a[1..] + [s], missing);
      assert Selected(a, missing) == head + Selected(a[1..], missing);
    }
  }

  lemma {:induction false} NothingSelected(script: seq<Statement>)
    ensures Selected(script, {}) == []
  {
    if script == [] {
    } else {
      NothingSelected(script[1..]);
    }
  }

  predicate ScriptReviewed(r: Release) {
    forall i :: 0 <= i < |r.script| ==> r.script[i].table in r.tables
  }

  /** The statements one run sends between its two manifests. */
  function Sent(r: Release, missing: set<string>): seq<Statement> {
    Selected(r.first, missing) + Selected(r.script, missing) + r.grants
  }

  // ---- what is sent, without saying how it is selected -------------------------------------

  /** The items of `a` occur in `b` in the same order. */
  predicate Subsequence<T(==)>(a: seq<T>, b: seq<T>)
    decreases |b|
  {
    || a == []
    || (b != [] && ((a[0] == b[0] && Subsequence(a[1..], b[1..])) || Subsequence(a, b[1..])))
  }

  /** As often as in the script if the statement's table is missing, and never otherwise. */
  ghost predicate EachOfMissing(ddl: seq<Statement>, script: seq<Statement>, missing: set<string>) {
    forall s :: multiset(ddl)[s] == if s.table in missing then multiset(script)[s] else 0
  }

  /** The missing tables' statements of the reviewed scripts, in their order, and then the grants. */
  ghost predicate OfMissing(r: Release, missing: set<string>, sent: seq<Statement>) {
    exists ddl :: sent == ddl + r.grants && Subsequence(ddl, r.first + r.script)
                  && EachOfMissing(ddl, r.first + r.script, missing)
  }

  lemma {:induction false} SelectedBoth(a: seq<Statement>, b: seq<Statement>, missing: set<string>)
    ensures Selected(a + b, missing) == Selected(a, missing) + Selected(b, missing)
  {
    if a == [] {
      assert a + b == b;
    } else {
      var head := if a[0].table in missing then [a[0]] else [];
      var both := a + b;
      assert both[0] == a[0] && both[1..] == a[1..] + b;
      SelectedBoth(a[1..], b, missing);
      assert Selected(both, missing) == head + Selected(both[1..], missing);
    }
  }

  lemma {:induction false} SelectedOfMissing(script: seq<Statement>, missing: set<string>)
    ensures Subsequence(Selected(script, missing), script)
    ensures EachOfMissing(Selected(script, missing), script, missing)
  {
    if script == [] {
    } else {
      var rest := Selected(script[1..], missing);
      SelectedOfMissing(script[1..], missing);
      assert script == [script[0]] + script[1..];
      if script[0].table in missing {
        assert ([script[0]] + rest)[1..] == rest;
      } else {
        assert Selected(script, missing) == rest;
      }
    }
  }

  lemma {:induction false} SubsequenceCounts(a: seq<Statement>, b: seq<Statement>, s: Statement)
    requires Subsequence(a, b)
    ensures multiset(a)[s] <= multiset(b)[s]
    decreases |b|
  {
    if a == [] {
    } else {
      assert a == [a[0]] + a[1..] && b == [b[0]] + b[1..];
      if a[0] == b[0] && Subsequence(a[1..], b[1..]) {
        SubsequenceCounts(a[1..], b[1..], s);
      } else {
        SubsequenceCounts(a, b[1..], s);
      }
    }
  }

  /** Order and counts leave one possibility. */
  lemma {:induction false} OnlySelected(ddl: seq<Statement>, script: seq<Statement>, missing: set<string>)
    requires Subsequence(ddl, script) && EachOfMissing(ddl, script, missing)
    ensures ddl == Selected(script, missing)
    decreases |script|
  {
    if script == [] {
    } else {
      var s, rest := script[0], script[1..];
      assert script == [s] + rest;
      if s.table !in missing {
        assert multiset(ddl)[s] == 0;
        assert ddl != [] ==> multiset(ddl)[ddl[0]] > 0;
        assert Subsequence(ddl, rest);
        OnlySelected(ddl, rest, missing);
      } else {
        if Subsequence(ddl, rest) {
          SubsequenceCounts(ddl, rest, s);
        }
        assert ddl == [ddl[0]] + ddl[1..];
        OnlySelected(ddl[1..], rest, missing);
      }
    }
  }

  /** What a run sends is exactly that. */
  lemma SentIffOfMissing(r: Release, missing: set<string>, sent: seq<Statement>)
    ensures OfMissing(r, missing, sent) <==> sent == Sent(r, missing)
  {
    var script := r.first + r.script;
    SelectedBoth(r.first, r.script, missing);
    SelectedOfMissing(script, missing);
    if OfMissing(r, missing, sent) {
      var ddl :| sent == ddl + r.grants && Subsequence(ddl, script) && EachOfMissing(ddl, script, missing);
      OnlySelected(ddl, script, missing);
    }
  }

  /** The target is a verified transition of the source, made by this release's statements. */
  ghost predicate VerifiedChange<D>(server: Server<D>, c: Contract, md5: Md5, r: Release, source: D, target: D) {
    var lines := server.manifest(source, true);
    && TransitionAccepted(c, md5, lines, server.manifest(target, false))
    && Missing(c, lines) <= r.allowedMissing
    && MadeBy(server, r, Missing(c, lines), source, target)
  }

  /** The release's statements for the missing tables turn the source into the target. */
  ghost predicate MadeBy<D>(server: Server<D>, r: Release, missing: set<string>, source: D, target: D) {
    exists sent :: OfMissing(r, missing, sent) && server.apply(source, sent) == Some(target)
  }

  lemma MadeIffSent<D>(server: Server<D>, r: Release, missing: set<string>, source: D, target: D)
    ensures MadeBy(server, r, missing, source, target) <==> server.apply(source, Sent(r, missing)) == Some(target)
  {
    SentIffOfMissing(r, missing, Sent(r, missing));
    if MadeBy(server, r, missing, source, target) {
      var sent :| OfMissing(r, missing, sent) && server.apply(source, sent) == Some(target);
      SentIffOfMissing(r, missing, sent);
    }
  }

  /**
   The database afterwards is the source or a verified transition of it; a reported count
   means the latter, and is the number of tables the source did not have.
   */
  ghost predicate Outcome<D>(
      server: Server<D>, c: Contract, md5: Md5, r: Release, source: D, target: D, count: Option<nat>) {
    && (target == source || VerifiedChange(server, c, md5, r, source, target))
    && (count.Some? ==>
          && VerifiedChange(server, c, md5, r, source, target)
          && count.value == |Missing(c, server.manifest(source, true))|)
  }

  /** The guards on the source manifest, and the reviewed script. */
  predicate Guarded(c: Contract, md5: Md5, r: Release, lines: seq<string>) {
    && LegacyAccepted(c, md5, lines)
    && TableNames(lines) <= c.expected && Missing(c, lines) <= r.allowedMissing
    && ScriptReviewed(r)
  }

  /** The release goes through on this database: guards, statements and verification. */
  ghost predicate Releasable<D>(server: Server<D>, c: Contract, md5: Md5, r: Release, source: D) {
    var lines := server.manifest(source, true);
    Guarded(c, md5, r, lines) && Passes(server, c, md5, lines, server.apply(source, Sent(r, Missing(c, lines))))
  }

  /** The statements took effect, and the verifier accepts their result. */
  ghost predicate Passes<D>(server: Server<D>, c: Contract, md5: Md5, lines: seq<string>, result: Option<D>) {
    match result
    case None => false
    case Some(target) => TransitionAccepted(c, md5, lines, server.manifest(target, false))
  }

  /** When the source is guarded, spelled out. */
  lemma GuardedMeans(c: Contract, md5: Md5, r: Release, lines: seq<string>)
    ensures Guarded(c, md5, r, lines) <==>
            && LegacyAccepted(c, md5, lines)
            && TableNames(lines) <= c.expected && c.expected - TableNames(lines) <= r.allowedMissing
            && forall i :: 0 <= i < |r.script| ==> r.script[i].table in r.tables
  {
  }

  /** The statements' own result is a verified transition of the source. */
  ghost predicate TurnsInto<D>(server: Server<D>, c: Contract, md5: Md5, r: Release, source: D, target: D) {
    var lines := server.manifest(source, true);
    && MadeBy(server, r, c.expected - TableNames(lines), source, target)
    && TransitionAccepted(c, md5, lines, server.manifest(target, false))
  }

  /** When the guarded release goes through: exactly when it turns the source into something. */
  lemma ReleasableMeans<D>(server: Server<D>, c: Contract, md5: Md5, r: Release, source: D)
    requires Guarded(c, md5, r, server.manifest(source, true))
    ensures Releasable(server, c, md5, r, source) <==> exists target :: TurnsInto(server, c, md5, r, source, target)
  {
    var missing := Missing(c, server.manifest(source, true));
    var result := server.apply(source, Sent(r, missing));
    if result.Some? {
      MadeIffSent(server, r, missing, source, result.value);
      assert Passes(server, c, md5, server.manifest(source, true), result)
             <==> TurnsInto(server, c, md5, r, source, result.value);
    }
    if target :| TurnsInto(server, c, md5, r, source, target) {
      MadeIffSent(server, r, missing, source, target);
    }
  }

  lemma UnguardedStays<D>(server: Server<D>, c: Contract, md5: Md5, r: Release, source: D)
    ensures !Guarded(c, md5, r, server.manifest(source, true)) ==> !Releasable(server, c, md5, r, source)
  {
  }

  lemma GuardedIffPasses<D>(server: Server<D>, c: Contract, md5: Md5, r: Release, source: D)
    requires Guarded(c, md5, r, server.manifest(source, true))
    ensures var lines := server.manifest(source, true);
            Releasable(server, c, md5, r, source) <==>
            Passes(server, c, md5, lines, server.apply(source, Sent(r, Missing(c, lines))))
  {
  }

  lemma ReleasedIsVerified<D>(server: Server<D>, c: Contract, md5: Md5, r: Release, source: D, target: D)
    requires Releasable(server, c, md5, r, source)
    requires server.apply(source, Sent(r, Missing(c, server.manifest(source, true)))) == Some(target)
    ensures VerifiedChange(server, c, md5, r, source, target)
  {
    MadeIffSent(server, r, Missing(c, server.manifest(source, true)), source, target);
  }

  /** The database, one session's transaction on it, and the evidence directory. */
  class Session<!D> {
    const server: Server<D>
    const fault: Fault
    var durable: D
    var working: D
    var before: Option<seq<string>>
    var after: Option<seq<string>>

    constructor (server: Server<D>, fault: Fault, database: D)
      ensures this.server == server && this.fault == fault && durable == working == database
      ensures before.None? && after.None?
    {
      this.server, this.fault := server, fault;
      durable, working := database, database;
      before, after := None, None;
    }

    predicate Fails(request: nat) {
      fault.FailsAt? && fault.request == request
    }

    /** No request before this one fails. */
    predicate NoFaultBefore(request: nat) {
      fault.FailsAt? ==> fault.request >= request
    }

    method Query(request: nat, legacy: bool) returns (r: Option<seq<string>>)
      ensures r == if Fails(request) then None else Some(server.manifest(working, legacy))
    {
      if Fails(request) {
        return None;
      }
      return Some(server.manifest(working, legacy));
    }

    method Execute(request: nat, statements: seq<Statement>) returns (ok: bool)
      modifies this`working
      ensures ok == (!Fails(request) && server.apply(old(working), statements).Some?)
      ensures ok ==> server.apply(old(working), statements) == Some(working)
      ensures !ok ==> working == old(working)
    {
      var result := server.apply(working, statements);
      if Fails(request) || result.None? {
        return false;
      }
      working := result.value;
      return true;
    }

    method Commit() returns (ok: bool)
      modifies this`durable
      ensures ok == !Fails(COMMIT_REQUEST)
      ensures durable == if ok || fault.durable then working else old(durable)
    {
      ok := !Fails(COMMIT_REQUEST);
      if ok || fault.durable {
        durable := working;
      }
    }

    /** Closing rolls back what was not committed and drops unconfirmed evidence. */
    method Close(committed: bool)
      modifies this`working, this`after
      ensures working == durable
      ensures after == if committed then old(after) else None
    {
      working := durable;
      if !committed {
        after := None;
      }
    }

    /** The manifest of the locked source, the tables it misses and the DDL they call for. */
    method Prepare(c: Contract, md5: Md5, sha: Sha, r: Release)
      returns (missing: set<string>, statements: Option<seq<Statement>>)
      modifies this`before
      ensures statements.Some? <==> !Fails(BEFORE_REQUEST) && Guarded(c, md5, r, server.manifest(working, true))
      ensures statements.Some? ==>
                && before == Some(server.manifest(working, true))
                && missing == Missing(c, before.value)
                && statements.value == Sent(r, missing)
    {
      missing, statements := {}, None;
      before := Query(BEFORE_REQUEST, true);
      if before.Some? {
        var legacy := VerifyLegacy(c, md5, sha, before.value);
        var inventory := MissingTables(c, r, before.value);
        if legacy.Some? && inventory.Some? {
          missing := inventory.value;
          statements := SelectStatements(r, missing);
        }
      }
    }

    /** The manifest of the result and its verification against the source. */
    method Verify(c: Contract, md5: Md5, sha: Sha) returns (ok: bool)
      requires before.Some?
      modifies this`after
      ensures ok <==> !Fails(AFTER_REQUEST) && TransitionAccepted(c, md5, before.value, server.manifest(working, false))
      ensures ok ==> after == Some(server.manifest(working, false))
    {
      after := Query(AFTER_REQUEST, false);
      if after.None? {
        return false;
      }
      var transition := VerifyTransition(c, md5, sha, before.value, after.value);
      return transition.Some?;
    }

    /** The statements and the verification of what they made. */
    method Change(c: Contract, md5: Md5, sha: Sha, statements: seq<Statement>) returns (ok: bool)
      requires before.Some?
      modifies this`working, this`after
      ensures ok <==> !Fails(DDL_REQUEST) && !Fails(AFTER_REQUEST)
                      && Passes(server, c, md5, before.value, server.apply(old(working), statements))
      ensures ok ==> server.apply(old(working), statements) == Some(working)
      ensures ok ==> after == Some(server.manifest(working, false))
    {
      ok := Execute(DDL_REQUEST, statements);
      if ok {
        ok := Verify(c, md5, sha);
      }
    }

    /** The change of a guarded source by the release's own statements. */
    method ChangeGuarded(c: Contract, md5: Md5, sha: Sha, r: Release, statements: seq<Statement>) returns (ok: bool)
      requires before == Some(server.manifest(working, true)) && Guarded(c, md5, r, before.value)
      requires statements == Sent(r, Missing(c, before.value))
      modifies this`working, this`after
      ensures ok <==> !Fails(DDL_REQUEST) && !Fails(AFTER_REQUEST) && Releasable(server, c, md5, r, old(working))
      ensures ok ==> server.apply(old(working), statements) == Some(working)
      ensures ok ==> after == Some(server.manifest(working, false))
    {
      GuardedIffPasses(server, c, md5, r, working);
      ok := Change(c, md5, sha, statements);
    }

    /** The source is locked, read and guarded. */
    method Lock(c: Contract, md5: Md5, sha: Sha, r: Release)
      returns (missing: set<string>, statements: Option<seq<Statement>>)
      modifies this`before
      ensures statements.Some? <==>
                NoFaultBefore(DDL_REQUEST) && Guarded(c, md5, r, server.manifest(working, true))
      ensures statements.Some? ==>
                && before == Some(server.manifest(working, true))
                && missing == Missing(c, before.value)
                && statements.value == Sent(r, missing)
    {
      missing, statements := {}, None;
      if !Fails(LOCK_REQUEST) {
        missing, statements := Prepare(c, md5, sha, r);
      }
    }

    /** Everything before the commit; the missing tables once the result is verified. */
    method Stage(c: Contract, md5: Md5, sha: Sha, r: Release) returns (missing: Option<set<string>>)
      modifies this`working, this`before, this`after
      ensures missing.Some? <==> NoFaultBefore(COMMIT_REQUEST) && Releasable(server, c, md5, r, old(working))
      ensures missing.Some? ==>
                && missing.value == Missing(c, server.manifest(old(working), true))
                && server.apply(old(working), Sent(r, missing.value)) == Some(working)
                && after == Some(server.manifest(working, false))
    {
      ghost var source := working;
      var tables, statements := Lock(c, md5, sha, r);
      missing := None;
      if statements.None? {
        UnguardedStays(server, c, md5, r, source);
        return;
      }
      var changed := ChangeGuarded(c, md5, sha, r, statements.value);
      if changed {
        missing := Some(tables);
      }
    }

    /**
     The migration: manifest, guard, DDL, manifest, verification, commit.  However it ends,
     the session is closed, and evidence of the result stays only with a confirmed commit.
     A count is reported if and only if no request fails and the release goes through.
     */
    method Migrate(c: Contract, md5: Md5, sha: Sha, r: Release) returns (count: Option<nat>)
      requires working == durable
      modifies this
      ensures working == durable
      ensures count.Some? <==> NoFaultBefore(COMMIT_REQUEST + 1) && Releasable(server, c, md5, r, old(durable))
      ensures Outcome(server, c, md5, r, old(durable), durable, count)
      ensures count.None? && !(Fails(COMMIT_REQUEST) && fault.durable) ==> durable == old(durable)
      ensures after == if count.Some? then Some(server.manifest(durable, false)) else None
    {
      count := None;
      ghost var source := working;
      var missing := Stage(c, md5, sha, r);
      if missing.Some? {
        ReleasedIsVerified(server, c, md5, r, source, working);
        var committed := Commit();
        if committed {
          count := Some(|missing.value|);
        }
      }
      Close(count.Some?);
    }
  }

  /** The tables to add, or nothing when the inventory has others or misses others. */
  method MissingTables(c: Contract, r: Release, lines: seq<string>) returns (missing: Option<set<string>>)
    ensures missing.Some? <==> TableNames(lines) <= c.expected && Missing(c, lines) <= r.allowedMissing
    ensures missing.Some? ==> missing.value == Missing(c, lines)
  {
    var names := TableNames(lines);
    var absent := c.expected - names;
    if names - c.expected != {} || absent - r.allowedMissing != {} {
      assert names <= c.expected ==> names - c.expected == {};
      assert absent <= r.allowedMissing ==> absent - r.allowedMissing == {};
      return None;
    }
    forall x | x in names
      ensures x in c.expected
    {
      assert x !in names - c.expected;
    }
    forall x | x in absent
      ensures x in r.allowedMissing
    {
      assert x !in absent - r.allowedMissing;
    }
    return Some(absent);
  }

  /** The DDL of the missing tables; nothing when a statement escapes the reviewed tables. */
  method SelectStatements(r: Release, missing: set<string>) returns (s: Option<seq<Statement>>)
    ensures s.Some? <==> ScriptReviewed(r)
    ensures s.Some? <==> forall i :: 0 <= i < |r.script| ==> r.script[i].table in r.tables
    ensures s.Some? ==> s.value == Sent(r, missing) && OfMissing(r, missing, s.value)
  {
    s := Select(r, missing);
    SentIffOfMissing(r, missing, Sent(r, missing));
  }

  /** The loop over the script. */
  method Select(r: Release, missing: set<string>) returns (s: Option<seq<Statement>>)
    ensures s.Some? <==> ScriptReviewed(r)
    ensures s.Some? ==> s.value == Sent(r, missing)
  {
    var ddl := Selected(r.first, missing);
    for i := 0 to |r.script|
      invariant forall k :: 0 <= k < i ==> r.script[k].table in r.tables
      invariant ddl == Selected(r.first, missing) + Selected(r.script[..i], missing)
    {
      var statement := r.script[i];
      if statement.table !in r.tables {
        return None;
      }
      assert r.script[..i + 1] == r.script[..i] + [statement];
      SelectedAppend(r.script[..i], statement, missing);
      if statement.table in missing {
        ddl := ddl + [statement];
      }
    }
    assert r.script[..|r.script|] == r.script;
    return Some(ddl + r.grants);
  }

  // ---- what a finished run means ------------------------------------------------------------

  /** The terminal record is no fingerprint, so the driver counts what the verifier counts. */
  lemma SameFingerprints(c: Contract, lines: seq<string>)
    requires lines != [] && IsComplete(lines[|lines| - 1])
    ensures TableNames(lines) == TableNames(Body(lines)) && Missing(c, lines) == Missing(c, Body(lines))
  {
    var last := lines[|lines| - 1];
    assert lines == Body(lines) + [last];
    OnlyAppend(Body(lines), [last], "TABLE");
    if InFamily(last, "TABLE") {
      OneFamily(last, "TABLE", "MANIFEST_COMPLETE");
    }
    assert Only([last], "TABLE") == [];
  }

  /** The count a driver reports is the number of tables that the transition added. */
  lemma CountIsTablesAdded(c: Contract, md5: Md5, before: seq<string>, after: seq<string>)
    requires ContractLoaded(c) && TransitionAccepted(c, md5, before, after)
    ensures Missing(c, before) == Absent(c, before) == TableNames(after) - TableNames(before)
    ensures TableNames(before) <= TableNames(after) == c.expected
  {
    ExactDifference(c, md5, before, after);
    IntegrityParts(c, md5, before, true);
    IntegrityParts(c, md5, after, false);
    SameFingerprints(c, before);
    SameFingerprints(c, after);
  }

  /**
   A second run: once the result of a first run prints the same manifest with the legacy
   switch on, no table is missing, so the run sends only grants and reports zero.
   */
  lemma SecondRunAddsNothing(
      c: Contract, md5: Md5, r: Release, before: seq<string>, after: seq<string>, again: seq<string>)
    requires ContractLoaded(c) && TransitionAccepted(c, md5, before, after) && again == after
    ensures Missing(c, again) == {}
    ensures Sent(r, Missing(c, again)) == r.grants
    ensures LegacyAccepted(c, md5, again) && StateOf(c, again) == StateCurrent
  {
    TransitionImpliesEnds(c, md5, before, after);
    CurrentIsLegacy(c, md5, after);
    IntegrityParts(c, md5, after, false);
    SameFingerprints(c, after);
    IntegrityFingerprints(c, md5, after, false);
    NothingSelected(r.first);
    NothingSelected(r.script);
  }

  /**
   A second run of the release, from what the first one committed: where the manifest no
   longer depends on the legacy switch, the run reports zero and has sent only grants.
   */
  lemma SecondRunReportsZero<D>(server: Server<D>, c: Contract, md5: Md5, r: Release,
                                first: D, second: D, third: D, count: nat, countAgain: nat)
    requires ContractLoaded(c)
    requires Outcome(server, c, md5, r, first, second, Some(count))
    requires Outcome(server, c, md5, r, second, third, Some(countAgain))
    requires server.manifest(second, true) == server.manifest(second, false)
    ensures count == |TableNames(server.manifest(second, false)) - TableNames(server.manifest(first, true))|
    ensures countAgain == 0 && server.apply(second, r.grants) == Some(third)
  {
    var before, after := server.manifest(first, true), server.manifest(second, false);
    CountIsTablesAdded(c, md5, before, after);
    SecondRunAddsNothing(c, md5, r, before, after, server.manifest(second, true));
    MadeIffSent(server, r, {}, second, third);
  }
}
