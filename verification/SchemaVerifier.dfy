/** The verifier as it runs: the checks in order, and loops over the release tables. */
module SchemaVerifier {
  import opened Patterns
  import opened ManifestText
  import opened SchemaManifest
  import opened SchemaTransition

  /** SHA-256 of the sorted expected records. */
  type Sha = set<string> -> string

  method VerifyCurrent(c: Contract, md5: Md5, sha: Sha, lines: seq<string>) returns (r: Option<string>)
    ensures r.Some? <==> CurrentAccepted(c, md5, lines)
    ensures r.Some? ==> r.value == sha(Expected(c))
    ensures ContractLoaded(c) ==> (r.Some? <==> LegacyAccepted(c, md5, lines) && Missing(c, Body(lines)) == {})
    ensures ContractLoaded(c) && r.Some? ==> Complete(c, lines)
  {
    if ContractLoaded(c) {
      CurrentIffNothingMissing(c, md5, lines);
    }
    if !Integrity(c, md5, lines, false) || !ObjectsDistinct(lines) {
      return None;
    }
    var objects := Objects(lines);
    if TargetObjects(c, objects) != Expected(c) || !PreservedExact(c, lines) {
      return None;
    }
    return Some(sha(Expected(c)));
  }

  /** The absent tables, or nothing when a table is neither absent nor current. */
  method AbsentTables(c: Contract, lines: seq<string>) returns (r: Option<set<string>>)
    ensures r.Some? <==> EachCurrentOrAbsent(c, lines)
    ensures r.Some? ==> r.value == Absent(c, lines)
  {
    var absent: set<string> := {};
    var objects := Objects(lines);
    var todo := c.targets.Keys;
    while todo != {}
      invariant todo <= c.targets.Keys
      invariant forall t :: t in c.targets && t !in todo ==> IsCurrent(c, lines, t) || IsAbsent(c, lines, t)
      invariant absent == set t | t in c.targets && t !in todo && IsAbsent(c, lines, t)
      decreases todo
    {
      var t :| t in todo;
      var actual := TableObjects(objects, t);
      var marked := LegacyMarker(t) in lines;
      if actual == c.targets[t] && !marked {
        todo := todo - {t};
      } else if actual == {} && marked {
        absent := absent + {t};
        todo := todo - {t};
      } else {
        return None;
      }
    }
    return Some(absent);
  }

  method VerifyLegacy(c: Contract, md5: Md5, sha: Sha, lines: seq<string>) returns (r: Option<(State, string)>)
    ensures r.Some? <==> LegacyAccepted(c, md5, lines)
    ensures r.Some? ==> r.value == (StateOf(c, lines), sha(Expected(c)))
  {
    if !Integrity(c, md5, lines, true) || !ObjectsDistinct(lines) || !PreservedExact(c, lines) {
      return None;
    }
    var absent := AbsentTables(c, lines);
    if absent.None? {
      return None;
    }
    return Some((if absent.value == {} then StateCurrent else LegacyMissingReleaseTables, sha(Expected(c))));
  }

  method VerifyTransition(c: Contract, md5: Md5, sha: Sha, before: seq<string>, after: seq<string>)
    returns (r: Option<(Label, string)>)
    ensures r.Some? <==> TransitionAccepted(c, md5, before, after)
    ensures r.Some? ==> r.value == (LabelOf(c, before), sha(Expected(c)))
  {
    if !Integrity(c, md5, before, true) || !Integrity(c, md5, after, false) {
      return None;
    }
    var checked := CheckTransition(c, before, after);
    if !checked {
      return None;
    }
    return Some((LabelOf(c, before), sha(Expected(c))));
  }

  method CheckTransition(c: Contract, before: seq<string>, after: seq<string>) returns (ok: bool)
    ensures ok <==> TransitionChecks(c, before, after)
  {
    if !ObjectsDistinct(before) || !ObjectsDistinct(after) || !PreservedExact(c, before) || !PreservedExact(c, after) {
      return false;
    }
    var beforeObjects, afterObjects := Objects(before), Objects(after);
    var beforeTarget, afterTarget := TargetObjects(c, beforeObjects), TargetObjects(c, afterObjects);
    if afterTarget != Expected(c) || beforeObjects - beforeTarget != afterObjects - afterTarget {
      return false;
    }
    var added := AbsentTables(c, before);
    if added.None? {
      return false;
    }
    var todo := added.value;
    while todo != {}
      invariant todo <= added.value
      invariant forall t :: t in added.value && t !in todo ==> EmptyRow(t) in after
      decreases todo
    {
      var t :| t in todo;
      if EmptyRow(t) !in after {
        return false;
      }
      todo := todo - {t};
    }
    return Data(before) == DataExcept(after, added.value);
  }
}
