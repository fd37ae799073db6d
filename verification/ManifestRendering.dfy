/**
 The manifests that a database prints.  Every database with the expected tables, no anomaly
 and the reviewed records is accepted, whatever else it holds, and so is every migration
 that adds exactly the missing tables: the verifier refuses nothing that it should accept.
 */
module ManifestRendering {
  import opened ManifestText
  import opened SchemaManifest
  import opened SchemaTransition
  import opened ManifestTamper
  import opened ManifestMeaning

  // ---- lines from fields -----------------------------------------------------------------

  predicate Plain(fields: seq<string>) {
    forall i :: 0 <= i < |fields| ==> NoBar(fields[i])
  }

  lemma {:induction false} SplitBars(fields: seq<string>)
    requires fields != [] && Plain(fields)
    ensures Split(Bars(fields)) == fields
  {
    if |fields| == 1 {
    } else {
      SplitBars(fields[1..]);
      assert fields == [fields[0]] + fields[1..];
      SplitFirst(fields[0], Bars(fields[1..]));
    }
  }

  lemma BarsFamily(fields: seq<string>)
    requires |fields| >= 2
    ensures InFamily(Bars(fields), fields[0])
  {
  }

  // ---- segments ----------------------------------------------------------------------------

  predicate OfFamily(lines: seq<string>, family: string) {
    forall i :: 0 <= i < |lines| ==> InFamily(lines[i], family)
  }

  function Concat(segments: seq<seq<string>>): seq<string> {
    if segments == [] then []
    else Concat(segments[..|segments| - 1]) + segments[|segments| - 1]
  }

  lemma {:induction false} OnlyOwn(lines: seq<string>, family: string)
    requires OfFamily(lines, family)
    ensures Only(lines, family) == lines
  {
    if lines == [] {
    } else {
      assert InFamily(lines[0], family);
      OnlyOwn(lines[1..], family);
    }
  }

  lemma {:induction false} OnlyOther(lines: seq<string>, family: string, other: string)
    requires OfFamily(lines, other) && NoBar(family) && NoBar(other) && family != other
    ensures Only(lines, family) == []
  {
    if lines == [] {
    } else {
      if InFamily(lines[0], family) {
        OneFamily(lines[0], family, other);
      }
      OnlyOther(lines[1..], family, other);
    }
  }

  function Family(i: nat): string
    requires i < 10
  {
    MANIFEST_FAMILIES[i]
  }

  lemma FamilyShape(i: nat)
    requires i < 10
    ensures |Family(i)| == [8, 13, 6, 13, 5, 10, 7, 6, 13, 14][i]
    ensures Family(i)[1] == ['A', 'A', 'C', 'C', 'A', 'A', 'N', 'T', 'C', 'N'][i]
    ensures i == 3 ==> Family(i)[7] == 'O'
    ensures i == 8 ==> Family(i)[7] == 'C'
    ensures NoBar(Family(i)) && Family(i) != "MANIFEST_COMPLETE"
  {
    FamiliesHaveNoBar(Family(i));
  }

  lemma FamiliesDiffer(i: nat, j: nat)
    requires i < 10 && j < 10 && i != j
    ensures Family(i) != Family(j)
  {
    FamilyShape(i);
    FamilyShape(j);
  }

  ghost predicate Ordered(segments: seq<seq<string>>) {
    |segments| == 10 && forall i :: 0 <= i < 10 ==> OfFamily(segments[i], Family(i))
  }

  lemma {:induction false} OnlyPrefix(segments: seq<seq<string>>, k: nat, i: nat)
    requires Ordered(segments) && k <= 10 && i < 10
    ensures Only(Concat(segments[..k]), Family(i)) == if i < k then segments[i] else []
    decreases k
  {
    if k == 0 {
    } else {
      var last := segments[k - 1];
      OnlyPrefix(segments, k - 1, i);
      assert segments[..k][..k - 1] == segments[..k - 1];
      OnlyAppend(Concat(segments[..k - 1]), last, Family(i));
      if i == k - 1 {
        OnlyOwn(last, Family(i));
      } else {
        FamilyShape(i);
        FamilyShape(k - 1);
        FamiliesDiffer(i, k - 1);
        OnlyOther(last, Family(i), Family(k - 1));
      }
    }
  }

  /** Of the whole body, the lines of a family are its segment. */
  lemma OnlySegment(segments: seq<seq<string>>, i: nat)
    requires Ordered(segments) && i < 10
    ensures Only(Concat(segments), Family(i)) == segments[i]
  {
    OnlyPrefix(segments, 10, i);
    assert segments[..10] == segments;
  }

  lemma {:induction false} InSegment(segments: seq<seq<string>>, line: string) returns (i: nat)
    requires line in Concat(segments)
    ensures i < |segments| && line in segments[i]
  {
    var n := |segments| - 1;
    if line in segments[n] {
      i := n;
    } else {
      i := InSegment(segments[..n], line);
    }
  }

  // ---- the completion record -----------------------------------------------------------------

  /** The names of the families from this one on, each with the number of its lines. */
  function Counts(segments: seq<seq<string>>, i: nat): (fields: seq<string>)
    requires |segments| == 10 && i <= 10
    ensures |fields| == 2 * (10 - i)
    decreases 10 - i
  {
    if i == 10 then [] else [Family(i), Numeral(|segments[i]|)] + Counts(segments, i + 1)
  }

  lemma {:induction false} CountsAt(segments: seq<seq<string>>, i: nat, j: nat)
    requires |segments| == 10 && i <= j < 10
    ensures Counts(segments, i)[2 * (j - i)] == Family(j)
    ensures Counts(segments, i)[2 * (j - i) + 1] == Numeral(|segments[j]|)
    decreases j - i
  {
    if i == j {
    } else {
      CountsAt(segments, i + 1, j);
    }
  }

  lemma {:induction false} CountsPlain(segments: seq<seq<string>>, i: nat)
    requires |segments| == 10 && i <= 10
    ensures Plain(Counts(segments, i))
    decreases 10 - i
  {
    if i == 10 {
    } else {
      FamilyShape(i);
      NumeralIsPlain(|segments[i]|);
      CountsPlain(segments, i + 1);
    }
  }

  function CompletionFields(version: string, segments: seq<seq<string>>): (fields: seq<string>)
    requires |segments| == 10
    ensures |fields| == 22
  {
    ["MANIFEST_COMPLETE", version] + Counts(segments, 0)
  }

  function Completion(version: string, segments: seq<seq<string>>): string
    requires |segments| == 10
  {
    Bars(CompletionFields(version, segments))
  }

  lemma NumeralIsPlain(n: nat)
    ensures NoBar(Numeral(n)) && IsUnsigned(Numeral(n)) && Value(Numeral(n)) == n
  {
    ValueOfNumeral(n);
  }

  lemma CompletionSplits(version: string, segments: seq<seq<string>>)
    requires |segments| == 10 && NoBar(version)
    ensures Split(Completion(version, segments)) == CompletionFields(version, segments)
    ensures IsComplete(Completion(version, segments))
  {
    var fields := CompletionFields(version, segments);
    FamiliesHaveNoBar("MANIFEST_COMPLETE");
    CountsPlain(segments, 0);
    SplitBars(fields);
    BarsFamily(fields);
  }

  /** The fields declare the count of this family. */
  predicate DeclaresAt(fields: seq<string>, body: seq<string>, i: nat)
    requires |fields| == 22 && i < 10
  {
    && fields[2 + 2 * i] == MANIFEST_FAMILIES[i]
    && IsUnsigned(fields[3 + 2 * i])
    && Value(fields[3 + 2 * i]) == |Only(body, MANIFEST_FAMILIES[i])|
  }

  lemma FieldsDeclare(version: string, segments: seq<seq<string>>, i: nat)
    requires Ordered(segments) && i < 10
    ensures DeclaresAt(CompletionFields(version, segments), Concat(segments), i)
  {
    var fields, counts := CompletionFields(version, segments), Counts(segments, 0);
    OnlySegment(segments, i);
    NumeralIsPlain(|segments[i]|);
    CountsAt(segments, 0, i);
    assert fields[2 + 2 * i] == counts[2 * i] && fields[3 + 2 * i] == counts[2 * i + 1];
  }

  lemma DeclaresFromFields(completion: string, version: string, body: seq<string>)
    requires |Split(completion)| == 22
    requires Split(completion)[0] == "MANIFEST_COMPLETE" && Split(completion)[1] == version
    requires forall i :: 0 <= i < 10 ==> DeclaresAt(Split(completion), body, i)
    ensures Declares(completion, version, body)
  {
    var parts := Split(completion);
    forall i | 0 <= i < 10
      ensures parts[2 + 2 * i] == MANIFEST_FAMILIES[i] && IsUnsigned(parts[3 + 2 * i])
      ensures Value(parts[3 + 2 * i]) == |Only(body, MANIFEST_FAMILIES[i])|
    {
      assert DeclaresAt(parts, body, i);
    }
  }

  lemma CompletionDeclares(version: string, segments: seq<seq<string>>)
    requires Ordered(segments) && NoBar(version)
    ensures Declares(Completion(version, segments), version, Concat(segments))
    ensures IsComplete(Completion(version, segments))
  {
    CompletionSplits(version, segments);
    forall i | 0 <= i < 10
      ensures DeclaresAt(CompletionFields(version, segments), Concat(segments), i)
    {
      FieldsDeclare(version, segments, i);
    }
    DeclaresFromFields(Completion(version, segments), version, Concat(segments));
  }

  function Printed(version: string, segments: seq<seq<string>>): seq<string>
    requires |segments| == 10
  {
    Concat(segments) + [Completion(version, segments)]
  }

  lemma LineIsKnown(segments: seq<seq<string>>, line: string)
    requires Ordered(segments) && line in Concat(segments)
    ensures KnownFamily(line) && !IsComplete(line)
  {
    var i := InSegment(segments, line);
    var k :| 0 <= k < |segments[i]| && segments[i][k] == line;
    assert InFamily(line, Family(i));
    FamilyShape(i);
    FamiliesHaveNoBar("MANIFEST_COMPLETE");
    if IsComplete(line) {
      OneFamily(line, Family(i), "MANIFEST_COMPLETE");
    }
    assert Family(i) in MANIFEST_FAMILIES;
  }

  lemma PrintedIsFramed(version: string, segments: seq<seq<string>>)
    requires Ordered(segments) && NoBar(version)
    ensures Framed(Printed(version, segments), version) && Body(Printed(version, segments)) == Concat(segments)
  {
    CompletionDeclares(version, segments);
    forall l | l in Concat(segments)
      ensures !IsComplete(l) && (l == "" || KnownFamily(l))
    {
      LineIsKnown(segments, l);
    }
    assert Body(Printed(version, segments)) == Concat(segments);
  }
}
