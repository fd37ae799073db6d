/** Choosing the frozen schema contract of a live database from its table inventory. */
module ContractState {
  import opened Patterns
  import opened ManifestText

  const CORE_TABLES: set<string> :=
    {"billing_users", "billing_user_profiles", "billing_user_preferences", "billing_auth_tokens",
     "billing_email_verifications", "billing_subscriptions", "billing_manual_orders", "billing_payment_orders",
     "billing_payment_provider_sessions", "billing_purchase_terms", "billing_payment_consents",
     "billing_usage_events", "lecturesift_guest_trials", "lecturesift_instagram_rewards",
     "lecturesift_rewarded_ad_claims", "lecturesift_email_change_requests", "lecturesift_runtime_metrics",
     "lecturesift_admin_credit_events", "lecturesift_admin_account_events", "lecturesift_account_activity",
     "lecturesift_refund_requests", "lecturesift_contact_messages", "lecturesift_contact_replies",
     "lecturesift_cost_events", "lecturesift_cost_actuals"}

  const PRODUCT_TABLES: set<string> :=
    {"assistant_credit_grants_v1", "assistant_credit_requests_v1", "assistant_daily_budget_v1",
     "billing_referral_codes", "billing_referral_coupons", "billing_referral_renewal_rewards",
     "billing_referral_reward_preferences", "billing_referral_rewards"}

  const WORKSPACE_TABLES: set<string> :=
    {"admin_ad_free_grants_v1", "admin_order_archives_v1", "workspace_folders_v1", "workspace_items_v1"}

  const FEEDBACK_TABLES: set<string> := {"lecturesift_job_feedback"}

  datatype Version = V3 | V4 | V5 | V6

  /** The exact table set of each contract family. */
  function TableSet(v: Version): set<string> {
    match v
    case V3 => CORE_TABLES
    case V4 => CORE_TABLES + PRODUCT_TABLES
    case V5 => CORE_TABLES + PRODUCT_TABLES + WORKSPACE_TABLES
    case V6 => CORE_TABLES + PRODUCT_TABLES + WORKSPACE_TABLES + FEEDBACK_TABLES
  }

  function Newer(v: Version): nat {
    match v case V3 => 3 case V4 => 4 case V5 => 5 case V6 => 6
  }

  lemma ProductIsNew()
    ensures "assistant_daily_budget_v1" !in CORE_TABLES && "assistant_daily_budget_v1" in PRODUCT_TABLES
  {
  }

  lemma WorkspaceIsNew()
    ensures "workspace_items_v1" !in CORE_TABLES && "workspace_items_v1" in WORKSPACE_TABLES
    ensures "workspace_items_v1" !in PRODUCT_TABLES
  {
  }

  lemma FeedbackIsNew()
    ensures "lecturesift_job_feedback" !in CORE_TABLES && "lecturesift_job_feedback" in FEEDBACK_TABLES
    ensures "lecturesift_job_feedback" !in PRODUCT_TABLES && "lecturesift_job_feedback" !in WORKSPACE_TABLES
  {
  }

  lemma GrowthSeparates(core: set<string>, product: set<string>, workspace: set<string>, feedback: set<string>,
                        p: string, w: string, f: string)
    requires p !in core && p in product
    requires w !in core && w !in product && w in workspace
    requires f !in core && f !in product && f !in workspace && f in feedback
    ensures core < core + product < core + product + workspace < core + product + workspace + feedback
  {
  }

  /** The four families are strictly nested, so no table set matches two of them. */
  lemma FamiliesAreNested(v: Version, w: Version)
    ensures TableSet(v) == TableSet(w) <==> v == w
    ensures Newer(v) <= Newer(w) ==> TableSet(v) <= TableSet(w)
  {
    ProductIsNew();
    WorkspaceIsNew();
    FeedbackIsNew();
    GrowthSeparates(CORE_TABLES, PRODUCT_TABLES, WORKSPACE_TABLES, FEEDBACK_TABLES,
                    "assistant_daily_budget_v1", "workspace_items_v1", "lecturesift_job_feedback");
  }

  /** Tries every family; a set is accepted only if exactly one matches. */
  method Classify(tables: set<string>) returns (r: Option<Version>)
    ensures r.Some? ==> tables == TableSet(r.value)
    ensures r.None? ==> forall v :: tables != TableSet(v)
  {
    var versions := [V3, V4, V5, V6];
    var matches: seq<Version> := [];
    for n := 0 to 4
      invariant forall i :: 0 <= i < |matches| ==> tables == TableSet(matches[i])
      invariant forall i :: 0 <= i < n && tables == TableSet(versions[i]) ==> versions[i] in matches
      invariant matches == [] || (exists i :: 0 <= i < n && matches == [versions[i]])
    {
      if tables == TableSet(versions[n]) {
        if matches != [] {
          FamiliesAreNested(matches[0], versions[n]);
        }
        matches := matches + [versions[n]];
      }
    }
    if |matches| != 1 {
      forall v: Version
        ensures tables != TableSet(v)
      {
        assert v == versions[0] || v == versions[1] || v == versions[2] || v == versions[3];
      }
      return None;
    }
    return Some(matches[0]);
  }

  // ---- inventories ------------------------------------------------------------------------

  /** `[a-z][a-z0-9_]{0,62}` */
  predicate IsTableName(s: string) {
    && 1 <= |s| <= 63 && 'a' <= s[0] <= 'z'
    && forall i :: 0 <= i < |s| ==> 'a' <= s[i] <= 'z' || IsDigit(s[i]) || s[i] == '_'
  }

  predicate IsTableLine(line: string) {
    InFamily(line, "PUBLIC_TABLE") && IsTableName(line[13..])
  }

  function NameOfLine(line: string): string {
    if InFamily(line, "PUBLIC_TABLE") then line[13..] else ""
  }

  function NamesOf(lines: seq<string>): (r: seq<string>)
    ensures |r| == |lines|
    ensures forall i :: 0 <= i < |lines| ==> r[i] == NameOfLine(lines[i])
  {
    seq(|lines|, i requires 0 <= i < |lines| => NameOfLine(lines[i]))
  }

  function AsSet(names: seq<string>): set<string> {
    set n | n in names
  }

  predicate Distinct(names: seq<string>) {
    forall i, j :: 0 <= i < j < |names| ==> names[i] != names[j]
  }

  predicate CompletesWith(last: string, count: nat) {
    var parts := Split(last);
    && InFamily(last, "INVENTORY_COMPLETE")
    && |parts| == 3 && parts[1] == "v1" && IsUnsigned(parts[2]) && Value(parts[2]) == count
  }

  /** The inventory lists distinct table names and declares their number. */
  predicate InventoryExact(tables: seq<string>, last: string) {
    && (forall i :: 0 <= i < |tables| ==> IsTableLine(tables[i]))
    && Distinct(NamesOf(tables))
    && CompletesWith(last, |tables|)
  }

  function NotBlank(lines: seq<string>): seq<string> {
    if lines == [] then []
    else (if lines[0] == "" then [] else [lines[0]]) + NotBlank(lines[1..])
  }

  /** The names of distinct table lines, one line after another. */
  method ReadRows(rows: seq<string>) returns (r: Option<seq<string>>)
    ensures r.Some? <==> (forall i :: 0 <= i < |rows| ==> IsTableLine(rows[i])) && Distinct(NamesOf(rows))
    ensures r.Some? ==> r.value == NamesOf(rows)
  {
    var tables: seq<string> := [];
    for n := 0 to |rows|
      invariant forall i :: 0 <= i < n ==> IsTableLine(rows[i])
      invariant tables == NamesOf(rows)[..n]
      invariant Distinct(tables)
    {
      var name := NameOfLine(rows[n]);
      assert NamesOf(rows)[n] == name;
      if !IsTableLine(rows[n]) || name in tables {
        return None;
      }
      tables := tables + [name];
    }
    return Some(tables);
  }

  lemma {:induction false} AsManyNames(names: seq<string>)
    requires Distinct(names)
    ensures |AsSet(names)| == |names|
    decreases |names|
  {
    if names == [] {
    } else {
      var n := |names| - 1;
      AsManyNames(names[..n]);
      assert AsSet(names) == AsSet(names[..n]) + {names[n]};
      assert names[n] !in names[..n];
    }
  }

  /** Reads the table set of an inventory; blank lines between result sets do not count. */
  method ParseInventory(text: seq<string>) returns (r: Option<set<string>>)
    ensures var lines := NotBlank(text);
            && (r.Some? <==> lines != [] && InventoryExact(lines[..|lines| - 1], lines[|lines| - 1]))
            && (r.Some? ==> r.value == AsSet(NamesOf(lines[..|lines| - 1])))
    ensures var lines := NotBlank(text);
            r.Some? ==>
              && lines != [] && |Split(lines[|lines| - 1])| == 3
              && Value(Split(lines[|lines| - 1])[2]) == |r.value| == |lines| - 1
  {
    var lines := NotBlank(text);
    if lines == [] {
      return None;
    }
    var rows, last := lines[..|lines| - 1], lines[|lines| - 1];
    if !CompletesWith(last, |rows|) {
      return None;
    }
    var tables := ReadRows(rows);
    if tables.None? {
      return None;
    }
    AsManyNames(tables.value);
    return Some(AsSet(tables.value));
  }

  /** Detection: an accepted version, and only when the inventory is exactly its table set. */
  method Detect(text: seq<string>, accepted: set<Version>) returns (r: Option<Version>)
    ensures var lines := NotBlank(text);
            forall v :: r == Some(v) <==>
              && lines != [] && InventoryExact(lines[..|lines| - 1], lines[|lines| - 1])
              && AsSet(NamesOf(lines[..|lines| - 1])) == TableSet(v)
              && v in accepted
  {
    var tables := ParseInventory(text);
    if tables.None? {
      return None;
    }
    var version := Classify(tables.value);
    if version.Some? {
      forall v: Version
        ensures tables.value == TableSet(v) <==> v == version.value
      {
        FamiliesAreNested(v, version.value);
      }
    }
    if version.None? || version.value !in accepted {
      return None;
    }
    return version;
  }

  /** The inventory lines of these tables. */
  function TableLines(names: seq<string>): (lines: seq<string>)
    ensures |lines| == |names|
    ensures forall i :: 0 <= i < |names| ==> lines[i] == "PUBLIC_TABLE" + "|" + names[i]
  {
    seq(|names|, i requires 0 <= i < |names| => "PUBLIC_TABLE" + "|" + names[i])
  }

  /** A name of a table: a lower-case letter, and up to 62 more letters, digits and underscores. */
  predicate ProperName(s: string) {
    && 1 <= |s| <= 63 && 'a' <= s[0] <= 'z'
    && forall i :: 0 <= i < |s| ==> 'a' <= s[i] <= 'z' || '0' <= s[i] <= '9' || s[i] == '_'
  }

  lemma TableLineIsRead(name: string)
    requires ProperName(name)
    ensures IsTableLine("PUBLIC_TABLE" + "|" + name) && NameOfLine("PUBLIC_TABLE" + "|" + name) == name
  {
    var line := "PUBLIC_TABLE" + "|" + name;
    assert line[13..] == name;
  }

  lemma CompletionIsRead(count: nat)
    ensures CompletesWith("INVENTORY_COMPLETE" + "|" + ("v1" + "|" + Numeral(count)), count)
  {
    ValueOfNumeral(count);
    assert NoBar(Numeral(count));
    SplitThree("INVENTORY_COMPLETE", "v1", Numeral(count));
    StartsWithField("INVENTORY_COMPLETE", "v1" + "|" + Numeral(count));
  }

  lemma StartsWithField(family: string, rest: string)
    ensures InFamily(family + "|" + rest, family)
  {
  }

  /** Every list of distinct proper names, with its number, is an exact inventory of them. */
  lemma InventoryIsAccepted(names: seq<string>)
    requires forall i :: 0 <= i < |names| ==> ProperName(names[i])
    requires forall i, j :: 0 <= i < j < |names| ==> names[i] != names[j]
    ensures InventoryExact(TableLines(names), "INVENTORY_COMPLETE" + "|" + ("v1" + "|" + Numeral(|names|)))
    ensures NamesOf(TableLines(names)) == names
  {
    var lines := TableLines(names);
    forall i | 0 <= i < |names|
      ensures IsTableLine(lines[i]) && NamesOf(lines)[i] == names[i]
    {
      TableLineIsRead(names[i]);
    }
    CompletionIsRead(|names|);
  }
}
