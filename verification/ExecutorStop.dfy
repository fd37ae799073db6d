/**
 The GET-only proof that the source executors are stopped: the reads in their order, the
 checks on the responses, and the digest of what was observed.
 */
module ExecutorStop {
  import opened Patterns

  datatype Json =
    | JNull
    | JBool(b: bool)
    | JNumber(n: int)
    | JString(s: string)
    | JArray(items: seq<Json>)
    | JObject(fields: map<string, Json>)

  /** The value of a key, or null when this is no object or has no such key. */
  function Get(j: Json, key: string): Json {
    if j.JObject? && key in j.fields then j.fields[key] else JNull
  }

  const CRON_EVENT_PAGE_LIMIT: nat := 100

  /** Instants are whole microseconds. */
  const SECOND: int := 1_000_000
  const HOUR: int := 3600 * SECOND
  const CRON_RUN_LOOKBACK: int := 13 * HOUR

  /** The lookback window starts at a whole second, as the query prints it. */
  function WindowStart(clock: int): (w: int)
    ensures clock - CRON_RUN_LOOKBACK - SECOND < w <= clock - CRON_RUN_LOOKBACK
  {
    var start := clock - CRON_RUN_LOOKBACK;
    start - start % SECOND
  }

  datatype EventType = RunStarted | RunEnded

  function TypeName(t: EventType): string {
    match t
    case RunStarted => "cron_job_run_started"
    case RunEnded => "cron_job_run_ended"
  }

  datatype Request =
    | GetService(id: string)
    | GetInstances(id: string)
    | GetEvents(id: string, kind: EventType, windowStart: int)

  datatype Control = Control(workerId: string, workerName: string, cronId: string, cronName: string)

  /** The six reads, in order: ended events come before started events. */
  function Requests(control: Control, clock: int): seq<Request> {
    [GetService(control.workerId), GetInstances(control.workerId), GetService(control.cronId),
     GetEvents(control.cronId, RunEnded, WindowStart(clock)),
     GetEvents(control.cronId, RunStarted, WindowStart(clock)),
     GetService(control.cronId)]
  }

  predicate IsLowerOrDigit(c: char) {
    'a' <= c <= 'z' || '0' <= c <= '9'
  }

  /** `evt-[0-9a-z]{20}` */
  predicate IsEventId(s: string) {
    |s| == 24 && s[..4] == "evt-" && forall i :: 4 <= i < 24 ==> IsLowerOrDigit(s[i])
  }

  /** `[A-Za-z0-9_-]{1,128}` */
  predicate IsCronRunId(s: string) {
    1 <= |s| <= 128 && forall i :: 0 <= i < |s| ==> IsAlphanumeric(s[i]) || s[i] == '_' || s[i] == '-'
  }

  /** `[A-Za-z][A-Za-z0-9_-]{2,127}` */
  predicate IsOwnerId(s: string) {
    && 3 <= |s| <= 128
    && ('A' <= s[0] <= 'Z' || 'a' <= s[0] <= 'z')
    && forall i :: 0 <= i < |s| ==> IsAlphanumeric(s[i]) || s[i] == '_' || s[i] == '-'
  }

  // ---- cron run events -------------------------------------------------------------

  function RunIdOf(item: Json): Json {
    Get(Get(Get(item, "event"), "details"), "cronJobRunId")
  }

  /** One event record is exact for this cron job and event type. */
  predicate ItemExact(item: Json, cronId: string, kind: EventType) {
    var event := Get(item, "event");
    && item.JObject? && Get(item, "cursor").JString?
    && event.JObject? && Get(event, "id").JString? && IsEventId(Get(event, "id").s)
    && Get(event, "serviceId") == JString(cronId)
    && Get(event, "type") == JString(TypeName(kind))
    && Get(event, "timestamp").JString?
    && RunIdOf(item).JString? && IsCronRunId(RunIdOf(item).s)
  }

  function RunIds(items: seq<Json>): set<string> {
    set i | 0 <= i < |items| && RunIdOf(items[i]).JString? :: RunIdOf(items[i]).s
  }

  /** The response lists exact events of distinct runs, below the page limit. */
  predicate EventsExact(events: Json, cronId: string, kind: EventType) {
    && events.JArray?
    && |events.items| < CRON_EVENT_PAGE_LIMIT
    && (forall i :: 0 <= i < |events.items| ==> ItemExact(events.items[i], cronId, kind))
    && (forall i, j :: 0 <= i < j < |events.items| ==> RunIdOf(events.items[i]) != RunIdOf(events.items[j]))
  }

  method CronRunIds(events: Json, cronId: string, kind: EventType) returns (r: Option<set<string>>)
    ensures r.Some? <==> EventsExact(events, cronId, kind)
    ensures r.Some? ==> r.value == RunIds(events.items)
  {
    if !events.JArray? || |events.items| >= CRON_EVENT_PAGE_LIMIT {
      return None;
    }
    var items := events.items;
    var runs: set<string> := {};
    for n := 0 to |items|
      invariant forall i :: 0 <= i < n ==> ItemExact(items[i], cronId, kind)
      invariant forall i, j :: 0 <= i < j < n ==> RunIdOf(items[i]) != RunIdOf(items[j])
      invariant runs == RunIds(items[..n])
    {
      if !ItemExact(items[n], cronId, kind) || RunIdOf(items[n]).s in runs {
        if ItemExact(items[n], cronId, kind) {
          var i :| 0 <= i < n && RunIdOf(items[..n][i]) == RunIdOf(items[n]);
          assert RunIdOf(items[i]) == RunIdOf(items[n]);
        }
        return None;
      }
      forall i | 0 <= i < n
        ensures RunIdOf(items[i]) != RunIdOf(items[n])
      {
        assert RunIdOf(items[..n][i]).s in RunIds(items[..n]);
      }
      RunIdsGrow(items, n);
      runs := runs + {RunIdOf(items[n]).s};
    }
    assert items[..|items|] == items;
    return Some(runs);
  }

  lemma RunIdsGrow(items: seq<Json>, n: nat)
    requires n < |items| && RunIdOf(items[n]).JString?
    ensures RunIds(items[..n + 1]) == RunIds(items[..n]) + {RunIdOf(items[n]).s}
  {
    var before, after := items[..n], items[..n + 1];
    forall i | 0 <= i < n
      ensures before[i] == after[i]
    {
    }
    assert after[n] == items[n];
    forall r | r in RunIds(after)
      ensures r in RunIds(before) + {RunIdOf(items[n]).s}
    {
      var i :| 0 <= i < |after| && RunIdOf(after[i]).JString? && RunIdOf(after[i]).s == r;
      if i < n {
        assert RunIdOf(before[i]).s == r;
      }
    }
    forall r | r in RunIds(before)
      ensures r in RunIds(after)
    {
      var i :| 0 <= i < |before| && RunIdOf(before[i]).JString? && RunIdOf(before[i]).s == r;
      assert RunIdOf(after[i]).s == r;
    }
  }

  // ---- services --------------------------------------------------------------------

  datatype Identity = Identity(id: string, name: string, kind: string)

  /** What the digest covers for one executor; the suspenders are sorted there. */
  datatype Service = Service(identity: Identity, ownerId: string, suspenders: set<string>)

  const ALLOWED_SUSPENDERS: set<string> :=
    {"admin", "billing", "hipaa_enablement", "parent_service", "stuck_crashlooping", "unknown", "user"}

  predicate SuspendersExact(j: Json) {
    && j.JArray?
    && (forall i :: 0 <= i < |j.items| ==> j.items[i].JString? && j.items[i].s in ALLOWED_SUSPENDERS)
    && (forall i, k :: 0 <= i < k < |j.items| ==> j.items[i] != j.items[k])
  }

  /** The response names this executor and says it is suspended. */
  predicate ServiceSuspended(identity: Identity, service: Json) {
    && service.JObject?
    && Get(service, "id") == JString(identity.id)
    && Get(service, "name") == JString(identity.name)
    && Get(service, "type") == JString(identity.kind)
    && Get(service, "suspended") == JString("suspended")
    && Get(service, "ownerId").JString? && IsOwnerId(Get(service, "ownerId").s)
    && SuspendersExact(Get(service, "suspenders"))
  }

  function Strings(items: seq<Json>): set<string> {
    set i | 0 <= i < |items| && items[i].JString? :: items[i].s
  }

  function CanonicalService(identity: Identity, service: Json): Service
    requires ServiceSuspended(identity, service)
  {
    Service(identity, Get(service, "ownerId").s, Strings(Get(service, "suspenders").items))
  }

  function WorkerIdentity(control: Control): Identity {
    Identity(control.workerId, control.workerName, "background_worker")
  }

  function CronIdentity(control: Control): Identity {
    Identity(control.cronId, control.cronName, "cron_job")
  }

  /** The evidence of one proof: both executors, as the digest covers them. */
  datatype Evidence = Evidence(worker: Service, cron: Service)

  /** The proof is accepted for these six responses. */
  predicate Accepted(control: Control, responses: seq<Json>) {
    && |responses| == 6
    && ServiceSuspended(WorkerIdentity(control), responses[0])
    && responses[1] == JArray([])
    && ServiceSuspended(CronIdentity(control), responses[2])
    && EventsExact(responses[3], control.cronId, RunEnded)
    && EventsExact(responses[4], control.cronId, RunStarted)
    && RunIds(responses[4].items) <= RunIds(responses[3].items)
    && ServiceSuspended(CronIdentity(control), responses[5])
    && CanonicalService(CronIdentity(control), responses[5]) == CanonicalService(CronIdentity(control), responses[2])
  }

  function Observed(control: Control, responses: seq<Json>): Evidence
    requires Accepted(control, responses)
  {
    Evidence(CanonicalService(WorkerIdentity(control), responses[0]),
             CanonicalService(CronIdentity(control), responses[2]))
  }

  // ---- acceptance, spelled out --------------------------------------------------------

  predicate WordChar(c: char) {
    'A' <= c <= 'Z' || 'a' <= c <= 'z' || '0' <= c <= '9' || c == '_' || c == '-'
  }

  /** The response names this executor, and reports it suspended with a usable owner and reasons. */
  predicate Describes(response: Json, id: string, name: string, kind: string) {
    var owner, reasons := Get(response, "ownerId"), Get(response, "suspenders");
    && response.JObject?
    && Get(response, "id") == JString(id) && Get(response, "name") == JString(name)
    && Get(response, "type") == JString(kind) && Get(response, "suspended") == JString("suspended")
    && owner.JString? && 3 <= |owner.s| <= 128
    && ('A' <= owner.s[0] <= 'Z' || 'a' <= owner.s[0] <= 'z')
    && (forall i :: 0 <= i < |owner.s| ==> WordChar(owner.s[i]))
    && reasons.JArray?
    && (forall i :: 0 <= i < |reasons.items| ==>
          reasons.items[i].JString?
          && reasons.items[i].s in
               {"admin", "billing", "hipaa_enablement", "parent_service", "stuck_crashlooping", "unknown", "user"})
    && (forall i, k :: 0 <= i < k < |reasons.items| ==> reasons.items[i] != reasons.items[k])
  }

  /** One event of this job and type, with well-formed identifiers. */
  predicate IsEventOf(item: Json, cronId: string, kind: string) {
    var event := Get(item, "event");
    var id, run := Get(event, "id"), Get(Get(event, "details"), "cronJobRunId");
    && item.JObject? && event.JObject?
    && Get(item, "cursor").JString? && Get(event, "timestamp").JString?
    && Get(event, "serviceId") == JString(cronId) && Get(event, "type") == JString(kind)
    && id.JString? && |id.s| == 24 && id.s[..4] == "evt-"
    && (forall i :: 4 <= i < 24 ==> 'a' <= id.s[i] <= 'z' || '0' <= id.s[i] <= '9')
    && run.JString? && 1 <= |run.s| <= 128 && forall i :: 0 <= i < |run.s| ==> WordChar(run.s[i])
  }

  function RunOf(item: Json): Json {
    Get(Get(Get(item, "event"), "details"), "cronJobRunId")
  }

  /** Fewer than a hundred such events, each of another run. */
  predicate AreEventsOf(events: Json, cronId: string, kind: string) {
    && events.JArray? && |events.items| < 100
    && (forall i :: 0 <= i < |events.items| ==> IsEventOf(events.items[i], cronId, kind))
    && (forall i, j :: 0 <= i < j < |events.items| ==> RunOf(events.items[i]) != RunOf(events.items[j]))
  }

  lemma EventsExactly(events: Json, cronId: string, kind: EventType)
    ensures EventsExact(events, cronId, kind) <==>
            AreEventsOf(events, cronId, if kind.RunStarted? then "cron_job_run_started" else "cron_job_run_ended")
  {
    var name := if kind.RunStarted? then "cron_job_run_started" else "cron_job_run_ended";
    if events.JArray? {
      forall i | 0 <= i < |events.items|
        ensures ItemExact(events.items[i], cronId, kind) <==> IsEventOf(events.items[i], cronId, name)
        ensures RunIdOf(events.items[i]) == RunOf(events.items[i])
      {
      }
    }
  }

  lemma ServiceExactly(identity: Identity, response: Json)
    ensures ServiceSuspended(identity, response) <==> Describes(response, identity.id, identity.name, identity.kind)
  {
  }

  /** Every item of the one list has a member of the other with the same run. */
  predicate RunsAmong(items: seq<Json>, others: seq<Json>) {
    forall i :: 0 <= i < |items| ==> NamesRun(others, RunOf(items[i]))
  }

  predicate NamesRun(items: seq<Json>, run: Json) {
    exists j :: 0 <= j < |items| && RunOf(items[j]) == run
  }

  lemma RunIdsAmong(items: seq<Json>, others: seq<Json>)
    requires forall i :: 0 <= i < |items| ==> RunOf(items[i]).JString?
    requires forall i :: 0 <= i < |others| ==> RunOf(others[i]).JString?
    ensures RunIds(items) <= RunIds(others) <==> RunsAmong(items, others)
  {
    if RunIds(items) <= RunIds(others) {
      forall i | 0 <= i < |items|
        ensures NamesRun(others, RunOf(items[i]))
      {
        assert RunIdOf(items[i]) == RunOf(items[i]);
        assert RunIdOf(items[i]).s in RunIds(items);
        var j :| 0 <= j < |others| && RunIdOf(others[j]).JString? && RunIdOf(others[j]).s == RunIdOf(items[i]).s;
        assert RunOf(others[j]) == RunOf(items[i]);
      }
    }
    if RunsAmong(items, others) {
      AmongMeansIncluded(items, others);
    }
  }

  lemma AmongMeansIncluded(items: seq<Json>, others: seq<Json>)
    requires RunsAmong(items, others)
    ensures RunIds(items) <= RunIds(others)
  {
    forall r | r in RunIds(items)
      ensures r in RunIds(others)
    {
      var i :| 0 <= i < |items| && RunIdOf(items[i]).JString? && RunIdOf(items[i]).s == r;
      assert RunIdOf(items[i]) == RunOf(items[i]);
      assert NamesRun(others, RunOf(items[i]));
      var j :| 0 <= j < |others| && RunOf(others[j]) == RunOf(items[i]);
      assert RunIdOf(others[j]) == RunOf(others[j]);
    }
  }

  /** The owner and the suspension reasons that a response states. */
  ghost predicate Shows(response: Json, service: Service) {
    && Get(response, "ownerId") == JString(service.ownerId)
    && Get(response, "suspenders").JArray?
    && forall r :: r in service.suspenders <==> JString(r) in Get(response, "suspenders").items
  }

  lemma CanonicalShows(identity: Identity, response: Json)
    requires ServiceSuspended(identity, response)
    ensures Shows(response, CanonicalService(identity, response))
  {
    var items := Get(response, "suspenders").items;
    forall r
      ensures r in Strings(items) <==> JString(r) in items
    {
      if r in Strings(items) {
        var i :| 0 <= i < |items| && items[i].JString? && items[i].s == r;
      }
    }
  }

  lemma OneCanonical(identity: Identity, response: Json, service: Service)
    requires ServiceSuspended(identity, response) && Shows(response, service) && service.identity == identity
    ensures CanonicalService(identity, response) == service
  {
    CanonicalShows(identity, response);
    assert CanonicalService(identity, response).suspenders == service.suspenders;
  }

  /** The responses are of the two suspended executors, without instances and with all runs ended. */
  predicate StoppedResponses(control: Control, responses: seq<Json>)
    requires |responses| == 6
  {
    && Describes(responses[0], control.workerId, control.workerName, "background_worker")
    && responses[1] == JArray([])
    && Describes(responses[2], control.cronId, control.cronName, "cron_job")
    && AreEventsOf(responses[3], control.cronId, "cron_job_run_ended")
    && AreEventsOf(responses[4], control.cronId, "cron_job_run_started")
    && RunsAmong(responses[4].items, responses[3].items)
    && Describes(responses[5], control.cronId, control.cronName, "cron_job")
  }

  /**
   Exactly which six responses are accepted: those of the two suspended executors, without
   instances and with all runs ended, where both cron reads show one owner and the same
   reasons.
   */
  lemma AcceptedExactly(control: Control, responses: seq<Json>)
    requires |responses| == 6
    ensures Accepted(control, responses) <==>
            && StoppedResponses(control, responses)
            && exists cron: Service :: cron.identity == Identity(control.cronId, control.cronName, "cron_job")
                                       && Shows(responses[2], cron) && Shows(responses[5], cron)
  {
    var cron := CronIdentity(control);
    ServiceExactly(WorkerIdentity(control), responses[0]);
    ServiceExactly(cron, responses[2]);
    ServiceExactly(cron, responses[5]);
    EventsExactly(responses[3], control.cronId, RunEnded);
    EventsExactly(responses[4], control.cronId, RunStarted);
    if EventsExact(responses[3], control.cronId, RunEnded) && EventsExact(responses[4], control.cronId, RunStarted) {
      RunIdsAmong(responses[4].items, responses[3].items);
    }
    SameCronReads(cron, responses[2], responses[5]);
  }

  lemma SameCronReads(identity: Identity, first: Json, last: Json)
    ensures ServiceSuspended(identity, first) && ServiceSuspended(identity, last) ==>
              (CanonicalService(identity, last) == CanonicalService(identity, first) <==>
                 exists s: Service :: s.identity == identity && Shows(first, s) && Shows(last, s))
  {
    if ServiceSuspended(identity, first) && ServiceSuspended(identity, last) {
      CanonicalShows(identity, first);
      CanonicalShows(identity, last);
      if s: Service :| s.identity == identity && Shows(first, s) && Shows(last, s) {
        OneCanonical(identity, first, s);
        OneCanonical(identity, last, s);
      }
    }
  }

  /** What the digest covers: the two executors, with the owner and reasons that every read showed. */
  lemma ObservedShows(control: Control, responses: seq<Json>)
    requires Accepted(control, responses)
    ensures Observed(control, responses).worker.identity
            == Identity(control.workerId, control.workerName, "background_worker")
    ensures Observed(control, responses).cron.identity == Identity(control.cronId, control.cronName, "cron_job")
    ensures Shows(responses[0], Observed(control, responses).worker)
    ensures Shows(responses[2], Observed(control, responses).cron)
    ensures Shows(responses[5], Observed(control, responses).cron)
  {
    CanonicalShows(WorkerIdentity(control), responses[0]);
    CanonicalShows(CronIdentity(control), responses[2]);
    CanonicalShows(CronIdentity(control), responses[5]);
  }

  /** A connection with the responses it will give; a missing one is a failed request. */
  class Connection {
    const responses: seq<Json>
    var sent: seq<Request>

    constructor (responses: seq<Json>)
      ensures this.responses == responses && sent == []
    {
      this.responses, sent := responses, [];
    }

    method GetJson(request: Request) returns (response: Option<Json>)
      modifies this
      ensures sent == old(sent) + [request]
      ensures response == if |old(sent)| < |responses| then Some(responses[|old(sent)|]) else None
    {
      response := if |sent| < |responses| then Some(responses[|sent|]) else None;
      sent := sent + [request];
    }
  }

  /** Reads everything first and in this order, then checks; None is a refused proof. */
  method WorkerStopDigest(control: Control, connection: Connection, clock: int, digest: Evidence -> string)
    returns (r: Option<string>)
    requires connection.sent == []
    modifies connection
    ensures connection.sent <= Requests(control, clock)
    ensures r.Some? ==> connection.sent == Requests(control, clock)
    ensures r.Some? <==> |connection.responses| >= 6 && Accepted(control, connection.responses[..6])
    ensures r.Some? ==> r.value == digest(Observed(control, connection.responses[..6]))
  {
    var requests := Requests(control, clock);
    var got: seq<Json> := [];
    for n := 0 to 6
      invariant connection.sent == requests[..n]
      invariant n <= |connection.responses| && got == connection.responses[..n]
    {
      var response := connection.GetJson(requests[n]);
      assert connection.sent == requests[..n + 1];
      if response.None? {
        return None;
      }
      got := got + [response.value];
    }
    assert requests[..6] == requests;
    var started := CronRunIds(got[4], control.cronId, RunStarted);
    var ended := CronRunIds(got[3], control.cronId, RunEnded);
    if started.None? || ended.None? {
      return None;
    }
    var observed := [(WorkerIdentity(control), got[0], got[1] == JArray([])),
                     (CronIdentity(control), got[2], started.value <= ended.value),
                     (CronIdentity(control), got[5], started.value <= ended.value)];
    var canonical: seq<Service> := [];
    for n := 0 to 3
      invariant |canonical| == n
      invariant forall i :: 0 <= i < n ==> ServiceSuspended(observed[i].0, observed[i].1) && observed[i].2
      invariant forall i :: 0 <= i < n ==> canonical[i] == CanonicalService(observed[i].0, observed[i].1)
    {
      if !ServiceSuspended(observed[n].0, observed[n].1) || !observed[n].2 {
        assert observed[0].2 <==> got[1] == JArray([]);
        return None;
      }
      canonical := canonical + [CanonicalService(observed[n].0, observed[n].1)];
    }
    assert observed[0].2 && observed[1].2 && observed[2].2;
    assert got[1] == JArray([]);
    assert RunIds(got[4].items) <= RunIds(got[3].items);
    assert canonical[1] == CanonicalService(CronIdentity(control), got[2]);
    assert canonical[2] == CanonicalService(CronIdentity(control), got[5]);
    if canonical[2] != canonical[1] {
      return None;
    }
    return Some(digest(Evidence(canonical[0], canonical[1])));
  }
}
