/**
 Why an accepted stop proof is right although the environment moves between its reads:
 cron runs start and end, worker instances come and go, and both services are suspended and
 resumed, in any interleaving.
 */
module StopTimeline {
  import opened Patterns
  import opened ExecutorStop

  /** Runs, suspensions and resumptions of the cron job; instances of the worker and its own. */
  datatype Happening =
    | Started(run: string)
    | Ended(run: string)
    | Suspend
    | Resume
    | InstanceUp(instance: string)
    | InstanceDown(instance: string)
    | WorkerSuspend
    | WorkerResume

  datatype Entry = Entry(at: int, what: Happening)

  type Timeline = seq<Entry>

  /** Render ends a run after at most 12 hours. */
  const LONGEST_RUN: int := 12 * HOUR

  /** How far the reader's clock may be ahead of the timeline's. */
  const CLOCK_MARGIN: int := CRON_RUN_LOOKBACK - LONGEST_RUN

  /** A moment lies between two entries of the timeline. */
  datatype Moment = Moment(position: nat, at: int)

  predicate MomentOf(log: Timeline, m: Moment) {
    && m.position <= |log|
    && (forall i :: 0 <= i < m.position ==> log[i].at <= m.at)
    && (forall i :: m.position <= i < |log| ==> m.at <= log[i].at)
  }

  predicate NotLater(a: Moment, b: Moment) {
    a.position <= b.position && a.at <= b.at
  }

  predicate Happened(log: Timeline, m: Moment, what: Happening)
    requires m.position <= |log|
  {
    exists i :: 0 <= i < m.position && log[i].what == what
  }

  predicate Active(log: Timeline, m: Moment, run: string)
    requires m.position <= |log|
  {
    Happened(log, m, Started(run)) && !Happened(log, m, Ended(run))
  }

  /** Each run starts once, ends at most once and after its start, and has an exact ID. */
  predicate RunsWellFormed(log: Timeline) {
    && (forall i, j :: 0 <= i < j < |log| && log[i].what.Started? ==> log[i].what != log[j].what)
    && (forall i, j :: 0 <= i < j < |log| && log[i].what.Ended? ==> log[i].what != log[j].what)
    && (forall j :: 0 <= j < |log| && log[j].what.Ended? ==>
          exists i :: 0 <= i < j && log[i].what == Started(log[j].what.run))
  }

  /** No run is active longer than the limit. */
  ghost predicate RunsEndInTime(log: Timeline) {
    forall i: nat, m: Moment | i < m.position && MomentOf(log, m) && log[i].what.Started? ::
      Active(log, m, log[i].what.run) ==> m.at - log[i].at <= LONGEST_RUN
  }

  function Of(kind: EventType, run: string): Happening {
    match kind
    case RunStarted => Started(run)
    case RunEnded => Ended(run)
  }

  /** The run has an event of this kind inside the window by this moment. */
  predicate Listed(log: Timeline, m: Moment, kind: EventType, windowStart: int, run: string)
    requires m.position <= |log|
  {
    exists i :: 0 <= i < m.position && log[i].what == Of(kind, run) && windowStart <= log[i].at
  }

  /** The list has an event of this service and kind that names the run. */
  predicate Reports(items: seq<Json>, cronId: string, kind: EventType, run: string) {
    exists i :: 0 <= i < |items|
                && Get(Get(items[i], "event"), "serviceId") == JString(cronId)
                && Get(Get(items[i], "event"), "type") == JString(TypeName(kind))
                && Get(Get(Get(items[i], "event"), "details"), "cronJobRunId") == JString(run)
  }

  /**
   The events API at a moment: a list shorter than the page limit names exactly the runs
   with an event of the kind in the window.
   */
  ghost predicate EventsComplete(
      cronId: string, log: Timeline, m: Moment, kind: EventType, windowStart: int, response: Json)
    requires m.position <= |log|
  {
    response.JArray? && |response.items| < 100 ==>
      forall run :: Reports(response.items, cronId, kind, run) <==> Listed(log, m, kind, windowStart, run)
  }

  /** Of a list that the reader accepts, the run IDs it takes are those the list reports. */
  lemma TakenAreReported(events: Json, cronId: string, kind: EventType, run: string)
    requires EventsExact(events, cronId, kind)
    ensures run in RunIds(events.items) <==> Reports(events.items, cronId, kind, run)
    ensures |events.items| < 100
  {
    var items := events.items;
    if run in RunIds(items) {
      var i :| 0 <= i < |items| && RunIdOf(items[i]).JString? && RunIdOf(items[i]).s == run;
      assert ItemExact(items[i], cronId, kind);
    }
  }

  function SuspendedAt(log: Timeline, position: nat): bool
    requires position <= |log|
  {
    if position == 0 then false
    else
      match log[position - 1].what
      case Suspend => true
      case Resume => false
      case _ => SuspendedAt(log, position - 1)
  }

  function WorkerSuspendedAt(log: Timeline, position: nat): bool
    requires position <= |log|
  {
    if position == 0 then false
    else
      match log[position - 1].what
      case WorkerSuspend => true
      case WorkerResume => false
      case _ => WorkerSuspendedAt(log, position - 1)
  }

  /** The instance came up and has not gone down since. */
  predicate Running(log: Timeline, position: nat, instance: string)
    requires position <= |log|
  {
    exists i :: 0 <= i < position && log[i].what == InstanceUp(instance)
                && forall j :: i < j < position ==> log[j].what != InstanceDown(instance)
  }

  predicate SaysSuspended(response: Json, id: string) {
    Get(response, "id") == JString(id) && Get(response, "suspended") == JString("suspended")
  }

  /**
   What a truthful answer says of the timeline.  A service response speaks of the service
   that it names itself.
   */
  ghost predicate Answers(control: Control, log: Timeline, m: Moment, request: Request, response: Json)
    requires m.position <= |log|
  {
    match request
    case GetEvents(_, kind, windowStart) => EventsComplete(control.cronId, log, m, kind, windowStart, response)
    case GetService(_) =>
      && (SaysSuspended(response, control.cronId) ==> SuspendedAt(log, m.position))
      && (SaysSuspended(response, control.workerId) ==> WorkerSuspendedAt(log, m.position))
    case GetInstances(id) =>
      id == control.workerId && response.JArray? ==>
        (response.items == [] <==> forall instance :: !Running(log, m.position, instance))
  }

  /**
   The reads happen at these moments, one after another.  The clock was read before the
   first of them, on a clock that is not ahead by more than the margin.
   */
  ghost predicate ReadAt(control: Control, log: Timeline, clock: int, moments: seq<Moment>,
                         requests: seq<Request>, responses: seq<Json>) {
    && |moments| == |requests| == |responses| == 6
    && (forall i :: 0 <= i < 6 ==> MomentOf(log, moments[i]) && clock - CLOCK_MARGIN <= moments[i].at)
    && (forall i, j :: 0 <= i <= j < 6 ==> NotLater(moments[i], moments[j]))
    && (forall i :: 0 <= i < 6 ==> Answers(control, log, moments[i], requests[i], responses[i]))
  }

  /** A run active at either events read, or in between, is among the started events. */
  lemma ActiveIsListed(log: Timeline, clock: int, m: Moment, read: Moment, run: string)
    requires RunsEndInTime(log)
    requires MomentOf(log, m) && MomentOf(log, read) && NotLater(m, read) && clock - CLOCK_MARGIN <= m.at
    requires Active(log, m, run)
    ensures Listed(log, read, RunStarted, WindowStart(clock), run)
  {
    var i :| 0 <= i < m.position && log[i].what == Started(run);
    assert log[i].what.Started? && Active(log, m, log[i].what.run);
    assert WindowStart(clock) <= log[i].at;
    assert log[i].what == Of(RunStarted, run);
  }

  /**
   The stop proof under concurrency: whatever starts, ends, suspends or resumes between
   the reads, an accepted proof means that no run was active at any moment from the
   ended-events read to the started-events read.
   */
  lemma AcceptedMeansIdle(control: Control, clock: int, log: Timeline, moments: seq<Moment>, responses: seq<Json>,
                          m: Moment, run: string)
    requires RunsEndInTime(log)
    requires ReadAt(control, log, clock, moments, Requests(control, clock), responses)
    requires Accepted(control, responses)
    requires MomentOf(log, m) && NotLater(moments[3], m) && NotLater(m, moments[4])
    ensures !Active(log, m, run)
  {
    assert Answers(control, log, moments[3], Requests(control, clock)[3], responses[3]);
    assert Answers(control, log, moments[4], Requests(control, clock)[4], responses[4]);
    TakenAreReported(responses[3], control.cronId, RunEnded, run);
    TakenAreReported(responses[4], control.cronId, RunStarted, run);
    if Active(log, m, run) {
      ActiveIsListed(log, clock, m, moments[4], run);
    }
  }

  /** The service and event responses are individually exact. */
  predicate ResponsesExact(control: Control, responses: seq<Json>) {
    && |responses| == 6
    && ServiceSuspended(WorkerIdentity(control), responses[0]) && responses[1] == JArray([])
    && ServiceSuspended(CronIdentity(control), responses[2])
    && EventsExact(responses[3], control.cronId, RunEnded)
    && EventsExact(responses[4], control.cronId, RunStarted)
    && ServiceSuspended(CronIdentity(control), responses[5])
    && CanonicalService(CronIdentity(control), responses[5]) == CanonicalService(CronIdentity(control), responses[2])
  }

  /** The run has an active moment between the two event reads. */
  ghost predicate ActiveBetween(log: Timeline, first: Moment, last: Moment, run: string) {
    exists m :: MomentOf(log, m) && NotLater(first, m) && NotLater(m, last) && Active(log, m, run)
  }

  /** A run started in the window but not ended at the first read is active in between. */
  lemma UnendedIsActive(log: Timeline, first: Moment, last: Moment, windowStart: int, run: string)
    requires RunsWellFormed(log)
    requires MomentOf(log, first) && MomentOf(log, last) && NotLater(first, last)
    requires Listed(log, last, RunStarted, windowStart, run) && !Listed(log, first, RunEnded, windowStart, run)
    requires forall i, j :: 0 <= i < j < |log| ==> log[i].at <= log[j].at
    ensures ActiveBetween(log, first, last, run)
  {
    var i :| 0 <= i < last.position && log[i].what == Of(RunStarted, run) && windowStart <= log[i].at;
    // The first moment of the interval at which the run has started.
    var m := if i < first.position then first else Moment(i + 1, if log[i].at < first.at then first.at else log[i].at);
    assert Happened(log, m, Started(run));
    forall j | 0 <= j < m.position
      ensures log[j].what != Of(RunEnded, run)
    {
    }
    assert MomentOf(log, m) && Active(log, m, run);
  }

  /** A run among the started but not among the ended events was active in between. */
  lemma UnmatchedIsActive(control: Control, clock: int, log: Timeline, moments: seq<Moment>, responses: seq<Json>,
                          run: string)
    requires RunsWellFormed(log)
    requires forall i, j :: 0 <= i < j < |log| ==> log[i].at <= log[j].at
    requires ReadAt(control, log, clock, moments, Requests(control, clock), responses)
    requires EventsExact(responses[3], control.cronId, RunEnded)
    requires EventsExact(responses[4], control.cronId, RunStarted)
    requires run in RunIds(responses[4].items) && run !in RunIds(responses[3].items)
    ensures ActiveBetween(log, moments[3], moments[4], run)
  {
    assert Answers(control, log, moments[3], Requests(control, clock)[3], responses[3]);
    assert Answers(control, log, moments[4], Requests(control, clock)[4], responses[4]);
    TakenAreReported(responses[3], control.cronId, RunEnded, run);
    TakenAreReported(responses[4], control.cronId, RunStarted, run);
    UnendedIsActive(log, moments[3], moments[4], WindowStart(clock), run);
  }

  /**
   Exactness: when every response is exact, the proof is accepted if and only if no run is
   active at any moment between the two event reads.
   */
  lemma AcceptedIffIdle(control: Control, clock: int, log: Timeline, moments: seq<Moment>, responses: seq<Json>)
    requires RunsWellFormed(log) && RunsEndInTime(log)
    requires forall i, j :: 0 <= i < j < |log| ==> log[i].at <= log[j].at
    requires ReadAt(control, log, clock, moments, Requests(control, clock), responses)
    requires ResponsesExact(control, responses)
    ensures Accepted(control, responses) <==> forall run :: !ActiveBetween(log, moments[3], moments[4], run)
  {
    if Accepted(control, responses) {
      forall run | ActiveBetween(log, moments[3], moments[4], run)
        ensures false
      {
        var m :| MomentOf(log, m) && NotLater(moments[3], m) && NotLater(m, moments[4]) && Active(log, m, run);
        AcceptedMeansIdle(control, clock, log, moments, responses, m, run);
      }
    } else {
      var run :| run in RunIds(responses[4].items) && run !in RunIds(responses[3].items);
      UnmatchedIsActive(control, clock, log, moments, responses, run);
    }
  }

  // ---- suspension --------------------------------------------------------------------

  predicate StartsOnlyUnsuspended(log: Timeline) {
    forall i :: 0 <= i < |log| && log[i].what.Started? ==> !SuspendedAt(log, i)
  }

  lemma {:induction false} StaysSuspended(log: Timeline, first: nat, last: nat)
    requires first <= last <= |log| && SuspendedAt(log, first)
    requires forall i :: first <= i < last ==> log[i].what != Resume
    ensures SuspendedAt(log, last)
    decreases last
  {
    if first == last {
    } else {
      StaysSuspended(log, first, last - 1);
    }
  }

  /** An accepted proof means that the job was suspended at the first and the last cron read. */
  lemma AcceptedMeansSuspended(control: Control, clock: int, log: Timeline, moments: seq<Moment>, responses: seq<Json>)
    requires ReadAt(control, log, clock, moments, Requests(control, clock), responses)
    requires Accepted(control, responses)
    ensures SuspendedAt(log, moments[2].position) && SuspendedAt(log, moments[5].position)
  {
    assert Answers(control, log, moments[2], Requests(control, clock)[2], responses[2]);
    assert Answers(control, log, moments[5], Requests(control, clock)[5], responses[5]);
  }

  /**
   Where a run starts only while the job is not suspended, and the job is not resumed
   between the first cron read and some later moment, an accepted proof also rules out any
   active run at that moment.
   */
  lemma IdleWhileSuspended(control: Control, clock: int, log: Timeline, moments: seq<Moment>, responses: seq<Json>,
                           m: Moment, run: string)
    requires RunsEndInTime(log) && StartsOnlyUnsuspended(log)
    requires ReadAt(control, log, clock, moments, Requests(control, clock), responses)
    requires Accepted(control, responses)
    requires MomentOf(log, m) && NotLater(moments[4], m)
    requires forall i :: moments[2].position <= i < m.position ==> log[i].what != Resume
    ensures !Active(log, m, run)
  {
    AcceptedMeansSuspended(control, clock, log, moments, responses);
    if Active(log, m, run) {
      var i :| 0 <= i < m.position && log[i].what == Started(run);
      if moments[2].position <= i {
        StaysSuspended(log, moments[2].position, i);
      }
      assert NotLater(moments[2], moments[3]) && NotLater(moments[3], moments[4]);
      assert Happened(log, moments[4], Started(run));
      AcceptedMeansIdle(control, clock, log, moments, responses, moments[4], run);
    }
  }

  // ---- the worker -------------------------------------------------------------------------

  /**
   The worker half: an accepted proof means that the worker was suspended at the first read
   and had no instance at the second.
   */
  lemma AcceptedMeansWorkerStopped(
      control: Control, clock: int, log: Timeline, moments: seq<Moment>, responses: seq<Json>, instance: string)
    requires ReadAt(control, log, clock, moments, Requests(control, clock), responses)
    requires Accepted(control, responses)
    ensures WorkerSuspendedAt(log, moments[0].position)
    ensures !Running(log, moments[1].position, instance)
  {
    assert Answers(control, log, moments[0], Requests(control, clock)[0], responses[0]);
    assert Answers(control, log, moments[1], Requests(control, clock)[1], responses[1]);
  }

  predicate InstancesOnlyUnsuspended(log: Timeline) {
    forall i :: 0 <= i < |log| && log[i].what.InstanceUp? ==> !WorkerSuspendedAt(log, i)
  }

  lemma {:induction false} StaysWorkerSuspended(log: Timeline, first: nat, last: nat)
    requires first <= last <= |log| && WorkerSuspendedAt(log, first)
    requires forall i :: first <= i < last ==> log[i].what != WorkerResume
    ensures WorkerSuspendedAt(log, last)
    decreases last
  {
    if first == last {
    } else {
      StaysWorkerSuspended(log, first, last - 1);
    }
  }

  /** An instance running later was running already when the suspended worker was looked at. */
  lemma RunningBefore(log: Timeline, first: nat, middle: nat, last: nat, instance: string)
    requires InstancesOnlyUnsuspended(log) && first <= middle <= last <= |log|
    requires WorkerSuspendedAt(log, first) && forall i :: first <= i < last ==> log[i].what != WorkerResume
    requires Running(log, last, instance)
    ensures Running(log, middle, instance)
  {
    var i :| 0 <= i < last && log[i].what == InstanceUp(instance)
             && forall j :: i < j < last ==> log[j].what != InstanceDown(instance);
    if first <= i {
      StaysWorkerSuspended(log, first, i);
    }
  }

  /**
   Where an instance comes up only while the worker is not suspended, an accepted proof
   rules out any instance until the worker is resumed.
   */
  lemma NoInstanceWhileSuspended(
      control: Control, clock: int, log: Timeline, moments: seq<Moment>, responses: seq<Json>,
      m: Moment, instance: string)
    requires InstancesOnlyUnsuspended(log)
    requires ReadAt(control, log, clock, moments, Requests(control, clock), responses)
    requires Accepted(control, responses)
    requires MomentOf(log, m) && NotLater(moments[1], m)
    requires forall i :: moments[0].position <= i < m.position ==> log[i].what != WorkerResume
    ensures !Running(log, m.position, instance)
  {
    AcceptedMeansWorkerStopped(control, clock, log, moments, responses, instance);
    assert NotLater(moments[0], moments[1]);
    if Running(log, m.position, instance) {
      RunningBefore(log, moments[0].position, moments[1].position, m.position, instance);
    }
  }

  // ---- the order of the two event reads --------------------------------------------------

  /** The same six reads with started events before ended events. */
  function StartedFirst(control: Control, clock: int): seq<Request> {
    var r := Requests(control, clock);
    [r[0], r[1], r[2], r[4], r[3], r[5]]
  }

  /** The responses of those reads, as the checks take them. */
  function AsChecked(responses: seq<Json>): seq<Json>
    requires |responses| == 6
  {
    [responses[0], responses[1], responses[2], responses[4], responses[3], responses[5]]
  }

  /** A suspended executor, as the API describes it. */
  function Suspended(identity: Identity): Json {
    JObject(map["id" := JString(identity.id), "name" := JString(identity.name), "type" := JString(identity.kind),
                "suspended" := JString("suspended"), "ownerId" := JString("own"), "suspenders" := JArray([])])
  }

  lemma SuspendedIsExact(identity: Identity)
    ensures ServiceSuspended(identity, Suspended(identity))
  {
    var fields := Suspended(identity).fields;
    assert fields["id"] == JString(identity.id) && fields["name"] == JString(identity.name);
    assert fields["type"] == JString(identity.kind) && fields["suspended"] == JString("suspended");
    assert fields["ownerId"] == JString("own") && fields["suspenders"] == JArray([]);
  }

  function QuietResponses(control: Control): seq<Json> {
    var cron := Suspended(CronIdentity(control));
    [Suspended(WorkerIdentity(control)), JArray([]), cron, JArray([]), JArray([]), cron]
  }

  lemma QuietIsAccepted(control: Control)
    ensures Accepted(control, AsChecked(QuietResponses(control)))
  {
    SuspendedIsExact(WorkerIdentity(control));
    SuspendedIsExact(CronIdentity(control));
  }

  /** The job is resumed for one run between the two event reads. */
  function OneRun(clock: int): Timeline {
    [Entry(clock, WorkerSuspend), Entry(clock, Suspend), Entry(clock, Resume), Entry(clock, Started("r")),
     Entry(clock, Suspend), Entry(clock, Ended("r"))]
  }

  function ReadMoments(clock: int): seq<Moment> {
    var before, during := Moment(2, clock), Moment(5, clock);
    [before, before, before, before, during, during]
  }

  lemma OneRunIsWellFormed(clock: int)
    ensures RunsWellFormed(OneRun(clock)) && RunsEndInTime(OneRun(clock))
    ensures StartsOnlyUnsuspended(OneRun(clock)) && InstancesOnlyUnsuspended(OneRun(clock))
  {
    var log := OneRun(clock);
    assert log[3].what == Started(log[5].what.run);
    assert SuspendedAt(log, 2) && !SuspendedAt(log, 3);
    forall i: nat, m: Moment | i < m.position && MomentOf(log, m) && log[i].what.Started?
        && Active(log, m, log[i].what.run)
      ensures m.at - log[i].at <= LONGEST_RUN
    {
      assert i == 3;
      assert log[5].what == Ended(log[i].what.run);
      assert m.position <= 5;
      assert m.at <= log[5].at;
    }
  }

  lemma OneRunSuspensions(clock: int)
    ensures var log := OneRun(clock);
            && SuspendedAt(log, 2) && SuspendedAt(log, 5)
            && WorkerSuspendedAt(log, 2) && WorkerSuspendedAt(log, 5)
            && forall instance :: !Running(log, 2, instance)
  {
    var log := OneRun(clock);
    assert SuspendedAt(log, 2) && SuspendedAt(log, 5);
    assert WorkerSuspendedAt(log, 1) && WorkerSuspendedAt(log, 2) && WorkerSuspendedAt(log, 3);
    assert WorkerSuspendedAt(log, 4) && WorkerSuspendedAt(log, 5);
  }

  lemma OneRunIsUnseen(control: Control, clock: int)
    ensures ReadAt(control, OneRun(clock), clock, ReadMoments(clock), StartedFirst(control, clock),
                   QuietResponses(control))
    ensures Active(OneRun(clock), ReadMoments(clock)[4], "r")
  {
    var log, moments := OneRun(clock), ReadMoments(clock);
    var requests, responses := StartedFirst(control, clock), QuietResponses(control);
    OneRunSuspensions(clock);
    forall i | 0 <= i < 6
      ensures Answers(control, log, moments[i], requests[i], responses[i])
    {
      NothingListed(clock, moments[i], WindowStart(clock));
    }
    assert log[3].what == Started("r");
  }

  lemma NothingListed(clock: int, m: Moment, windowStart: int)
    requires m == Moment(2, clock) || m == Moment(5, clock)
    ensures forall run :: !Listed(OneRun(clock), m, RunEnded, windowStart, run)
    ensures m.position == 2 ==> forall run :: !Listed(OneRun(clock), m, RunStarted, windowStart, run)
  {
  }

  /**
   The order matters.  With the started events read first, there are truthful responses that
   the very same checks accept while a run is active at the later event read, in an
   environment where runs end in time and start only while the job is not suspended.
   */
  lemma StartedFirstIsUnsound(control: Control, clock: int)
    ensures exists log: Timeline, moments, responses, run ::
              && RunsWellFormed(log) && RunsEndInTime(log) && StartsOnlyUnsuspended(log)
              && ReadAt(control, log, clock, moments, StartedFirst(control, clock), responses)
              && Accepted(control, AsChecked(responses))
              && Active(log, moments[4], run)
  {
    OneRunIsWellFormed(clock);
    OneRunIsUnseen(control, clock);
    QuietIsAccepted(control);
  }
}
