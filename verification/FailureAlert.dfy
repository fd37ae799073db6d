/** Delivering one alert to every operator within a deadline, and its hourly rate limit. */
module FailureAlert {
  import opened Patterns

  /** Times are milliseconds. */
  const DELIVERY: int := 60_000
  const REQUEST: int := 20_000
  const MIN_REQUEST: int := 5_000
  const SEND_INTERVAL: int := 600

  /** How one request would go: its duration, and the name of its failure if it fails. */
  datatype Attempt = Attempt(took: nat, failure: Option<string>)

  datatype Event =
    | Paused
    | Requested(address: string, limit: int, at: int)
    | Accepted(address: string)
    | Failed(address: string, failure: string)
    | FirstDelivery

  function Acceptances(events: seq<Event>): (n: nat) {
    if events == [] then 0
    else Acceptances(events[..|events| - 1]) + (if events[|events| - 1].Accepted? then 1 else 0)
  }

  /** The callback runs exactly right after the first acceptance. */
  predicate CallbackAfterFirst(events: seq<Event>) {
    && (forall i :: 0 <= i < |events| && events[i] == FirstDelivery ==>
          && i > 0 && events[i - 1].Accepted?
          && forall k :: 0 <= k < i - 1 ==> !events[k].Accepted?)
    && (forall i :: 0 <= i < |events| && events[i].Accepted? && (forall k :: 0 <= k < i ==> !events[k].Accepted?) ==>
          i + 1 < |events| && events[i + 1] == FirstDelivery)
  }

  /** The time a request may take: what is left until the deadline, but not over 20 seconds. */
  function LimitAt(at: int, deadline: int): int {
    if REQUEST < deadline - at then REQUEST else deadline - at
  }

  /** Every request has between 5 and 20 seconds, and its limit lies before the deadline. */
  predicate RequestsBounded(events: seq<Event>, deadline: int) {
    forall i :: 0 <= i < |events| && events[i].Requested? ==>
      && MIN_REQUEST <= events[i].limit == LimitAt(events[i].at, deadline)
  }

  /** The requested addresses, in order. */
  function Tried(events: seq<Event>): seq<string> {
    if events == [] then []
    else
      var last := events[|events| - 1];
      Tried(events[..|events| - 1]) + (if last.Requested? then [last.address] else [])
  }

  /** The names of the failures. */
  function Failures(events: seq<Event>): multiset<string> {
    if events == [] then multiset{}
    else
      var last := events[|events| - 1];
      Failures(events[..|events| - 1]) + (if last.Failed? then multiset{last.failure} else multiset{})
  }

  /** How a request to this address ends. */
  function Ending(address: string, failure: Option<string>): Event {
    match failure
    case None => Accepted(address)
    case Some(f) => Failed(address, f)
  }

  /** Each request is followed by the outcome of its own attempt within its own limit. */
  predicate Answered(events: seq<Event>, attempts: seq<Attempt>) {
    forall j :: 0 <= j < |events| && events[j].Requested? ==>
      && |Tried(events[..j])| < |attempts| && j + 1 < |events|
      && events[j + 1] == Ending(events[j].address, Outcome(attempts[|Tried(events[..j])|], events[j].limit))
  }

  lemma OneMoreEvent(events: seq<Event>, e: Event)
    ensures Failures(events + [e]) == Failures(events) + (if e.Failed? then multiset{e.failure} else multiset{})
    ensures Acceptances(events + [e]) == Acceptances(events) + (if e.Accepted? then 1 else 0)
    ensures Tried(events + [e]) == Tried(events) + (if e.Requested? then [e.address] else [])
  {
    assert (events + [e])[..|events|] == events;
  }

  lemma {:induction false} NoAcceptances(events: seq<Event>)
    ensures Acceptances(events) == 0 <==> forall i :: 0 <= i < |events| ==> !events[i].Accepted?
    decreases |events|
  {
    if events == [] {
    } else {
      NoAcceptances(events[..|events| - 1]);
    }
  }

  /** What a finished delivery reports. */
  datatype Report = Report(reached: nat, failures: multiset<string>, notTried: nat)

  /** A request's outcome after its limit has been applied. */
  function Outcome(a: Attempt, limit: int): Option<string> {
    if a.took > limit then Some("DeliveryTimeout") else a.failure
  }

  class Sender {
    var now: int
    var events: seq<Event>

    constructor (now: int)
      ensures this.now == now && events == []
    {
      this.now, events := now, [];
    }

    method Pause(ghost tried: seq<string>, ghost attempts: seq<Attempt>, ghost reached: nat,
                 ghost failures: multiset<string>, ghost deadline: int)
      requires Standing(events, tried, attempts, reached, failures, deadline)
      modifies this
      ensures now == old(now) + SEND_INTERVAL && events == old(events) + [Paused]
      ensures Standing(events, tried, attempts, reached, failures, deadline)
    {
      PauseStands(events, tried, attempts, reached, failures, deadline);
      now, events := now + SEND_INTERVAL, events + [Paused];
    }

    /** One request, cut off at its limit. */
    method SendWithin(address: string, attempt: Attempt, limit: int) returns (failure: Option<string>)
      requires limit > 0
      modifies this
      ensures failure == Outcome(attempt, limit)
      ensures old(now) <= now <= old(now) + limit
      ensures events == old(events)
                        + [Requested(address, limit, old(now)), Ending(address, failure)]
    {
      failure := Outcome(attempt, limit);
      events := events + [Requested(address, limit, now), Ending(address, failure)];
      now := now + (if attempt.took > limit then limit else attempt.took);
    }

    /** One recipient: the request and, on the first acceptance, the callback before anything else. */
    method Attend(address: string, attempts: seq<Attempt>, reached: nat,
                  ghost tried: seq<string>, ghost failures: multiset<string>, deadline: int, index: nat)
      returns (failure: Option<string>)
      requires Standing(events, tried, attempts, reached, failures, deadline)
      requires |tried| == index < |attempts| && MIN_REQUEST <= LimitAt(now, deadline)
      modifies this
      ensures old(now) <= now <= old(now) + LimitAt(old(now), deadline)
      ensures Standing(events, tried + [address], attempts, if failure.None? then reached + 1 else reached,
                       if failure.None? then failures else failures + multiset{failure.value}, deadline)
    {
      ghost var before := events;
      var limit := LimitAt(now, deadline);
      AttendStands(events, tried, attempts, reached, failures, deadline, address, now);
      ghost var added := Attended(address, Outcome(attempts[index], limit), limit, now, reached == 0);
      failure := SendWithin(address, attempts[index], limit);
      if failure.None? && reached == 0 {
        events := events + [FirstDelivery];
      }
      assert events == before + added;
    }

    /** The next recipient, after the pause, unless too little time is left. */
    method Next(addresses: seq<string>, attempts: seq<Attempt>, reached: nat,
                ghost failures: multiset<string>, deadline: int, index: nat)
      returns (late: bool, failure: Option<string>)
      requires index < |addresses| == |attempts| && now <= deadline
      requires Standing(events, addresses[..index], attempts, reached, failures, deadline)
      modifies this
      ensures old(now) <= now <= (if late then deadline + SEND_INTERVAL else deadline)
      ensures late ==> deadline - now < MIN_REQUEST
      ensures late ==> Standing(events, addresses[..index], attempts, reached, failures, deadline)
      ensures !late ==>
                Standing(events, addresses[..index + 1], attempts, if failure.None? then reached + 1 else reached,
                         if failure.None? then failures else failures + multiset{failure.value}, deadline)
    {
      failure := None;
      if index > 0 {
        Pause(addresses[..index], attempts, reached, failures, deadline);
      }
      late := deadline - now < MIN_REQUEST;
      if !late {
        assert addresses[..index + 1] == addresses[..index] + [addresses[index]];
        failure := Attend(addresses[index], attempts, reached, addresses[..index], failures, deadline, index);
      }
    }

    /** Sends to each address in turn, within the deadline. */
    method Deliver(addresses: seq<string>, attempts: seq<Attempt>) returns (r: Report)
      requires events == [] && |attempts| == |addresses|
      modifies this
      ensures Delivered(events, addresses, attempts, r, old(now), now)
    {
      var deadline := now + DELIVERY;
      var reached: nat := 0;
      var failures: multiset<string> := multiset{};
      var index := 0;
      var late := false;
      while index < |addresses| && !late
        invariant 0 <= index <= |addresses| && reached + |failures| == index
        invariant Standing(events, addresses[..index], attempts, reached, failures, deadline)
        invariant old(now) <= now <= (if late then deadline + SEND_INTERVAL else deadline)
        invariant late ==> deadline - now < MIN_REQUEST
        decreases |addresses| - index, if late then 0 else 1
      {
        var failure;
        late, failure := Next(addresses, attempts, reached, failures, deadline, index);
        if !late {
          index := index + 1;
          if failure.Some? {
            failures := failures + multiset{failure.value};
          } else {
            reached := reached + 1;
          }
        }
      }
      return Report(reached, failures, |addresses| - index);
    }
  }

  /**
   What a finished delivery means: the counts sum to the recipients and are those of the
   requests made, which went to the first recipients in order, each with the outcome of its
   own attempt; anyone not tried was left out for want of five seconds.
   */
  ghost predicate Delivered(events: seq<Event>, addresses: seq<string>, attempts: seq<Attempt>, r: Report,
                            start: int, end: int) {
    && r.reached + |r.failures| + r.notTried == |addresses|
    && Standing(events, addresses[..|addresses| - r.notTried], attempts, r.reached, r.failures, start + DELIVERY)
    && (r.notTried > 0 ==> start + DELIVERY - end < MIN_REQUEST)
    && start <= end <= start + DELIVERY + SEND_INTERVAL
  }

  /** The failures are exactly those of the requests made, and each request has its answer. */
  predicate Told(events: seq<Event>, attempts: seq<Attempt>, failures: multiset<string>) {
    Answered(events, attempts) && Failures(events) == failures
  }

  ghost predicate Standing(events: seq<Event>, tried: seq<string>, attempts: seq<Attempt>,
                           reached: nat, failures: multiset<string>, deadline: int) {
    Progress(events, tried, reached, deadline) && Told(events, attempts, failures)
  }

  /** The events of one recipient. */
  function Attended(address: string, failure: Option<string>, limit: int, at: int, first: bool): seq<Event> {
    [Requested(address, limit, at), Ending(address, failure)]
    + (if failure.None? && first then [FirstDelivery] else [])
  }

  lemma PauseStands(events: seq<Event>, tried: seq<string>, attempts: seq<Attempt>,
                    reached: nat, failures: multiset<string>, deadline: int)
    requires Standing(events, tried, attempts, reached, failures, deadline)
    ensures Standing(events + [Paused], tried, attempts, reached, failures, deadline)
  {
    QuietProgress(events, tried, reached, deadline, Paused);
    QuietTold(events, attempts, failures, Paused);
  }

  /** One more recipient, with the outcome of the next attempt. */
  lemma AttendStands(events: seq<Event>, tried: seq<string>, attempts: seq<Attempt>,
                     reached: nat, failures: multiset<string>, deadline: int, address: string, at: int)
    requires Standing(events, tried, attempts, reached, failures, deadline)
    requires |tried| < |attempts| && MIN_REQUEST <= LimitAt(at, deadline)
    ensures var limit := LimitAt(at, deadline);
            var failure := Outcome(attempts[|tried|], limit);
            Standing(events + Attended(address, failure, limit, at, reached == 0), tried + [address], attempts,
                     if failure.None? then reached + 1 else reached,
                     if failure.None? then failures else failures + multiset{failure.value}, deadline)
  {
    var limit := LimitAt(at, deadline);
    var failure := Outcome(attempts[|tried|], limit);
    AttendProgress(events, tried, reached, deadline, address, failure, at);
    AttendTold(events, attempts, failures, address, limit, at, reached == 0);
  }

  /** The events of one recipient, one after another. */
  lemma AttendedEvents(events: seq<Event>, address: string, failure: Option<string>, limit: int, at: int, first: bool)
    ensures events + Attended(address, failure, limit, at, first) ==
            events + [Requested(address, limit, at)]
            + (if failure.Some? then [Failed(address, failure.value)]
               else if first then [Accepted(address), FirstDelivery] else [Accepted(address)])
  {
  }

  lemma AttendProgress(events: seq<Event>, tried: seq<string>, reached: nat, deadline: int,
                       address: string, failure: Option<string>, at: int)
    requires Progress(events, tried, reached, deadline) && MIN_REQUEST <= LimitAt(at, deadline)
    ensures Progress(events + Attended(address, failure, LimitAt(at, deadline), at, reached == 0), tried + [address],
                     if failure.None? then reached + 1 else reached, deadline)
  {
    var limit := LimitAt(at, deadline);
    var requested := events + [Requested(address, limit, at)];
    RequestMade(events, tried, reached, deadline, address, limit, at);
    AttendedEvents(events, address, failure, limit, at, reached == 0);
    if failure.Some? {
      QuietProgress(requested, tried + [address], reached, deadline, Failed(address, failure.value));
    } else if reached == 0 {
      FirstReached(requested, tried + [address], deadline, address);
    } else {
      LaterReached(requested, tried + [address], reached, deadline, address);
    }
  }

  lemma AttendTold(events: seq<Event>, attempts: seq<Attempt>, failures: multiset<string>,
                   address: string, limit: int, at: int, first: bool)
    requires Told(events, attempts, failures) && |Tried(events)| < |attempts|
    ensures var failure := Outcome(attempts[|Tried(events)|], limit);
            Told(events + Attended(address, failure, limit, at, first), attempts,
                 if failure.None? then failures else failures + multiset{failure.value})
  {
    var failure := Outcome(attempts[|Tried(events)|], limit);
    var told := if failure.None? then failures else failures + multiset{failure.value};
    var answered := events + [Requested(address, limit, at), Ending(address, failure)];
    RequestTold(events, attempts, failures, address, limit, at);
    if failure.None? && first {
      QuietTold(answered, attempts, told, FirstDelivery);
      assert events + Attended(address, failure, limit, at, first) == answered + [FirstDelivery];
    } else {
      assert events + Attended(address, failure, limit, at, first) == answered;
    }
  }

  lemma QuietTold(events: seq<Event>, attempts: seq<Attempt>, failures: multiset<string>, e: Event)
    requires Told(events, attempts, failures) && (e.Paused? || e.FirstDelivery?)
    ensures Told(events + [e], attempts, failures)
  {
    var longer := events + [e];
    OneMoreEvent(events, e);
    forall j | 0 <= j < |longer| && longer[j].Requested?
      ensures longer[..j] == events[..j] && j + 1 < |events| && longer[j] == events[j] && longer[j + 1] == events[j + 1]
    {
    }
  }

  lemma RequestTold(events: seq<Event>, attempts: seq<Attempt>, failures: multiset<string>,
                    address: string, limit: int, at: int)
    requires Told(events, attempts, failures) && |Tried(events)| < |attempts|
    ensures var failure := Outcome(attempts[|Tried(events)|], limit);
            Told(events + [Requested(address, limit, at), Ending(address, failure)], attempts,
                 if failure.None? then failures else failures + multiset{failure.value})
  {
    var failure := Outcome(attempts[|Tried(events)|], limit);
    var requested := events + [Requested(address, limit, at)];
    var longer := events + [Requested(address, limit, at), Ending(address, failure)];
    assert longer == requested + [Ending(address, failure)];
    OneMoreEvent(events, Requested(address, limit, at));
    OneMoreEvent(requested, Ending(address, failure));
    LongerAnswered(events, attempts, Requested(address, limit, at), Ending(address, failure));
  }

  lemma LongerAnswered(events: seq<Event>, attempts: seq<Attempt>, request: Event, ending: Event)
    requires Answered(events, attempts) && request.Requested? && !ending.Requested?
    requires |Tried(events)| < |attempts|
    requires ending == Ending(request.address, Outcome(attempts[|Tried(events)|], request.limit))
    ensures Answered(events + [request, ending], attempts)
  {
    var longer := events + [request, ending];
    assert longer[..|events|] == events;
    forall j | 0 <= j < |events| && longer[j].Requested?
      ensures longer[..j] == events[..j] && j + 1 < |events|
      ensures longer[j] == events[j] && longer[j + 1] == events[j + 1]
    {
      assert events[j].Requested?;
    }
  }

  /**
   Where a delivery stands: who was tried, in order; how many accepted; the callback ran
   once anyone accepted, right after the first; every request was within its bounds.
   */
  ghost predicate Progress(events: seq<Event>, tried: seq<string>, reached: nat, deadline: int) {
    && Tried(events) == tried
    && Acceptances(events) == reached
    && (FirstDelivery in events <==> reached > 0)
    && CallbackAfterFirst(events)
    && RequestsBounded(events, deadline)
  }

  /** A request is accepted exactly when its attempt succeeds within the limit of the request. */
  lemma AcceptedIffInTime(events: seq<Event>, attempts: seq<Attempt>, failures: multiset<string>, j: nat)
    requires Told(events, attempts, failures) && j < |events| && events[j].Requested?
    ensures |Tried(events[..j])| < |attempts| && j + 1 < |events|
    ensures var a := attempts[|Tried(events[..j])|];
            var ending := events[j + 1];
            && (ending.Accepted? <==> a.failure.None? && a.took <= events[j].limit)
            && (ending.Accepted? ==> ending.address == events[j].address)
            && (!ending.Accepted? ==>
                  ending == Failed(events[j].address,
                                   if a.took > events[j].limit then "DeliveryTimeout" else a.failure.value))
  {
  }

  /** The bounds of a delivery in milliseconds. */
  lemma DeliveryTimes(events: seq<Event>, addresses: seq<string>, attempts: seq<Attempt>, r: Report,
                      start: int, end: int)
    requires Delivered(events, addresses, attempts, r, start, end)
    ensures start <= end <= start + 60_600
    ensures r.notTried > 0 ==> start + 55_000 < end
    ensures forall i :: 0 <= i < |events| && events[i].Requested? ==>
              && 5_000 <= events[i].limit <= 20_000
              && events[i].at + events[i].limit <= start + 60_000
              && (events[i].limit < 20_000 ==> events[i].at + events[i].limit == start + 60_000)
  {
  }

  /** The callback runs at most once. */
  lemma CallbackRunsOnce(events: seq<Event>, i: nat, j: nat)
    requires CallbackAfterFirst(events)
    requires i < |events| && j < |events| && events[i] == FirstDelivery && events[j] == FirstDelivery
    ensures i == j
  {
    assert events[i - 1].Accepted? && events[j - 1].Accepted?;
  }

  lemma QuietProgress(events: seq<Event>, tried: seq<string>, reached: nat, deadline: int, e: Event)
    requires Progress(events, tried, reached, deadline) && (e.Paused? || e.Failed?)
    ensures Progress(events + [e], tried, reached, deadline)
  {
    OneMoreEvent(events, e);
    QuietEvent(events, e, deadline);
  }

  lemma RequestMade(events: seq<Event>, tried: seq<string>, reached: nat, deadline: int,
                    address: string, limit: int, at: int)
    requires Progress(events, tried, reached, deadline)
    requires MIN_REQUEST <= limit == LimitAt(at, deadline)
    ensures Progress(events + [Requested(address, limit, at)], tried + [address], reached, deadline)
  {
    OneMoreEvent(events, Requested(address, limit, at));
    QuietEvent(events, Requested(address, limit, at), deadline);
  }

  lemma FirstReached(events: seq<Event>, tried: seq<string>, deadline: int, address: string)
    requires Progress(events, tried, 0, deadline)
    ensures Progress(events + [Accepted(address), FirstDelivery], tried, 1, deadline)
  {
    OneMoreEvent(events, Accepted(address));
    OneMoreEvent(events + [Accepted(address)], FirstDelivery);
    assert events + [Accepted(address)] + [FirstDelivery] == events + [Accepted(address), FirstDelivery];
    FirstAcceptance(events, address, deadline);
  }

  lemma LaterReached(events: seq<Event>, tried: seq<string>, reached: nat, deadline: int, address: string)
    requires Progress(events, tried, reached, deadline) && reached > 0
    ensures Progress(events + [Accepted(address)], tried, reached + 1, deadline)
  {
    OneMoreEvent(events, Accepted(address));
    LaterAcceptance(events, address, deadline);
  }

  /** Events that are neither acceptances nor the callback disturb nothing. */
  lemma QuietEvent(events: seq<Event>, e: Event, deadline: int)
    requires CallbackAfterFirst(events) && RequestsBounded(events, deadline)
    requires e.Paused? || e.Failed?
             || (e.Requested? && MIN_REQUEST <= e.limit == LimitAt(e.at, deadline))
    ensures CallbackAfterFirst(events + [e]) && RequestsBounded(events + [e], deadline)
    ensures FirstDelivery in events + [e] <==> FirstDelivery in events
  {
    var longer := events + [e];
    assert forall i :: 0 <= i < |events| ==> longer[i] == events[i];
    assert longer[|events|] == e;
  }

  lemma FirstAcceptance(events: seq<Event>, address: string, deadline: int)
    requires CallbackAfterFirst(events) && RequestsBounded(events, deadline)
    requires Acceptances(events) == 0
    ensures CallbackAfterFirst(events + [Accepted(address), FirstDelivery])
    ensures RequestsBounded(events + [Accepted(address), FirstDelivery], deadline)
    ensures FirstDelivery in events + [Accepted(address), FirstDelivery]
  {
    NoAcceptances(events);
    var longer := events + [Accepted(address), FirstDelivery];
    assert forall i :: 0 <= i < |events| ==> longer[i] == events[i];
    assert longer[|events|] == Accepted(address) && longer[|events| + 1] == FirstDelivery;
  }

  lemma LaterAcceptance(events: seq<Event>, address: string, deadline: int)
    requires CallbackAfterFirst(events) && RequestsBounded(events, deadline)
    requires Acceptances(events) > 0
    ensures CallbackAfterFirst(events + [Accepted(address)])
    ensures RequestsBounded(events + [Accepted(address)], deadline)
    ensures FirstDelivery in events + [Accepted(address)] <==> FirstDelivery in events
  {
    NoAcceptances(events);
    var longer := events + [Accepted(address)];
    assert forall i :: 0 <= i < |events| ==> longer[i] == events[i];
    assert longer[|events|] == Accepted(address);
  }

  // ---- rate limit --------------------------------------------------------------------------

  const RATE_LIMIT: real := 3600.0

  /** Python's int(): towards zero. */
  function Truncate(t: real): int {
    if t >= 0.0 then t.Floor else -((-t).Floor)
  }

  /** The record file of one unit, and the moments of the alerts it recorded. */
  class AlertRecord {
    var last: Option<int>
    ghost var saved: seq<real>

    ghost predicate Valid()
      reads this
    {
      && (last.None? <==> saved == [])
      && (saved != [] ==> last == Some(Truncate(saved[|saved| - 1])))
      && HourApart(saved)
    }

    constructor ()
      ensures Valid() && saved == []
    {
      last, saved := None, [];
    }

    predicate RecentlySent(now: real)
      reads this
    {
      last.Some? && 0.0 <= now - last.value as real < RATE_LIMIT
    }

    /**
     One failure: suppressed exactly within the hour after the last recorded alert;
     otherwise delivered, and recorded in the callback if the record can be saved.  The
     process may be stopped after any event.  An alert that someone accepted goes unrecorded
     only when the save fails, or when the stop comes right after the first acceptance.  A
     report that a stop cut off is not returned to anyone.
     */
    method Run(now: real, sender: Sender, addresses: seq<string>, attempts: seq<Attempt>, saves: bool, stop: nat)
      returns (report: Option<Report>)
      requires Valid() && sender.events == [] && |attempts| == |addresses|
      modifies this, sender
      ensures Valid()
      ensures report.None? <==> Suppressed(old(saved), now)
      ensures report.None? ==> sender.events == []
      ensures report.Some? ==>
                Delivered(sender.events, addresses, attempts, report.value, old(sender.now), sender.now)
      ensures saved == if FirstDelivery in Seen(sender.events, stop) && saves then old(saved) + [now] else old(saved)
      ensures FirstDelivery in Seen(sender.events, stop) || UnrecordedOnlyAtFirst(Seen(sender.events, stop))
    {
      if RecentlySent(now) {
        return None;
      }
      var r := sender.Deliver(addresses, attempts);
      DeliveredUnrecorded(sender.events, addresses, attempts, r, old(sender.now), sender.now, stop);
      if FirstDelivery in Seen(sender.events, stop) && saves {
        GapAfter(saved, now);
        last, saved := Some(Truncate(now)), saved + [now];
      }
      return Some(r);
    }
  }

  /** The last recorded alert, to whole seconds, is less than an hour ago and not ahead of now. */
  ghost predicate Suppressed(saved: seq<real>, now: real) {
    saved != [] && 0.0 <= now - Truncate(saved[|saved| - 1]) as real < 3600.0
  }

  /** An hour after the last recorded alert, or with the clock behind it, nothing is suppressed. */
  lemma LaterIsDelivered(saved: seq<real>, now: real)
    requires saved != [] && 0.0 <= saved[|saved| - 1]
    ensures now >= saved[|saved| - 1] + 3600.0 ==> !Suppressed(saved, now)
    ensures now <= saved[|saved| - 1] - 1.0 ==> !Suppressed(saved, now)
    ensures saved[|saved| - 1] <= now <= saved[|saved| - 1] + 3599.0 ==> Suppressed(saved, now)
  {
    TruncateIsNear(saved[|saved| - 1]);
  }

  /** No one accepted yet, or the stop came right after the first acceptance. */
  predicate UnrecordedOnlyAtFirst(seen: seq<Event>) {
    Acceptances(seen) == 0 || (Acceptances(seen) == 1 && seen != [] && seen[|seen| - 1].Accepted?)
  }

  /** What happened before the process was stopped. */
  function Seen(events: seq<Event>, stop: nat): seq<Event> {
    if stop <= |events| then events[..stop] else events
  }

  lemma {:induction false} FirstAccepted(events: seq<Event>) returns (i: nat)
    requires Acceptances(events) > 0
    ensures i < |events| && events[i].Accepted? && forall k :: 0 <= k < i ==> !events[k].Accepted?
    decreases |events|
  {
    var shorter := events[..|events| - 1];
    if Acceptances(shorter) == 0 {
      NoAcceptances(shorter);
      i := |events| - 1;
      assert forall k :: 0 <= k < i ==> shorter[k] == events[k];
    } else {
      i := FirstAccepted(shorter);
    }
  }

  /** Between an acceptance and its callback there is only the one moment right after the first. */
  lemma UnrecordedAcceptance(events: seq<Event>, stop: nat)
    requires CallbackAfterFirst(events) && FirstDelivery !in Seen(events, stop)
    ensures UnrecordedOnlyAtFirst(Seen(events, stop))
  {
    var seen := Seen(events, stop);
    if Acceptances(seen) > 0 {
      var i := FirstAccepted(seen);
      assert events[i] == seen[i] && forall k :: 0 <= k < i ==> events[k] == seen[k];
      assert events[i + 1] == FirstDelivery;
      assert i + 1 != |seen| ==> FirstDelivery in seen;
      NoAcceptances(seen[..i]);
    }
  }

  lemma DeliveredUnrecorded(events: seq<Event>, addresses: seq<string>, attempts: seq<Attempt>, r: Report,
                            start: int, end: int, stop: nat)
    requires Delivered(events, addresses, attempts, r, start, end)
    ensures FirstDelivery in Seen(events, stop) || UnrecordedOnlyAtFirst(Seen(events, stop))
  {
    if FirstDelivery !in Seen(events, stop) {
      UnrecordedAcceptance(events, stop);
    }
  }

  /** The alert at this moment comes more than 3599 seconds later, or the clock moved back. */
  predicate FarEnough(earlier: real, later: real) {
    later - earlier > 3599.0 || later < Truncate(earlier) as real
  }

  /** Successive recorded alerts of one unit are far enough apart. */
  predicate HourApart(saved: seq<real>) {
    forall i :: 0 <= i < |saved| - 1 ==> FarEnough(saved[i], saved[i + 1])
  }

  /** The whole seconds of a moment, towards zero. */
  lemma TruncateIsNear(t: real)
    ensures Truncate(t) as real > t - 1.0
    ensures 0.0 <= t ==> 0.0 <= Truncate(t) as real <= t
    ensures t < 0.0 ==> t <= Truncate(t) as real <= 0.0
  {
  }

  lemma GapAfter(saved: seq<real>, now: real)
    requires HourApart(saved)
    requires saved != [] ==> !(0.0 <= now - Truncate(saved[|saved| - 1]) as real < RATE_LIMIT)
    ensures HourApart(saved + [now])
  {
    if saved != [] {
      TruncateIsNear(saved[|saved| - 1]);
    }
  }
}
