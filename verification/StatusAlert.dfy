/**
 The daily status check: what it saves and whom it emails, in which order.  A check can
 fail to save, fail to send, or be stopped between any two of its effects.
 */
module StatusAlert {
  import opened Patterns

  const FAILURES_BEFORE_EMAIL: nat := 3
  const MOST_FAILURES: nat := 100_000

  datatype Snapshot = Snapshot(
    site: string, account: string, alerts: map<string, string>, policyIssues: nat, autoAds: Option<bool>)

  datatype FieldName = SiteState | AccountState | Alerts | PolicyIssues | AutoAds

  const FIELDS: seq<FieldName> := [SiteState, AccountState, Alerts, PolicyIssues, AutoAds]

  predicate Differs(old': Snapshot, new': Snapshot, f: FieldName) {
    match f
    case SiteState => old'.site != new'.site
    case AccountState => old'.account != new'.account
    case Alerts => old'.alerts != new'.alerts
    case PolicyIssues => old'.policyIssues != new'.policyIssues
    case AutoAds => old'.autoAds != new'.autoAds
  }

  /** The compared fields that differ, in their fixed order. */
  method ChangedFields(old': Snapshot, new': Snapshot) returns (changed: seq<FieldName>)
    ensures forall f :: f in changed <==> Differs(old', new', f)
    ensures changed == [] <==> old' == new'
  {
    changed := [];
    for n := 0 to |FIELDS|
      invariant forall f :: f in changed <==> f in FIELDS[..n] && Differs(old', new', f)
    {
      assert FIELDS[..n + 1] == FIELDS[..n] + [FIELDS[n]];
      if Differs(old', new', FIELDS[n]) {
        changed := changed + [FIELDS[n]];
      }
    }
    forall f: FieldName
      ensures f in FIELDS
    {
      assert f == FIELDS[0] || f == FIELDS[1] || f == FIELDS[2] || f == FIELDS[3] || f == FIELDS[4];
    }
    assert FIELDS[..|FIELDS|] == FIELDS;
    if changed == [] {
      assert !Differs(old', new', SiteState) && !Differs(old', new', AccountState) && !Differs(old', new', Alerts);
      assert !Differs(old', new', PolicyIssues) && !Differs(old', new', AutoAds);
    } else {
      assert changed[0] in changed;
    }
  }

  /** The state file. */
  datatype State = State(snapshot: Option<Snapshot>, checkedAt: Option<int>, failures: nat, unreadableSent: bool)

  /** Loading keeps everything but an implausible failure count. */
  function Load(file: State): State {
    if file.failures <= MOST_FAILURES then file else file.(failures := 0)
  }

  datatype Email =
    | Change(old': Snapshot, new': Snapshot)
    | Baseline(new': Snapshot)
    | Unreadable(failures: nat)
    | Test(current: Snapshot, saved: Snapshot)

  datatype Effect = Accepted(email: Email) | Stored(state: State)

  /**
   One invocation: its reading, how many operators would accept an email, whether its
   first and second save work, and after how many effects it is stopped.
   */
  datatype Check = Check(
    manual: bool, reading: Option<Snapshot>, now: int, locked: bool,
    reached: nat, firstSave: bool, secondSave: bool, stop: nat)

  function Repeated(email: Email, n: nat): (r: seq<Effect>)
    ensures |r| == n && forall i :: 0 <= i < n ==> r[i] == Accepted(email)
  {
    seq(n, i => Accepted(email))
  }

  /** A delivery: the state is stored after the first acceptance, before the next one. */
  function Delivery(c: Check, email: Email, record: State): seq<Effect> {
    if c.reached == 0 then []
    else [Accepted(email)] + (if c.secondSave then [Stored(record)] else []) + Repeated(email, c.reached - 1)
  }

  function NewsOf(old': Option<Snapshot>, new': Snapshot): Email {
    match old'
    case Some(o) => Change(o, new')
    case None => Baseline(new')
  }

  function SuccessEffects(c: Check, state: State, new': Snapshot): seq<Effect> {
    var reset := state.(failures := 0, unreadableSent := false);
    if state.snapshot == Some(new') then
      if c.firstSave then [Stored(reset.(checkedAt := Some(c.now)))] else []
    else if !c.firstSave then []
    else
      [Stored(reset)]
      + Delivery(c, NewsOf(state.snapshot, new'), reset.(snapshot := Some(new'), checkedAt := Some(c.now)))
  }

  function FailureEffects(c: Check, state: State): seq<Effect> {
    var counted := state.(failures := state.failures + 1);
    if !c.firstSave then []
    else if counted.failures < FAILURES_BEFORE_EMAIL || counted.unreadableSent then [Stored(counted)]
    else [Stored(counted)] + Delivery(c, Unreadable(counted.failures), counted.(unreadableSent := true))
  }

  function ManualEffects(c: Check, state: State): seq<Effect> {
    match (c.reading, state.snapshot)
    case (None, _) => []
    case (Some(s), None) => SuccessEffects(c, state, s)
    case (Some(s), Some(saved)) => Repeated(Test(s, saved), c.reached)
  }

  /** The effects of a whole check, in order. */
  function EffectsOf(file: State, c: Check): seq<Effect> {
    var state := Load(file);
    if c.locked then []
    else if c.manual then ManualEffects(c, state)
    else match c.reading
         case None => FailureEffects(c, state)
         case Some(s) => SuccessEffects(c, state, s)
  }

  /** What a daily check has to leave behind. */
  function Done(file: State, c: Check): State {
    match c.reading
    case Some(s) => State(Some(s), Some(c.now), 0, false)
    case None =>
      var counted := Load(file).(failures := Load(file).failures + 1);
      if counted.failures < FAILURES_BEFORE_EMAIL then counted else counted.(unreadableSent := true)
  }

  function FileAfter(file: State, effects: seq<Effect>): State {
    if effects == [] then file
    else
      var last := effects[|effects| - 1];
      if last.Stored? then last.state else FileAfter(file, effects[..|effects| - 1])
  }

  // ---- the check as it runs -------------------------------------------------------------------

  class Checker {
    var file: State
    var state: State
    ghost var log: seq<Effect>

    constructor (file: State)
      ensures this.file == file && state == file && log == []
    {
      this.file, state, log := file, file, [];
    }

    method Save(works: bool) returns (ok: bool)
      modifies this`file, this`log
      ensures ok == works
      ensures log == old(log) + (if works then [Stored(state)] else [])
      ensures file == if works then state else old(file)
    {
      if works {
        file := state;
        log := log + [Stored(state)];
      }
      return works;
    }

    /** Emails every operator; the record becomes the state and is saved at the first acceptance. */
    method Send(c: Check, email: Email, record: Option<State>) returns (sent: bool)
      modifies this
      ensures sent <==> c.reached > 0
      ensures log == old(log) + (if record.Some? then Delivery(c, email, record.value) else Repeated(email, c.reached))
      ensures file == if record.Some? && sent && c.secondSave then record.value else old(file)
    {
      var n := 0;
      ghost var done: seq<Effect> := [];
      while n < c.reached
        invariant 0 <= n <= c.reached
        invariant log == old(log) + done
        invariant done == if n == 0 then [] else if record.None? then Repeated(email, n)
                          else Delivery(c.(reached := n), email, record.value)
        invariant file == if n > 0 && record.Some? && c.secondSave then record.value else old(file)
      {
        log := log + [Accepted(email)];
        done := done + [Accepted(email)];
        if n == 0 && record.Some? {
          state := record.value;
          var saved := Save(c.secondSave);
          done := done + (if c.secondSave then [Stored(record.value)] else []);
        } else if n > 0 {
          assert Repeated(email, n) + [Accepted(email)] == Repeated(email, n + 1);
          assert Repeated(email, n - 1) + [Accepted(email)] == Repeated(email, n);
        }
        n := n + 1;
      }
      return c.reached > 0;
    }

    method AfterSuccess(c: Check, new': Snapshot) returns (clean: bool)
      modifies this
      ensures clean == (c.firstSave && (old(state).snapshot == Some(new') || (c.reached > 0 && c.secondSave)))
      ensures log == old(log) + SuccessEffects(c, old(state), new')
      ensures file == FileAfter(old(file), SuccessEffects(c, old(state), new'))
    {
      var before := state.snapshot;
      state := state.(failures := 0, unreadableSent := false);
      if before.Some? {
        var changed := ChangedFields(before.value, new');
        if changed == [] {
          state := state.(checkedAt := Some(c.now));
          clean := Save(c.firstSave);
          return;
        }
      }
      var reset := state;
      var saved := Save(c.firstSave);
      if !saved {
        return false;
      }
      var record := reset.(snapshot := Some(new'), checkedAt := Some(c.now));
      var sent := Send(c, NewsOf(before, new'), Some(record));
      StoredThenDelivery(old(file), reset, c, NewsOf(before, new'), record);
      return sent && c.secondSave;
    }

    method AfterFailure(c: Check) returns (clean: bool)
      modifies this
      ensures clean == (c.firstSave && (old(state).failures + 1 < FAILURES_BEFORE_EMAIL || old(state).unreadableSent
                                        || (c.reached > 0 && c.secondSave)))
      ensures log == old(log) + FailureEffects(c, old(state))
      ensures file == FileAfter(old(file), FailureEffects(c, old(state)))
    {
      state := state.(failures := state.failures + 1);
      var counted := state;
      var saved := Save(c.firstSave);
      if !saved || counted.failures < FAILURES_BEFORE_EMAIL || counted.unreadableSent {
        return saved;
      }
      var record := counted.(unreadableSent := true);
      var sent := Send(c, Unreadable(counted.failures), Some(record));
      StoredThenDelivery(old(file), counted, c, Unreadable(counted.failures), record);
      return sent && c.secondSave;
    }

    /**
     One check from loading the file to its last effect.  A daily check reports a clean end
     if and only if it left nothing undone, given that time has passed since the last one.
     */
    method RunCheck(c: Check) returns (clean: bool)
      modifies this
      ensures log == old(log) + EffectsOf(old(file), c)
      ensures file == FileAfter(old(file), EffectsOf(old(file), c))
      ensures c.manual && (c.locked || c.reading.None?) ==> !clean
      ensures !c.manual && c.locked ==> clean
      ensures !c.manual && !c.locked && old(file).checkedAt != Some(c.now) ==>
                (clean <==> file == Done(old(file), c))
    {
      if c.locked {
        return !c.manual;
      }
      state := Load(file);
      if c.manual && c.reading.None? {
        return false;
      }
      if c.manual && state.snapshot.Some? {
        clean := Send(c, Test(c.reading.value, state.snapshot.value), None);
        NothingStored(file, Test(c.reading.value, Load(old(file)).snapshot.value), c.reached);
        return;
      }
      if c.reading.None? {
        clean := AfterFailure(c);
      } else {
        clean := AfterSuccess(c, c.reading.value);
      }
      if !c.manual {
        DailyOutcome(old(file), c);
      }
    }
  }

  /** The effects of an unlocked daily check leave what has to be left iff they all worked. */
  predicate AllWorked(file: State, c: Check) {
    var state := Load(file);
    && c.firstSave
    && match c.reading
       case Some(s) => state.snapshot == Some(s) || (c.reached > 0 && c.secondSave)
       case None =>
         || state.failures + 1 < FAILURES_BEFORE_EMAIL || state.unreadableSent
         || (c.reached > 0 && c.secondSave)
  }

  lemma DailyOutcome(file: State, c: Check)
    requires !c.manual && !c.locked
    ensures AllWorked(file, c) ==> FileAfter(file, EffectsOf(file, c)) == Done(file, c)
    ensures !AllWorked(file, c) && file.checkedAt != Some(c.now) ==>
              FileAfter(file, EffectsOf(file, c)) != Done(file, c)
  {
    var state := Load(file);
    match c.reading
    case Some(s) => SuccessOutcome(file, c, state, s);
    case None => FailureOutcome(file, c, state);
  }

  lemma OneStored(file: State, stored: State)
    ensures FileAfter(file, [Stored(stored)]) == stored
  {
  }

  /** What the file holds after each way a successful reading can go. */
  lemma SuccessOutcome(file: State, c: Check, state: State, s: Snapshot)
    ensures FileAfter(file, SuccessEffects(c, state, s)) ==
            if !c.firstSave then file
            else if state.snapshot == Some(s) || (c.reached > 0 && c.secondSave)
            then State(Some(s), Some(c.now), 0, false)
            else state.(failures := 0, unreadableSent := false)
  {
    var reset := state.(failures := 0, unreadableSent := false);
    var record := reset.(snapshot := Some(s), checkedAt := Some(c.now));
    StoredThenDelivery(file, reset, c, NewsOf(state.snapshot, s), record);
    OneStored(file, reset.(checkedAt := Some(c.now)));
  }

  /** What the file holds after each way a failed reading can go. */
  lemma FailureOutcome(file: State, c: Check, state: State)
    ensures FileAfter(file, FailureEffects(c, state)) ==
            if !c.firstSave then file
            else if state.failures + 1 >= FAILURES_BEFORE_EMAIL && c.reached > 0 && c.secondSave
            then state.(failures := state.failures + 1, unreadableSent := true)
            else state.(failures := state.failures + 1)
  {
    var counted := state.(failures := state.failures + 1);
    StoredThenDelivery(file, counted, c, Unreadable(counted.failures), counted.(unreadableSent := true));
    OneStored(file, counted);
  }

  lemma {:induction false} FileAfterAppend(file: State, a: seq<Effect>, b: seq<Effect>)
    ensures FileAfter(file, a + b) == FileAfter(FileAfter(file, a), b)
    decreases |b|
  {
    if b == [] {
      assert a + b == a;
    } else {
      var n := |b| - 1;
      assert (a + b)[|a + b| - 1] == b[n];
      assert (a + b)[..|a + b| - 1] == a + b[..n];
      FileAfterAppend(file, a, b[..n]);
    }
  }

  lemma {:induction false} NothingStored(file: State, email: Email, n: nat)
    ensures FileAfter(file, Repeated(email, n)) == file
  {
    if n == 0 {
    } else {
      assert Repeated(email, n)[..n - 1] == Repeated(email, n - 1);
      NothingStored(file, email, n - 1);
    }
  }

  lemma DeliveryStores(file: State, c: Check, email: Email, record: State)
    ensures FileAfter(file, Delivery(c, email, record)) == if c.reached > 0 && c.secondSave then record else file
  {
    if c.reached > 0 {
      var head := [Accepted(email)] + (if c.secondSave then [Stored(record)] else []);
      FileAfterAppend(file, head, Repeated(email, c.reached - 1));
      NothingStored(FileAfter(file, head), email, c.reached - 1);
      assert head[..1] == [Accepted(email)];
      assert FileAfter(file, [Accepted(email)]) == FileAfter(file, [Accepted(email)][..0]) == file;
    }
  }

  lemma StoredThenDelivery(file: State, first: State, c: Check, email: Email, record: State)
    ensures FileAfter(file, [Stored(first)] + Delivery(c, email, record))
            == if c.reached > 0 && c.secondSave then record else first
  {
    FileAfterAppend(file, [Stored(first)], Delivery(c, email, record));
    DeliveryStores(first, c, email, record);
  }

  // ---- the report chain ---------------------------------------------------------------------------

  function Stopped(effects: seq<Effect>, stop: nat): seq<Effect> {
    if stop <= |effects| then effects[..stop] else effects
  }

  /** All effects of a run of checks, each possibly stopped early. */
  function Trace(file: State, checks: seq<Check>): seq<Effect>
    decreases |checks|
  {
    if checks == [] then []
    else
      var effects := Stopped(EffectsOf(file, checks[0]), checks[0].stop);
      effects + Trace(FileAfter(file, effects), checks[1..])
  }

  /** The email that reports a move of the saved snapshot. */
  predicate Reports(email: Email, before: Option<Snapshot>, after: Option<Snapshot>) {
    && after.Some?
    && (before.Some? ==> email == Change(before.value, after.value))
    && (before.None? ==> email == Baseline(after.value))
  }

  /** At this position the saved snapshot stays, or an operator has just accepted its report. */
  predicate MoveReported(file: State, effects: seq<Effect>, i: nat)
    requires i < |effects|
  {
    effects[i].Stored? ==>
      var before := FileAfter(file, effects[..i]).snapshot;
      var after := effects[i].state.snapshot;
      before == after || (i > 0 && effects[i - 1].Accepted? && Reports(effects[i - 1].email, before, after))
  }

  predicate AllMovesReported(file: State, effects: seq<Effect>) {
    forall i :: 0 <= i < |effects| ==> MoveReported(file, effects, i)
  }

  lemma DeliveryMoves(file: State, first: State, c: Check, email: Email, record: State)
    requires first.snapshot == file.snapshot
    requires record.snapshot == file.snapshot || Reports(email, file.snapshot, record.snapshot)
    ensures AllMovesReported(file, [Stored(first)] + Delivery(c, email, record))
  {
    var effects := [Stored(first)] + Delivery(c, email, record);
    forall i | 0 <= i < |effects|
      ensures MoveReported(file, effects, i)
    {
      if i == 0 {
        assert effects[..0] == [];
      } else if effects[i].Stored? {
        assert i == 2 && effects[1] == Accepted(email);
        assert effects[..2][..1] == [Stored(first)];
        assert FileAfter(file, effects[..2]) == FileAfter(file, [Stored(first)]) == first;
      }
    }
  }

  lemma CheckMoves(file: State, c: Check)
    ensures AllMovesReported(file, EffectsOf(file, c))
  {
    var state := Load(file);
    var effects := EffectsOf(file, c);
    var reset := state.(failures := 0, unreadableSent := false);
    var counted := state.(failures := state.failures + 1);
    if c.reading.Some? {
      DeliveryMoves(file, reset, c, NewsOf(state.snapshot, c.reading.value),
                    reset.(snapshot := c.reading, checkedAt := Some(c.now)));
    }
    DeliveryMoves(file, counted, c, Unreadable(counted.failures), counted.(unreadableSent := true));
    if |effects| == 1 {
      assert effects[..0] == [];
    }
  }

  lemma MovesOfPrefix(file: State, effects: seq<Effect>, n: nat)
    requires AllMovesReported(file, effects) && n <= |effects|
    ensures AllMovesReported(file, effects[..n])
  {
    forall i | 0 <= i < n
      ensures MoveReported(file, effects[..n], i)
    {
      assert MoveReported(file, effects, i);
      assert effects[..n][..i] == effects[..i];
    }
  }

  lemma MovesOfBoth(file: State, a: seq<Effect>, b: seq<Effect>)
    requires AllMovesReported(file, a) && AllMovesReported(FileAfter(file, a), b)
    ensures AllMovesReported(file, a + b)
  {
    forall i | 0 <= i < |a + b|
      ensures MoveReported(file, a + b, i)
    {
      if i < |a| {
        assert MoveReported(file, a, i);
        assert (a + b)[..i] == a[..i];
      } else {
        assert MoveReported(FileAfter(file, a), b, i - |a|);
        assert (a + b)[..i] == a + b[..i - |a|];
        FileAfterAppend(file, a, b[..i - |a|]);
      }
    }
  }

  /**
   The report chain: over any checks, readings, send results, failing saves and stops, the
   saved snapshot moves from one value to another only right after an operator accepted an
   email composed from exactly those two (or the baseline email of the first).
   */
  lemma {:induction false} ReportChain(file: State, checks: seq<Check>)
    ensures AllMovesReported(file, Trace(file, checks))
    decreases |checks|
  {
    if checks == [] {
    } else {
      var all := EffectsOf(file, checks[0]);
      var effects := Stopped(all, checks[0].stop);
      CheckMoves(file, checks[0]);
      MovesOfPrefix(file, all, if checks[0].stop <= |all| then checks[0].stop else |all|);
      assert effects == all[..|effects|];
      ReportChain(FileAfter(file, effects), checks[1..]);
      MovesOfBoth(file, effects, Trace(FileAfter(file, effects), checks[1..]));
    }
  }

  /** A failed reading, or a manual test once a snapshot is saved, moves nothing. */
  lemma QuietChecksKeepSnapshot(file: State, c: Check)
    requires c.reading.None? || (c.manual && file.snapshot.Some?)
    ensures FileAfter(file, Stopped(EffectsOf(file, c), c.stop)).snapshot == file.snapshot
    ensures c.manual ==> FileAfter(file, Stopped(EffectsOf(file, c), c.stop)) == file
  {
    var effects := Stopped(EffectsOf(file, c), c.stop);
    forall i | 0 <= i < |effects| && effects[i].Stored?
      ensures effects[i].state.snapshot == file.snapshot && !c.manual
    {
      assert effects[i] == EffectsOf(file, c)[i];
    }
    StoresKeepSnapshot(file, effects);
    if c.manual {
      NoStores(file, effects);
    }
  }

  lemma {:induction false} StoresKeepSnapshot(file: State, effects: seq<Effect>)
    requires forall i :: 0 <= i < |effects| && effects[i].Stored? ==> effects[i].state.snapshot == file.snapshot
    ensures FileAfter(file, effects).snapshot == file.snapshot
  {
    if effects == [] {
    } else {
      StoresKeepSnapshot(file, effects[..|effects| - 1]);
    }
  }

  lemma {:induction false} NoStores(file: State, effects: seq<Effect>)
    requires forall i :: 0 <= i < |effects| ==> !effects[i].Stored?
    ensures FileAfter(file, effects) == file
  {
    if effects == [] {
    } else {
      NoStores(file, effects[..|effects| - 1]);
    }
  }

  // ---- who is told ---------------------------------------------------------------------------------

  /** How often the email was accepted. */
  function Acceptances(effects: seq<Effect>, email: Email): nat {
    if effects == [] then 0
    else
      var last := effects[|effects| - 1];
      Acceptances(effects[..|effects| - 1], email) + (if last == Effect.Accepted(email) then 1 else 0)
  }

  lemma {:induction false} AcceptancesOfBoth(a: seq<Effect>, b: seq<Effect>, email: Email)
    ensures Acceptances(a + b, email) == Acceptances(a, email) + Acceptances(b, email)
    decreases |b|
  {
    if b == [] {
      assert a + b == a;
    } else {
      var n := |b| - 1;
      assert (a + b)[|a + b| - 1] == b[n] && (a + b)[..|a + b| - 1] == a + b[..n];
      AcceptancesOfBoth(a, b[..n], email);
    }
  }

  lemma {:induction false} AcceptancesRepeated(sent: Email, n: nat, email: Email)
    ensures Acceptances(Repeated(sent, n), email) == if email == sent then n else 0
  {
    if n == 0 {
    } else {
      assert Repeated(sent, n)[..n - 1] == Repeated(sent, n - 1);
      AcceptancesRepeated(sent, n - 1, email);
    }
  }

  lemma OneAcceptance(effect: Effect, email: Email)
    ensures Acceptances([effect], email) == if effect == Effect.Accepted(email) then 1 else 0
  {
    assert [effect][..0] == [];
    assert Acceptances([], email) == 0;
  }

  /** A delivery is accepted by every operator who can be reached, and no other email is sent. */
  lemma DeliveryReachesEveryone(c: Check, sent: Email, record: State, email: Email)
    ensures Acceptances(Delivery(c, sent, record), email) == if email == sent then c.reached else 0
  {
    if c.reached > 0 {
      var saved := if c.secondSave then [Stored(record)] else [];
      AcceptancesOfBoth([Effect.Accepted(sent)] + saved, Repeated(sent, c.reached - 1), email);
      AcceptancesOfBoth([Effect.Accepted(sent)], saved, email);
      AcceptancesRepeated(sent, c.reached - 1, email);
      OneAcceptance(Effect.Accepted(sent), email);
      OneAcceptance(Stored(record), email);
    }
  }

  /** The email that a check owes, if any: what is new, an unreadable status, or a test. */
  function Owed(file: State, c: Check): Option<Email> {
    var count := if file.failures <= 100_000 then file.failures + 1 else 1;
    if c.locked then None
    else match (c.reading, file.snapshot)
         case (Some(s), Some(saved)) =>
           if c.manual then Some(Test(s, saved))
           else if s == saved || !c.firstSave then None else Some(Change(saved, s))
         case (Some(s), None) => if c.firstSave then Some(Baseline(s)) else None
         case (None, _) =>
           if c.manual || !c.firstSave || count < 3 || file.unreadableSent then None else Some(Unreadable(count))
  }

  lemma StoredThenTold(first: State, c: Check, sent: Email, record: State, email: Email)
    ensures Acceptances([Stored(first)] + Delivery(c, sent, record), email) == if email == sent then c.reached else 0
  {
    AcceptancesOfBoth([Stored(first)], Delivery(c, sent, record), email);
    OneAcceptance(Stored(first), email);
    DeliveryReachesEveryone(c, sent, record, email);
  }

  lemma SuccessTells(c: Check, state: State, s: Snapshot, email: Email)
    ensures Acceptances(SuccessEffects(c, state, s), email) ==
            if c.firstSave && state.snapshot != Some(s) && email == NewsOf(state.snapshot, s) then c.reached else 0
  {
    var reset := state.(failures := 0, unreadableSent := false);
    var record := reset.(snapshot := Some(s), checkedAt := Some(c.now));
    StoredThenTold(reset, c, NewsOf(state.snapshot, s), record, email);
    OneAcceptance(Stored(reset.(checkedAt := Some(c.now))), email);
  }

  lemma FailureTells(c: Check, state: State, email: Email)
    ensures Acceptances(FailureEffects(c, state), email) ==
            if c.firstSave && state.failures + 1 >= 3 && !state.unreadableSent
               && email == Unreadable(state.failures + 1)
            then c.reached else 0
  {
    var counted := state.(failures := state.failures + 1);
    StoredThenTold(counted, c, Unreadable(counted.failures), counted.(unreadableSent := true), email);
    OneAcceptance(Stored(counted), email);
  }

  /** A check that is not stopped tells every operator who can be reached, once, and only what it owes. */
  lemma EveryoneIsToldOnce(file: State, c: Check, email: Email)
    ensures Acceptances(EffectsOf(file, c), email) == if Owed(file, c) == Some(email) then c.reached else 0
  {
    var state := Load(file);
    match c.reading
    case Some(s) =>
      SuccessTells(c, state, s, email);
      if state.snapshot.Some? {
        AcceptancesRepeated(Test(s, state.snapshot.value), c.reached, email);
      }
    case None => FailureTells(c, state, email);
  }

  // ---- failure streaks ------------------------------------------------------------------------------

  /** A check inside a failure streak: a failed daily reading, or a manual test that resets nothing. */
  predicate InStreak(file: State, c: Check) {
    && !c.locked && c.firstSave && c.secondSave && |EffectsOf(file, c)| <= c.stop
    && if c.manual then c.reading.None? || file.snapshot.Some? else c.reading.None?
  }

  predicate Streak(file: State, checks: seq<Check>)
    decreases |checks|
  {
    checks == []
    || (InStreak(file, checks[0]) && Streak(FileAfter(file, EffectsOf(file, checks[0])), checks[1..]))
  }

  predicate Notifies(file: State, c: Check) {
    exists i :: 0 <= i < |EffectsOf(file, c)|
                && EffectsOf(file, c)[i].Accepted? && EffectsOf(file, c)[i].email.Unreadable?
  }

  /** The checks of a streak in which an operator accepted an unreadable-status email. */
  function Notices(file: State, checks: seq<Check>): nat
    decreases |checks|
  {
    if checks == [] then 0
    else
      (if Notifies(file, checks[0]) then 1 else 0)
      + Notices(FileAfter(file, EffectsOf(file, checks[0])), checks[1..])
  }

  function FailedReadings(checks: seq<Check>): nat {
    if checks == [] then 0 else (if checks[0].manual then 0 else 1) + FailedReadings(checks[1..])
  }

  /** What one check of a streak leaves, and when it notifies. */
  lemma StreakStep(file: State, c: Check)
    requires InStreak(file, c)
    ensures var after := FileAfter(file, EffectsOf(file, c));
            && (c.manual ==> after == file && !Notifies(file, c))
            && (!c.manual ==>
                  && after.failures == Load(file).failures + 1
                  && after.unreadableSent == (file.unreadableSent || Notifies(file, c))
                  && (Notifies(file, c) <==>
                        c.reached > 0 && !file.unreadableSent && after.failures >= FAILURES_BEFORE_EMAIL))
  {
    var effects := EffectsOf(file, c);
    if c.manual {
      QuietChecksKeepSnapshot(file, c);
      assert Stopped(effects, c.stop) == effects;
    } else {
      var counted := Load(file).(failures := Load(file).failures + 1);
      var email, record := Unreadable(counted.failures), counted.(unreadableSent := true);
      StoredThenDelivery(file, counted, c, email, record);
      if counted.failures >= FAILURES_BEFORE_EMAIL && !counted.unreadableSent {
        if c.reached > 0 {
          assert effects[1] == Accepted(email);
        } else {
          assert effects == [Stored(counted)];
        }
      }
    }
  }

  /** Each failure streak gets at most one accepted unreadable email. */
  lemma {:induction false} OneNoticePerStreak(file: State, checks: seq<Check>)
    requires Streak(file, checks)
    ensures Notices(file, checks) <= if file.unreadableSent then 0 else 1
    decreases |checks|
  {
    if checks == [] {
    } else {
      StreakStep(file, checks[0]);
      OneNoticePerStreak(FileAfter(file, EffectsOf(file, checks[0])), checks[1..]);
    }
  }

  /** And none before its third failed reading. */
  lemma {:induction false} NoNoticeBeforeThird(file: State, checks: seq<Check>)
    requires Streak(file, checks)
    requires file.failures + FailedReadings(checks) < FAILURES_BEFORE_EMAIL
    ensures Notices(file, checks) == 0
    decreases |checks|
  {
    if checks == [] {
    } else {
      StreakStep(file, checks[0]);
      NoNoticeBeforeThird(FileAfter(file, EffectsOf(file, checks[0])), checks[1..]);
    }
  }

  /** From the third failed reading on, the first check that reaches anyone does notify. */
  lemma NoticeWhenReached(file: State, c: Check)
    requires InStreak(file, c) && !c.manual && c.reached > 0 && !file.unreadableSent
    requires FAILURES_BEFORE_EMAIL - 1 <= file.failures <= MOST_FAILURES
    ensures Notifies(file, c) && FileAfter(file, EffectsOf(file, c)).unreadableSent
  {
    StreakStep(file, c);
  }
}
