/**
  app/calendar_sync/pull.py and processing.py in their own form: a store whose records are
  updated in place, with the decision loop of `process`. Every operation keeps the balance of
  edges that decides when session and snapshot agree, for every mapping.
 */
module SyncService {
  import opened Prelude
  import opened Intervals
  import opened Policy
  import opened Sync
  import SyncConvergence
  import SyncEffects
  import SyncMissing

  /** The balance of every mapping that was balanced is kept. */
  ghost predicate KeepsBalance(before: Store, after: Store, info: PlanInfo) {
    forall n, m :: SyncConvergence.Balanced(before, n, m, info) ==> SyncConvergence.Balanced(after, n, m, info)
  }

  lemma PullKeepsAll(s: Store, target: string, fetch: Fetch, info: PlanInfo)
    ensures KeepsBalance(s, Pull(s, target, fetch, info), info)
  {
    hide Pull, SyncConvergence.Balanced;
    forall n, m | SyncConvergence.Balanced(s, n, m, info)
      ensures SyncConvergence.Balanced(Pull(s, target, fetch, info), n, m, info)
    {
      SyncConvergence.PullKeepsBalance(s, n, m, target, fetch, info);
    }
  }

  lemma ProcessKeepsAll(s: Store, i: nat, info: PlanInfo)
    ensures Process(s, i, info).Ok? ==> KeepsBalance(s, Process(s, i, info).value, info)
  {
    hide Process, SyncConvergence.Balanced;
    if Process(s, i, info).Ok? {
      forall n, m | SyncConvergence.Balanced(s, n, m, info)
        ensures SyncConvergence.Balanced(Process(s, i, info).value, n, m, info)
      {
        SyncConvergence.ProcessKeepsBalance(s, n, m, i, info);
      }
    }
  }

  lemma RecordsChange(s: Store, i: nat, info: PlanInfo)
    ensures i < |s.changes| && SyncConvergence.Logged(s.changes[i]) && SyncConvergence.Unprocessed(s.changes[i])
            && Process(s, i, info).Ok? ==>
      SyncEffects.ChangeRecorded(s, Process(s, i, info).value, i, info)
  {
    hide Process, SyncEffects.ChangeRecorded, SyncConvergence.Logged;
    if i < |s.changes| && SyncConvergence.Logged(s.changes[i]) && SyncConvergence.Unprocessed(s.changes[i])
       && Process(s, i, info).Ok? {
      SyncEffects.ProcessRecords(s, i, info);
    }
  }

  lemma NothingKeepsAll(s: Store, info: PlanInfo)
    ensures KeepsBalance(s, s, info)
  {
  }

  class SyncStore {
    var sessions: map<string, Session>
    var mappings: map<string, Mapping>
    var changes: seq<Change>
    var deadline: Option<int>
    var history: seq<DeadlineEntry>
    var findings: seq<Finding>
    const info: PlanInfo

    ghost function State(): Store
      reads this
    {
      Store(sessions, mappings, changes, deadline, history, findings)
    }

    constructor (s: Store, info: PlanInfo)
      ensures State() == s && this.info == info
    {
      sessions, mappings, changes := s.sessions, s.mappings, s.changes;
      deadline, history, findings := s.deadline, s.history, s.findings;
      this.info := info;
    }

    /** The part of pull_calendar_event that compares, records and advances, in one commit. */
    method RecordAndAdvance(m: string, current: Snapshot)
      requires m in mappings && m in sessions
      modifies this`mappings, this`changes
      ensures State() == Record(old(State()), m, current, info)
    {
      var mapping := mappings[m];
      var previous := Baseline(mapping, sessions[m], info.timezone);
      var kind := ChangeKind(previous, current);
      if kind.Some? && exists c | c in changes :: SameTransition(c, m, previous, current) {
        // the unique transition hash refuses the commit, which undoes the new snapshot too
        return;
      }
      if kind.Some? {
        changes := changes + [Change(m, kind.value, previous, current, Pending, [])];
      }
      mappings := mappings[m := SyncedWith(mapping, current)];
    }

    // pull_calendar_event
    method PullCalendarEvent(m: string, fetch: Fetch)
      modifies this`mappings, this`changes
      ensures State() == Pull(old(State()), m, fetch, info)
      ensures KeepsBalance(old(State()), State(), info)
      ensures if m in old(mappings) && m in sessions
              then SyncMissing.PullLeaves(old(State()), State(), m, fetch, info) else State() == old(State())
    {
      hide Record, KeepsBalance, SyncMissing.PullLeaves;
      PullKeepsAll(State(), m, fetch, info);
      if m in mappings && m in sessions {
        SyncMissing.PullIsRecorded(State(), m, fetch, info);
      }
      if m !in mappings || m !in sessions {
        return;
      }
      match fetch {
        case EventNotFound =>
          RecordAndAdvance(m, NotFoundSnapshot(mappings[m]));
        case ProviderError =>
          mappings := mappings[m := mappings[m].(status := SyncFailed)];
        case Fetched(current) =>
          if OtherIdentity(mappings[m], current) {
            mappings := mappings[m := mappings[m].(status := SyncFailed)];
          } else {
            RecordAndAdvance(m, current);
          }
      }
    }

    /** The decision loop: every decision updates the records it names. */
    method ApplyDecisions(decisions: seq<Decision>, i: nat, m: string) returns (actions: seq<Action>)
      requires m in mappings && m in sessions
      modifies this`sessions, this`mappings, this`deadline, this`history, this`findings
      ensures m in mappings && m in sessions
      ensures sessions == old(sessions)[m := sessions[m]]
      ensures mappings == old(mappings)[m := old(mappings)[m].(status := mappings[m].status)]
      ensures Effects(sessions[m], mappings[m].status, deadline, history, findings, actions) ==
              ApplyAll(EffectsOf(old(State()), m), decisions, i)
    {
      actions := [];
      for k := 0 to |decisions|
        invariant m in mappings && m in sessions
        invariant sessions == old(sessions)[m := sessions[m]]
        invariant mappings == old(mappings)[m := old(mappings)[m].(status := mappings[m].status)]
        invariant Effects(sessions[m], mappings[m].status, deadline, history, findings, actions) ==
                  ApplyAll(EffectsOf(old(State()), m), decisions[..k], i)
      {
        assert decisions[..k + 1][..k] == decisions[..k];
        match decisions[k] {
          case NoAction =>
            actions := actions + [NoActionTaken];
          case UpdateSession(_, _, new_) =>
            if new_.start < new_.end {
              sessions := sessions[m := sessions[m].(span := new_, minutes := (new_.end - new_.start) / MINUTE)];
              actions := actions + [SessionUpdated];
            }
          case ExtendDeadline(new_) =>
            if deadline.None? || new_ > deadline.value {
              history := history + [DeadlineEntry(i, deadline, new_)];
              deadline := Some(new_);
              actions := actions + [DeadlineExtended];
            }
          case MarkMissing(_, _) =>
            mappings := mappings[m := mappings[m].(status := ExternallyDeleted)];
            actions := actions + [MarkedMissing];
          case RecordConflict(code, ids) =>
            findings := findings + [Finding(i, code, ids)];
            actions := actions + [ConflictRecorded];
          case Unsupported =>
            actions := actions + [UnsupportedChange];
        }
      }
      assert decisions[..|decisions|] == decisions;
    }

    /** The checks of process before anything is changed, and the policy's decisions. */
    method DecideChange(i: nat) returns (r: Result<seq<Decision>, ProcessError>)
      requires i < |changes|
      ensures r == Decide(State(), i, info)
    {
      var change := changes[i];
      var m := change.mapping;
      if m !in mappings || m !in sessions {
        return Err(AggregateInvalid);
      }
      if change.status == Processing {
        return Err(BeingProcessed);
      }
      if change.status != Pending && change.status != Failed {
        return Err(NotProcessable);
      }
      var aggregate := AggregateOf(Store(sessions, mappings, changes, deadline, history, findings), m, info);
      if m !in KnownIds(aggregate) {
        return Err(AggregateInvalid);
      }
      var decisions := EvaluatePolicy(aggregate, InputOf(change));
      if decisions.Err? {
        return Err(PolicyFailed);
      }
      var error := ValidateDecisions(decisions.value, m, sessions[m], KnownIds(aggregate));
      if error.Some? {
        return Err(error.value);
      }
      return Ok(decisions.value);
    }

    /** process: an error leaves every record as it was; success commits all of them. */
    method ProcessChange(i: nat) returns (r: Result<seq<Action>, ProcessError>)
      modifies this
      ensures r.Err? <==> Process(old(State()), i, info).Err?
      ensures r.Err? ==> State() == old(State()) && r.error == Process(old(State()), i, info).error
      ensures r.Ok? ==> Process(old(State()), i, info) == Ok(State())
      ensures r.Ok? ==> i < |changes| && r.value == changes[i].actions
      ensures KeepsBalance(old(State()), State(), info)
      ensures r.Ok? && i < |old(changes)| && SyncConvergence.Logged(old(changes)[i])
              && SyncConvergence.Unprocessed(old(changes)[i]) ==>
        SyncEffects.ChangeRecorded(old(State()), State(), i, info)
    {
      hide Decide, ApplyAll, KeepsBalance, SyncEffects.ChangeRecorded, SyncConvergence.Logged;
      ProcessKeepsAll(State(), i, info);
      RecordsChange(State(), i, info);
      NothingKeepsAll(State(), info);
      if i >= |changes| {
        return Err(ChangeNotFound);
      }
      var m := changes[i].mapping;
      if changes[i].status == Processed && m in mappings && m in sessions {
        return Ok(changes[i].actions);
      }
      var decisions := DecideChange(i);
      if decisions.Err? {
        return Err(decisions.error);
      }
      DecidedHasRecords(State(), i, info);
      var actions := ApplyDecisions(decisions.value, i, m);
      changes := changes[i := changes[i].(status := Processed, actions := actions)];
      return Ok(actions);
    }
  }

  lemma DecidedHasRecords(s: Store, i: nat, info: PlanInfo)
    requires i < |s.changes| && Decide(s, i, info).Ok?
    ensures s.changes[i].mapping in s.mappings && s.changes[i].mapping in s.sessions
  {
  }
}
