/** What the client takes from the server: results per query, and the largest timestamp. */
module ObservationTheorems {
  import opened Prelude
  import opened Orders
  import opened Values
  import opened Canonical
  import opened Protocol
  import opened Optimistic
  import opened ClientSteps
  import opened RegistryInvariant
  import opened LedgerInvariant
  import opened ClientRuns
  import opened ClientTheorems

  predicate Concerns(m: StateModification, id: QueryID) {
    !m.Unsupported? && m.queryID == id
  }

  /** The last modification of a transition that concerns a query. */
  function LastFor(ms: seq<StateModification>, id: QueryID): Option<StateModification> {
    if ms == [] then None
    else if Concerns(ms[|ms| - 1], id) then Some(ms[|ms| - 1])
    else LastFor(ms[..|ms| - 1], id)
  }

  lemma {:induction false} LastForCons(m: StateModification, ms: seq<StateModification>, id: QueryID)
    ensures LastFor([m] + ms, id) ==
      if LastFor(ms, id).Some? then LastFor(ms, id) else if Concerns(m, id) then Some(m) else None
  {
    var all := [m] + ms;
    if ms == [] {
      assert all[..|all| - 1] == [];
      assert LastFor([], id) == None;
    } else {
      assert all[|all| - 1] == ms[|ms| - 1] && all[..|all| - 1] == [m] + ms[..|ms| - 1];
      LastForCons(m, ms[..|ms| - 1], id);
    }
  }

  ghost function ServerEntry(s: Client, id: QueryID): Option<FunctionResult> {
    if id in s.serverResults then Some(s.serverResults[id]) else None
  }

  /** What one modification leaves for the query it concerns. */
  ghost function Decides(m: StateModification): Option<FunctionResult> {
    match m
    case QueryUpdated(_, value) => Some(ValueResult(value))
    case QueryFailed(_, message, data) => Some(ErrorResult(message, data))
    case _ => None
  }

  /** The last word wins: after a transition's modifications, each active query has the result
      of the last modification that concerns it, or its earlier result if none does; a query
      that is no longer active gets none, however late the server mentions it. */
  lemma {:induction false} LastModificationWins(s: Client, ms: seq<StateModification>, id: QueryID)
    requires Scoped(s) && ApplyModifications(s, ms).1
    ensures var t := ApplyModifications(s, ms).0;
      ServerEntry(t, id) ==
        if id !in s.reg.queryIDToToken then None
        else if LastFor(ms, id).Some? then Decides(LastFor(ms, id).value)
        else ServerEntry(s, id)
    decreases ms
  {
    if ms != [] {
      var s1 := ApplyModification(s, ms[0]).0;
      ModificationsStayScoped(s, [ms[0]]);
      LastModificationWins(s1, ms[1..], id);
      LastForCons(ms[0], ms[1..], id);
      assert [ms[0]] + ms[1..] == ms;
    }
  }

  /** The timestamp an event makes the client observe. */
  ghost function ObservedBy(s: Client, e: Event): Option<Timestamp> {
    match e
    case Receive(Transition(start, end, ms)) =>
      if start == s.link.remoteVersion && ApplyModifications(s, ms).1 then Some(end.ts) else None
    case Receive(MutationResponse(id, response, ts)) =>
      if MutationResponseStep(s, id, response, ts).1 then ts else None
    case _ => None
  }

  lemma StepObserves(s: Client, e: Event)
    requires Scoped(s)
    ensures Step(s, e).maxObserved ==
      match ObservedBy(s, e) { case None => s.maxObserved case Some(t) => Observe(s.maxObserved, t) }
  {
    match e
    case Receive(Transition(start, end, ms)) => TransitionObserves(s, start, end, ms);
    case Receive(MutationResponse(id, response, ts)) => ResponseObserves(s, id, response, ts);
    case Receive(_) =>
    case Restart(fetched) => RestartFrame(s, fetched);
    case _ => QuietStepObserves(s, e);
  }

  lemma TransitionObserves(s: Client, start: StateVersion, end: StateVersion, ms: seq<StateModification>)
    requires Scoped(s)
    ensures TransitionStep(s, start, end, ms).0.maxObserved ==
      if start == s.link.remoteVersion && ApplyModifications(s, ms).1 then Observe(s.maxObserved, end.ts)
        else s.maxObserved
  {
    hide VisibleResults, CompleteMutations;
    ModificationsStayScoped(s, ms);
  }

  lemma ResponseObserves(s: Client, id: RequestID, response: Response, ts: Option<Timestamp>)
    ensures var (t, ok) := MutationResponseStep(s, id, response, ts);
      t.maxObserved == if ok && ts.Some? then Observe(s.maxObserved, ts.value) else s.maxObserved
  {
    hide VisibleResults, CompleteMutation, Observe;
  }

  lemma QuietStepObserves(s: Client, e: Event)
    requires !e.Receive? && !e.Restart?
    ensures Step(s, e).maxObserved == s.maxObserved
    ensures ObservedBy(s, e).None?
  {
    hide VisibleResults, CanonicalQuery, CanonicalRequest;
  }

  ghost function ObservedAt(configuredLimit: int, events: seq<Event>, j: nat): Option<Timestamp>
    requires j < |events|
  {
    ObservedBy(Run(configuredLimit, events[..j]).client, events[j])
  }

  lemma ScopedInRun(configuredLimit: int, events: seq<Event>)
    ensures Scoped(Run(configuredLimit, events).client)
  {
    RunInv(configuredLimit, events);
  }

  /** m bounds every timestamp observed in the run and is one of them; None if there are none. */
  ghost predicate LargestObserved(configuredLimit: int, events: seq<Event>, m: Option<Timestamp>) {
    && (forall j :: 0 <= j < |events| && ObservedAt(configuredLimit, events, j).Some? ==>
          m.Some? && ObservedAt(configuredLimit, events, j).value <= m.value)
    && (m.Some? ==> exists j :: 0 <= j < |events| && ObservedAt(configuredLimit, events, j) == m)
  }

  /** The timestamp kept for the next Connect is the largest the client has observed in the
      whole run, reconnects included. */
  lemma {:induction false} MaxObservedIsLargest(configuredLimit: int, events: seq<Event>)
    ensures LargestObserved(configuredLimit, events, Run(configuredLimit, events).client.maxObserved)
  {
    hide ObservedBy, Step, Record;
    if events == [] {
      assert Run(configuredLimit, events).client.maxObserved == None;
    } else {
      var n := |events| - 1;
      var init := events[..n];
      MaxObservedIsLargest(configuredLimit, init);
      ScopedInRun(configuredLimit, init);
      StepObserves(Run(configuredLimit, init).client, events[n]);
      forall j | 0 <= j < n ensures ObservedAt(configuredLimit, events, j) == ObservedAt(configuredLimit, init, j) {
        assert init[..j] == events[..j];
      }
      var m, m' := Run(configuredLimit, init).client.maxObserved, Run(configuredLimit, events).client.maxObserved;
      if m'.Some? {
        if m == m' {
          var j :| 0 <= j < n && ObservedAt(configuredLimit, init, j) == m;
          assert ObservedAt(configuredLimit, events, j) == m';
        } else {
          assert ObservedAt(configuredLimit, events, n) == m';
        }
      }
    }
  }
}
