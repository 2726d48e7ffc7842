/** Runs whose stored events all satisfy one condition. */
module StoredEvents {
  import opened EventColumns
  import opened Protocol
  import opened ProtocolTheorems
  import opened Interference

  /** A condition on a tenant and the columns stored under it. */
  type Condition = (string, Columns) -> bool

  ghost predicate StoresOnly(steps: seq<Step>, ok: Condition) {
    forall i :: 0 <= i < |steps| && steps[i].Store? ==> ok(steps[i].tenant, steps[i].columns)
  }

  ghost predicate ReachableStoring(w: World, ok: Condition) {
    exists clock: nat, steps: seq<Step> :: StoresOnly(steps, ok) && w == Run(Start(clock), steps)
  }

  ghost predicate EventsOk(events: map<int, EventRow>, ok: Condition) {
    forall r :: r in events ==> ok(events[r].tenant, events[r].columns)
  }

  ghost predicate AllEventsOk(w: World, ok: Condition) {
    EventsOk(w.db.events, ok) && forall t :: t in w.txns ==> EventsOk(w.txns[t].events, ok)
  }

  lemma NextEventsOk(w: World, s: Step, ok: Condition)
    requires AllEventsOk(w, ok) && (s.Store? ==> ok(s.tenant, s.columns))
    ensures AllEventsOk(Next(w, s), ok)
  {
    var w' := Next(w, s);
    forall t | t in w'.txns ensures EventsOk(w'.txns[t].events, ok) {
      assert t in w.txns ==> EventsOk(w.txns[t].events, ok);
    }
    if s.Commit? && s.t in w.txns {
      assert EventsOk(w.txns[s.t].events, ok);
    }
  }

  /** Whatever is stored was handed to a store step. */
  lemma {:induction false} RunEventsOk(clock: nat, steps: seq<Step>, ok: Condition)
    requires StoresOnly(steps, ok)
    ensures AllEventsOk(Run(Start(clock), steps), ok)
  {
    if steps != [] {
      var front := steps[..|steps| - 1];
      assert StoresOnly(front, ok);
      RunEventsOk(clock, front, ok);
      NextEventsOk(Run(Start(clock), front), steps[|steps| - 1], ok);
    }
  }

  lemma StoringWorld(w: World, ok: Condition)
    requires ReachableStoring(w, ok)
    ensures Reachable(w) && AllEventsOk(w, ok)
  {
    var clock: nat, steps :| StoresOnly(steps, ok) && w == Run(Start(clock), steps);
    RunEventsOk(clock, steps, ok);
  }

  lemma StoringRun(w: World, steps: seq<Step>, ok: Condition)
    requires ReachableStoring(w, ok) && StoresOnly(steps, ok)
    ensures ReachableStoring(Run(w, steps), ok)
  {
    var clock: nat, before :| StoresOnly(before, ok) && w == Run(Start(clock), before);
    RunConcat(Start(clock), before, steps);
    assert StoresOnly(before + steps, ok);
  }

  lemma StoringStep(w: World, s: Step, ok: Condition)
    requires ReachableStoring(w, ok) && (s.Store? ==> ok(s.tenant, s.columns))
    ensures ReachableStoring(Next(w, s), ok)
  {
    assert [s][..0] == [] && Run(w, []) == w;
    assert Run(w, [s]) == Next(w, s);
    StoringRun(w, [s], ok);
  }

  /** A weaker condition holds of the same runs. */
  lemma StoringMore(w: World, ok: Condition, weaker: Condition)
    requires ReachableStoring(w, ok) && forall tenant, columns :: ok(tenant, columns) ==> weaker(tenant, columns)
    ensures ReachableStoring(w, weaker)
  {
    var clock: nat, steps :| StoresOnly(steps, ok) && w == Run(Start(clock), steps);
    assert StoresOnly(steps, weaker);
  }
}
