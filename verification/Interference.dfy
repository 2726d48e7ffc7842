/** What the other sessions may and may not do between two statements of one transaction. */
module Interference {
  import opened RowLog
  import opened Protocol
  import opened ProtocolInvariants
  import opened ProtocolTheorems

  predicate StepOf(t: nat, s: Step) {
    !s.Tick? && s.t == t
  }

  predicate Others(t: nat, steps: seq<Step>) {
    forall i :: 0 <= i < |steps| ==> !StepOf(t, steps[i])
  }

  /** The steps other sessions take before a transaction's statement number `k`. */
  function Gap(env: seq<seq<Step>>, k: nat): seq<Step> {
    if k < |env| then env[k] else []
  }

  /** A transaction's first statement sees the tables after two gaps with its begin between them. */
  function Begun(w: World, t: nat, env: seq<seq<Step>>): World {
    Run(Next(Run(w, Gap(env, 0)), Begin(t)), Gap(env, 1))
  }

  predicate SameAt(a: map<int, Tracked>, b: map<int, Tracked>, r: int) {
    (r in a <==> r in b) && (r in a ==> a[r] == b[r])
  }

  /** Transaction `t` and every row it has locked are as they were; the clock has not run back. */
  ghost predicate Kept(w: World, w': World, t: nat) {
    && (t in w.txns <==> t in w'.txns)
    && (t in w.txns ==> w'.txns[t] == w.txns[t] && forall r :: r in w.txns[t].locks ==> SameAt(w.db.rows, w'.db.rows, r))
    && w.db.clock <= w'.db.clock
    && w.db.nextId <= w'.db.nextId
  }

  lemma OtherCommitKeeps(w: World, u: nat, t: nat)
    requires Inv(w) && u in w.txns && u != t
    ensures Kept(w, Committed(w, u), t)
  {
    if t in w.txns {
      assert TxnGood(w.db, w.txns[u]);
      assert w.txns[u].locks !! w.txns[t].locks;
    }
  }

  /** A step of another transaction that commits nothing leaves the committed rows and `t` alone. */
  lemma OtherActKeeps(w: World, s: Step, t: nat)
    requires !StepOf(t, s) && !s.Commit? && !s.Store?
    ensures Next(w, s).db.rows == w.db.rows && w.db.clock <= Next(w, s).db.clock && w.db.nextId <= Next(w, s).db.nextId
    ensures (t in Next(w, s).txns <==> t in w.txns) && (t in w.txns ==> Next(w, s).txns[t] == w.txns[t])
  {
  }

  lemma OtherStoreKeeps(w: World, s: Step, t: nat)
    requires !StepOf(t, s) && s.Store?
    ensures Next(w, s).db.rows == w.db.rows && w.db.clock <= Next(w, s).db.clock && w.db.nextId <= Next(w, s).db.nextId
    ensures (t in Next(w, s).txns <==> t in w.txns) && (t in w.txns ==> Next(w, s).txns[t] == w.txns[t])
  {
  }

  lemma SameRowsKept(w: World, w': World, t: nat)
    requires w'.db.rows == w.db.rows && w.db.clock <= w'.db.clock && w.db.nextId <= w'.db.nextId
    requires (t in w'.txns <==> t in w.txns) && (t in w.txns ==> w'.txns[t] == w.txns[t])
    ensures Kept(w, w', t)
  {
  }

  lemma OtherStepKeeps(w: World, s: Step, t: nat)
    requires Inv(w) && !StepOf(t, s)
    ensures Kept(w, Next(w, s), t)
  {
    if s.Commit? {
      if s.t in w.txns {
        OtherCommitKeeps(w, s.t, t);
      }
    } else if s.Store? {
      OtherStoreKeeps(w, s, t);
      SameRowsKept(w, Next(w, s), t);
    } else {
      OtherActKeeps(w, s, t);
      SameRowsKept(w, Next(w, s), t);
    }
  }

  lemma KeptTrans(a: World, b: World, c: World, t: nat)
    requires Kept(a, b, t) && Kept(b, c, t)
    ensures Kept(a, c, t)
  {
    if t in a.txns {
      forall r | r in a.txns[t].locks ensures SameAt(a.db.rows, c.db.rows, r) {
        assert SameAt(a.db.rows, b.db.rows, r) && SameAt(b.db.rows, c.db.rows, r);
      }
    }
  }

  /** Whatever other sessions do, a transaction's own locked rows stay put. */
  lemma {:induction false} OthersKeep(w: World, steps: seq<Step>, t: nat)
    requires Inv(w) && Others(t, steps)
    ensures Inv(Run(w, steps)) && Kept(w, Run(w, steps), t)
  {
    RunInv(w, steps);
    if steps != [] {
      var front := steps[..|steps| - 1];
      assert Others(t, front);
      OthersKeep(w, front, t);
      OtherStepKeeps(Run(w, front), steps[|steps| - 1], t);
      KeptTrans(w, Run(w, front), Run(w, steps), t);
    }
  }

  // ----- Rows nobody names -----

  predicate Names(s: Step, r: int) {
    (s.LockCandidate? || s.WriteClaim? || s.LockRow? || s.Update? || s.FinalizeRow?) && s.row == r
  }

  predicate Spares(steps: seq<Step>, r: int) {
    forall i :: 0 <= i < |steps| ==> !Names(steps[i], r)
  }

  lemma SparedCommit(w: World, u: nat, t: nat, r: int)
    requires Inv(w) && u in w.txns && u != t && r in w.db.rows && Free(w, t, r)
    ensures SameAt(w.db.rows, Committed(w, u).db.rows, r) && Free(Committed(w, u), t, r)
  {
    assert TxnGood(w.db, w.txns[u]);
  }

  lemma SparedStore(w: World, s: Step, t: nat, r: int)
    requires s.Store? && s.t != t && r < w.db.nextId && Free(w, t, r)
    ensures Free(Next(w, s), t, r)
  {
  }

  lemma SparedAct(w: World, s: Step, t: nat, r: int)
    requires !StepOf(t, s) && !s.Commit? && !s.Store? && !Names(s, r) && Free(w, t, r)
    ensures Free(Next(w, s), t, r)
  {
  }

  lemma SparedStep(w: World, s: Step, t: nat, r: int)
    requires Inv(w) && !StepOf(t, s) && !Names(s, r) && r in w.db.rows && Free(w, t, r)
    ensures SameAt(w.db.rows, Next(w, s).db.rows, r) && Free(Next(w, s), t, r)
  {
    if s.Commit? {
      if s.t in w.txns {
        SparedCommit(w, s.t, t, r);
      }
    } else if s.Store? {
      OtherStoreKeeps(w, s, t);
      SparedStore(w, s, t, r);
    } else {
      OtherActKeeps(w, s, t);
      SparedAct(w, s, t, r);
    }
  }

  /** A committed row that is free and that no other session names stays as it is, and free. */
  lemma {:induction false} OthersSpare(w: World, steps: seq<Step>, t: nat, r: int)
    requires Inv(w) && Others(t, steps) && Spares(steps, r) && r in w.db.rows && Free(w, t, r)
    ensures SameAt(w.db.rows, Run(w, steps).db.rows, r) && Free(Run(w, steps), t, r)
  {
    if steps != [] {
      var front := steps[..|steps| - 1];
      assert Others(t, front) && Spares(front, r);
      OthersSpare(w, front, t, r);
      RunInv(w, front);
      SparedStep(Run(w, front), steps[|steps| - 1], t, r);
    }
  }

  /** `w'` is a later state of the same outbox. */
  ghost predicate Leads(w: World, w': World) {
    exists steps: seq<Step> :: w' == Run(w, steps)
  }

  lemma LeadsRun(w: World, w': World, steps: seq<Step>)
    requires Leads(w, w')
    ensures Leads(w, Run(w', steps))
  {
    var before :| w' == Run(w, before);
    RunConcat(w, before, steps);
  }

  lemma LeadsStep(w: World, w': World, s: Step)
    requires Leads(w, w')
    ensures Leads(w, Next(w', s))
  {
    assert [s][..0] == [];
    assert Run(w', [s]) == Next(Run(w', []), s);
    LeadsRun(w, w', [s]);
  }

  lemma LeadsRefl(w: World)
    ensures Leads(w, w)
  {
    assert Run(w, []) == w;
  }

  lemma LeadsTrans(a: World, b: World, c: World)
    requires Leads(a, b) && Leads(b, c)
    ensures Leads(a, c)
  {
    var steps :| c == Run(b, steps);
    LeadsRun(a, b, steps);
  }

  lemma LeadsClock(w: World, w': World)
    requires Leads(w, w')
    ensures w.db.clock <= w'.db.clock
  {
    var steps :| w' == Run(w, steps);
    RunLog(w, steps);
  }

  lemma LeadsReachable(w: World, w': World)
    requires Leads(w, w') && Reachable(w)
    ensures Reachable(w')
  {
    var steps :| w' == Run(w, steps);
    ReachableRun(w, steps);
  }
}
