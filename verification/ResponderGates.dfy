/** What the master switch and dry-run stop (responders/manager.py:143-299): everything but the
    approval of an action queued before they were thrown. */
module ResponderGates {
  import opened Basics
  import opened Ledger
  import opened ResponderModel
  import opened ResponderSafety

  predicate Off(cfg: Config) { !cfg.enabled || cfg.dryRun }

  /** A plan that is executed at once: its rows written, no dry-run, and approval either not required or
      waived for the alert's category. */
  predicate RunsAtOnce(cfg: Config, p: Proposal) {
    p.planWrite && p.attempt.intent && !cfg.dryRun && (p.trusted || !cfg.requireApproval)
  }

  lemma CommandsRunNothing(a: Action, t: Attempt, id: Id)
    ensures Ran(id) !in ExecuteEffects(a, t).1
  {
  }

  lemma RunRuns(a: Action, t: Attempt, now: int, id: Id)
    ensures Ran(id) in RunAction(a, t, now).2 <==> t.intent && id == a.id
  {
    CommandsRunNothing(a.(status := StExecuting), t, id);
    hide ExecuteEffects, AfterRun;
    if t.intent {
      assert RunAction(a, t, now).2[1] == Ran(a.id);
    }
  }

  lemma HandleOneRuns(m: Memory, cfg: Config, p: Proposal, now: int, id: Id)
    ensures Ran(id) in HandleOne(m, cfg, p, now).1 <==> RunsAtOnce(cfg, p) && p.action.id == id
  {
    RunRuns(p.action.(dryRun := cfg.dryRun, status := StPlanned), p.attempt, now, id);
    hide RunAction;
  }

  lemma {:induction false} HandleAllRuns(m: Memory, cfg: Config, ps: seq<Proposal>, now: int, id: Id)
    ensures Ran(id) in HandleAll(m, cfg, ps, now).1 <==> exists p :: p in ps && RunsAtOnce(cfg, p) && p.action.id == id
    decreases |ps|
  {
    if ps != [] {
      var front, last := ps[..|ps| - 1], ps[|ps| - 1];
      HandleAllRuns(m, cfg, front, now, id);
      HandleOneRuns(HandleAll(m, cfg, front, now).0, cfg, last, now, id);
      hide HandleOne;
      assert forall p :: p in ps <==> p in front || p == last by {
        assert ps == front + [last];
      }
    }
  }

  /** `handle` executes an action if and only if responses are enabled and the action is one of
      the plans that run at once. */
  lemma HandleRespectsGates(m: Memory, cfg: Config, ps: seq<Proposal>, now: int, id: Id)
    ensures Ran(id) in Handle(m, cfg, ps, now).1
            <==> cfg.enabled && exists p :: p in ps && RunsAtOnce(cfg, p) && p.action.id == id
  {
    HandleAllRuns(m, cfg, ps, now, id);
    hide HandleAll;
  }

  lemma {:induction false} ReconcileRunsNothing(m: Memory, log: Log, due: seq<Id>, rs: Id -> Rollback, now: int, id: Id)
    requires forall x :: x in due ==> x in m.actions
    ensures Ran(id) !in ReconcileAll(m, log, due, rs, now).1
    decreases |due|
  {
    if due == [] {
      ReconcileNone(m, log, rs, now);
    } else {
      hide ReconcileOne, ReconcileAll, Rules;
      var front, last := due[..|due| - 1], due[|due| - 1];
      assert due == front + [last];
      ReconcileRunsNothing(m, log, front, rs, now, id);
      ReconcileSnoc(m, log, front, last, rs, now);
      var (m1, e1) := ReconcileAll(m, log, front, rs, now);
      ReconcileOneRunsNothing(m1, Rules(log + e1), last, rs(last), now, id);
    }
  }

  lemma ReconcileOneRunsNothing(m: Memory, rules: multiset<(Id, Chain)>, x: Id, r: Rollback, now: int, id: Id)
    requires x in m.actions
    ensures Ran(id) !in ReconcileOne(m, rules, x, r, now).1
  {
    ExpireRunsNothing(rules, m.actions[x].(status := StExpiring), r, id);
    hide Expire;
  }

  lemma ExpireRunsNothing(rules: multiset<(Id, Chain)>, a: Action, r: Rollback, id: Id)
    ensures Ran(id) !in Expire(rules, a, r).1
  {
  }

  // ------------------------------------------------------------------- every step of a run

  /** The effects of one step; a crash keeps the first ones only. */
  function EffectsOf(s: System, step: Step): Log
    requires step.Crash? ==> step.cut <= |Perform(s, step.op).1|
  {
    match step
    case Do(op) => Perform(s, op).1
    case Configure(_) => []
    case Crash(op, cut, _) => Perform(s, op).1[..cut]
  }

  /** The step approves a queued action, writes its intent, and lives to enter the execution. */
  predicate ApprovalRuns(s: System, step: Step, id: Id) {
    && !step.Configure?
    && step.op.OpApprove? && step.op.id == id && id in s.memory.pending && step.op.attempt.intent
    && (step.Crash? ==> step.cut >= 3)
  }

  lemma ApproveRuns(m: Memory, log: Log, x: Id, t: Attempt, now: int, id: Id)
    requires ActionOk(m, log, x)
    ensures Ran(id) in Approve(m, x, t, now).1 <==> x == id && id in m.pending && t.intent
    ensures x in m.pending && t.intent ==> |Approve(m, x, t, now).1| >= 3 && Approve(m, x, t, now).1[2] == Ran(x)
    ensures x in m.pending && t.intent ==> forall i :: 0 <= i < 2 ==> Approve(m, x, t, now).1[i] != Ran(id)
  {
    if x in m.pending {
      RunRuns(m.actions[x], t, now, id);
    }
    hide ActionOk, ExecuteEffects, AfterRun;
  }

  lemma PerformOff(s: System, op: Op, id: Id)
    requires MemoryOk(s.memory, s.log) && Off(s.cfg)
    ensures Ran(id) in Perform(s, op).1 <==> ApprovalRuns(s, Do(op), id)
  {
    assert forall x :: ActionOk(s.memory, s.log, x);
    hide MemoryOk, Handle, Approve, ReconcileAll, ActionOk;
    match op
    case OpHandle(ps, now) => HandleRespectsGates(s.memory, s.cfg, ps, now, id);
    case OpApprove(x, t, now) => ApproveRuns(s.memory, s.log, x, t, now, id);
    case OpReject(x, ok) =>
    case OpReconcile(rs, now) =>
      ReconcileRunsNothing(s.memory, s.log, DueIds(s.memory, s.memory.recent, now), rs, now, id);
    case OpAddResponder(name, rs, now) =>
      var bound := Bind(s.memory, name);
      ReconcileRunsNothing(bound, s.log, DueIds(bound, bound.recent, now), rs, now, id);
  }

  /** While responses are disabled or dry-run is on, a step of any run executes an action if and only
      if it is the approval of that action, queued before, with its intent written: `approve` does not
      look at the switches again, and nothing else gets past them. */
  lemma OffExecutesIffApproved(steps: seq<Step>, cfg: Config, step: Step, id: Id)
    requires RunOk(steps, cfg) && StepOk(Run(steps, cfg), step) && Off(Run(steps, cfg).cfg)
    ensures Ran(id) in EffectsOf(Run(steps, cfg), step) <==> ApprovalRuns(Run(steps, cfg), step, id)
  {
    RunKeeps(steps, cfg);
    hide LogOk, MemoryOk, Perform, Run, RunOk, OpOk;
    var s := Run(steps, cfg);
    if !step.Configure? {
      PerformOff(s, step.op, id);
      if step.Crash? {
        CutRuns(s, step, id);
      }
    }
  }

  lemma CutRuns(s: System, step: Step, id: Id)
    requires MemoryOk(s.memory, s.log) && step.Crash? && step.cut <= |Perform(s, step.op).1|
    requires Ran(id) in Perform(s, step.op).1 <==> ApprovalRuns(s, Do(step.op), id)
    ensures Ran(id) in EffectsOf(s, step) <==> ApprovalRuns(s, step, id)
  {
    var effects := Perform(s, step.op).1;
    if ApprovalRuns(s, Do(step.op), id) {
      assert ActionOk(s.memory, s.log, id);
      hide MemoryOk, ActionOk, Approve;
      ApproveRuns(s.memory, s.log, id, step.op.attempt, step.op.now, id);
      if step.cut >= 3 {
        assert effects[..step.cut][2] == Ran(id);
      } else {
        assert forall i :: 0 <= i < step.cut ==> effects[..step.cut][i] == effects[i];
      }
    } else {
      hide Perform, MemoryOk;
      assert forall e :: e in effects[..step.cut] ==> e in effects;
    }
  }

  // ------------------------------------------------------------------------ the input

  /** Queued while armed, switched off, approved: the action executes. */
  lemma SwitchedOffButExecutes(now: int)
    ensures var armed, off := Config(true, false, true), Config(false, true, true);
            var a := Action(0, FIREWALL, "198.51.100.7", 3600, StPlanned, false, false, false, None, None);
            var p := Proposal(a, false, true, true, Attempt(true, 2, false, true));
            var steps := [Do(OpHandle([p], now)), Configure(off)];
            var approve := Do(OpApprove(0, Attempt(true, 2, false, true), now));
            && RunOk(steps, armed) && Run(steps, armed).cfg == off
            && StepOk(Run(steps, armed), approve) && Ran(0) in EffectsOf(Run(steps, armed), approve)
  {
    var armed, off := Config(true, false, true), Config(false, true, true);
    var a := Action(0, FIREWALL, "198.51.100.7", 3600, StPlanned, false, false, false, None, None);
    var p := Proposal(a, false, true, true, Attempt(true, 2, false, true));
    var handle, t := Do(OpHandle([p], now)), Attempt(true, 2, false, true);
    var s0 := System(EMPTY_MEMORY, [], armed);
    var steps := [handle, Configure(off)];
    assert steps[..1] == [handle] && [handle][..0] == [];
    assert Run([], armed) == s0 && Ids([p]) == [0];
    assert StepOk(s0, handle) && RunOk([handle], armed);
    Queued(a, p, armed, now);
    var s1 := Run([handle], armed);
    assert s1 == Take(s0, handle);
    assert RunOk(steps, armed);
    var s := Run(steps, armed);
    assert s == s1.(cfg := off) && 0 in s.memory.pending;
    RunKeeps(steps, armed);
    assert ActionOk(s.memory, s.log, 0);
    ApproveRuns(s.memory, s.log, 0, t, now, 0);
  }

  lemma Queued(a: Action, p: Proposal, cfg: Config, now: int)
    requires cfg == Config(true, false, true) && p == Proposal(a, false, true, true, Attempt(true, 2, false, true))
        && a.id == 0
    ensures 0 in Handle(EMPTY_MEMORY, cfg, [p], now).0.pending
  {
    HandleNone(EMPTY_MEMORY, cfg, now);
    HandleSnoc(EMPTY_MEMORY, cfg, [], p, now);
    assert [] + [p] == [p];
    hide HandleAll;
  }
}
