/** What timed rollback misses (responders/manager.py:230-266): an action whose process dies between
    its commands and its last write keeps an EXECUTING row, and no later call looks at it again. */
module ResponderGaps {
  import opened Basics
  import opened Ledger
  import opened ResponderModel
  import opened ResponderSafety

  ghost predicate Silent(effects: Log, id: Id) {
    forall i :: 0 <= i < |effects| ==> Subject(effects[i]) != id
  }

  /** Effects about other actions leave an action's row and rules alone. */
  lemma {:induction false} SilentKeeps(log: Log, effects: Log, id: Id, chain: Chain)
    requires Silent(effects, id)
    ensures id in Durable(log + effects) <==> id in Durable(log)
    ensures id in Durable(log) ==> Durable(log + effects)[id] == Durable(log)[id]
    ensures (id, chain) in Rules(log + effects) <==> (id, chain) in Rules(log)
    decreases |effects|
  {
    hide Durable, Rules;
    if effects == [] {
      assert log + effects == log;
    } else {
      var front, last := effects[..|effects| - 1], effects[|effects| - 1];
      SilentKeeps(log, front, id, chain);
      assert log + effects == log + front + [last];
      OneSilent(log + front, last, id, chain);
    }
  }

  lemma OneSilent(log: Log, e: Effect, id: Id, chain: Chain)
    requires Subject(e) != id
    ensures id in Durable(log + [e]) <==> id in Durable(log)
    ensures id in Durable(log) ==> Durable(log + [e])[id] == Durable(log)[id]
    ensures (id, chain) in Rules(log + [e]) <==> (id, chain) in Rules(log)
  {
    EffectOn(log, e);
    hide Durable, Rules;
  }

  /** The action is recorded as executing, and memory does not know better. */
  ghost predicate Stuck(s: System, id: Id) {
    && id in Durable(s.log) && Durable(s.log)[id].status == StExecuting && Mentioned(s.log, id)
    && (id in s.memory.actions ==> s.memory.actions[id].status == StExecuting)
    && id !in s.memory.pending && id !in s.memory.unbound
  }

  /** An operation that neither says nor changes anything about an action. */
  ghost predicate Spares(m: Memory, m': Memory, effects: Log, id: Id) {
    && Silent(effects, id)
    && (id in m'.actions <==> id in m.actions) && (id in m.actions ==> m'.actions[id] == m.actions[id])
    && (id in m'.pending ==> id in m.pending || id in m.unbound) && (id in m'.unbound ==> id in m.unbound)
  }

  ghost predicate Named(m: Memory) {
    forall x :: x in m.actions ==> m.actions[x].id == x
  }

  lemma RunAbout(a: Action, t: Attempt, now: int)
    ensures AllAbout(RunAction(a, t, now).2, a.id) && RunAction(a, t, now).0.id == a.id
  {
  }

  lemma HandleOneSpares(m: Memory, cfg: Config, p: Proposal, now: int, id: Id)
    requires p.action.id != id
    ensures var (m', effects) := HandleOne(m, cfg, p, now); Spares(m, m', effects, id)
  {
    hide RunAction;
    RunAbout(p.action.(dryRun := cfg.dryRun, status := StPlanned), p.attempt, now);
  }

  lemma {:induction false} HandleAllSpares(m: Memory, cfg: Config, ps: seq<Proposal>, now: int, id: Id)
    requires forall p :: p in ps ==> p.action.id != id
    ensures var (m', effects) := HandleAll(m, cfg, ps, now); Spares(m, m', effects, id)
    decreases |ps|
  {
    if ps != [] {
      HandleAllSpares(m, cfg, ps[..|ps| - 1], now, id);
      var (m1, e1) := HandleAll(m, cfg, ps[..|ps| - 1], now);
      HandleOneSpares(m1, cfg, ps[|ps| - 1], now, id);
      hide HandleOne;
    }
  }

  lemma ExpireAbout(rules: multiset<(Id, Chain)>, a: Action, r: Rollback)
    ensures AllAbout(Expire(rules, a, r).1, a.id)
  {
  }

  lemma ReconcileOneSpares(m: Memory, rules: multiset<(Id, Chain)>, x: Id, r: Rollback, now: int, id: Id)
    requires x in m.actions && x != id && m.actions[x].id == x
    ensures var (m', effects) := ReconcileOne(m, rules, x, r, now);
            Spares(m, m', effects, id) && (Named(m) ==> Named(m')) && m'.actions.Keys == m.actions.Keys
  {
    ExpireAbout(rules, m.actions[x].(status := StExpiring), r);
    hide Expire;
  }

  lemma {:induction false} ReconcileAllSpares(m: Memory, log: Log, due: seq<Id>, rs: Id -> Rollback, now: int, id: Id)
    requires Named(m) && id !in due && forall x :: x in due ==> x in m.actions
    ensures var (m', effects) := ReconcileAll(m, log, due, rs, now); Spares(m, m', effects, id) && Named(m')
    decreases |due|
  {
    if due == [] {
      ReconcileNone(m, log, rs, now);
    } else {
      hide ReconcileOne, ReconcileAll, Rules;
      var front, last := due[..|due| - 1], due[|due| - 1];
      assert due == front + [last];
      ReconcileAllSpares(m, log, front, rs, now, id);
      ReconcileSnoc(m, log, front, last, rs, now);
      var (m1, e1) := ReconcileAll(m, log, front, rs, now);
      ReconcileOneSpares(m1, Rules(log + e1), last, rs(last), now, id);
    }
  }

  lemma PerformSpares(s: System, op: Op, id: Id)
    requires MemoryOk(s.memory, s.log) && OpOk(s, op) && Stuck(s, id)
    ensures var (m, effects) := Perform(s, op); Spares(s.memory, m, effects, id)
  {
    assert forall x :: x in s.memory.actions ==> ActionOk(s.memory, s.log, x);
    assert Named(s.memory);
    hide MemoryOk, RunAction, HandleAll, ReconcileAll;
    match op
    case OpHandle(ps, now) => HandleAllSpares(s.memory, s.cfg, ps, now, id);
    case OpApprove(x, t, now) =>
      if x in s.memory.actions {
        RunAbout(s.memory.actions[x], t, now);
      }
    case OpReject(x, ok) =>
    case OpReconcile(rs, now) =>
      ReconcileAllSpares(s.memory, s.log, DueIds(s.memory, s.memory.recent, now), rs, now, id);
    case OpAddResponder(name, rs, now) =>
      var bound := Bind(s.memory, name);
      ReconcileAllSpares(bound, s.log, DueIds(bound, bound.recent, now), rs, now, id);
  }

  lemma LoadedIsStuck(log: Log, ids: seq<Id>, cfg: Config, id: Id)
    requires id in Durable(log) && Durable(log)[id].status == StExecuting && Mentioned(log, id)
    requires forall x :: x in ids ==> x in Durable(log)
    ensures Stuck(System(Load(Durable(log), ids), log, cfg), id)
  {
    hide Durable;
  }

  lemma StepStuck(s: System, step: Step, id: Id, chain: Chain)
    requires SystemOk(s) && StepOk(s, step) && Stuck(s, id) && (id, chain) in Rules(s.log)
    ensures Stuck(Take(s, step), id) && (id, chain) in Rules(Take(s, step).log)
  {
    hide LogOk, Durable, Rules, Perform, Load, MemoryOk, OpOk;
    match step
    case Do(op) =>
      PerformSpares(s, op, id);
      SilentKeeps(s.log, Perform(s, op).1, id, chain);
      MentionedLonger(s.log, Perform(s, op).1, id);
    case Configure(_) =>
    case Crash(op, cut, ids) =>
      PerformSpares(s, op, id);
      var effects := Perform(s, op).1[..cut];
      SilentKeeps(s.log, effects, id, chain);
      MentionedLonger(s.log, effects, id);
      LoadedIsStuck(s.log + effects, ids, s.cfg, id);
  }

  lemma MentionedLonger(log: Log, more: Log, id: Id)
    requires Mentioned(log, id)
    ensures Mentioned(log + more, id)
  {
    var i :| 0 <= i < |log| && Subject(log[i]) == id;
    assert (log + more)[i] == log[i];
  }

  lemma {:induction false} RowIsMentioned(log: Log, id: Id)
    requires id in Durable(log)
    ensures Mentioned(log, id)
  {
    var before, e := log[..|log| - 1], log[|log| - 1];
    if !(e.Wrote? && e.action.id == id) {
      RowIsMentioned(before, id);
      MentionedLonger(before, [e], id);
      assert log == before + [e];
    }
  }

  /** An execution interrupted by a crash is never rolled back: from the restart on, whatever is
      handled, approved, rejected or reconciled and however often the process restarts, its row
      stays EXECUTING and its rule stays in the firewall. */
  lemma {:induction false} InterruptedExecutionStays(steps: seq<Step>, cfg: Config, k: nat, id: Id, chain: Chain)
    requires RunOk(steps, cfg) && 0 < k <= |steps| && RunOk(steps[..k], cfg) && steps[k - 1].Crash?
    requires var s := Run(steps[..k], cfg);
             id in Durable(s.log) && Durable(s.log)[id].status == StExecuting && (id, chain) in Rules(s.log)
    ensures Stuck(Run(steps, cfg), id) && (id, chain) in Rules(Run(steps, cfg).log)
    decreases |steps|
  {
    var before := steps[..|steps| - 1];
    if k == |steps| {
      assert steps[..k] == steps;
      var s, step := Run(before, cfg), steps[|steps| - 1];
      var log := s.log + Perform(s, step.op).1[..step.cut];
      RowIsMentioned(log, id);
      LoadedIsStuck(log, step.ids, s.cfg, id);
    } else {
      assert before[..k] == steps[..k];
      InterruptedExecutionStays(before, cfg, k, id, chain);
      RunKeeps(before, cfg);
      StepStuck(Run(before, cfg), steps[|steps| - 1], id, chain);
    }
  }

  /** And such a crash does happen: after the commands, before the last write. */
  lemma InterruptionLeavesRule(now: int)
    ensures exists steps: seq<Step>, cfg: Config :: RunOk(steps, cfg) && |steps| == 1 && steps[0].Crash?
              && 0 in Durable(Run(steps, cfg).log) && Durable(Run(steps, cfg).log)[0].status == StExecuting
              && (0, Output) in Rules(Run(steps, cfg).log)
  {
    var cfg := Config(true, false, false);
    var a := Action(0, FIREWALL, "198.51.100.7", 3600, StPlanned, false, false, false, None, None);
    var p := Proposal(a, false, true, true, Attempt(true, 2, false, true));
    var step := Crash(OpHandle([p], now), 5, []);
    var log: Log := [Planned(0, Gates(true, false, false)), Wrote(a), Wrote(a.(status := StExecuting)), Ran(0),
      AddRule(0, Output)];
    assert Perform(System(EMPTY_MEMORY, [], cfg), step.op).1[..5] == log
      && |Perform(System(EMPTY_MEMORY, [], cfg), step.op).1| == 7 by {
      InterruptedEffects(a, p, cfg, now);
    }
    assert [step][..0] == [] && Run([], cfg) == System(EMPTY_MEMORY, [], cfg);
    assert Ids([p]) == [0];
    hide Perform;
    assert StepOk(System(EMPTY_MEMORY, [], cfg), step) && RunOk([step], cfg);
    assert Run([step], cfg).log == [] + log == log;
    InterruptedLog(a, log);
  }

  lemma InterruptedEffects(a: Action, p: Proposal, cfg: Config, now: int)
    requires cfg == Config(true, false, false) && p == Proposal(a, false, true, true, Attempt(true, 2, false, true))
    requires a.id == 0 && a.responder == FIREWALL && a.status == StPlanned && !a.dryRun
    ensures var effects := Perform(System(EMPTY_MEMORY, [], cfg), OpHandle([p], now)).1;
            |effects| == 7 && effects[..5] ==
              [Planned(0, Gates(true, false, false)), Wrote(a), Wrote(a.(status := StExecuting)), Ran(0),
                AddRule(0, Output)]
  {
    HandleNone(EMPTY_MEMORY, cfg, now);
    HandleSnoc(EMPTY_MEMORY, cfg, [], p, now);
    assert [] + [p] == [p];
    var a1, a2 := a.(status := StExecuting), AfterRun(a.(status := StExecuting), true, now);
    var run := RunAction(a, p.attempt, now).2;
    assert run == [Wrote(a1), Ran(0), AddRule(0, Output), AddRule(0, Input), Wrote(a2)];
    hide RunAction, AfterRun, HandleAll;
    assert a.(dryRun := cfg.dryRun, status := StPlanned) == a;
    assert HandleOne(EMPTY_MEMORY, cfg, p, now).1 == [Planned(0, Gates(true, false, false)), Wrote(a)] + run;
    assert Handle(EMPTY_MEMORY, cfg, [p], now).1 == [] + ([Planned(0, Gates(true, false, false)), Wrote(a)] + run);
  }

  lemma InterruptedLog(a: Action, log: Log)
    requires a.id == 0
    requires log == [Planned(0, Gates(true, false, false)), Wrote(a), Wrote(a.(status := StExecuting)), Ran(0),
        AddRule(0, Output)]
    ensures 0 in Durable(log) && Durable(log)[0].status == StExecuting && (0, Output) in Rules(log)
  {
    var l2 := [Planned(0, Gates(true, false, false)), Wrote(a)];
    var l3 := l2 + [Wrote(a.(status := StExecuting))];
    EffectOn(l2, Wrote(a.(status := StExecuting)));
    EffectOn(l3, Ran(0));
    EffectOn(l3 + [Ran(0)], AddRule(0, Output));
    hide Durable, Rules;
    assert log == l3 + [Ran(0)] + [AddRule(0, Output)];
  }
}
