/** When a block ends (responders/manager.py:217-266): over whole runs, in clock readings, and which
    actions the 200 places of the recent list leave to it. */
module ResponderTimes {
  import opened Basics
  import opened Ledger
  import opened OrderedDict
  import opened ResponderModel
  import opened ResponderSafety
  import opened ResponderGates

  // --------------------------------------------------------- when an action executed

  /** For every action that was executed, when. */
  type Times = map<Id, int>

  function NowOf(step: Step): int {
    match step
    case Configure(_) => 0
    case Do(op) => OpTime(op)
    case Crash(op, _, _) => OpTime(op)
  }

  function OpTime(op: Op): int {
    match op
    case OpHandle(_, now) => now
    case OpApprove(_, _, now) => now
    case OpReject(_, _) => 0
    case OpReconcile(_, now) => now
    case OpAddResponder(_, _, now) => now
  }

  /** The effects enter these executions. */
  ghost function RanIn(effects: Log): set<Id> { set e | e in effects && e.Ran? :: e.id }

  ghost function After(at: Times, effects: Log, now: int): Times {
    at + map id | id in RanIn(effects) :: now
  }

  ghost function TimesOf(steps: seq<Step>, cfg: Config): Times
    requires RunOk(steps, cfg)
  {
    if steps == [] then map[]
    else
      var before, step := steps[..|steps| - 1], steps[|steps| - 1];
      After(TimesOf(before, cfg), EffectsOf(Run(before, cfg), step), NowOf(step))
  }

  /** Responders plan actions that have no end yet. */
  ghost predicate NewPlans(op: Op) {
    op.OpHandle? ==> forall p :: p in op.proposals ==> p.action.expiresAt == None
  }

  ghost predicate AllNewPlans(steps: seq<Step>) {
    forall i :: 0 <= i < |steps| && !steps[i].Configure? ==> NewPlans(steps[i].op)
  }

  // ------------------------------------------------------------------- the invariant

  /** An executed action that may still be rolled back ends its duration after its execution, or not
      at all without one; an action that was not executed has no end. */
  ghost predicate Timed(a: Action, at: Times) {
    && (a.status == StExecuted || a.status == StExpiring || a.status == StExpirationFailed ==>
          && a.executed && a.success && a.id in at
          && a.expiresAt == (if a.durationSeconds == 0 then None else Some(at[a.id] + a.durationSeconds * 1_000_000)))
    && (a.status in {StPlanned, StPending, StExecuting, StFailed, StRejected} ==> a.expiresAt == None)
  }

  ghost predicate TimedMemory(m: Memory, at: Times) {
    forall id :: id in m.actions ==> Timed(m.actions[id], at)
  }

  ghost predicate TimedRows(effects: Log, at: Times) {
    forall e :: e in effects && e.Wrote? ==> Timed(e.action, at)
  }

  /** Executions that happen at `now` are entered in the table with it. */
  ghost predicate Entered(effects: Log, at: Times, now: int) {
    forall id :: Ran(id) in effects ==> id in at && at[id] == now
  }

  // ---------------------------------------------------------------------- operations

  lemma CommandsAreNoRows(a: Action, t: Attempt)
    ensures forall e :: e in ExecuteEffects(a, t).1 ==> e.AddRule?
  {
  }

  lemma RunTimed(a: Action, t: Attempt, now: int, at: Times)
    requires a.expiresAt == None && Entered(RunAction(a, t, now).2, at, now)
    ensures RunAction(a, t, now).1 == t.intent
    ensures Timed(RunAction(a, t, now).0, at) && TimedRows(RunAction(a, t, now).2, at)
  {
    CommandsAreNoRows(a.(status := StExecuting), t);
    RunRuns(a, t, now, a.id);
    hide ExecuteEffects;
  }

  lemma HandleOneTimed(m: Memory, cfg: Config, p: Proposal, now: int, at: Times)
    requires p.action.expiresAt == None && TimedMemory(m, at) && Entered(HandleOne(m, cfg, p, now).1, at, now)
    ensures TimedMemory(HandleOne(m, cfg, p, now).0, at) && TimedRows(HandleOne(m, cfg, p, now).1, at)
  {
    var a := p.action.(dryRun := cfg.dryRun, status := StPlanned);
    assert Timed(a, at) && Timed(a.(status := StFailed), at) && Timed(a.(status := StPending), at);
    hide Timed, TimedMemory, RunAction;
    if p.planWrite && !cfg.dryRun && !NeedsApproval(cfg, p.trusted) {
      var (a1, ran, effects) := RunAction(a, p.attempt, now);
      assert forall id :: Ran(id) in effects ==> Ran(id) in HandleOne(m, cfg, p, now).1;
      RunTimed(a, p.attempt, now, at);
      TimedPut(m, a.id, a1, at);
    } else {
      TimedPut(m, a.id, a.(status := StFailed), at);
      TimedPut(m, a.id, a, at);
      TimedPut(m, a.id, a.(status := StPending), at);
    }
  }

  lemma TimedPut(m: Memory, id: Id, a: Action, at: Times)
    requires TimedMemory(m, at) && Timed(a, at)
    ensures forall r: Memory :: r.actions == m.actions[id := a] ==> TimedMemory(r, at)
  {
    hide Timed;
  }

  lemma {:induction false} HandleAllTimed(m: Memory, cfg: Config, ps: seq<Proposal>, now: int, at: Times)
    requires (forall p :: p in ps ==> p.action.expiresAt == None)
    requires TimedMemory(m, at) && Entered(HandleAll(m, cfg, ps, now).1, at, now)
    ensures TimedMemory(HandleAll(m, cfg, ps, now).0, at) && TimedRows(HandleAll(m, cfg, ps, now).1, at)
    decreases |ps|
  {
    hide HandleOne, TimedMemory, Timed;
    if ps == [] {
      HandleNone(m, cfg, now);
    } else {
      var front, last := ps[..|ps| - 1], ps[|ps| - 1];
      assert ps == front + [last];
      HandleSnoc(m, cfg, front, last, now);
      hide HandleAll;
      HandleAllTimed(m, cfg, front, now, at);
      HandleOneTimed(HandleAll(m, cfg, front, now).0, cfg, last, now, at);
    }
  }

  lemma ReconcileOneTimed(m: Memory, rules: multiset<(Id, Chain)>, id: Id, r: Rollback, now: int, at: Times)
    requires TimedMemory(m, at) && id in m.actions && MayExpire(m.actions[id].status)
    ensures TimedMemory(ReconcileOne(m, rules, id, r, now).0, at) && TimedRows(ReconcileOne(m, rules, id, r, now).1, at)
  {
    var a := m.actions[id].(status := StExpiring);
    DropsAreNoRows(rules, a, r);
    hide Expire;
    assert Timed(m.actions[id], at);
    assert Timed(a, at);
  }

  lemma DropsAreNoRows(rules: multiset<(Id, Chain)>, a: Action, r: Rollback)
    ensures forall e :: e in Expire(rules, a, r).1 ==> e.DropRule?
  {
  }

  lemma {:induction false} ReconcileAllTimed(m: Memory, log: Log, due: seq<Id>, rs: Id -> Rollback, now: int, at: Times)
    requires LogOk(log) && MemoryOk(m, log) && Distinct(due) && TimedMemory(m, at)
    requires forall id :: id in due ==> id in m.actions && MayExpire(m.actions[id].status)
    ensures TimedMemory(ReconcileAll(m, log, due, rs, now).0, at) && TimedRows(ReconcileAll(m, log, due, rs, now).1, at)
    decreases |due|
  {
    hide LogOk, MemoryOk, TimedMemory, Timed, ReconcileOne, ReconcileAll, Rules;
    if due == [] {
      ReconcileNone(m, log, rs, now);
    } else {
      var front, last := due[..|due| - 1], due[|due| - 1];
      assert due == front + [last] && last !in front;
      ReconcileSnoc(m, log, front, last, rs, now);
      ReconcileAllKeeps(m, log, front, rs, now);
      ReconcileAllTimed(m, log, front, rs, now, at);
      var (m1, e1) := ReconcileAll(m, log, front, rs, now);
      ReconcileOneTimed(m1, Rules(log + e1), last, rs(last), now, at);
    }
  }

  lemma ApproveTimed(m: Memory, log: Log, id: Id, t: Attempt, now: int, at: Times)
    requires MemoryOk(m, log) && TimedMemory(m, at) && Entered(Approve(m, id, t, now).1, at, now)
    ensures TimedMemory(Approve(m, id, t, now).0, at) && TimedRows(Approve(m, id, t, now).1, at)
  {
    assert ActionOk(m, log, id);
    if id in m.pending {
      var effects := RunAction(m.actions[id], t, now).2;
      assert forall x :: Ran(x) in effects ==> Ran(x) in Approve(m, id, t, now).1;
      assert Timed(m.actions[id], at);
      RunTimed(m.actions[id], t, now, at);
      UnrunIsPending(m.actions[id], t, now);
    }
    hide RunAction, ActionOk;
  }

  lemma UnrunIsPending(a: Action, t: Attempt, now: int)
    ensures !RunAction(a, t, now).1 ==> RunAction(a, t, now).0.expiresAt == a.expiresAt
  {
  }

  lemma PerformTimed(s: System, op: Op, at: Times)
    requires SystemOk(s) && NewPlans(op) && TimedMemory(s.memory, at) && Entered(Perform(s, op).1, at, OpTime(op))
    ensures TimedMemory(Perform(s, op).0, at) && TimedRows(Perform(s, op).1, at)
  {
    hide HandleAll, Approve, ReconcileAll, LogOk, MemoryOk, Timed;
    match op
    case OpHandle(ps, now) =>
      if s.cfg.enabled {
        HandleAllTimed(s.memory, s.cfg, ps, now, at);
      }
    case OpApprove(id, t, now) => ApproveTimed(s.memory, s.log, id, t, now, at);
    case OpReject(id, ok) => RejectTimed(s.memory, s.log, id, ok, at);
    case OpReconcile(rs, now) => ReconcileTimed(s.memory, s.log, rs, now, at);
    case OpAddResponder(name, rs, now) =>
      BindKeeps(s.memory, s.log, name);
      ReconcileTimed(Bind(s.memory, name), s.log, rs, now, at);
  }

  lemma RejectTimed(m: Memory, log: Log, id: Id, ok: bool, at: Times)
    requires MemoryOk(m, log) && TimedMemory(m, at)
    ensures TimedMemory(Reject(m, id, ok).0, at) && TimedRows(Reject(m, id, ok).1, at)
  {
    assert ActionOk(m, log, id);
    if id in m.pending {
      assert Timed(m.actions[id], at);
    }
  }

  lemma ReconcileTimed(m: Memory, log: Log, rs: Id -> Rollback, now: int, at: Times)
    requires LogOk(log) && MemoryOk(m, log) && TimedMemory(m, at)
    ensures TimedMemory(Reconcile(m, log, rs, now).0, at) && TimedRows(Reconcile(m, log, rs, now).1, at)
  {
    DueDistinct(m, m.recent, now);
    ReconcileAllTimed(m, log, DueIds(m, m.recent, now), rs, now, at);
  }

  // --------------------------------------------------------------------- whole runs

  /** What a run keeps: memory and all rows ever written are timed, and the table holds exactly the
      executions that were entered. */
  ghost predicate AllTimed(s: System, at: Times) {
    TimedMemory(s.memory, at) && TimedRows(s.log, at) && forall id :: id in at <==> Ran(id) in s.log
  }

  /** An execution already in the log is not entered again. */
  lemma NoSecondRun(log: Log, effects: Log, id: Id)
    requires LogOk(log + effects) && Ran(id) in log
    ensures Ran(id) !in effects
  {
    var j :| 0 <= j < |log| && log[j] == Ran(id);
    assert (log + effects)[j] == Ran(id);
    if Ran(id) in effects {
      var k :| 0 <= k < |effects| && effects[k] == Ran(id);
      assert (log + effects)[|log| + k] == Ran(id);
      NotRunAgain(log + effects, id, j, |log| + k);
      assert false;
    }
  }

  lemma RanInIs(effects: Log, id: Id)
    ensures id in RanIn(effects) <==> Ran(id) in effects
  {
    if id in RanIn(effects) {
      var e :| e in effects && e.Ran? && e.id == id;
      assert e == Ran(id);
    }
    if Ran(id) in effects {
      assert Ran(id).Ran? && Ran(id).id == id;
    }
  }

  /** The table after some effects keeps every execution and enters the new ones. */
  lemma AfterIs(log: Log, effects: Log, at: Times, now: int)
    requires LogOk(log + effects) && forall id :: id in at <==> Ran(id) in log
    ensures Entered(effects, After(at, effects, now), now)
    ensures forall id :: id in at ==> id in After(at, effects, now) && After(at, effects, now)[id] == at[id]
    ensures forall id :: id in After(at, effects, now) <==> Ran(id) in log + effects
  {
    forall id ensures id in RanIn(effects) <==> Ran(id) in effects {
      RanInIs(effects, id);
    }
    forall id | id in at ensures id !in RanIn(effects) {
      NoSecondRun(log, effects, id);
    }
    hide LogOk, RanIn;
    assert forall id :: Ran(id) in log + effects <==> Ran(id) in log || Ran(id) in effects;
  }

  lemma TimedGrows(s: System, at: Times, more: Times)
    requires TimedMemory(s.memory, at) && TimedRows(s.log, at)
    requires forall id :: id in at ==> id in more && more[id] == at[id]
    ensures TimedMemory(s.memory, more) && TimedRows(s.log, more)
  {
    forall id | id in s.memory.actions ensures Timed(s.memory.actions[id], more) {
      assert Timed(s.memory.actions[id], at);
    }
    forall e | e in s.log && e.Wrote? ensures Timed(e.action, more) {
      assert Timed(e.action, at);
    }
  }

  /** The rows of a permitted log: each was written, and an action that may be rolled back has run. */
  lemma {:induction false} RowsWereWritten(log: Log, id: Id)
    requires id in Durable(log)
    ensures Wrote(Durable(log)[id]) in log
    decreases |log|
  {
    var before, e := log[..|log| - 1], log[|log| - 1];
    assert log == before + [e];
    if !(e.Wrote? && e.action.id == id) {
      RowsWereWritten(before, id);
    }
  }

  lemma WrittenHasRun(log: Log, a: Action)
    requires LogOk(log) && Wrote(a) in log && MayExpire(a.status)
    ensures a.status != StExpirationFailed ==> Ran(a.id) in log
    ensures Ran(a.id) in log
  {
    var k :| 0 <= k < |log| && log[k] == Wrote(a);
    At(log, k);
    RowsAndRuns(log[..k], a.id);
    hide LogOk;
    assert Ran(a.id) in log[..k];
  }

  /** After an operation or its first effects: the rows, and memory if the process lives on. */
  lemma CutTimed(s: System, op: Op, cut: nat, at: Times)
    requires SystemOk(s) && OpOk(s, op) && NewPlans(op) && AllTimed(s, at) && cut <= |Perform(s, op).1|
    ensures var effects := Perform(s, op).1[..cut]; var more := After(at, effects, OpTime(op));
            && LogOk(s.log + effects)
            && (forall id :: id in more <==> Ran(id) in s.log + effects)
            && TimedRows(s.log + effects, more)
            && (cut == |Perform(s, op).1| ==> TimedMemory(Perform(s, op).0, more))
  {
    hide Perform, OpOk, NewPlans, Timed;
    var all, now := Perform(s, op).1, OpTime(op);
    var effects := all[..cut];
    PerformKeeps(s, op);
    PrefixOk(s.log + all, |s.log| + cut);
    assert (s.log + all)[..|s.log| + cut] == s.log + effects;
    AfterIs(s.log, all, at, now);
    AfterIs(s.log, effects, at, now);
    var full, more := After(at, all, now), After(at, effects, now);
    TimedGrows(s, at, full);
    PerformTimed(s, op, full);
    assert forall e :: e in effects ==> e in all;
    hide LogOk, MemoryOk, After;
    forall e | e in s.log + effects && e.Wrote? ensures Timed(e.action, more) {
      assert Timed(e.action, full);
      RowInTime(s.log + effects, e.action, full, more);
    }
    if cut == |all| {
      assert effects == all;
    }
  }

  /** A timed row stays so in the shorter table, which has all the executions it needs. */
  lemma RowInTime(log: Log, a: Action, full: Times, more: Times)
    requires LogOk(log) && Wrote(a) in log && Timed(a, full)
    requires forall id :: Ran(id) in log ==> id in more && id in full && more[id] == full[id]
    ensures Timed(a, more)
  {
    if MayExpire(a.status) {
      WrittenHasRun(log, a);
    }
  }

  lemma {:induction false} RunTimes(steps: seq<Step>, cfg: Config)
    requires RunOk(steps, cfg) && AllNewPlans(steps)
    ensures AllTimed(Run(steps, cfg), TimesOf(steps, cfg))
    decreases |steps|
  {
    if steps != [] {
      var before, step := steps[..|steps| - 1], steps[|steps| - 1];
      var s, at := Run(before, cfg), TimesOf(before, cfg);
      RunTimes(before, cfg);
      RunKeeps(before, cfg);
      hide Perform, OpOk, SystemOk, TimedMemory, TimedRows, TimesOf;
      assert TimesOf(steps, cfg) == After(at, EffectsOf(s, step), NowOf(step)) by { TimesGrow(steps, cfg); }
      StepTimed(s, step, at);
    }
  }

  lemma TimesGrow(steps: seq<Step>, cfg: Config)
    requires RunOk(steps, cfg) && steps != []
    ensures var before, step := steps[..|steps| - 1], steps[|steps| - 1];
            TimesOf(steps, cfg) == After(TimesOf(before, cfg), EffectsOf(Run(before, cfg), step), NowOf(step))
  {
  }

  lemma StepTimed(s: System, step: Step, at: Times)
    requires SystemOk(s) && StepOk(s, step) && AllTimed(s, at) && (!step.Configure? ==> NewPlans(step.op))
    ensures AllTimed(Take(s, step), After(at, EffectsOf(s, step), NowOf(step)))
  {
    hide Perform, OpOk, NewPlans, Timed, SystemOk;
    match step {
      case Configure(_) =>
        assert RanIn([]) == {};
        assert After(at, [], 0) == at;
      case Do(op) =>
        var all := Perform(s, op).1;
        CutTimed(s, op, |all|, at);
        assert all[..|all|] == all;
      case Crash(op, cut, ids) =>
        CutTimed(s, op, cut, at);
        var log := s.log + Perform(s, op).1[..cut];
        forall id | id in ids ensures Wrote(Durable(log)[id]) in log {
          RowsWereWritten(log, id);
        }
    }
  }

  /** When a block ends.  Take, after any run, an executed firewall action in the recent list that may
      still be rolled back, and a rule of it in the firewall.  A working reconciliation removes the rule
      if and only if the firewall responder is registered, the action has a duration and its execution
      is at least that many seconds ago. */
  lemma BlocksEndOnTime(steps: seq<Step>, cfg: Config, rs: Id -> Rollback, now: int, id: Id, chain: Chain)
    requires RunOk(steps, cfg) && AllNewPlans(steps) && forall x :: Succeeds(rs(x))
    requires var m := Run(steps, cfg).memory;
             && id in m.recent && id in m.actions && m.actions[id].responder == FIREWALL
             && m.actions[id].status in {StExecuted, StExpiring, StExpirationFailed}
    requires (id, chain) in Rules(Run(steps, cfg).log)
    ensures id in TimesOf(steps, cfg)
    ensures var s, a := Run(steps, cfg), Run(steps, cfg).memory.actions[id];
            (id, chain) !in Rules(s.log + Perform(s, OpReconcile(rs, now)).1)
            <==> FIREWALL in s.memory.responders
                 && a.durationSeconds > 0 && now >= TimesOf(steps, cfg)[id] + a.durationSeconds * 1_000_000
  {
    hide LogOk, Rules, MemoryOk, TimedMemory, TimedRows, Perform, Succeeds;
    RunKeeps(steps, cfg);
    RunTimes(steps, cfg);
    BlockEnds(Run(steps, cfg), TimesOf(steps, cfg), rs, now, id, chain);
  }

  lemma BlockEnds(s: System, at: Times, rs: Id -> Rollback, now: int, id: Id, chain: Chain)
    requires SystemOk(s) && AllTimed(s, at) && forall x :: Succeeds(rs(x))
    requires id in s.memory.recent && id in s.memory.actions && s.memory.actions[id].responder == FIREWALL
    requires s.memory.actions[id].status in {StExecuted, StExpiring, StExpirationFailed}
    requires (id, chain) in Rules(s.log)
    ensures id in at
    ensures var a := s.memory.actions[id];
            (id, chain) !in Rules(s.log + Perform(s, OpReconcile(rs, now)).1)
            <==> FIREWALL in s.memory.responders
                 && a.durationSeconds > 0 && now >= at[id] + a.durationSeconds * 1_000_000
  {
    hide LogOk, Rules, RanIn, Reconcile, Succeeds;
    assert ActionOk(s.memory, s.log, id);
    assert Timed(s.memory.actions[id], at);
    assert s.memory.actions[id].id == id;
    hide MemoryOk, ActionOk, TimedMemory, TimedRows;
    RollbackIsCompleteIffDue(s.memory, s.log, rs, now, id, chain);
  }

  // ----------------------------------------------------------------- the recent list

  /** The actions that a step plans, in the order of their responders. */
  function PlannedBy(s: System, step: Step): seq<Id> {
    if step.Do? && step.op.OpHandle? && s.cfg.enabled then
      seq(|step.op.proposals|, i requires 0 <= i < |step.op.proposals| => step.op.proposals[i].action.id)
    else []
  }

  ghost function AllPlanned(steps: seq<Step>, cfg: Config): seq<Id>
    requires RunOk(steps, cfg)
  {
    if steps == [] then []
    else
      var before := steps[..|steps| - 1];
      AllPlanned(before, cfg) + PlannedBy(Run(before, cfg), steps[|steps| - 1])
  }

  /** Until a crash, the recent list holds the 200 newest actions: all that reconciliation can roll back. */
  lemma {:induction false} RecentAreTheNewest(steps: seq<Step>, cfg: Config)
    requires RunOk(steps, cfg) && forall i :: 0 <= i < |steps| ==> !steps[i].Crash?
    ensures var all := AllPlanned(steps, cfg);
            Run(steps, cfg).memory.recent == if |all| <= 200 then all else all[|all| - 200..]
    decreases |steps|
  {
    hide Newest, Take, StepOk, PlannedBy;
    NewestIs(AllPlanned(steps, cfg));
    if steps == [] {
      assert AllPlanned(steps, cfg) == [];
    } else {
      var before, step := steps[..|steps| - 1], steps[|steps| - 1];
      RecentAreTheNewest(before, cfg);
      NewestIs(AllPlanned(before, cfg));
      RecentStep(Run(before, cfg), step, AllPlanned(before, cfg));
    }
  }

  /** So an action that 200 later plans have pushed out of the list keeps its rules, however long its
      time has been over. */
  lemma PushedOutBlocksStay(steps: seq<Step>, cfg: Config, rs: Id -> Rollback, now: int, id: Id, chain: Chain)
    requires RunOk(steps, cfg) && (forall i :: 0 <= i < |steps| ==> !steps[i].Crash?) && forall x :: Succeeds(rs(x))
    requires var all := AllPlanned(steps, cfg); |all| >= 200 && id !in all[|all| - 200..]
    requires (id, chain) in Rules(Run(steps, cfg).log)
    ensures var s := Run(steps, cfg); (id, chain) in Rules(s.log + Perform(s, OpReconcile(rs, now)).1)
  {
    hide LogOk, Rules, MemoryOk, AllPlanned, Succeeds, Reconcile;
    RunKeeps(steps, cfg);
    RecentAreTheNewest(steps, cfg);
    var s, all := Run(steps, cfg), AllPlanned(steps, cfg);
    assert s.memory.recent == all[|all| - 200..];
    hide Run, RunOk;
    RollbackIsCompleteIffDue(s.memory, s.log, rs, now, id, chain);
  }

  lemma RecentStep(s: System, step: Step, all: seq<Id>)
    requires StepOk(s, step) && !step.Crash? && s.memory.recent == Newest(all)
    ensures Take(s, step).memory.recent == Newest(all + PlannedBy(s, step))
  {
    hide Perform, HandleAll, OpOk, Newest;
    assert all + [] == all;
    if step.Do? {
      RecentAfter(s, step.op);
      if step.op.OpHandle? && s.cfg.enabled {
        NewestOfMore(all, Ids(step.op.proposals));
        assert PlannedBy(s, step) == Ids(step.op.proposals);
      }
    }
  }

  lemma NewestIs(all: seq<Id>)
    ensures Newest(all) == if |all| <= 200 then all else all[|all| - 200..]
  {
  }

  lemma NewestOfMore(all: seq<Id>, more: seq<Id>)
    ensures Newest(Newest(all) + more) == Newest(all + more)
  {
  }

  lemma RecentAfter(s: System, op: Op)
    ensures Perform(s, op).0.recent
            == if op.OpHandle? && s.cfg.enabled then Newest(s.memory.recent + Ids(op.proposals)) else s.memory.recent
  {
    hide HandleOne, RunAction, Newest;
    match op
    case OpHandle(ps, now) => HandleKeepsRecent(s.memory, s.cfg, ps, now);
    case OpReconcile(rs, now) =>
      ReconcileKeepsRecent(s.memory, s.log, DueIds(s.memory, s.memory.recent, now), rs, now);
    case OpAddResponder(name, rs, now) =>
      var m := Bind(s.memory, name);
      ReconcileKeepsRecent(m, s.log, DueIds(m, m.recent, now), rs, now);
    case _ =>
  }

  lemma {:induction false} HandleKeepsRecent(m: Memory, cfg: Config, ps: seq<Proposal>, now: int)
    ensures HandleAll(m, cfg, ps, now).0.recent == m.recent
    decreases |ps|
  {
    hide RunAction;
    if ps != [] {
      HandleKeepsRecent(m, cfg, ps[..|ps| - 1], now);
    }
  }

  lemma {:induction false} ReconcileKeepsRecent(m: Memory, log: Log, due: seq<Id>, rs: Id -> Rollback, now: int)
    requires forall id :: id in due ==> id in m.actions
    ensures ReconcileAll(m, log, due, rs, now).0.recent == m.recent
    decreases |due|
  {
    hide Expire, Rules;
    if due != [] {
      ReconcileKeepsRecent(m, log, due[..|due| - 1], rs, now);
    }
  }
}
