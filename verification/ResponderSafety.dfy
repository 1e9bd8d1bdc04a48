/** Every run of the responder manager leaves a permitted log, whatever writes and commands
    fail and wherever the process crashes; with it the safety theorems of Ledger. */
module ResponderSafety {
  import opened Basics
  import opened Ledger
  import opened OrderedDict
  import opened ResponderModel

  // ------------------------------------------------------------------ invariant

  /** An action awaiting approval: its durable row is PENDING too. */
  ghost predicate Awaiting(log: Log, a: Action) {
    && a.status == StPending && !a.dryRun
    && a.id in Durable(log) && Durable(log)[a.id].status == StPending
    && Durable(log)[a.id].responder == a.responder
    && HeldForApproval(log, a.id)
  }

  /** An action whose rollback may come due: it ran, and its row has not moved past that. */
  ghost predicate RolledBackLater(log: Log, a: Action) {
    && Ran(a.id) in log && a.id in Durable(log) && Durable(log)[a.id].responder == a.responder
    && (Durable(log)[a.id].status == StExecuting || Durable(log)[a.id].status == StExecuted
        || Durable(log)[a.id].status == StExpiring || Durable(log)[a.id].status == StExpirationFailed)
  }

  predicate MayExpire(s: Status) {
    s == StExecuted || s == StExpiring || s == StExpirationFailed
  }

  /** What the log knows of the action object of `id`. */
  ghost predicate ActionOk(m: Memory, log: Log, id: Id) {
    && (id in m.actions ==> m.actions[id].id == id && Mentioned(log, id))
    && (id in m.pending || id in m.unbound ==> id in m.actions && Awaiting(log, m.actions[id]))
    && !(id in m.pending && id in m.unbound)
    && (id in m.actions && MayExpire(m.actions[id].status) ==> RolledBackLater(log, m.actions[id]))
  }

  ghost predicate MemoryOk(m: Memory, log: Log) {
    && (forall id :: ActionOk(m, log, id))
    && Distinct(m.recent)
    && (forall id :: id in m.recent ==> id in m.actions)
  }

  // ------------------------------------------------- effects about other actions

  ghost predicate AllAbout(effects: Log, id: Id) {
    forall i :: 0 <= i < |effects| ==> Subject(effects[i]) == id
  }

  /** What effects about one action leave alone of another. */
  lemma {:induction false} Frame(log: Log, effects: Log, x: Id, id: Id)
    requires AllAbout(effects, x) && x != id
    ensures id in Durable(log + effects) <==> id in Durable(log)
    ensures id in Durable(log) ==> Durable(log + effects)[id] == Durable(log)[id]
    ensures Ran(id) in log + effects <==> Ran(id) in log
    ensures Mentioned(log, id) <==> Mentioned(log + effects, id)
    ensures HeldForApproval(log, id) ==> HeldForApproval(log + effects, id)
    decreases |effects|
  {
    if effects == [] {
      assert log + effects == log;
    } else {
      var front, last := effects[..|effects| - 1], effects[|effects| - 1];
      Frame(log, front, x, id);
      assert (log + effects)[..|log + effects| - 1] == log + front;
      assert log + effects == (log + front) + [last];
      MentionedSnoc(log + front, last, id);
      if HeldForApproval(log, id) {
        var g: Gates :| Planned(id, g) in log && g.enabled && !g.dryRun && g.needsApproval;
        assert Planned(id, g) in log + effects;
      }
    }
  }

  lemma MentionedSnoc(log: Log, e: Effect, id: Id)
    ensures Mentioned(log + [e], id) <==> Mentioned(log, id) || Subject(e) == id
  {
    if Mentioned(log, id) {
      var i :| 0 <= i < |log| && Subject(log[i]) == id;
      assert (log + [e])[i] == log[i];
    }
    if Subject(e) == id {
      assert (log + [e])[|log|] == e;
    }
  }

  lemma ActionFrame(m: Memory, m': Memory, log: Log, effects: Log, x: Id, id: Id)
    requires AllAbout(effects, x) && x != id && ActionOk(m, log, id)
    requires id in m'.actions <==> id in m.actions
    requires id in m.actions ==> m'.actions[id] == m.actions[id]
    requires id in m'.pending ==> id in m.pending
    requires id in m'.unbound ==> id in m.unbound
    ensures ActionOk(m', log + effects, id)
  {
    Frame(log, effects, x, id);
  }

  // ------------------------------------------------------------------ execution

  /** The firewall commands of one execution. */
  lemma CommandsOk(log: Log, a: Action, t: Attempt)
    requires LogOk(log) && Ran(a.id) in log && a.id in Durable(log)
    requires Durable(log)[a.id].status == StExecuting && Durable(log)[a.id].responder == a.responder
    requires forall chain :: AddRule(a.id, chain) !in log
    ensures var commands := ExecuteEffects(a, t).1;
            && LogOk(log + commands) && Durable(log + commands) == Durable(log) && Ran(a.id) in log + commands
            && AllAbout(commands, a.id)
  {
    var commands := ExecuteEffects(a, t).1;
    var first, second := AddRule(a.id, Output), AddRule(a.id, Input);
    if commands == [] {
      assert log + commands == log;
    } else {
      Extend(log, first);
      if |commands| == 2 {
        Extend(log + [first], second);
        assert log + commands == log + [first] + [second];
      }
    }
  }

  /** What `_run` may start from. */
  ghost predicate MayRun(log: Log, a: Action) {
    && LogOk(log) && !a.dryRun && Cleared(log, a.id)
    && a.id in Durable(log) && Durable(log)[a.id].responder == a.responder
    && (Durable(log)[a.id].status == StPlanned || Durable(log)[a.id].status == StPending)
  }

  lemma RunStarts(log: Log, a: Action)
    requires MayRun(log, a)
    ensures var a1 := a.(status := StExecuting); var started := log + [Wrote(a1), Ran(a.id)];
            && LogOk(started) && Ran(a.id) in started
            && Durable(started) == Durable(log)[a.id := a1]
            && forall chain :: AddRule(a.id, chain) !in started
  {
    var a1 := a.(status := StExecuting);
    RowsAndRuns(log, a.id);
    forall chain ensures AddRule(a.id, chain) !in log {
      if AddRule(a.id, chain) in log {
        AddedRan(log, a.id, chain);
      }
    }
    Extend(log, Wrote(a1));
    ClearedGrows(log, [Wrote(a1)], a.id);
    Extend(log + [Wrote(a1)], Ran(a.id));
    assert log + [Wrote(a1), Ran(a.id)] == log + [Wrote(a1)] + [Ran(a.id)];
  }

  /** The last write of an execution. */
  lemma FinalWrite(log: Log, a: Action, ok: bool)
    requires LogOk(log) && Ran(a.id) in log && (a.status == StExecuted || a.status == StFailed)
    requires a.id in Durable(log) && Durable(log)[a.id].status == StExecuting
        && Durable(log)[a.id].responder == a.responder
    ensures var done := log + [SaveEffect(a, ok)];
            LogOk(done) && (a.status == StExecuted ==> RolledBackLater(done, a))
  {
    Extend(log, SaveEffect(a, ok));
    assert Ran(a.id) in log + [SaveEffect(a, ok)];
  }

  ghost predicate RanWell(log: Log, a: Action, a': Action, ran: bool, effects: Log) {
    && a'.id == a.id && a'.responder == a.responder
    && LogOk(log + effects) && AllAbout(effects, a.id)
    && (ran ==> (a'.status == StExecuted || a'.status == StFailed)
                && (a'.status == StExecuted ==> RolledBackLater(log + effects, a')))
    && (!ran ==> a' == a.(status := StFailed) && effects == [WriteFailed(a.id)])
  }

  lemma RunRanWell(log: Log, a: Action, t: Attempt, now: int)
    requires MayRun(log, a)
    ensures var (a', ran, effects) := RunAction(a, t, now); RanWell(log, a, a', ran, effects)
  {
    hide LogOk, Permitted, Durable, Rules, Cleared;
    var (a', ran, effects) := RunAction(a, t, now);
    var a1 := a.(status := StExecuting);
    if !t.intent {
      Extend(log, WriteFailed(a.id));
    } else {
      RunStarts(log, a);
      var started := log + [Wrote(a1), Ran(a.id)];
      CommandsOk(started, a1, t);
      var (success, commands) := ExecuteEffects(a1, t);
      FinalWrite(started + commands, a', t.final);
      assert log + effects == started + commands + [SaveEffect(a', t.final)];
    }
  }

  // ----------------------------------------------------------------- operations

  /** What one operation on action `x` must achieve. */
  ghost predicate Kept(m: Memory, log: Log, m': Memory, effects: Log, x: Id) {
    && LogOk(log + effects) && AllAbout(effects, x) && ActionOk(m', log + effects, x)
    && m'.recent == m.recent && m'.unbound == m.unbound
    && m'.actions.Keys == m.actions.Keys + {x}
    && (forall id :: id in m.actions && id != x ==> m'.actions[id] == m.actions[id])
    && (forall id :: id in m'.pending && id != x ==> id in m.pending)
  }

  lemma KeptMemory(m: Memory, log: Log, m': Memory, effects: Log, x: Id)
    requires MemoryOk(m, log) && Kept(m, log, m', effects, x)
    ensures MemoryOk(m', log + effects)
  {
    forall id ensures ActionOk(m', log + effects, id) {
      if id != x {
        assert id in m'.actions <==> id in m.actions;
        ActionFrame(m, m', log, effects, x, id);
      }
    }
  }

  lemma NotYetRan(log: Log, id: Id)
    requires !Mentioned(log, id)
    ensures Ran(id) !in log
  {
    forall i | 0 <= i < |log| ensures log[i] != Ran(id) {
      assert Subject(log[i]) != id;
    }
  }

  /** The durable plan. */
  ghost predicate PlanIn(log: Log, a: Action, gates: Gates) {
    && LogOk(log) && a.id in Durable(log) && Durable(log)[a.id] == a && Planned(a.id, gates) in log
  }

  lemma PlanWritten(log: Log, a: Action, gates: Gates)
    requires LogOk(log) && !Mentioned(log, a.id) && a.status == StPlanned && gates.dryRun == a.dryRun
    ensures LogOk(log + [Planned(a.id, gates)])
    ensures PlanIn(log + [Planned(a.id, gates)] + [Wrote(a)], a, gates)
  {
    RowsAndRuns(log, a.id);
    NotYetRan(log, a.id);
    Extend(log, Planned(a.id, gates));
    var planned := log + [Planned(a.id, gates)];
    assert Ran(a.id) !in planned;
    Extend(planned, Wrote(a));
    assert Planned(a.id, gates) in planned + [Wrote(a)];
  }

  lemma AboutMentioned(log: Log, effects: Log, x: Id)
    requires AllAbout(effects, x) && effects != []
    ensures Mentioned(log + effects, x)
  {
    assert Subject((log + effects)[|log|]) == Subject(effects[0]) == x;
  }

  /** The new action's part of `Kept`: the log, the object `a` and whether it is queued. */
  ghost predicate Settled(log: Log, effects: Log, a: Action, queued: bool) {
    && LogOk(log + effects) && AllAbout(effects, a.id) && effects != []
    && (queued ==> Awaiting(log + effects, a))
    && (MayExpire(a.status) ==> RolledBackLater(log + effects, a))
  }

  lemma PlanRefused(log: Log, a: Action, gates: Gates)
    requires LogOk(log) && !Mentioned(log, a.id) && a.status == StPlanned && gates.dryRun == a.dryRun
    ensures Settled(log, [Planned(a.id, gates), WriteFailed(a.id)], a.(status := StFailed), false)
    ensures Settled(log, [Planned(a.id, gates), Wrote(a)], a, false)
    ensures Settled(log, [Planned(a.id, gates), Wrote(a), WriteFailed(a.id)], a.(status := StFailed), false)
  {
    PlanWritten(log, a, gates);
    var planned := log + [Planned(a.id, gates)];
    Extend(planned, WriteFailed(a.id));
    Extend(planned + [Wrote(a)], WriteFailed(a.id));
    assert log + [Planned(a.id, gates), WriteFailed(a.id)] == planned + [WriteFailed(a.id)];
    assert log + [Planned(a.id, gates), Wrote(a)] == planned + [Wrote(a)];
    assert log + [Planned(a.id, gates), Wrote(a), WriteFailed(a.id)] == planned + [Wrote(a)] + [WriteFailed(a.id)];
  }

  lemma PlanQueued(log: Log, a: Action, gates: Gates)
    requires LogOk(log) && !Mentioned(log, a.id) && a.status == StPlanned && gates.dryRun == a.dryRun
    requires gates.enabled && !gates.dryRun && gates.needsApproval
    ensures var a1 := a.(status := StPending);
            Settled(log, [Planned(a.id, gates), Wrote(a), Wrote(a1)], a1, true)
  {
    PlanWritten(log, a, gates);
    var a1, written := a.(status := StPending), log + [Planned(a.id, gates)] + [Wrote(a)];
    assert HeldForApproval(written, a.id);
    Extend(written, Wrote(a1));
    assert log + [Planned(a.id, gates), Wrote(a), Wrote(a1)] == written + [Wrote(a1)];
    HeldGrows(written, [Wrote(a1)], a.id);
  }

  lemma PlanRun(log: Log, a: Action, gates: Gates, t: Attempt, now: int)
    requires LogOk(log) && !Mentioned(log, a.id) && a.status == StPlanned && gates.dryRun == a.dryRun
    requires gates.enabled && !gates.dryRun && !gates.needsApproval
    ensures var (a', ran, run) := RunAction(a, t, now);
            a'.id == a.id && Settled(log, [Planned(a.id, gates), Wrote(a)] + run, a', false)
  {
    hide LogOk, Permitted, Durable, RunAction, Mentioned;
    PlanWritten(log, a, gates);
    var written := log + [Planned(a.id, gates)] + [Wrote(a)];
    assert Cleared(written, a.id);
    RunRanWell(written, a, t, now);
    var (a', ran, run) := RunAction(a, t, now);
    assert log + ([Planned(a.id, gates), Wrote(a)] + run) == written + run;
  }

  lemma HandleSettled(log: Log, m: Memory, cfg: Config, p: Proposal, now: int)
    requires LogOk(log) && cfg.enabled && !Mentioned(log, p.action.id)
    ensures var (m', effects) := HandleOne(m, cfg, p, now); var x := p.action.id;
            && x in m'.actions && m'.actions[x].id == x
            && Settled(log, effects, m'.actions[x], x in m'.pending && x !in m.pending)
  {
    var a := p.action.(dryRun := cfg.dryRun, status := StPlanned);
    var gates := Gates(cfg.enabled, cfg.dryRun, NeedsApproval(cfg, p.trusted));
    PlanRefused(log, a, gates);
    if p.planWrite && !cfg.dryRun {
      if gates.needsApproval {
        PlanQueued(log, a, gates);
      } else {
        PlanRun(log, a, gates, p.attempt, now);
      }
    }
  }

  lemma HandleOneKeeps(m: Memory, log: Log, cfg: Config, p: Proposal, now: int)
    requires LogOk(log) && MemoryOk(m, log) && cfg.enabled
    requires !Mentioned(log, p.action.id) && p.action.id !in m.actions
    ensures var (m', effects) := HandleOne(m, cfg, p, now); Kept(m, log, m', effects, p.action.id)
  {
    var (m', effects) := HandleOne(m, cfg, p, now);
    assert ActionOk(m, log, p.action.id);
    HandleSettled(log, m, cfg, p, now);
    AboutMentioned(log, effects, p.action.id);
  }

  lemma HeldGrows(log: Log, more: Log, id: Id)
    requires HeldForApproval(log, id)
    ensures HeldForApproval(log + more, id)
  {
    var g: Gates :| Planned(id, g) in log && g.enabled && !g.dryRun && g.needsApproval;
    assert Planned(id, g) in log + more;
  }

  lemma ApprovedClears(log: Log, id: Id)
    requires HeldForApproval(log, id)
    ensures Cleared(log + [Approved(id)], id)
  {
    var g: Gates :| Planned(id, g) in log && g.enabled && !g.dryRun && g.needsApproval;
    assert Planned(id, g) in log + [Approved(id)] && Approved(id) in log + [Approved(id)];
  }

  lemma ApprovalRefused(log: Log, a: Action)
    requires LogOk(log) && Awaiting(log, a)
    ensures Settled(log, [Approved(a.id), WriteFailed(a.id)], a, true)
  {
    var approved, effects := log + [Approved(a.id)], [Approved(a.id), WriteFailed(a.id)];
    Extend(log, Approved(a.id));
    Extend(approved, WriteFailed(a.id));
    assert log + effects == approved + [WriteFailed(a.id)];
    HeldGrows(log, effects, a.id);
  }

  lemma ApprovedMayRun(log: Log, a: Action)
    requires LogOk(log) && Awaiting(log, a)
    ensures MayRun(log + [Approved(a.id)], a)
  {
    Extend(log, Approved(a.id));
    ApprovedClears(log, a.id);
  }

  lemma ApproveSettled(log: Log, a: Action, t: Attempt, now: int)
    requires LogOk(log) && Awaiting(log, a) && t.intent
    ensures var (a', ran, run) := RunAction(a, t, now);
            ran && a'.id == a.id && Settled(log, [Approved(a.id)] + run, a', false)
  {
    ApprovedMayRun(log, a);
    hide LogOk, Permitted, Durable, MayRun;
    var approved := log + [Approved(a.id)];
    RunRanWell(approved, a, t, now);
    var (a', ran, run) := RunAction(a, t, now);
    assert log + ([Approved(a.id)] + run) == approved + run;
  }

  lemma ApproveKeeps(m: Memory, log: Log, id: Id, t: Attempt, now: int)
    requires LogOk(log) && MemoryOk(m, log) && id in m.pending
    ensures var (m', effects) := Approve(m, id, t, now); Kept(m, log, m', effects, id)
  {
    assert ActionOk(m, log, id);
    var a := m.actions[id];
    if t.intent {
      ApproveSettled(log, a, t, now);
    } else {
      ApprovalRefused(log, a);
      assert a.(status := StPending) == a;
      assert [Approved(id)] + [WriteFailed(id)] == [Approved(id), WriteFailed(id)];
    }
    AboutMentioned(log, Approve(m, id, t, now).1, id);
  }

  lemma RejectSettled(log: Log, a: Action)
    requires LogOk(log) && Awaiting(log, a)
    ensures Settled(log, [Wrote(a.(status := StRejected))], a.(status := StRejected), false)
    ensures Settled(log, [WriteFailed(a.id)], a, true)
  {
    Extend(log, Wrote(a.(status := StRejected)));
    Extend(log, WriteFailed(a.id));
    HeldGrows(log, [WriteFailed(a.id)], a.id);
  }

  lemma RejectKeeps(m: Memory, log: Log, id: Id, ok: bool)
    requires LogOk(log) && MemoryOk(m, log) && id in m.pending
    ensures var (m', effects) := Reject(m, id, ok); Kept(m, log, m', effects, id)
  {
    assert ActionOk(m, log, id);
    var a := m.actions[id];
    assert a.(status := StPending) == a;
    RejectSettled(log, a);
    AboutMentioned(log, Reject(m, id, ok).1, id);
  }

  // --------------------------------------------------------------------- rollback

  /** A log in which `id` is being rolled back, its rules as `_expire_nftables` will find them. */
  ghost predicate RollingBack(log: Log, id: Id) {
    && LogOk(log) && Ran(id) in log && id in Durable(log) && Durable(log)[id].status == StExpiring
  }

  lemma ChainRolledBack(log: Log, id: Id, chain: Chain, r: Rollback)
    requires RollingBack(log, id)
    ensures var (ok, drops) := ExpireChain(Rules(log), id, chain, r);
            && RollingBack(log + drops, id) && Durable(log + drops) == Durable(log) && AllAbout(drops, id)
            && (ok ==> (id, chain) !in Rules(log + drops))
            && (forall c :: c != chain ==> ((id, c) in Rules(log + drops) <==> (id, c) in Rules(log)))
  {
    var (ok, drops) := ExpireChain(Rules(log), id, chain, r);
    if drops == [] {
      assert log + drops == log;
    } else {
      OneRulePerChain(log, id, chain);
      Extend(log, DropRule(id, chain));
    }
  }

  /** Both chains in turn. */
  lemma ChainsRolledBack(log: Log, id: Id, r: Rollback)
    requires RollingBack(log, id) && ExpireChain(Rules(log), id, Output, r).0
    ensures var e1 := ExpireChain(Rules(log), id, Output, r).1;
            var (ok, e2) := ExpireChain(Rules(log), id, Input, r);
            && RollingBack(log + e1 + e2, id) && Durable(log + e1 + e2) == Durable(log) && AllAbout(e1 + e2, id)
            && (ok ==> (id, Output) !in Rules(log + e1 + e2) && (id, Input) !in Rules(log + e1 + e2))
  {
    ChainRolledBack(log, id, Output, r);
    var e1 := ExpireChain(Rules(log), id, Output, r).1;
    assert (id, Input) in Rules(log) <==> (id, Input) in Rules(log + e1);
    assert ExpireChain(Rules(log + e1), id, Input, r) == ExpireChain(Rules(log), id, Input, r);
    ChainRolledBack(log + e1, id, Input, r);
    var (ok, e2) := ExpireChain(Rules(log), id, Input, r);
    assert (id, Output) in Rules(log + e1 + e2) <==> (id, Output) in Rules(log + e1);
  }

  /** `expire`: what it deletes is permitted, and success leaves none of the action's rules. */
  lemma RolledBack(log: Log, a: Action, r: Rollback)
    requires RollingBack(log, a.id)
    ensures var (ok, drops) := Expire(Rules(log), a, r);
            && RollingBack(log + drops, a.id) && Durable(log + drops) == Durable(log) && AllAbout(drops, a.id)
            && (ok && a.responder == FIREWALL ==> forall chain :: (a.id, chain) !in Rules(log + drops))
  {
    hide LogOk, Durable, Rules, ExpireChain;
    assert log + [] == log;
    if a.responder == FIREWALL {
      ChainRolledBack(log, a.id, Output, r);
      var (ok1, e1) := ExpireChain(Rules(log), a.id, Output, r);
      if ok1 {
        ChainsRolledBack(log, a.id, r);
        var (ok2, e2) := ExpireChain(Rules(log), a.id, Input, r);
        assert log + (e1 + e2) == log + e1 + e2;
        forall chain | ok2 ensures (a.id, chain) !in Rules(log + (e1 + e2)) {
          match chain
          case Output =>
          case Input =>
        }
      }
    }
  }

  lemma RollbackEnds(log: Log, a: Action, ok: bool, final: bool, now: int)
    requires RollingBack(log, a.id) && Durable(log)[a.id].responder == a.responder
    requires ok && a.responder == FIREWALL ==> forall chain :: (a.id, chain) !in Rules(log)
    ensures var a' := a.(status := if ok then StExpired else StExpirationFailed, expiredAt := Some(now));
            var done := log + [SaveEffect(a', final)];
            LogOk(done) && (MayExpire(a'.status) ==> RolledBackLater(done, a'))
  {
    var a' := a.(status := if ok then StExpired else StExpirationFailed, expiredAt := Some(now));
    var save := SaveEffect(a', final);
    Extend(log, save);
    assert Ran(a.id) in log + [save];
  }

  lemma RollbackStarts(log: Log, a: Action)
    requires LogOk(log) && RolledBackLater(log, a)
    ensures var a1 := a.(status := StExpiring); var expiring := log + [Wrote(a1)];
            && RollingBack(expiring, a.id) && Durable(expiring)[a.id].responder == a.responder
            && Rules(expiring) == Rules(log)
  {
    Extend(log, Wrote(a.(status := StExpiring)));
    assert Ran(a.id) in log + [Wrote(a.(status := StExpiring))];
  }

  lemma ReconcileSettled(log: Log, a: Action, r: Rollback, now: int)
    requires LogOk(log) && RolledBackLater(log, a) && r.intent
    ensures var a1 := a.(status := StExpiring);
            var (ok, drops) := Expire(Rules(log), a1, r);
            var a' := a1.(status := if ok then StExpired else StExpirationFailed, expiredAt := Some(now));
            Settled(log, [Wrote(a1)] + drops + [SaveEffect(a', r.final)], a', false)
  {
    hide LogOk, Permitted, Expire, Durable, Rules;
    var a1 := a.(status := StExpiring);
    var expiring := log + [Wrote(a1)];
    RollbackStarts(log, a);
    RolledBack(expiring, a1, r);
    var (ok, drops) := Expire(Rules(log), a1, r);
    RollbackEnds(expiring + drops, a1, ok, r.final, now);
    var a' := a1.(status := if ok then StExpired else StExpirationFailed, expiredAt := Some(now));
    var save := SaveEffect(a', r.final);
    assert log + ([Wrote(a1)] + drops + [save]) == expiring + drops + [save];
  }

  lemma ReconcileRefused(log: Log, a: Action)
    requires LogOk(log) && RolledBackLater(log, a)
    ensures Settled(log, [WriteFailed(a.id)], a, false)
  {
    Extend(log, WriteFailed(a.id));
    assert Ran(a.id) in log + [WriteFailed(a.id)];
  }

  lemma ReconcileOneKeeps(m: Memory, log: Log, id: Id, r: Rollback, now: int)
    requires LogOk(log) && MemoryOk(m, log) && id in m.actions && MayExpire(m.actions[id].status)
    ensures var (m', effects) := ReconcileOne(m, Rules(log), id, r, now);
            Kept(m, log, m', effects, id) && m'.pending == m.pending && m'.responders == m.responders
  {
    assert ActionOk(m, log, id);
    if r.intent {
      ReconcileSettled(log, m.actions[id], r, now);
    } else {
      ReconcileRefused(log, m.actions[id]);
    }
    AboutMentioned(log, ReconcileOne(m, Rules(log), id, r, now).1, id);
  }

  lemma ReconcileNone(m: Memory, log: Log, rs: Id -> Rollback, now: int)
    ensures ReconcileAll(m, log, [], rs, now) == (m, [])
  {
  }

  lemma ReconcileSnoc(m: Memory, log: Log, front: seq<Id>, last: Id, rs: Id -> Rollback, now: int)
    requires last in m.actions && forall id :: id in front ==> id in m.actions
    ensures var (m1, e1) := ReconcileAll(m, log, front, rs, now);
            var (m2, e2) := ReconcileOne(m1, Rules(log + e1), last, rs(last), now);
            ReconcileAll(m, log, front + [last], rs, now) == (m2, e1 + e2)
  {
    var due := front + [last];
    assert due[..|due| - 1] == front;
  }

  lemma {:induction false} ReconcileAllKeeps(m: Memory, log: Log, due: seq<Id>, rs: Id -> Rollback, now: int)
    requires LogOk(log) && MemoryOk(m, log)
    requires Distinct(due)
    requires forall id :: id in due ==> id in m.actions && MayExpire(m.actions[id].status)
    ensures var (m', effects) := ReconcileAll(m, log, due, rs, now);
            && LogOk(log + effects) && MemoryOk(m', log + effects)
            && (forall id :: id in m.actions && id !in due ==> m'.actions[id] == m.actions[id])
    decreases |due|
  {
    hide LogOk, MemoryOk, ReconcileOne, ReconcileAll, Rules, Durable;
    if due == [] {
      ReconcileNone(m, log, rs, now);
      assert log + [] == log;
    } else {
      var front, last := due[..|due| - 1], due[|due| - 1];
      assert due == front + [last] && last !in front;
      ReconcileAllKeeps(m, log, front, rs, now);
      ReconcileSnoc(m, log, front, last, rs, now);
      var (m1, e1) := ReconcileAll(m, log, front, rs, now);
      var (m2, e2) := ReconcileOne(m1, Rules(log + e1), last, rs(last), now);
      ReconcileStep(m1, log + e1, last, rs(last), now);
      assert log + (e1 + e2) == log + e1 + e2;
    }
  }

  lemma ReconcileStep(m: Memory, log: Log, id: Id, r: Rollback, now: int)
    requires LogOk(log) && MemoryOk(m, log) && id in m.actions && MayExpire(m.actions[id].status)
    ensures var (m', effects) := ReconcileOne(m, Rules(log), id, r, now);
            && LogOk(log + effects) && MemoryOk(m', log + effects)
            && forall x :: x in m.actions && x != id ==> x in m'.actions && m'.actions[x] == m.actions[x]
  {
    ReconcileOneKeeps(m, log, id, r, now);
    var (m', effects) := ReconcileOne(m, Rules(log), id, r, now);
    KeptMemory(m, log, m', effects, id);
  }

  lemma {:induction false} DueDistinct(m: Memory, ids: seq<Id>, now: int)
    requires Distinct(ids)
    ensures Distinct(DueIds(m, ids, now))
  {
    if ids != [] {
      DueDistinct(m, ids[1..], now);
      assert ids[0] !in ids[1..];
      var rest := DueIds(m, ids[1..], now);
      assert ids[0] !in rest;
      assert forall i :: 0 <= i < |rest| ==> rest[i] in rest;
    }
  }

  lemma ReconcileKeeps(m: Memory, log: Log, rs: Id -> Rollback, now: int)
    requires LogOk(log) && MemoryOk(m, log)
    ensures var (m', effects) := Reconcile(m, log, rs, now); LogOk(log + effects) && MemoryOk(m', log + effects)
  {
    DueDistinct(m, m.recent, now);
    ReconcileAllKeeps(m, log, DueIds(m, m.recent, now), rs, now);
  }

  // ------------------------------------------------------------ handling, loading

  lemma HandleStep(m: Memory, log: Log, cfg: Config, p: Proposal, now: int)
    requires LogOk(log) && MemoryOk(m, log) && cfg.enabled
    requires !Mentioned(log, p.action.id) && p.action.id !in m.actions
    ensures var (m', effects) := HandleOne(m, cfg, p, now);
            && LogOk(log + effects) && MemoryOk(m', log + effects) && m'.recent == m.recent
            && m'.actions.Keys == m.actions.Keys + {p.action.id}
            && forall id :: id != p.action.id && !Mentioned(log, id) ==> !Mentioned(log + effects, id)
  {
    HandleOneKeeps(m, log, cfg, p, now);
    var (m', effects) := HandleOne(m, cfg, p, now);
    KeptMemory(m, log, m', effects, p.action.id);
    forall id | id != p.action.id && !Mentioned(log, id) ensures !Mentioned(log + effects, id) {
      Frame(log, effects, p.action.id, id);
    }
  }

  lemma HandleNone(m: Memory, cfg: Config, now: int)
    ensures HandleAll(m, cfg, [], now) == (m, [])
  {
  }

  lemma HandleSnoc(m: Memory, cfg: Config, front: seq<Proposal>, last: Proposal, now: int)
    ensures var (m1, e1) := HandleAll(m, cfg, front, now);
            var (m2, e2) := HandleOne(m1, cfg, last, now);
            HandleAll(m, cfg, front + [last], now) == (m2, e1 + e2)
  {
    var ps := front + [last];
    assert ps[..|ps| - 1] == front;
  }

  ghost predicate Fresh(m: Memory, log: Log, ps: seq<Proposal>) {
    Distinct(Ids(ps)) && forall p :: p in ps ==> !Mentioned(log, p.action.id) && p.action.id !in m.actions
  }

  lemma FreshSnoc(m: Memory, log: Log, front: seq<Proposal>, last: Proposal)
    requires Fresh(m, log, front + [last])
    ensures Fresh(m, log, front) && last.action.id !in Ids(front)
    ensures !Mentioned(log, last.action.id) && last.action.id !in m.actions
    ensures Ids(front + [last]) == Ids(front) + [last.action.id]
  {
    var ids := Ids(front + [last]);
    assert ids == Ids(front) + [last.action.id];
    assert last in front + [last];
    assert forall i :: 0 <= i < |front| ==> ids[i] == Ids(front)[i];
    assert ids[|front|] == last.action.id;
    assert forall p :: p in front ==> p in front + [last];
  }

  lemma {:induction false} HandleAllKeeps(m: Memory, log: Log, cfg: Config, ps: seq<Proposal>, now: int)
    requires LogOk(log) && MemoryOk(m, log) && cfg.enabled && Fresh(m, log, ps)
    ensures var (m', effects) := HandleAll(m, cfg, ps, now);
            && LogOk(log + effects) && MemoryOk(m', log + effects) && m'.recent == m.recent
            && (forall id :: id in m'.actions <==> id in m.actions || id in Ids(ps))
            && (forall id :: id !in Ids(ps) && !Mentioned(log, id) ==> !Mentioned(log + effects, id))
    decreases |ps|
  {
    hide LogOk, MemoryOk, HandleOne, HandleAll, Mentioned;
    if ps == [] {
      HandleNone(m, cfg, now);
      assert log + [] == log;
    } else {
      var front, last := ps[..|ps| - 1], ps[|ps| - 1];
      assert ps == front + [last];
      FreshSnoc(m, log, front, last);
      HandleAllKeeps(m, log, cfg, front, now);
      HandleSnoc(m, cfg, front, last, now);
      var (m1, e1) := HandleAll(m, cfg, front, now);
      HandleStep(m1, log + e1, cfg, last, now);
      var (m2, e2) := HandleOne(m1, cfg, last, now);
      assert log + (e1 + e2) == log + e1 + e2;
    }
  }

  lemma RecentDistinct(recent: seq<Id>, ids: seq<Id>)
    requires Distinct(recent)
    requires Distinct(ids)
    requires forall id :: id in ids ==> id !in recent
    ensures var r := Newest(recent + ids);
            && |r| <= MAX_RECENT && Distinct(r)
            && forall id :: id in r ==> id in recent || id in ids
  {
    var all := recent + ids;
    forall i, j | 0 <= i < j < |all| ensures all[i] != all[j] {
      if i < |recent| <= j {
        assert all[j] in ids && all[i] in recent;
      }
    }
  }

  lemma HandleKeeps(m: Memory, log: Log, cfg: Config, ps: seq<Proposal>, now: int)
    requires LogOk(log) && MemoryOk(m, log)
    requires Fresh(m, log, ps)
    ensures var (m', effects) := Handle(m, cfg, ps, now); LogOk(log + effects) && MemoryOk(m', log + effects)
  {
    if cfg.enabled {
      HandleAllKeeps(m, log, cfg, ps, now);
      forall id | id in Ids(ps) ensures id !in m.recent {
        var i :| 0 <= i < |ps| && ps[i].action.id == id;
        assert ps[i] in ps;
      }
      RecentDistinct(m.recent, Ids(ps));
      var (m1, e1) := HandleAll(m, cfg, ps, now);
      forall id ensures ActionOk(m1.(recent := Newest(m.recent + Ids(ps))), log + e1, id) {
        assert ActionOk(m1, log + e1, id);
      }
    } else {
      assert log + [] == log;
    }
  }

  /** A durable PENDING row was planned for approval, enabled and armed. */
  lemma {:induction false} PendingRow(log: Log, id: Id)
    requires LogOk(log) && id in Durable(log) && Durable(log)[id].status == StPending
    ensures !Durable(log)[id].dryRun && HeldForApproval(log, id)
    decreases |log|
  {
    var before, e := log[..|log| - 1], log[|log| - 1];
    assert log == before + [e];
    if e.Wrote? && e.action.id == id {
      HeldGrows(before, [e], id);
    } else {
      PendingRow(before, id);
      HeldGrows(before, [e], id);
    }
  }

  /** A restart after any permitted log finds a consistent memory. */
  lemma LoadKeeps(log: Log, ids: seq<Id>)
    requires LogOk(log) && Distinct(ids)
    requires forall id :: id in ids ==> id in Durable(log)
    ensures MemoryOk(Load(Durable(log), ids), log)
  {
    var m := Load(Durable(log), ids);
    forall id ensures ActionOk(m, log, id) {
      RowsAndRuns(log, id);
      if id in m.unbound {
        PendingRow(log, id);
      }
    }
  }

  lemma BindKeeps(m: Memory, log: Log, name: string)
    requires MemoryOk(m, log)
    ensures MemoryOk(Bind(m, name), log)
  {
    forall id ensures ActionOk(Bind(m, name), log, id) {
      assert ActionOk(m, log, id);
    }
  }

  // ------------------------------------------------------------------------- runs

  ghost predicate SystemOk(s: System) {
    LogOk(s.log) && MemoryOk(s.memory, s.log)
  }

  lemma PerformKeeps(s: System, op: Op)
    requires SystemOk(s) && OpOk(s, op)
    ensures var (m, effects) := Perform(s, op); LogOk(s.log + effects) && MemoryOk(m, s.log + effects)
  {
    assert s.log + [] == s.log;
    match op
    case OpHandle(ps, now) => HandleKeeps(s.memory, s.log, s.cfg, ps, now);
    case OpApprove(id, t, now) =>
      if id in s.memory.pending {
        ApproveKeeps(s.memory, s.log, id, t, now);
        var (m, effects) := Approve(s.memory, id, t, now);
        assert ActionOk(s.memory, s.log, id);
        KeptMemory(s.memory, s.log, m, effects, id);
      }
    case OpReject(id, ok) =>
      if id in s.memory.pending {
        RejectKeeps(s.memory, s.log, id, ok);
        var (m, effects) := Reject(s.memory, id, ok);
        assert ActionOk(s.memory, s.log, id);
        KeptMemory(s.memory, s.log, m, effects, id);
      }
    case OpReconcile(rs, now) => ReconcileKeeps(s.memory, s.log, rs, now);
    case OpAddResponder(name, rs, now) =>
      BindKeeps(s.memory, s.log, name);
      ReconcileKeeps(Bind(s.memory, name), s.log, rs, now);
  }

  lemma StepKeeps(s: System, step: Step)
    requires SystemOk(s) && StepOk(s, step)
    ensures SystemOk(Take(s, step))
  {
    hide LogOk, MemoryOk, Perform, OpOk, Load;
    match step
    case Do(op) => PerformKeeps(s, op);
    case Configure(_) =>
    case Crash(op, cut, ids) =>
      PerformKeeps(s, op);
      var effects := Perform(s, op).1;
      PrefixOk(s.log + effects, |s.log| + cut);
      assert (s.log + effects)[..|s.log| + cut] == s.log + effects[..cut];
      LoadKeeps(s.log + effects[..cut], ids);
  }

  /** Every run, with any failures, crashes and restarts, leaves a permitted log. */
  lemma {:induction false} RunKeeps(steps: seq<Step>, cfg: Config)
    requires RunOk(steps, cfg)
    ensures SystemOk(Run(steps, cfg))
    decreases |steps|
  {
    if steps == [] {
      forall id ensures ActionOk(EMPTY_MEMORY, [], id) {}
    } else {
      RunKeeps(steps[..|steps| - 1], cfg);
      StepKeeps(Run(steps[..|steps| - 1], cfg), steps[|steps| - 1]);
    }
  }

  /** Crash-safe at-most-once, for every run: an execution is the only one of its action,
      happens over a durable EXECUTING row, never after a durable rejection, and only if the
      action was planned enabled and armed and, where needed, approved. */
  lemma ExecutesAtMostOnce(steps: seq<Step>, cfg: Config, id: Id, k: nat)
    requires RunOk(steps, cfg) && k < |Run(steps, cfg).log| && Run(steps, cfg).log[k] == Ran(id)
    ensures var log := Run(steps, cfg).log;
            && Ran(id) !in log[..k] && (forall j :: k < j < |log| ==> log[j] != Ran(id))
            && id in Durable(log[..k]) && Durable(log[..k])[id].status == StExecuting
            && (forall j :: 0 <= j <= k && id in Durable(log[..j]) ==> Durable(log[..j])[id].status != StRejected)
            && Cleared(log[..k], id)
  {
    RunKeeps(steps, cfg);
    AtMostOnce(Run(steps, cfg).log, id, k);
  }

  /** Exact nftables rollback, for every run: an EXPIRED row means no rule of the action is left. */
  lemma ExpiredLeavesNoRule(steps: seq<Step>, cfg: Config, id: Id, chain: Chain)
    requires RunOk(steps, cfg)
    requires var rows := Durable(Run(steps, cfg).log);
             id in rows && rows[id].status == StExpired && rows[id].responder == FIREWALL
    ensures (id, chain) !in Rules(Run(steps, cfg).log)
  {
    RunKeeps(steps, cfg);
    ExpiredMeansGone(Run(steps, cfg).log, id, chain);
  }

  // ------------------------------------------------------------ completeness of expiry

  /** A rollback whose intent is written and whose listings and deletes work. */
  ghost predicate Succeeds(r: Rollback) {
    r.intent && forall chain :: r.listed(chain) && r.deleted(chain)
  }

  /** Expiring an action once more after a success deletes nothing and succeeds, as long as the
      chains can be listed. */
  lemma ExpireIsIdempotent(log: Log, a: Action, r: Rollback, again: Rollback)
    requires RollingBack(log, a.id) && a.responder == FIREWALL && Expire(Rules(log), a, r).0
    requires forall chain :: again.listed(chain)
    ensures Expire(Rules(log + Expire(Rules(log), a, r).1), a, again) == (true, [])
  {
    RolledBack(log, a, r);
    var rules := Rules(log + Expire(Rules(log), a, r).1);
    hide Rules, RollingBack;
    assert again.listed(Output) && again.listed(Input);
    assert ExpireChain(rules, a.id, Output, again) == (true, []);
    assert ExpireChain(rules, a.id, Input, again) == (true, []);
    var none: Log := [];
    assert none + none == none;
  }

  lemma RulesAfterExpire(log: Log, a: Action, r: Rollback)
    requires RollingBack(log, a.id) && a.responder == FIREWALL && Succeeds(r)
    ensures var (ok, drops) := Expire(Rules(log), a, r);
            ok && forall id, chain :: (id, chain) in Rules(log + drops) <==> (id, chain) in Rules(log) && id != a.id
  {
    RolledBack(log, a, r);
    assert r.listed(Output) && r.listed(Input) && r.deleted(Output) && r.deleted(Input);
    var (ok, drops) := Expire(Rules(log), a, r);
    forall id, chain | id != a.id ensures (id, chain) in Rules(log + drops) <==> (id, chain) in Rules(log) {
      OtherRulesStay(log, drops, a.id, id, chain);
    }
  }

  lemma RuleSnoc(log: Log, e: Effect, id: Id, chain: Chain)
    requires Subject(e) != id
    ensures (id, chain) in Rules(log + [e]) <==> (id, chain) in Rules(log)
  {
    assert (log + [e])[..|log|] == log;
  }

  lemma {:induction false} OtherRulesStay(log: Log, effects: Log, x: Id, id: Id, chain: Chain)
    requires AllAbout(effects, x) && id != x
    ensures (id, chain) in Rules(log + effects) <==> (id, chain) in Rules(log)
    decreases |effects|
  {
    hide Rules;
    if effects == [] {
      assert log + effects == log;
    } else {
      var front, last := effects[..|effects| - 1], effects[|effects| - 1];
      OtherRulesStay(log, front, x, id, chain);
      RuleSnoc(log + front, last, id, chain);
      assert log + effects == log + front + [last];
    }
  }

  /** The log after one complete rollback, taken apart. */
  lemma ReconcileLog(m: Memory, log: Log, id: Id, r: Rollback, now: int)
    requires id in m.actions && m.actions[id].id == id && r.intent
    ensures var a1 := m.actions[id].(status := StExpiring);
            var (ok, drops) := Expire(Rules(log), a1, r);
            var a' := a1.(status := if ok then StExpired else StExpirationFailed, expiredAt := Some(now));
            log + ReconcileOne(m, Rules(log), id, r, now).1 == log + [Wrote(a1)] + drops + [SaveEffect(a', r.final)]
  {
  }

  /** An action of another responder: its rollback touches no rule. */
  lemma OtherResponder(m: Memory, log: Log, id: Id, r: Rollback, now: int)
    requires id in m.actions && m.actions[id].id == id && m.actions[id].responder != FIREWALL
    ensures Rules(log + ReconcileOne(m, Rules(log), id, r, now).1) == Rules(log)
  {
    hide Rules;
    var a1 := m.actions[id].(status := StExpiring);
    if r.intent {
      ReconcileLog(m, log, id, r, now);
      assert Expire(Rules(log), a1, r) == (r.otherSuccess, []);
      var a' := a1.(status := if r.otherSuccess then StExpired else StExpirationFailed, expiredAt := Some(now));
      SaveKeepsRules(log, Wrote(a1));
      SaveKeepsRules(log + [Wrote(a1)], SaveEffect(a', r.final));
      assert log + [Wrote(a1)] + [] == log + [Wrote(a1)];
    } else {
      SaveKeepsRules(log, WriteFailed(id));
    }
  }

  lemma RulesAfterReconcile(m: Memory, log: Log, id: Id, r: Rollback, now: int)
    requires LogOk(log) && MemoryOk(m, log) && id in m.actions && MayExpire(m.actions[id].status)
    requires m.actions[id].responder == FIREWALL && Succeeds(r)
    ensures var effects := ReconcileOne(m, Rules(log), id, r, now).1;
            forall x, chain :: (x, chain) in Rules(log + effects) <==> (x, chain) in Rules(log) && x != id
  {
    assert ActionOk(m, log, id);
    hide LogOk, Permitted, Durable, Rules, Expire, MemoryOk, ActionOk, ReconcileOne, RolledBackLater;
    ReconcileLog(m, log, id, r, now);
    var a1 := m.actions[id].(status := StExpiring);
    var expiring := log + [Wrote(a1)];
    RollbackStarts(log, m.actions[id]);
    RulesAfterExpire(expiring, a1, r);
    var (ok, drops) := Expire(Rules(log), a1, r);
    var a' := a1.(status := if ok then StExpired else StExpirationFailed, expiredAt := Some(now));
    SaveKeepsRules(expiring + drops, SaveEffect(a', r.final));
  }

  lemma SaveKeepsRules(log: Log, save: Effect)
    requires save.Wrote? || save.WriteFailed?
    ensures Rules(log + [save]) == Rules(log)
  {
    assert (log + [save])[..|log|] == log;
  }

  lemma {:induction false} RulesAfterAll(m: Memory, log: Log, due: seq<Id>, rs: Id -> Rollback, now: int, id: Id,
      chain: Chain)
    requires LogOk(log) && MemoryOk(m, log) && Distinct(due)
    requires forall x :: x in due ==> x in m.actions && MayExpire(m.actions[x].status)
    requires forall x :: Succeeds(rs(x))
    ensures (id, chain) in Rules(log + ReconcileAll(m, log, due, rs, now).1)
            <==> (id, chain) in Rules(log) && !(id in due && m.actions[id].responder == FIREWALL)
    decreases |due|
  {
    hide LogOk, MemoryOk, ReconcileOne, ReconcileAll, Rules, Durable, Succeeds;
    if due == [] {
      ReconcileNone(m, log, rs, now);
      assert log + [] == log;
    } else {
      var front, last := due[..|due| - 1], due[|due| - 1];
      assert due == front + [last] && last !in front;
      RulesAfterAll(m, log, front, rs, now, id, chain);
      ReconcileAllKeeps(m, log, front, rs, now);
      ReconcileSnoc(m, log, front, last, rs, now);
      var (m1, e1) := ReconcileAll(m, log, front, rs, now);
      if m1.actions[last].responder == FIREWALL {
        RulesAfterReconcile(m1, log + e1, last, rs(last), now);
      } else {
        KeyedById(m1, log + e1, last);
        OtherResponder(m1, log + e1, last, rs(last), now);
      }
      var (m2, e2) := ReconcileOne(m1, Rules(log + e1), last, rs(last), now);
      assert log + (e1 + e2) == log + e1 + e2;
    }
  }

  lemma KeyedById(m: Memory, log: Log, id: Id)
    requires MemoryOk(m, log) && id in m.actions
    ensures m.actions[id].id == id
  {
    assert ActionOk(m, log, id);
  }

  /** When its writes and commands work, one reconciliation removes the rules of exactly the firewall
      actions that are due: an action that is not in the recent list, was not executed with success,
      has no duration or is not yet over keeps its rules. */
  lemma RollbackIsCompleteIffDue(m: Memory, log: Log, rs: Id -> Rollback, now: int, id: Id, chain: Chain)
    requires LogOk(log) && MemoryOk(m, log) && forall x :: Succeeds(rs(x))
    ensures (id, chain) in Rules(log + Reconcile(m, log, rs, now).1)
            <==> (id, chain) in Rules(log)
                 && !(id in m.recent && id in m.actions && Due(m.actions[id], m.responders, now)
                      && m.actions[id].responder == FIREWALL)
  {
    DueDistinct(m, m.recent, now);
    RulesAfterAll(m, log, DueIds(m, m.recent, now), rs, now, id, chain);
  }

  /** A durable FAILED row is final: whatever happens later, a rule that a half-finished
      execution left behind is never rolled back. */
  lemma {:induction false} FailedRulesStay(log: Log, k: nat, id: Id, chain: Chain)
    requires LogOk(log) && k <= |log|
    requires id in Durable(log[..k]) && Durable(log[..k])[id].status == StFailed && (id, chain) in Rules(log[..k])
    ensures id in Durable(log) && Durable(log)[id].status == StFailed && (id, chain) in Rules(log)
    decreases |log|
  {
    if k < |log| {
      var before, e := log[..|log| - 1], log[|log| - 1];
      assert before[..k] == log[..k];
      FailedRulesStay(before, k, id, chain);
      assert e != DropRule(id, chain);
      assert Rules(log)[(id, chain)] >= Rules(before)[(id, chain)];
    } else {
      assert log[..k] == log;
    }
  }

  /** And such a row does arise: the first command succeeds, the second fails. */
  lemma HalfExecutionLeavesRule(now: int)
    ensures exists steps: seq<Step>, cfg: Config :: RunOk(steps, cfg) &&
              0 in Durable(Run(steps, cfg).log) && Durable(Run(steps, cfg).log)[0].status == StFailed
              && (0, Output) in Rules(Run(steps, cfg).log)
  {
    var cfg := Config(true, false, false);
    var a := Action(0, FIREWALL, "198.51.100.7", 3600, StPlanned, false, false, false, None, None);
    var p := Proposal(a, false, true, true, Attempt(true, 1, false, true));
    var step := Do(OpHandle([p], now));
    var s := System(EMPTY_MEMORY, [], cfg);
    assert [step][..0] == [];
    assert Run([], cfg) == s;
    assert Ids([p]) == [0];
    assert StepOk(s, step);
    assert RunOk([step], cfg);
    HandleNone(EMPTY_MEMORY, cfg, now);
    HandleSnoc(EMPTY_MEMORY, cfg, [], p, now);
    assert [] + [p] == [p];
    var (m1, effects) := HandleOne(EMPTY_MEMORY, cfg, p, now);
    var run := RunAction(a, p.attempt, now).2;
    var a1, a2 := a.(status := StExecuting), AfterRun(a.(status := StExecuting), false, now);
    assert run == [Wrote(a1), Ran(0), AddRule(0, Output), Wrote(a2)];
    var l1: Log := [Planned(0, Gates(true, false, false))];
    var l2, l3 := l1 + [Wrote(a)], l1 + [Wrote(a)] + [Wrote(a1)];
    var l4 := l3 + [Ran(0)];
    var l5 := l4 + [AddRule(0, Output)];
    var log := l5 + [Wrote(a2)];
    assert effects == log;
    assert Run([step], cfg) == Take(s, step);
    assert Take(s, step).log == [] + ([] + effects) == log;
    EffectOn(l5, Wrote(a2));
    EffectOn(l4, AddRule(0, Output));
  }
}
