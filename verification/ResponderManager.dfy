/** The responder manager as the object it is.  Each method is proved to do what the
    operations of ResponderModel say, so the run theorems of ResponderSafety apply to it. */
module ResponderManager {
  import opened Basics
  import opened Ledger
  import opened OrderedDict
  import opened ResponderModel
  import opened ResponderSafety

  class Manager {
    var cfg: Config
    var responders: seq<string>
    /** The action objects; the recent list and the pending table share them by id. */
    var actions: map<Id, Action>
    var recent: seq<Id>
    var pending: map<Id, string>
    var unbound: set<Id>
    /** The database table and the firewall, which outlive the process. */
    var db: map<Id, Action>
    var rules: multiset<(Id, Chain)>
    ghost var log: Log

    ghost function View(): Memory
      reads this
    {
      Memory(actions, recent, pending, unbound, responders)
    }

    /** The database and the firewall are what the effects so far add up to. */
    ghost predicate Mirrors()
      reads this`db, this`rules, this`log
    {
      db == Durable(log) && rules == Rules(log)
    }

    ghost predicate Valid()
      reads this
    {
      Mirrors() && SystemOk(System(View(), log, cfg))
    }

    /** Start or restart over whatever an earlier process left; `ids` are the rows read back. */
    constructor (cfg: Config, ghost log: Log, db: map<Id, Action>, rules: multiset<(Id, Chain)>, ids: seq<Id>)
      requires LogOk(log) && db == Durable(log) && rules == Rules(log)
      requires Distinct(ids) && forall id :: id in ids ==> id in db
      ensures Valid() && View() == Load(db, ids)
      ensures this.cfg == cfg && this.log == log
    {
      this.cfg, this.log, this.db, this.rules := cfg, log, db, rules;
      responders, recent, pending := [], ids, map[];
      actions := map id | id in ids :: db[id];
      unbound := set id | id in ids && db[id].status == StPending;
      new;
      LoadKeeps(log, ids);
    }

    // ------------------------------------------------------------ the outside world

    method Note(ghost e: Effect)
      requires Mirrors() && (e.Planned? || e.Approved? || e.Ran? || e.WriteFailed?)
      modifies this`log
      ensures Mirrors() && log == old(log) + [e]
    {
      hide Durable, Rules;
      EffectOn(log, e);
      log := log + [e];
    }

    method Persist(a: Action, ok: bool) returns (saved: bool)
      requires Mirrors()
      modifies this`db, this`log
      ensures Mirrors() && saved == ok && log == old(log) + [SaveEffect(a, ok)]
    {
      hide Durable, Rules;
      EffectOn(log, SaveEffect(a, ok));
      if ok {
        db := db[a.id := a];
      }
      log := log + [SaveEffect(a, ok)];
      saved := ok;
    }

    method AddMarkedRule(id: Id, chain: Chain)
      requires Mirrors()
      modifies this`rules, this`log
      ensures Mirrors() && log == old(log) + [AddRule(id, chain)]
    {
      hide Durable, Rules;
      EffectOn(log, AddRule(id, chain));
      rules := rules + multiset{(id, chain)};
      log := log + [AddRule(id, chain)];
    }

    method DropMarkedRule(id: Id, chain: Chain)
      requires Mirrors()
      modifies this`rules, this`log
      ensures Mirrors() && log == old(log) + [DropRule(id, chain)]
    {
      hide Durable, Rules;
      EffectOn(log, DropRule(id, chain));
      rules := rules - multiset{(id, chain)};
      log := log + [DropRule(id, chain)];
    }

    /** The responder's `execute`: command by command, stopping at the first failure. */
    method Execute(a: Action, t: Attempt) returns (success: bool)
      requires Mirrors()
      modifies this`rules, this`log
      ensures Mirrors() && success == ExecuteEffects(a, t).0 && log == old(log) + ExecuteEffects(a, t).1
    {
      if a.responder != FIREWALL {
        success := t.otherSuccess;
        assert log == old(log) + [];
        return;
      }
      if t.commandsDone == 0 {
        assert log == old(log) + [];
        return false;
      }
      AddMarkedRule(a.id, Output);
      if t.commandsDone == 1 {
        return false;
      }
      AddMarkedRule(a.id, Input);
      success := true;
    }

    /** `_expire_nftables` for one chain. */
    method ExpireInChain(id: Id, chain: Chain, r: Rollback) returns (ok: bool)
      requires Mirrors()
      modifies this`rules, this`log
      ensures Mirrors() && ok == ExpireChain(old(rules), id, chain, r).0
      ensures log == old(log) + ExpireChain(old(rules), id, chain, r).1
    {
      assert log == log + [];
      if !r.listed(chain) {
        return false;
      }
      if (id, chain) !in rules {
        return true;
      }
      if !r.deleted(chain) {
        return false;
      }
      DropMarkedRule(id, chain);
      ok := true;
    }

    method ExpireAction(a: Action, r: Rollback) returns (ok: bool)
      requires Mirrors()
      modifies this`rules, this`log
      ensures Mirrors() && ok == Expire(old(rules), a, r).0 && log == old(log) + Expire(old(rules), a, r).1
    {
      if a.responder != FIREWALL {
        assert log == log + [];
        return r.otherSuccess;
      }
      ghost var before := log;
      ok := ExpireInChain(a.id, Output, r);
      if !ok {
        return;
      }
      ghost var e1 := ExpireChain(old(rules), a.id, Output, r).1;
      ChainsApart(before, a.id, r);
      ok := ExpireInChain(a.id, Input, r);
      ghost var e2 := ExpireChain(old(rules), a.id, Input, r).1;
      assert before + e1 + e2 == before + (e1 + e2);
    }

    // ----------------------------------------------------------------- operations

    /** `_run`, on the action object `id`. */
    method RunIt(id: Id, t: Attempt, now: int) returns (ran: bool)
      requires Mirrors() && id in actions && actions[id].id == id
      modifies this`actions, this`db, this`rules, this`log
      ensures Mirrors()
      ensures var (a, r, effects) := RunAction(old(actions)[id], t, now);
              ran == r && actions == old(actions)[id := a] && log == old(log) + effects
    {
      hide Durable, Rules, ExecuteEffects, AfterRun;
      ghost var before := log;
      var a := actions[id];
      var a1 := a.(status := StExecuting);
      actions := actions[id := a1];
      var saved := Persist(a1, t.intent);
      if !saved {
        actions := actions[id := a1.(status := StFailed)];
        return false;
      }
      Note(Ran(id));
      var success := Execute(a1, t);
      var a2 := AfterRun(a1, success, now);
      actions := actions[id := a2];
      var final := Persist(a2, t.final);
      ghost var commands := ExecuteEffects(a1, t).1;
      assert before + [Wrote(a1)] + [Ran(id)] + commands + [SaveEffect(a2, t.final)]
          == before + ([Wrote(a1), Ran(id)] + commands + [SaveEffect(a2, t.final)]);
      ran := true;
    }

    /** One responder's turn in `handle`. */
    method HandleTurn(p: Proposal, now: int)
      requires Mirrors()
      modifies this`actions, this`pending, this`db, this`rules, this`log
      ensures Mirrors()
      ensures var (m, effects) := HandleOne(old(View()), cfg, p, now); View() == m && log == old(log) + effects
    {
      hide Durable, Rules, RunAction;
      ghost var before := log;
      var a := p.action.(dryRun := cfg.dryRun, status := StPlanned);
      ghost var gates := Gates(cfg.enabled, cfg.dryRun, NeedsApproval(cfg, p.trusted));
      actions := actions[a.id := a];
      Note(Planned(a.id, gates));
      var saved := Persist(a, p.planWrite);
      assert log == before + [Planned(a.id, gates), SaveEffect(a, p.planWrite)];
      if !saved {
        actions := actions[a.id := a.(status := StFailed)];
        assert actions == old(actions)[a.id := a.(status := StFailed)];
      } else if !cfg.dryRun {
        ActOn(a, p, now);
        HandleActs(old(View()), cfg, p, now);
        ghost var acted := Acted(old(View()).(actions := old(actions)[a.id := a]), cfg, a, p, now);
        assert before + [Planned(a.id, gates), Wrote(a)] + acted.1
          == before + ([Planned(a.id, gates), Wrote(a)] + acted.1);
      }
    }

    /** Queues a recorded plan for approval or executes it. */
    method ActOn(a: Action, p: Proposal, now: int)
      requires Mirrors() && a.id in actions && actions[a.id] == a
      modifies this`actions, this`pending, this`db, this`rules, this`log
      ensures Mirrors()
      ensures var (m, effects) := Acted(old(View()), cfg, a, p, now); View() == m && log == old(log) + effects
    {
      hide Durable, Rules, RunAction;
      if NeedsApproval(cfg, p.trusted) {
        var a1 := a.(status := StPending);
        var saved := Persist(a1, p.pendingWrite);
        actions := actions[a.id := if saved then a1 else a.(status := StFailed)];
        if saved {
          pending := pending[a.id := a.responder];
        }
      } else {
        var ran := RunIt(a.id, p.attempt, now);
      }
    }

    method HandleAlert(ps: seq<Proposal>, now: int)
      requires Valid() && OpOk(System(View(), log, cfg), OpHandle(ps, now))
      modifies this`actions, this`recent, this`pending, this`db, this`rules, this`log
      ensures Valid()
      ensures var (m, effects) := Handle(old(View()), cfg, ps, now); View() == m && log == old(log) + effects
    {
      hide Durable, Rules, HandleOne, HandleAll, LogOk, MemoryOk;
      ghost var s := System(View(), log, cfg);
      HandleKeeps(s.memory, s.log, cfg, ps, now);
      assert log + [] == log;
      if !cfg.enabled {
        return;
      }
      var i := 0;
      HandleNone(s.memory, cfg, now);
      assert s.log + [] == s.log;
      while i < |ps|
        invariant 0 <= i <= |ps| && Mirrors()
        invariant View() == HandleAll(s.memory, cfg, ps[..i], now).0
        invariant log == s.log + HandleAll(s.memory, cfg, ps[..i], now).1
      {
        HandlePrefix(s, ps, i, now);
        HandleTurn(ps[i], now);
        i := i + 1;
      }
      assert ps[..|ps|] == ps;
      recent := Newest(recent + Ids(ps));
    }

    method ApproveAction(id: Id, t: Attempt, now: int)
      requires Valid()
      modifies this`actions, this`pending, this`db, this`rules, this`log
      ensures Valid()
      ensures var (m, effects) := Approve(old(View()), id, t, now); View() == m && log == old(log) + effects
    {
      hide Durable, Rules, RunAction, LogOk;
      ghost var s := System(View(), log, cfg);
      PerformKeeps(s, OpApprove(id, t, now));
      assert log + [] == log;
      if id !in pending {
        return;
      }
      assert ActionOk(s.memory, s.log, id);
      Note(Approved(id));
      var ran := RunIt(id, t, now);
      ghost var run := RunAction(s.memory.actions[id], t, now);
      assert s.log + [Approved(id)] + run.2 == s.log + ([Approved(id)] + run.2);
      if ran {
        pending := pending - {id};
      } else {
        actions := actions[id := actions[id].(status := StPending)];
        assert actions == s.memory.actions[id := run.0.(status := StPending)];
      }
    }

    method RejectAction(id: Id, ok: bool)
      requires Valid()
      modifies this`actions, this`pending, this`db, this`log
      ensures Valid()
      ensures var (m, effects) := Reject(old(View()), id, ok); View() == m && log == old(log) + effects
    {
      hide Durable, Rules, LogOk;
      ghost var s := System(View(), log, cfg);
      PerformKeeps(s, OpReject(id, ok));
      assert log + [] == log;
      if id !in pending {
        return;
      }
      assert ActionOk(s.memory, s.log, id);
      var a := actions[id].(status := StRejected);
      actions := actions[id := a];
      var saved := Persist(a, ok);
      if !saved {
        actions := actions[id := a.(status := StPending)];
        assert actions == s.memory.actions[id := a.(status := StPending)];
        return;
      }
      pending := pending - {id};
    }

    /** `for action, _ in due: action.status = EXPIRING`, before anything is written. */
    method MarkExpiring(due: seq<Id>)
      requires forall id :: id in due ==> id in actions
      modifies this`actions
      ensures actions == Marked(old(actions), due)
    {
      var i := 0;
      while i < |due|
        invariant 0 <= i <= |due| && actions == Marked(old(actions), due[..i])
      {
        assert due[..i + 1] == due[..i] + [due[i]] && due[i] in due;
        actions := actions[due[i] := actions[due[i]].(status := StExpiring)];
        i := i + 1;
      }
      assert due[..|due|] == due;
    }

    /** One due action, already marked: record the intent, roll back, record the outcome. `m` is the
        memory as if it were not marked. */
    method ReconcileTurn(id: Id, previous: Status, r: Rollback, now: int, ghost m: Memory) returns (success: bool)
      requires Mirrors() && id in actions && id in m.actions && m.actions[id].id == id
          && m.actions[id].status == previous
      requires actions[id] == m.actions[id].(status := StExpiring) && MayExpire(previous)
      modifies this`actions, this`db, this`rules, this`log
      ensures Mirrors()
      ensures var (m', effects) := ReconcileOne(m, old(rules), id, r, now);
              && id in m'.actions && actions == old(actions)[id := m'.actions[id]]
              && log == old(log) + effects && success == (m'.actions[id].status == StExpired)
    {
      hide Durable, Rules, Expire;
      ghost var before := log;
      var a := actions[id];
      var saved := Persist(a, r.intent);
      if !saved {
        actions := actions[id := a.(status := previous)];
        return false;
      }
      ghost var rules0 := rules;
      success := ExpireAction(a, r);
      var a' := a.(status := if success then StExpired else StExpirationFailed, expiredAt := Some(now));
      actions := actions[id := a'];
      var final := Persist(a', r.final);
      ghost var drops := Expire(rules0, a, r).1;
      assert before + [Wrote(a)] + drops + [SaveEffect(a', r.final)]
          == before + ([Wrote(a)] + drops + [SaveEffect(a', r.final)]);
    }

    /** `reconcile_expired`; the count is of the actions that were due and end up EXPIRED. */
    method ReconcileExpired(rs: Id -> Rollback, now: int) returns (expired: nat)
      requires Valid()
      modifies this`actions, this`db, this`rules, this`log
      ensures Valid()
      ensures var (m, effects) := Reconcile(old(View()), old(log), rs, now); View() == m && log == old(log) + effects
      ensures expired == CountExpired(actions, DueIds(old(View()), recent, now))
    {
      hide Durable, Rules, ReconcileOne, ReconcileAll, LogOk, MemoryOk, Perform, DueIds;
      ghost var s := System(View(), log, cfg);
      ReconcileKeeps(s.memory, s.log, rs, now);
      var due := DueIds(Memory(actions, recent, pending, unbound, responders), recent, now);
      var previous := map id | id in actions :: actions[id].status;
      DueMayExpire(s, due, now);
      MarkExpiring(due);
      expired := WorkThrough(due, previous, rs, now, s);
    }

    /** The loop over the marked actions. */
    method WorkThrough(due: seq<Id>, previous: map<Id, Status>, rs: Id -> Rollback, now: int, ghost s: System)
      returns (expired: nat)
      requires SystemOk(s) && due == DueIds(s.memory, s.memory.recent, now) && Mirrors() && log == s.log
      requires forall id :: id in due ==> id in s.memory.actions && MayExpire(s.memory.actions[id].status)
      requires View() == s.memory.(actions := Marked(s.memory.actions, due))
      requires previous == map id | id in s.memory.actions :: s.memory.actions[id].status
      modifies this`actions, this`db, this`rules, this`log
      ensures Mirrors()
      ensures var (m, effects) := ReconcileAll(s.memory, s.log, due, rs, now); View() == m && log == s.log + effects
      ensures expired == CountExpired(actions, due)
    {
      hide Durable, Rules, ReconcileOne, ReconcileAll, LogOk, MemoryOk, DueIds, Marked, CountExpired;
      ReconcileNone(s.memory, s.log, rs, now);
      NothingMarked(s.memory.actions, s.memory.actions);
      assert log + [] == log && due[0..] == due;
      expired := 0;
      ghost var m := s.memory;
      var i := 0;
      while i < |due|
        invariant 0 <= i <= |due| && Mirrors()
        invariant forall id :: id in due[..i] ==> id in s.memory.actions
        invariant m == ReconcileAll(s.memory, s.log, due[..i], rs, now).0
        invariant View() == m.(actions := Marked(m.actions, due[i..]))
        invariant log == s.log + ReconcileAll(s.memory, s.log, due[..i], rs, now).1
        invariant expired == CountExpired(m.actions, due[..i])
      {
        ReconcilePrefix(s, due, i, rs, now);
        NextIsMarked(s, due, i, rs, now);
        ghost var m' := ReconcileOne(m, rules, due[i], rs(due[i]), now).0;
        OneAction(m, rules, due[i], rs(due[i]), now);
        var success := ReconcileTurn(due[i], previous[due[i]], rs(due[i]), now, m);
        OneUnmarked(m, m', due, i);
        m := m';
        expired := if success then expired + 1 else expired;
        i := i + 1;
      }
      assert due[..|due|] == due && due[|due|..] == [];
      NothingMarked(m.actions, actions);
    }

    method AddResponder(name: string, rs: Id -> Rollback, now: int)
      requires Valid()
      modifies this`actions, this`pending, this`unbound, this`responders, this`db, this`rules, this`log
      ensures Valid()
      ensures var (m, effects) := Reconcile(Bind(old(View()), name), old(log), rs, now);
              View() == m && log == old(log) + effects
    {
      BindKeeps(View(), log, name);
      var bound := set id | id in unbound && id in actions && actions[id].responder == name;
      responders := responders + [name];
      unbound := unbound - bound;
      pending := pending + map id | id in bound :: name;
      assert View() == Bind(old(View()), name);
      var _ := ReconcileExpired(rs, now);
    }
  }

  /** The actions with those of a list marked as expiring. */
  function Marked(actions: map<Id, Action>, ids: seq<Id>): map<Id, Action> {
    map id | id in actions :: if id in ids then actions[id].(status := StExpiring) else actions[id]
  }

  function CountExpired(actions: map<Id, Action>, ids: seq<Id>): nat {
    if ids == [] then 0
    else
      var last := ids[|ids| - 1];
      CountExpired(actions, ids[..|ids| - 1]) + if last in actions && actions[last].status == StExpired then 1 else 0
  }

  lemma NothingMarked(actions: map<Id, Action>, same: map<Id, Action>)
    ensures Marked(actions, []) == actions
    ensures CountExpired(same, []) == 0
  {
  }

  lemma DueMayExpire(s: System, due: seq<Id>, now: int)
    requires due == DueIds(s.memory, s.memory.recent, now)
    ensures forall id :: id in due ==> id in s.memory.actions && MayExpire(s.memory.actions[id].status)
  {
  }

  /** Part way through, the next due action is marked and otherwise as it was found. */
  lemma NextIsMarked(s: System, due: seq<Id>, i: nat, rs: Id -> Rollback, now: int)
    requires SystemOk(s) && due == DueIds(s.memory, s.memory.recent, now) && i < |due|
    requires forall id :: id in due ==> id in s.memory.actions && MayExpire(s.memory.actions[id].status)
    requires forall id :: id in due[..i] ==> id in s.memory.actions
    ensures var m := ReconcileAll(s.memory, s.log, due[..i], rs, now).0;
            && Distinct(due) && due[i] in m.actions && m.actions[due[i]] == s.memory.actions[due[i]]
            && due[i] in Marked(m.actions, due[i..])
            && Marked(m.actions, due[i..])[due[i]] == m.actions[due[i]].(status := StExpiring)
  {
    DueDistinct(s.memory, s.memory.recent, now);
    hide ReconcileAll, LogOk, MemoryOk;
    assert forall id :: id in due[..i] ==> id in due;
    assert Distinct(due[..i]);
    assert due[i] in due && due[i] !in due[..i];
    assert due[i..][0] == due[i];
    ReconcileAllKeeps(s.memory, s.log, due[..i], rs, now);
  }

  lemma OneAction(m: Memory, rules: multiset<(Id, Chain)>, id: Id, r: Rollback, now: int)
    requires id in m.actions
    ensures var m' := ReconcileOne(m, rules, id, r, now).0;
            id in m'.actions && m' == m.(actions := m.actions[id := m'.actions[id]])
  {
    hide Expire;
  }

  /** Working on one marked action leaves the marks of the others. */
  lemma OneUnmarked(m: Memory, m': Memory, due: seq<Id>, i: nat)
    requires i < |due| && Distinct(due) && due[i] in m.actions && due[i] in m'.actions
    requires m' == m.(actions := m.actions[due[i] := m'.actions[due[i]]])
    ensures Marked(m.actions, due[i..])[due[i] := m'.actions[due[i]]] == Marked(m'.actions, due[i + 1..])
    ensures CountExpired(m'.actions, due[..i + 1])
            == CountExpired(m.actions, due[..i]) + if m'.actions[due[i]].status == StExpired then 1 else 0
  {
    assert due[i..] == [due[i]] + due[i + 1..] && due[i] !in due[i + 1..];
    assert due[..i + 1][..i] == due[..i] && due[..i + 1][i] == due[i];
    assert due[i] !in due[..i];
    SameCount(m.actions, m'.actions, due[..i]);
  }

  lemma {:induction false} SameCount(actions: map<Id, Action>, others: map<Id, Action>, ids: seq<Id>)
    requires forall id ::
               id in ids
               ==> (id in actions <==> id in others) && (id in actions ==> actions[id] == others[id])
    ensures CountExpired(actions, ids) == CountExpired(others, ids)
  {
    if ids != [] {
      SameCount(actions, others, ids[..|ids| - 1]);
    }
  }

  /** Clearing the output chain does not change what the input chain holds. */
  lemma ChainsApart(log: Log, id: Id, r: Rollback)
    ensures var e1 := ExpireChain(Rules(log), id, Output, r).1;
            ExpireChain(Rules(log + e1), id, Input, r) == ExpireChain(Rules(log), id, Input, r)
  {
    var e1 := ExpireChain(Rules(log), id, Output, r).1;
    if e1 == [] {
      assert log + e1 == log;
    } else {
      EffectOn(log, DropRule(id, Output));
    }
  }

  /** The second half of one responder's turn: the plan is recorded and not a dry run. */
  function Acted(m: Memory, cfg: Config, a: Action, p: Proposal, now: int): (Memory, Log) {
    if NeedsApproval(cfg, p.trusted) then
      var a1 := a.(status := StPending);
      (m.(actions := m.actions[a.id := if p.pendingWrite then a1 else a.(status := StFailed)],
          pending := if p.pendingWrite then m.pending[a.id := a.responder] else m.pending),
       [SaveEffect(a1, p.pendingWrite)])
    else
      var (a', ran, effects) := RunAction(a, p.attempt, now);
      (m.(actions := m.actions[a.id := a']), effects)
  }

  lemma HandleActs(m: Memory, cfg: Config, p: Proposal, now: int)
    requires p.planWrite && !cfg.dryRun
    ensures var a := p.action.(dryRun := cfg.dryRun, status := StPlanned);
            var gates := Gates(cfg.enabled, cfg.dryRun, NeedsApproval(cfg, p.trusted));
            var (m', effects) := Acted(m.(actions := m.actions[a.id := a]), cfg, a, p, now);
            HandleOne(m, cfg, p, now) == (m', [Planned(a.id, gates), Wrote(a)] + effects)
  {
    hide RunAction;
    var a := p.action.(dryRun := cfg.dryRun, status := StPlanned);
    UpdateTwice(m.actions, a.id, a, a.(status := StPending));
    UpdateTwice(m.actions, a.id, a, a.(status := StFailed));
    UpdateTwice(m.actions, a.id, a, RunAction(a, p.attempt, now).0);
    var gates := Gates(cfg.enabled, cfg.dryRun, NeedsApproval(cfg, p.trusted));
    var save := SaveEffect(a.(status := StPending), p.pendingWrite);
    assert [Planned(a.id, gates), Wrote(a), save] == [Planned(a.id, gates), Wrote(a)] + [save];
  }

  lemma UpdateTwice(m: map<Id, Action>, id: Id, first: Action, second: Action)
    ensures m[id := first][id := second] == m[id := second]
  {
  }

  /** One turn further into `handle`. */
  lemma HandlePrefix(s: System, ps: seq<Proposal>, i: nat, now: int)
    requires i < |ps|
    ensures var (m1, e1) := HandleAll(s.memory, s.cfg, ps[..i], now);
            var (m2, e2) := HandleOne(m1, s.cfg, ps[i], now);
            HandleAll(s.memory, s.cfg, ps[..i + 1], now) == (m2, e1 + e2) && s.log + e1 + e2 == s.log + (e1 + e2)
  {
    HandleSnoc(s.memory, s.cfg, ps[..i], ps[i], now);
    assert ps[..i + 1] == ps[..i] + [ps[i]];
  }

  /** Part way through a reconciliation the next due action is still the one that was found. */
  lemma NextDue(s: System, due: seq<Id>, i: nat, rs: Id -> Rollback, now: int)
    requires SystemOk(s) && due == DueIds(s.memory, s.memory.recent, now) && i < |due|
    ensures forall id :: id in due[..i + 1] ==> id in s.memory.actions
    ensures var m := ReconcileAll(s.memory, s.log, due[..i], rs, now).0;
            due[i] in m.actions && m.actions[due[i]].id == due[i]
  {
    hide ReconcileOne, ReconcileAll, LogOk, Awaiting, RolledBackLater, Mentioned;
    DueDistinct(s.memory, s.memory.recent, now);
    forall id | id in due[..i + 1] ensures id in s.memory.actions {
      assert id in due;
    }
    assert due[i] in due && due[i] !in due[..i];
    ReconcileAllKeeps(s.memory, s.log, due[..i], rs, now);
    assert ActionOk(s.memory, s.log, due[i]);
  }

  /** One action further into a reconciliation. */
  lemma ReconcilePrefix(s: System, due: seq<Id>, i: nat, rs: Id -> Rollback, now: int)
    requires SystemOk(s) && due == DueIds(s.memory, s.memory.recent, now) && i < |due|
    ensures forall id :: id in due[..i + 1] ==> id in s.memory.actions
    ensures var (m1, e1) := ReconcileAll(s.memory, s.log, due[..i], rs, now);
            && due[i] in m1.actions && m1.actions[due[i]].id == due[i]
            && var (m2, e2) := ReconcileOne(m1, Rules(s.log + e1), due[i], rs(due[i]), now);
               ReconcileAll(s.memory, s.log, due[..i + 1], rs, now) == (m2, e1 + e2)
               && s.log + e1 + e2 == s.log + (e1 + e2)
  {
    hide ReconcileOne, ReconcileAll, SystemOk, Rules, DueIds;
    NextDue(s, due, i, rs, now);
    ReconcileSnoc(s.memory, s.log, due[..i], due[i], rs, now);
    assert due[..i + 1] == due[..i] + [due[i]];
  }
}
