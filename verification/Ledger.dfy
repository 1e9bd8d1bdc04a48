/** The active-response ledger (responders/base.py, responders/manager.py): the effects an
    operation leaves behind one after the other, the durable rows and firewall rules they
    add up to, and the order in which effects may follow each other.  A crash can cut the
    effects anywhere, so whatever must survive a crash is a property of every log prefix. */
module Ledger {

  import opened Basics

  /** A uuid. */
  type Id = nat

  datatype Status = StPlanned | StPending | StExecuting | StExecuted | StFailed | StRejected
                  | StExpiring | StExpired | StExpirationFailed

  datatype Action = Action(
    id: Id, responder: string, target: string, durationSeconds: nat, status: Status,
    dryRun: bool, executed: bool, success: bool, expiresAt: Option<int>, expiredAt: Option<int>)

  /** The gates in force when an action was planned. */
  datatype Gates = Gates(enabled: bool, dryRun: bool, needsApproval: bool)

  /** The two nftables chains a block is installed in. */
  datatype Chain = Output | Input

  datatype Effect =
    | Planned(id: Id, gates: Gates)          // the manager accepted a responder's plan
    | Approved(id: Id)                       // a human approved a pending action
    | Wrote(action: Action)                  // a ledger row was written
    | WriteFailed(id: Id)                    // a ledger write raised; nothing changed
    | Ran(id: Id)                            // the responder's execute was entered
    | AddRule(id: Id, chain: Chain)          // a rule marked with the action was added
    | DropRule(id: Id, chain: Chain)         // a rule marked with the action was deleted

  type Log = seq<Effect>

  function Subject(e: Effect): Id {
    match e
    case Wrote(a) => a.id
    case Planned(id, _) => id
    case Approved(id) => id
    case WriteFailed(id) => id
    case Ran(id) => id
    case AddRule(id, _) => id
    case DropRule(id, _) => id
  }

  /** The ledger table: the last row written for each action. */
  function Durable(log: Log): map<Id, Action>
    decreases |log|
  {
    if log == [] then map[]
    else
      var rows := Durable(log[..|log| - 1]);
      match log[|log| - 1]
      case Wrote(a) => rows[a.id := a]
      case _ => rows
  }

  /** The marked rules in the firewall. */
  function Rules(log: Log): multiset<(Id, Chain)>
    decreases |log|
  {
    if log == [] then multiset{}
    else
      var rules := Rules(log[..|log| - 1]);
      match log[|log| - 1]
      case AddRule(id, chain) => rules + multiset{(id, chain)}
      case DropRule(id, chain) => rules - multiset{(id, chain)}
      case _ => rules
  }

  predicate Mentioned(log: Log, id: Id) {
    exists i :: 0 <= i < |log| && Subject(log[i]) == id
  }

  /** The gates an action was planned under let it execute. */
  ghost predicate Cleared(log: Log, id: Id) {
    exists g: Gates :: Planned(id, g) in log && g.enabled && !g.dryRun && (g.needsApproval ==> Approved(id) in log)
  }

  ghost predicate HeldForApproval(log: Log, id: Id) {
    exists g: Gates :: Planned(id, g) in log && g.enabled && !g.dryRun && g.needsApproval
  }

  predicate Finished(s: Status) {
    s == StExecuted || s == StFailed || s == StExpiring || s == StExpired || s == StExpirationFailed
  }

  /** Which row may be written next: the life of an action as its durable row sees it. */
  ghost predicate MayWrite(log: Log, a: Action) {
    var rows := Durable(log);
    match a.status
    case StPlanned => a.id !in rows && (exists g: Gates :: Planned(a.id, g) in log && g.dryRun == a.dryRun)
      && Ran(a.id) !in log
    case StPending => a.id in rows && rows[a.id].status == StPlanned && !a.dryRun && HeldForApproval(log, a.id)
    case StExecuting =>
      && a.id in rows && (rows[a.id].status == StPlanned || rows[a.id].status == StPending)
      && !a.dryRun && Cleared(log, a.id)
    case StExecuted => a.id in rows && rows[a.id].status == StExecuting && Ran(a.id) in log
    case StFailed => a.id in rows && rows[a.id].status == StExecuting && Ran(a.id) in log
    case StRejected => a.id in rows && rows[a.id].status == StPending
    case StExpiring =>
      && a.id in rows && Ran(a.id) in log
      && (rows[a.id].status == StExecuting || rows[a.id].status == StExecuted
          || rows[a.id].status == StExpiring || rows[a.id].status == StExpirationFailed)
    case StExpired =>
      && a.id in rows && rows[a.id].status == StExpiring
      && (a.responder == FIREWALL ==> forall chain :: (a.id, chain) !in Rules(log))
    case StExpirationFailed => a.id in rows && rows[a.id].status == StExpiring
  }

  const FIREWALL := "FirewallResponder"

  /** Which effect may come next. */
  ghost predicate Permitted(log: Log, e: Effect) {
    var rows := Durable(log);
    match e
    case Planned(id, _) => !Mentioned(log, id)
    case Approved(id) => id in rows && rows[id].status == StPending
    case WriteFailed(_) => true
    case Wrote(a) => MayWrite(log, a) && (a.id in rows ==> rows[a.id].responder == a.responder)
    case Ran(id) => id in rows && rows[id].status == StExecuting && Ran(id) !in log && Cleared(log, id)
    case AddRule(id, chain) =>
      && id in rows && rows[id].status == StExecuting && rows[id].responder == FIREWALL
      && Ran(id) in log && AddRule(id, chain) !in log
    case DropRule(id, chain) => id in rows && rows[id].status == StExpiring && (id, chain) in Rules(log)
  }

  /** Every effect of the log was permitted when it happened. */
  ghost predicate LogOk(log: Log)
    decreases |log|
  {
    log == [] || (LogOk(log[..|log| - 1]) && Permitted(log[..|log| - 1], log[|log| - 1]))
  }

  // ----------------------------------------------------------- growing a log

  /** How one effect shows in the database and the firewall. */
  lemma EffectOn(log: Log, e: Effect)
    ensures Durable(log + [e]) == if e.Wrote? then Durable(log)[e.action.id := e.action] else Durable(log)
    ensures Rules(log + [e]) == if e.AddRule? then Rules(log) + multiset{(e.id, e.chain)}
                                else if e.DropRule? then Rules(log) - multiset{(e.id, e.chain)} else Rules(log)
  {
    assert (log + [e])[..|log|] == log;
  }

  lemma Extend(log: Log, e: Effect)
    requires LogOk(log) && Permitted(log, e)
    ensures LogOk(log + [e])
    ensures Durable(log + [e]) == if e.Wrote? then Durable(log)[e.action.id := e.action] else Durable(log)
    ensures Rules(log + [e]) == if e.AddRule? then Rules(log) + multiset{(e.id, e.chain)}
                                else if e.DropRule? then Rules(log) - multiset{(e.id, e.chain)} else Rules(log)
  {
    assert (log + [e])[..|log|] == log;
  }

  lemma {:induction false} PrefixOk(log: Log, k: nat)
    requires LogOk(log) && k <= |log|
    ensures LogOk(log[..k])
    decreases |log|
  {
    if k < |log| {
      assert log[..|log| - 1][..k] == log[..k];
      PrefixOk(log[..|log| - 1], k);
    } else {
      assert log[..k] == log;
    }
  }

  /** Position `k` of a permitted log was permitted by what came before it. */
  lemma At(log: Log, k: nat)
    requires LogOk(log) && k < |log|
    ensures LogOk(log[..k]) && Permitted(log[..k], log[k])
  {
    PrefixOk(log, k + 1);
    PrefixOk(log, k);
    assert log[..k + 1][..k] == log[..k];
  }

  lemma ClearedGrows(log: Log, more: Log, id: Id)
    requires Cleared(log, id)
    ensures Cleared(log + more, id)
  {
    var g: Gates :| Planned(id, g) in log && g.enabled && !g.dryRun && (g.needsApproval ==> Approved(id) in log);
    assert Planned(id, g) in log + more;
  }

  // -------------------------------------------------- what a permitted log means

  /** The durable row and the execution agree. */
  lemma {:induction false} RowsAndRuns(log: Log, id: Id)
    requires LogOk(log)
    ensures Ran(id) in log
        ==> id in Durable(log) && (Durable(log)[id].status == StExecuting || Finished(Durable(log)[id].status))
    ensures id in Durable(log) && Finished(Durable(log)[id].status) ==> Ran(id) in log
    ensures id in Durable(log) ==> Mentioned(log, id) && Durable(log)[id].id == id
    decreases |log|
  {
    if log != [] {
      var before, e := log[..|log| - 1], log[|log| - 1];
      RowsAndRuns(before, id);
      assert log == before + [e];
      assert Subject(log[|log| - 1]) == Subject(e);
      if Mentioned(before, id) {
        var i :| 0 <= i < |before| && Subject(before[i]) == id;
        assert Subject(log[i]) == id;
      }
    }
  }

  /** Once a rejection is durable the row never changes again. */
  lemma {:induction false} RejectedStays(log: Log, id: Id, k: nat)
    requires LogOk(log) && k <= |log|
    requires id in Durable(log[..k]) && Durable(log[..k])[id].status == StRejected
    ensures id in Durable(log) && Durable(log)[id].status == StRejected
    decreases |log|
  {
    if k < |log| {
      var before := log[..|log| - 1];
      assert before[..k] == log[..k];
      RejectedStays(before, id, k);
    } else {
      assert log[..k] == log;
    }
  }

  lemma NotRunAgain(log: Log, id: Id, j: nat, k: nat)
    requires LogOk(log) && j < k < |log| && log[j] == Ran(id)
    ensures log[k] != Ran(id)
  {
    At(log, k);
    assert log[..k][j] == Ran(id);
  }

  /** Crash-safe at-most-once: in any permitted log an action executes at most once, only
      over a durable EXECUTING row, never after a durable rejection, and only if it was
      planned enabled and armed and, where approval was needed, approved before. */
  lemma AtMostOnce(log: Log, id: Id, k: nat)
    requires LogOk(log) && k < |log| && log[k] == Ran(id)
    ensures Ran(id) !in log[..k] && forall j :: k < j < |log| ==> log[j] != Ran(id)
    ensures id in Durable(log[..k]) && Durable(log[..k])[id].status == StExecuting
    ensures forall j :: 0 <= j <= k && id in Durable(log[..j]) ==> Durable(log[..j])[id].status != StRejected
    ensures Cleared(log[..k], id)
  {
    At(log, k);
    forall j | k < j < |log| ensures log[j] != Ran(id) {
      NotRunAgain(log, id, k, j);
    }
    forall j | 0 <= j <= k && id in Durable(log[..j]) ensures Durable(log[..j])[id].status != StRejected {
      if Durable(log[..j])[id].status == StRejected {
        assert log[..k][..j] == log[..j];
        RejectedStays(log[..k], id, j);
      }
    }
  }

  /** After a durable rejection the action never executes. */
  lemma NeverAfterRejection(log: Log, id: Id, k: nat)
    requires LogOk(log) && k <= |log|
    requires id in Durable(log[..k]) && Durable(log[..k])[id].status == StRejected
    ensures Ran(id) !in log
  {
    if Ran(id) in log {
      var j :| 0 <= j < |log| && log[j] == Ran(id);
      AtMostOnce(log, id, j);
      RejectedStays(log, id, k);
      RowsAndRuns(log, id);
    }
  }

  // ----------------------------------------------------------------- firewall

  lemma {:induction false} AddedRan(log: Log, id: Id, chain: Chain)
    requires LogOk(log) && AddRule(id, chain) in log
    ensures Ran(id) in log
    decreases |log|
  {
    var before, e := log[..|log| - 1], log[|log| - 1];
    assert log == before + [e];
    if e != AddRule(id, chain) {
      AddedRan(before, id, chain);
    }
  }

  /** At most one rule of an action per chain, and none before it ran. */
  lemma {:induction false} OneRulePerChain(log: Log, id: Id, chain: Chain)
    requires LogOk(log)
    ensures Rules(log)[(id, chain)] <= 1
    ensures (id, chain) in Rules(log) ==> AddRule(id, chain) in log
    decreases |log|
  {
    if log != [] {
      var before, e := log[..|log| - 1], log[|log| - 1];
      OneRulePerChain(before, id, chain);
      assert log == before + [e];
      if e == AddRule(id, chain) {
        assert AddRule(id, chain) !in before;
        assert Rules(log) == Rules(before) + multiset{(id, chain)};
      } else {
        assert Rules(log)[(id, chain)] <= Rules(before)[(id, chain)];
      }
    }
  }

  /** Exact rollback: whenever a row says EXPIRED, none of the action's rules is left. */
  lemma {:induction false} ExpiredMeansGone(log: Log, id: Id, chain: Chain)
    requires LogOk(log)
    requires id in Durable(log) && Durable(log)[id].status == StExpired && Durable(log)[id].responder == FIREWALL
    ensures (id, chain) !in Rules(log)
    decreases |log|
  {
    var before, e := log[..|log| - 1], log[|log| - 1];
    if e.Wrote? && e.action.id == id {
      assert MayWrite(before, e.action);
    } else {
      ExpiredMeansGone(before, id, chain);
    }
  }

  /** Rules go only under their own action's EXPIRING row. */
  lemma DropsAreOwn(log: Log, k: nat, id: Id, chain: Chain)
    requires LogOk(log) && k < |log| && log[k] == DropRule(id, chain)
    ensures id in Durable(log[..k]) && Durable(log[..k])[id].status == StExpiring
    ensures Ran(id) in log[..k] && AddRule(id, chain) in log[..k]
  {
    At(log, k);
    OneRulePerChain(log[..k], id, chain);
    AddedRan(log[..k], id, chain);
  }
}
