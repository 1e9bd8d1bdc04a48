/** The responder manager's operations (responders/manager.py) as functions from its memory
    to its new memory and the effects it leaves, and whole runs of them with failing writes,
    failing commands, crashes between any two effects and restarts. */
module ResponderModel {
  import opened Basics
  import opened Ledger
  import opened OrderedDict

  /** The manager's state between calls.  `actions` holds the action objects, which the
      recent list and the pending table share by id. */
  datatype Memory = Memory(
    actions: map<Id, Action>, recent: seq<Id>, pending: map<Id, string>, unbound: set<Id>, responders: seq<string>)

  datatype Config = Config(enabled: bool, dryRun: bool, requireApproval: bool)

  /** How the attempts of one execution go: the intent write, the commands and the final write. */
  datatype Attempt = Attempt(intent: bool, commandsDone: nat, otherSuccess: bool, final: bool)

  /** One responder's plan for an alert, and how handling it will go.  `trusted` says that
      the alert's category is in auto_execute_categories. */
  datatype Proposal = Proposal(action: Action, trusted: bool, planWrite: bool, pendingWrite: bool, attempt: Attempt)

  /** How a rollback goes: its two writes, and per chain the listing and the delete. */
  datatype Rollback = Rollback(intent: bool, listed: Chain -> bool, deleted: Chain -> bool, otherSuccess: bool,
      final: bool)

  const MAX_RECENT := 200

  // ------------------------------------------------------------------ execution

  /** The firewall's commands in order; the first that fails ends the execution. */
  function ExecuteEffects(a: Action, t: Attempt): (r: (bool, Log)) {
    if a.responder != FIREWALL then (t.otherSuccess, [])
    else if t.commandsDone == 0 then (false, [])
    else if t.commandsDone == 1 then (false, [AddRule(a.id, Output)])
    else (true, [AddRule(a.id, Output), AddRule(a.id, Input)])
  }

  /** The action once its execution has ended. */
  function AfterRun(a: Action, success: bool, now: int): Action {
    a.(status := if success then StExecuted else StFailed, executed := true, success := success,
       expiresAt := if success && a.durationSeconds > 0 then Some(now + a.durationSeconds * SECOND)
                    else a.expiresAt)
  }

  function SaveEffect(a: Action, ok: bool): Effect {
    if ok then Wrote(a) else WriteFailed(a.id)
  }

  /** `_run`: the action afterwards, whether it ran, and the effects. */
  function RunAction(a: Action, t: Attempt, now: int): (r: (Action, bool, Log)) {
    var a1 := a.(status := StExecuting);
    if !t.intent then (a.(status := StFailed), false, [WriteFailed(a.id)])
    else
      var (success, commands) := ExecuteEffects(a1, t);
      var a2 := AfterRun(a1, success, now);
      (a2, true, [Wrote(a1), Ran(a.id)] + commands + [SaveEffect(a2, t.final)])
  }

  function NeedsApproval(cfg: Config, trusted: bool): bool {
    cfg.requireApproval && !trusted
  }

  /** One responder's turn in `handle`. */
  function HandleOne(m: Memory, cfg: Config, p: Proposal, now: int): (r: (Memory, Log)) {
    var a := p.action.(dryRun := cfg.dryRun, status := StPlanned);
    var gates := Gates(cfg.enabled, cfg.dryRun, NeedsApproval(cfg, p.trusted));
    if !p.planWrite then
      (m.(actions := m.actions[a.id := a.(status := StFailed)]), [Planned(a.id, gates), WriteFailed(a.id)])
    else if cfg.dryRun then
      (m.(actions := m.actions[a.id := a]), [Planned(a.id, gates), Wrote(a)])
    else if gates.needsApproval then
      var a1 := a.(status := StPending);
      if !p.pendingWrite then
        (m.(actions := m.actions[a.id := a.(status := StFailed)]), [Planned(a.id, gates), Wrote(a), WriteFailed(a.id)])
      else
        (m.(actions := m.actions[a.id := a1], pending := m.pending[a.id := a.responder]),
         [Planned(a.id, gates), Wrote(a), Wrote(a1)])
    else
      var (a1, ran, effects) := RunAction(a, p.attempt, now);
      (m.(actions := m.actions[a.id := a1]), [Planned(a.id, gates), Wrote(a)] + effects)
  }

  function HandleAll(m: Memory, cfg: Config, ps: seq<Proposal>, now: int): (r: (Memory, Log))
    decreases |ps|
  {
    if ps == [] then (m, [])
    else
      var (m1, e1) := HandleAll(m, cfg, ps[..|ps| - 1], now);
      var (m2, e2) := HandleOne(m1, cfg, ps[|ps| - 1], now);
      (m2, e1 + e2)
  }

  function Ids(ps: seq<Proposal>): seq<Id> {
    seq(|ps|, i requires 0 <= i < |ps| => ps[i].action.id)
  }

  /** `deque(maxlen=200).extend`. */
  function Newest(ids: seq<Id>): seq<Id> {
    if |ids| <= MAX_RECENT then ids else ids[|ids| - MAX_RECENT..]
  }

  /** `handle`; `ps` are the applicable responders' plans in order. */
  function Handle(m: Memory, cfg: Config, ps: seq<Proposal>, now: int): (r: (Memory, Log)) {
    if !cfg.enabled then (m, [])
    else
      var (m', effects) := HandleAll(m, cfg, ps, now);
      (m'.(recent := Newest(m'.recent + Ids(ps))), effects)
  }

  /** `approve`; like the source it does not look at the configuration. */
  function Approve(m: Memory, id: Id, t: Attempt, now: int): (r: (Memory, Log)) {
    if id !in m.pending || id !in m.actions then (m, [])
    else
      var (a, ran, effects) := RunAction(m.actions[id], t, now);
      if ran then (m.(actions := m.actions[id := a], pending := m.pending - {id}), [Approved(id)] + effects)
      else (m.(actions := m.actions[id := a.(status := StPending)]), [Approved(id)] + effects)
  }

  function Reject(m: Memory, id: Id, ok: bool): (r: (Memory, Log)) {
    if id !in m.pending || id !in m.actions then (m, [])
    else
      var a := m.actions[id].(status := StRejected);
      if ok then (m.(actions := m.actions[id := a], pending := m.pending - {id}), [Wrote(a)])
      else (m.(actions := m.actions[id := a.(status := StPending)]), [WriteFailed(id)])
  }

  // ----------------------------------------------------------------- expiry

  predicate Due(a: Action, responders: seq<string>, now: int) {
    && (a.status == StExecuted || a.status == StExpiring || a.status == StExpirationFailed)
    && a.expiresAt.Some? && a.expiresAt.value <= now && a.responder in responders
  }

  function DueIds(m: Memory, ids: seq<Id>, now: int): (r: seq<Id>)
    ensures forall id :: id in r <==> id in ids && id in m.actions && Due(m.actions[id], m.responders, now)
  {
    if ids == [] then []
    else
      (if ids[0] in m.actions && Due(m.actions[ids[0]], m.responders, now) then [ids[0]] else [])
      + DueIds(m, ids[1..], now)
  }

  /** One chain of `_expire_nftables`: list, find the marked rule, delete it. */
  function ExpireChain(rules: multiset<(Id, Chain)>, id: Id, chain: Chain, r: Rollback): (bool, Log) {
    if !r.listed(chain) then (false, [])
    else if (id, chain) !in rules then (true, [])
    else if !r.deleted(chain) then (false, [])
    else (true, [DropRule(id, chain)])
  }

  /** `responder.expire`. */
  function Expire(rules: multiset<(Id, Chain)>, a: Action, r: Rollback): (bool, Log) {
    if a.responder != FIREWALL then (r.otherSuccess, [])
    else
      var (ok1, e1) := ExpireChain(rules, a.id, Output, r);
      if !ok1 then (false, e1)
      else
        var (ok2, e2) := ExpireChain(rules, a.id, Input, r);
        (ok2, e1 + e2)
  }

  /** One due action of `reconcile_expired`; `rules` is the firewall at its turn. */
  function ReconcileOne(m: Memory, rules: multiset<(Id, Chain)>, id: Id, r: Rollback, now: int): (Memory, Log)
    requires id in m.actions
  {
    var a := m.actions[id].(status := StExpiring);
    if !r.intent then (m, [WriteFailed(id)])
    else
      var (ok, commands) := Expire(rules, a, r);
      var a' := a.(status := if ok then StExpired else StExpirationFailed, expiredAt := Some(now));
      (m.(actions := m.actions[id := a']), [Wrote(a)] + commands + [SaveEffect(a', r.final)])
  }

  function ReconcileAll(m: Memory, log: Log, due: seq<Id>, rs: Id -> Rollback, now: int): (r: (Memory, Log))
    requires forall id :: id in due ==> id in m.actions
    ensures r.0.actions.Keys == m.actions.Keys
    decreases |due|
  {
    if due == [] then (m, [])
    else
      var last := due[|due| - 1];
      var (m1, e1) := ReconcileAll(m, log, due[..|due| - 1], rs, now);
      var (m2, e2) := ReconcileOne(m1, Rules(log + e1), last, rs(last), now);
      (m2, e1 + e2)
  }

  function Reconcile(m: Memory, log: Log, rs: Id -> Rollback, now: int): (Memory, Log) {
    ReconcileAll(m, log, DueIds(m, m.recent, now), rs, now)
  }

  // ----------------------------------------------------------- start and restart

  /** Memory right after `_load_actions` read the rows `ids`; a failed load reads none. */
  function Load(rows: map<Id, Action>, ids: seq<Id>): Memory
    requires forall id :: id in ids ==> id in rows
  {
    Memory(map id | id in ids :: rows[id], ids, map[],
           set id | id in ids && rows[id].status == StPending, [])
  }

  /** `add_responder` up to its reconciliation. */
  function Bind(m: Memory, name: string): Memory {
    var bound := set id | id in m.unbound && id in m.actions && m.actions[id].responder == name;
    m.(responders := m.responders + [name], unbound := m.unbound - bound,
       pending := m.pending + map id | id in bound :: name)
  }

  // ----------------------------------------------------------------------- runs

  datatype Op =
    | OpHandle(proposals: seq<Proposal>, now: int)
    | OpApprove(id: Id, attempt: Attempt, now: int)
    | OpReject(id: Id, ok: bool)
    | OpReconcile(rollbacks: Id -> Rollback, now: int)
    | OpAddResponder(name: string, rollbacks: Id -> Rollback, now: int)

  /** `Crash` is an operation (or none) of which only the first `cut` effects happen before
      the process dies; the next process reads the rows `ids` back. */
  datatype Step =
    | Do(op: Op)
    | Configure(cfg: Config)
    | Crash(op: Op, cut: nat, ids: seq<Id>)

  datatype System = System(memory: Memory, log: Log, cfg: Config)

  function Perform(s: System, op: Op): (Memory, Log) {
    match op
    case OpHandle(ps, now) => Handle(s.memory, s.cfg, ps, now)
    case OpApprove(id, t, now) => Approve(s.memory, id, t, now)
    case OpReject(id, ok) => Reject(s.memory, id, ok)
    case OpReconcile(rs, now) => Reconcile(s.memory, s.log, rs, now)
    case OpAddResponder(name, rs, now) => Reconcile(Bind(s.memory, name), s.log, rs, now)
  }

  /** Plans carry fresh, distinct ids. */
  ghost predicate OpOk(s: System, op: Op) {
    op.OpHandle? ==>
      && Distinct(Ids(op.proposals))
      && (forall p :: p in op.proposals ==>
            !Mentioned(s.log, p.action.id) && p.action.id !in s.memory.actions)
  }

  ghost predicate StepOk(s: System, step: Step) {
    match step
    case Do(op) => OpOk(s, op)
    case Configure(_) => true
    case Crash(op, cut, ids) =>
      && OpOk(s, op) && cut <= |Perform(s, op).1|
      && Distinct(ids) && |ids| <= MAX_RECENT
      && forall id :: id in ids ==> id in Durable(s.log + Perform(s, op).1[..cut])
  }

  ghost function Take(s: System, step: Step): System
    requires StepOk(s, step)
  {
    match step
    case Do(op) => var (m, effects) := Perform(s, op); System(m, s.log + effects, s.cfg)
    case Configure(cfg) => s.(cfg := cfg)
    case Crash(op, cut, ids) =>
      var log := s.log + Perform(s, op).1[..cut];
      System(Load(Durable(log), ids), log, s.cfg)
  }

  const EMPTY_MEMORY := Memory(map[], [], map[], {}, [])

  ghost predicate RunOk(steps: seq<Step>, cfg: Config)
    decreases |steps|, 0
  {
    steps != [] ==>
      RunOk(steps[..|steps| - 1], cfg) && StepOk(Run(steps[..|steps| - 1], cfg), steps[|steps| - 1])
  }

  ghost function Run(steps: seq<Step>, cfg: Config): System
    requires RunOk(steps, cfg)
    decreases |steps|, 1
  {
    if steps == [] then System(EMPTY_MEMORY, [], cfg)
    else Take(Run(steps[..|steps| - 1], cfg), steps[|steps| - 1])
  }
}
