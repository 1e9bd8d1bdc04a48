/** The alert funnel (alerts/manager.py:151-297) as interleaved steps: the locked reservation,
    the database write, the count after it, the rollback of a failed write, and restarts. */
module AlertFunnel {
  import opened Basics
  import Correlator

  type Category = Correlator.Category
  type Severity = Correlator.Severity

  datatype Alert = Alert(id: nat, key: string, timestamp: int, subject: Correlator.Alert)

  function CategoryCooldown(c: Category): nat {
    match c
    case NewDevice | ThreatIntel => 3600
    case Beacon | ProcessAnomaly => 1800
    case ConnectionAnomaly | DnsAnomaly | TrafficSpike | IncidentCategory => 600
    case ArpAnomaly | PortScan | LateralMovement | AuthAnomaly | Honeypot | SystemCategory => 300
  }

  /** What decides how an alert is suppressed. */
  datatype Kind = Kind(key: string, category: Category, severity: Severity) {
    /** Critical alerts have a shorter cooldown. */
    function Cooldown(): nat {
      var seconds := CategoryCooldown(category);
      (if severity.Critical? && seconds > 120 then 120 else seconds) * SECOND
    }
  }

  const MIN_COOLDOWN: nat := 120 * SECOND
  const MAX_COOLDOWN: nat := 3600 * SECOND
  const PRUNE_THRESHOLD := 2048

  function KindOf(a: Alert): Kind { Kind(a.key, a.subject.category, a.subject.severity) }

  /** An alert let through: the process life it belongs to, and whether the database answered
      when it was checked. */
  datatype Ticket = Ticket(alert: Alert, life: nat, consulted: bool) {
    function At(): int { alert.timestamp }
    function Cooldown(): nat { KindOf(alert).Cooldown() }
  }

  /** `inFlight` has been reserved but not written, `written` is in the database but not yet
      counted as fired; `rows` is the database. */
  datatype State = State(cache: map<string, int>, inFlight: set<Ticket>, written: set<Ticket>, rows: set<Ticket>,
                         life: nat, now: int, processed: nat, suppressed: nat, fired: nat, failed: nat) {
    /** Everything let through and not failed. */
    function Standing(): set<Ticket> { inFlight + rows }
  }

  const START := State(map[], {}, {}, {}, 0, 0, 0, 0, 0, 0)

  predicate Remembered(s: State, a: Alert) {
    a.key in s.cache && s.cache[a.key] > a.timestamp - KindOf(a).Cooldown()
  }

  predicate Stored(s: State, a: Alert) {
    exists t :: t in s.rows && t.alert.key == a.key && t.At() >= a.timestamp - KindOf(a).Cooldown()
  }

  /** `_is_duplicate`; `answered` is whether the database read worked. */
  predicate Duplicate(s: State, a: Alert, answered: bool) {
    a.key != "" && (Remembered(s, a) || (answered && Stored(s, a)))
  }

  function Prune(cache: map<string, int>, now: int): map<string, int> {
    if |cache| <= PRUNE_THRESHOLD then cache
    else map k | k in cache && cache[k] >= now - MAX_COOLDOWN :: cache[k]
  }

  predicate Hushed(a: Alert, quiet: bool) {
    quiet && !a.subject.severity.High? && !a.subject.severity.Critical?
  }

  datatype Step =
    | Reserve(alert: Alert, quiet: bool, answered: bool)
    | Commit(ticket: Ticket)
    | Count(ticket: Ticket)
    | Fail(ticket: Ticket)
    | Restart

  /** Whether the reservation lets the alert through. */
  predicate Admits(s: State, a: Alert, quiet: bool, answered: bool) {
    !Hushed(a, quiet) && !Duplicate(s, a, answered)
  }

  function Suppressed(s: State, a: Alert): State {
    s.(processed := s.processed + 1, now := a.timestamp, suppressed := s.suppressed + 1)
  }

  /** A repeat of a stored alert is remembered in its place. */
  function Refreshed(s: State, a: Alert): State {
    Suppressed(s, a).(cache := s.cache[a.key := a.timestamp])
  }

  function Admitted(s: State, a: Alert, answered: bool): State {
    s.(processed := s.processed + 1, now := a.timestamp, cache := Prune(s.cache[a.key := a.timestamp], a.timestamp),
       inFlight := s.inFlight + {Ticket(a, s.life, answered)})
  }

  /** The first block under the lock. */
  function Reserved(s: State, a: Alert, quiet: bool, answered: bool): State {
    if Hushed(a, quiet) then Suppressed(s, a)
    else if a.key != "" && Remembered(s, a) then Suppressed(s, a)
    else if a.key != "" && answered && Stored(s, a) then Refreshed(s, a)
    else Admitted(s, a, answered)
  }

  function Committed(s: State, t: Ticket): State {
    s.(inFlight := s.inFlight - {t}, rows := s.rows + {t}, written := s.written + {t})
  }

  function Counted(s: State, t: Ticket): State {
    s.(written := s.written - {t}, fired := s.fired + 1)
  }

  function Forget(cache: map<string, int>, t: Ticket): map<string, int> {
    if t.alert.key in cache && cache[t.alert.key] == t.At() then cache - {t.alert.key} else cache
  }

  /** The rollback of a failed write. */
  function Failed(s: State, t: Ticket): State {
    s.(cache := Forget(s.cache, t), inFlight := s.inFlight - {t}, failed := s.failed + 1)
  }

  function Restarted(s: State): State {
    State(map[], {}, {}, s.rows, s.life + 1, s.now, 0, 0, 0, 0)
  }

  function Next(s: State, step: Step): State {
    match step
    case Reserve(a, quiet, answered) => Reserved(s, a, quiet, answered)
    case Commit(t) => Committed(s, t)
    case Count(t) => Counted(s, t)
    case Fail(t) => Failed(s, t)
    case Restart => Restarted(s)
  }

  /** Clocks do not go back, and alert ids are not reused. */
  ghost predicate Enabled(s: State, step: Step) {
    match step
    case Reserve(a, _, _) => a.timestamp >= s.now && forall t :: t in s.Standing() ==> t.alert.id != a.id
    case Commit(t) => t in s.inFlight
    case Count(t) => t in s.written
    case Fail(t) => t in s.inFlight
    case Restart => true
  }

  function Run(steps: seq<Step>): State {
    if steps == [] then START else Next(Run(steps[..|steps| - 1]), steps[|steps| - 1])
  }

  ghost predicate Legal(steps: seq<Step>) {
    steps == [] || (Legal(steps[..|steps| - 1]) && Enabled(Run(steps[..|steps| - 1]), steps[|steps| - 1]))
  }

  // ------------------------------------------------- bookkeeping, whatever the cooldowns

  function OfLife(rows: set<Ticket>, life: nat): set<Ticket> { set t | t in rows && t.life == life }

  ghost predicate Placed(s: State) {
    && s.inFlight !! s.rows && s.written <= s.rows
    && (forall t :: t in s.inFlight || t in s.written ==> t.life == s.life)
    && (forall t :: t in s.inFlight || t in s.rows ==> t.life <= s.life && t.At() <= s.now)
  }

  ghost predicate Books(s: State) {
    && Placed(s)
    && s.processed == s.suppressed + s.fired + s.failed + |s.inFlight| + |s.written|
    && s.fired + |s.written| == |OfLife(s.rows, s.life)|
  }

  /** Alerts of one process life that share a key. */
  predicate Rivals(t: Ticket, u: Ticket) { t.life == u.life && t.alert.key == u.alert.key != "" }

  /** One key's standing alerts of one life carry different times, and the newest possible
      time is in memory when one of them carries it. */
  ghost predicate Owned(s: State) {
    && (forall t, u :: t in s.Standing() && u in s.Standing() && t != u && Rivals(t, u) ==> t.At() != u.At())
    && (forall t :: t in s.Standing() && t.life == s.life && t.At() == s.now && t.alert.key != "" ==>
          t.alert.key in s.cache && s.cache[t.alert.key] == s.now)
  }

  /** Every remembered time is the time of a standing alert, or of a repeat of a stored one. */
  ghost predicate Caused(s: State) {
    forall k :: k in s.cache && k != "" ==> Cause(s, k, s.cache[k])
  }

  ghost predicate Cause(s: State, key: string, at: int) {
    || (exists t :: t in s.Standing() && t.alert.key == key && t.At() == at)
    || (exists t :: t in s.rows && t.alert.key == key && at - MAX_COOLDOWN <= t.At() <= at)
  }

  lemma CooldownBounds(k: Kind)
    ensures MIN_COOLDOWN <= k.Cooldown() <= MAX_COOLDOWN
  {
  }

  lemma PlacedStep(s: State, step: Step)
    requires Placed(s) && Enabled(s, step)
    ensures Placed(Next(s, step))
  {
    hide Remembered, Stored, Prune, Hushed, Forget;
  }

  lemma OneMore(x: set<Ticket>, t: Ticket)
    requires t !in x
    ensures |x + {t}| == |x| + 1
  {
  }

  lemma OneLess(x: set<Ticket>, t: Ticket)
    requires t in x
    ensures |x - {t}| == |x| - 1
  {
  }

  lemma ReservedBooks(s: State, a: Alert, quiet: bool, answered: bool)
    requires Books(s) && Placed(Reserved(s, a, quiet, answered))
    requires forall t :: t in s.Standing() ==> t.alert.id != a.id
    ensures Books(Reserved(s, a, quiet, answered))
  {
    hide Remembered, Stored, Prune, Hushed, Placed;
    OneMore(s.inFlight, Ticket(a, s.life, answered));
    assert Placed(Suppressed(s, a)) ==> Books(Suppressed(s, a));
    assert Placed(Refreshed(s, a)) ==> Books(Refreshed(s, a));
    assert Placed(Admitted(s, a, answered)) ==> Books(Admitted(s, a, answered));
  }

  lemma BooksStep(s: State, step: Step)
    requires Books(s) && Enabled(s, step)
    ensures Books(Next(s, step))
  {
    PlacedStep(s, step);
    hide Books, Placed, Reserved, Committed, Counted, Failed, Restarted;
    match step
    case Reserve(a, quiet, answered) => ReservedBooks(s, a, quiet, answered);
    case Commit(t) => CommittedBooks(s, t);
    case Count(t) => CountedBooks(s, t);
    case Fail(t) => FailedBooks(s, t);
    case Restart => RestartedBooks(s);
  }

  lemma CommittedBooks(s: State, t: Ticket)
    requires Books(s) && t in s.inFlight && Placed(Committed(s, t))
    ensures Books(Committed(s, t))
  {
    OneLess(s.inFlight, t);
    OneMore(s.written, t);
    OneMore(OfLife(s.rows, s.life), t);
    assert OfLife(s.rows + {t}, s.life) == OfLife(s.rows, s.life) + {t};
  }

  lemma CountedBooks(s: State, t: Ticket)
    requires Books(s) && t in s.written && Placed(Counted(s, t))
    ensures Books(Counted(s, t))
  {
    OneLess(s.written, t);
  }

  lemma FailedBooks(s: State, t: Ticket)
    requires Books(s) && t in s.inFlight && Placed(Failed(s, t))
    ensures Books(Failed(s, t))
  {
    OneLess(s.inFlight, t);
  }

  lemma RestartedBooks(s: State)
    requires Books(s) && Placed(Restarted(s))
    ensures Books(Restarted(s))
  {
    assert OfLife(s.rows, s.life + 1) == {};
  }

  lemma OwnedStep(s: State, step: Step)
    requires Placed(s) && Owned(s) && Enabled(s, step)
    ensures Owned(Next(s, step))
  {
    hide CategoryCooldown, Kind.Cooldown, Stored, Hushed;
    match step
    case Reserve(a, quiet, answered) =>
      CooldownBounds(KindOf(a));
      assert Owned(Suppressed(s, a));
      assert Owned(Refreshed(s, a));
      if a.key == "" || !Remembered(s, a) {
        assert Owned(Admitted(s, a, answered));
      }
      assert Owned(Reserved(s, a, quiet, answered));
    case Commit(t) =>
      assert Owned(Committed(s, t));
    case Count(t) =>
      assert Owned(Counted(s, t));
    case Fail(t) =>
      assert Owned(Failed(s, t));
    case Restart =>
      assert Owned(Restarted(s));
  }

  /** A cause lasts while nothing fails. */
  lemma CauseLasts(s: State, n: State, key: string, at: int)
    requires Cause(s, key, at) && s.Standing() <= n.Standing() && s.rows <= n.rows
    ensures Cause(n, key, at)
  {
  }

  lemma CausedReserve(s: State, a: Alert, quiet: bool, answered: bool)
    requires Placed(s) && Caused(s) && a.timestamp >= s.now
    ensures Caused(Reserved(s, a, quiet, answered))
  {
    hide CategoryCooldown, Kind.Cooldown, Cause;
    CooldownBounds(KindOf(a));
    var n := Reserved(s, a, quiet, answered);
    forall k | k in n.cache && k != "" ensures Cause(n, k, n.cache[k]) {
      if k in s.cache && s.cache[k] == n.cache[k] {
        CauseLasts(s, n, k, n.cache[k]);
      } else if n == Refreshed(s, a) {
        StoredIsCause(n, a);
      } else {
        TicketIsCause(n, Ticket(a, s.life, answered));
      }
    }
  }

  lemma StoredIsCause(n: State, a: Alert)
    requires Stored(n, a) && forall t :: t in n.rows ==> t.At() <= a.timestamp
    ensures Cause(n, a.key, a.timestamp)
  {
    CooldownBounds(KindOf(a));
  }

  lemma TicketIsCause(n: State, t: Ticket)
    requires t in n.Standing()
    ensures Cause(n, t.alert.key, t.At())
  {
  }

  lemma CausedStep(s: State, step: Step)
    requires Placed(s) && Caused(s) && Enabled(s, step)
    ensures Caused(Next(s, step))
  {
    hide CategoryCooldown, Kind.Cooldown, Reserved, Cause;
    match step
    case Reserve(a, quiet, answered) =>
      CausedReserve(s, a, quiet, answered);
    case Commit(t) =>
      forall k | k in s.cache && k != "" ensures Cause(Committed(s, t), k, s.cache[k]) {
        CauseLasts(s, Committed(s, t), k, s.cache[k]);
      }
    case Count(t) =>
      forall k | k in s.cache && k != "" ensures Cause(Counted(s, t), k, s.cache[k]) {
        CauseLasts(s, Counted(s, t), k, s.cache[k]);
      }
    case Fail(t) =>
      CausedFail(s, t);
    case Restart =>
      assert Caused(Restarted(s));
  }

  lemma CausedFail(s: State, t: Ticket)
    requires Placed(s) && Caused(s) && t in s.inFlight
    ensures Caused(Failed(s, t))
  {
    var n := Failed(s, t);
    forall k | k in n.cache && k != "" ensures Cause(n, k, n.cache[k]) {
      assert Cause(s, k, s.cache[k]);
    }
  }

  lemma {:induction false} RunKeeps(steps: seq<Step>)
    requires Legal(steps)
    ensures Books(Run(steps)) && Owned(Run(steps)) && Caused(Run(steps))
  {
    if steps == [] {
      assert OfLife({}, 0) == {};
    } else {
      var before, step := steps[..|steps| - 1], steps[|steps| - 1];
      RunKeeps(before);
      BooksStep(Run(before), step);
      OwnedStep(Run(before), step);
      CausedStep(Run(before), step);
    }
  }

  /** Nothing is lost count of: what one process life has processed is what it suppressed, fired,
      failed to write or still has in flight, and what it fired is in the database. */
  lemma Conservation(steps: seq<Step>)
    requires Legal(steps)
    ensures var s := Run(steps);
            && s.processed == s.suppressed + s.fired + s.failed + |s.inFlight| + |s.written|
            && s.fired + |s.written| == |OfLife(s.rows, s.life)|
  {
    RunKeeps(steps);
  }

  /** A failed write touches no key but its own, and gives up a remembered time only when no
      other standing alert of this life put it there. */
  lemma FailureFreesOnlyItself(steps: seq<Step>, t: Ticket)
    requires Legal(steps) && t in Run(steps).inFlight && t.alert.key != ""
    ensures var s, after := Run(steps), Next(Run(steps), Fail(t));
            && (forall k :: k != t.alert.key ==> (k in after.cache <==> k in s.cache))
            && (forall k :: k in after.cache ==> after.cache[k] == s.cache[k])
            && (forall u ::
                  u in after.Standing() && Rivals(t, u) && u.alert.key in s.cache && s.cache[u.alert.key] == u.At()
                  ==> u.alert.key in after.cache)
            && after.rows == s.rows && after.inFlight == s.inFlight - {t}
  {
    hide CategoryCooldown, Kind.Cooldown, Legal, Run, Caused;
    RunKeeps(steps);
  }

  /** Nothing is suppressed for nothing: behind every duplicate stands an alert of the same key,
      stored or still in flight, from at most its cooldown and one longest cooldown before. */
  lemma SuppressedForACause(steps: seq<Step>, a: Alert, answered: bool)
    requires Legal(steps) && Duplicate(Run(steps), a, answered)
    ensures exists t :: t in Run(steps).Standing() && t.alert.key == a.key
              && t.At() >= a.timestamp - KindOf(a).Cooldown() - MAX_COOLDOWN
  {
    RunKeeps(steps);
    var s := Run(steps);
    if Remembered(s, a) {
      assert Cause(s, a.key, s.cache[a.key]);
    }
  }

  /** A failed write leaves the alert retryable: the next one passes unless another alert of its
      key stands within its cooldown plus the longest one. */
  lemma FailedIsRetryable(steps: seq<Step>, t: Ticket, again: Alert, answered: bool)
    requires Legal(steps) && t in Run(steps).inFlight && again.key == t.alert.key
    requires forall u :: u in Run(steps).Standing() && u != t && u.alert.key == again.key ==>
               u.At() < again.timestamp - KindOf(again).Cooldown() - MAX_COOLDOWN
    ensures !Duplicate(Next(Run(steps), Fail(t)), again, answered)
  {
    hide CategoryCooldown, Kind.Cooldown;
    var after := steps + [Fail(t)];
    assert after[..|steps|] == steps;
    if Duplicate(Run(after), again, answered) {
      SuppressedForACause(after, again, answered);
      RunKeeps(steps);
    }
  }

  // ----------------------------------------------------------------------- spacing

  /** Whether `x` came first as far as the funnel could know: same process life, or stored in an
      earlier one while the database answered when `y` was checked. */
  predicate Knew(x: Ticket, y: Ticket) {
    x.life == y.life || (x.life < y.life && y.consulted)
  }

  /** Alerts of one key, `x` not after `y`. */
  predicate Before(x: Ticket, y: Ticket) { x.alert.key == y.alert.key != "" && x.At() <= y.At() }

  /** Any two alerts of a key are the later one's cooldown apart. */
  ghost predicate Apart(tickets: set<Ticket>) {
    forall x, y :: x in tickets && y in tickets && x != y && Before(x, y) ==> y.At() - x.At() >= y.Cooldown()
  }

  ghost predicate OneCooldown(kinds: set<Kind>) {
    forall a, b :: a in kinds && b in kinds && a.key == b.key != "" ==> a.Cooldown() == b.Cooldown()
  }

  ghost predicate Drawn(steps: seq<Step>, kinds: set<Kind>) {
    forall i :: 0 <= i < |steps| && steps[i].Reserve? ==> KindOf(steps[i].alert) in kinds
  }

  /** A time for every key, meant as a lower bound of the cooldowns of its alerts. */
  type Floor = string -> int

  ghost predicate Bounded(floor: Floor) {
    forall key :: floor(key) <= MAX_COOLDOWN
  }

  ghost predicate Below(floor: Floor, steps: seq<Step>) {
    forall i :: 0 <= i < |steps| && steps[i].Reserve? ==>
      floor(steps[i].alert.key) <= KindOf(steps[i].alert).Cooldown()
  }

  ghost predicate SpacedBy(tickets: set<Ticket>, floor: Floor) {
    forall x, y :: x in tickets && y in tickets && x != y && Before(x, y) && Knew(x, y) ==>
      y.At() - x.At() >= floor(y.alert.key)
  }

  /** The same for all pairs. */
  ghost predicate ApartBy(tickets: set<Ticket>, floor: Floor) {
    forall x, y :: x in tickets && y in tickets && x != y && Before(x, y) ==> y.At() - x.At() >= floor(y.alert.key)
  }

  /** Memory knows of `x`, or `x` is too old to suppress anything. */
  predicate Covered(s: State, x: Ticket, floor: Floor) {
    || (x.alert.key in s.cache && s.cache[x.alert.key] >= x.At())
    || x.At() <= s.now - floor(x.alert.key)
  }

  ghost predicate Guarded(s: State, floor: Floor) {
    forall x :: x in s.Standing() && x.life == s.life && x.alert.key != "" ==> Covered(s, x, floor)
  }

  lemma SpacedAdmit(s: State, a: Alert, answered: bool, floor: Floor)
    requires floor(a.key) <= KindOf(a).Cooldown()
    requires Placed(s) && Guarded(s, floor) && SpacedBy(s.Standing(), floor)
    requires a.timestamp >= s.now && !Duplicate(s, a, answered)
    ensures SpacedBy(s.Standing() + {Ticket(a, s.life, answered)}, floor)
  {
    hide CategoryCooldown, Kind.Cooldown;
    CooldownBounds(KindOf(a));
    var y := Ticket(a, s.life, answered);
    forall x | x in s.Standing() && x.alert.key == a.key != "" && Knew(x, y)
      ensures x.At() <= a.timestamp - floor(a.key)
    {
      if x.life == s.life {
        assert Covered(s, x, floor);
      } else {
        assert x in s.rows && !Stored(s, a);
      }
    }
  }

  lemma SpacedStep(s: State, step: Step, floor: Floor)
    requires step.Reserve? ==> floor(step.alert.key) <= KindOf(step.alert).Cooldown()
    requires Placed(s) && Guarded(s, floor) && SpacedBy(s.Standing(), floor) && Enabled(s, step)
    ensures SpacedBy(Next(s, step).Standing(), floor)
  {
    hide CategoryCooldown, Kind.Cooldown, Guarded, Hushed, Remembered, Stored, Prune;
    match step
    case Reserve(a, quiet, answered) =>
      if Admits(s, a, quiet, answered) {
        SpacedAdmit(s, a, answered, floor);
        assert Next(s, step).Standing() == s.Standing() + {Ticket(a, s.life, answered)};
      } else {
        assert Next(s, step).Standing() == s.Standing();
      }
    case Commit(t) =>
      assert Next(s, step).Standing() == s.Standing();
    case Count(t) =>
      assert Next(s, step).Standing() == s.Standing();
    case Fail(t) =>
      assert Next(s, step).Standing() <= s.Standing();
    case Restart =>
      assert Next(s, step).Standing() <= s.Standing();
  }

  lemma GuardedFail(s: State, t: Ticket, floor: Floor)
    requires Placed(s) && Guarded(s, floor) && SpacedBy(s.Standing(), floor) && t in s.inFlight
    ensures Guarded(Failed(s, t), floor)
  {
    hide CategoryCooldown, Kind.Cooldown;
    var n := Failed(s, t);
    forall x | x in n.Standing() && x.life == n.life && x.alert.key != "" ensures Covered(n, x, floor) {
      assert Covered(s, x, floor);
      if x.alert.key == t.alert.key {
        assert x != t && Knew(x, t) && Knew(t, x);
      }
    }
  }

  lemma GuardedReserve(s: State, a: Alert, quiet: bool, answered: bool, floor: Floor)
    requires Bounded(floor) && Placed(s) && Guarded(s, floor) && a.timestamp >= s.now
    ensures Guarded(Reserved(s, a, quiet, answered), floor)
  {
    hide CategoryCooldown, Kind.Cooldown, Remembered, Stored, Hushed;
    var n := Reserved(s, a, quiet, answered);
    forall x | x in n.Standing() && x.life == n.life && x.alert.key != "" ensures Covered(n, x, floor) {
      assert x in s.Standing() ==> Covered(s, x, floor);
      assert floor(x.alert.key) <= MAX_COOLDOWN;
    }
  }

  lemma GuardedStep(s: State, step: Step, floor: Floor)
    requires Bounded(floor) && Placed(s) && Guarded(s, floor) && SpacedBy(s.Standing(), floor) && Enabled(s, step)
    ensures Guarded(Next(s, step), floor)
  {
    hide CategoryCooldown, Kind.Cooldown, Reserved, SpacedBy, Failed, Bounded;
    match step
    case Reserve(a, quiet, answered) =>
      GuardedReserve(s, a, quiet, answered, floor);
    case Commit(t) =>
      assert Guarded(Committed(s, t), floor);
    case Count(t) =>
      assert Guarded(Counted(s, t), floor);
    case Fail(t) =>
      GuardedFail(s, t, floor);
    case Restart =>
      assert Guarded(Restarted(s), floor);
  }

  /** In every legal run, whatever cooldowns a key mixes, two of its alerts are as far apart as any
      lower bound of them if the funnel could know of the first when it let the second pass, and
      memory covers every alert of this life that is not yet that old. */
  lemma {:induction false} RunSpaced(steps: seq<Step>, floor: Floor)
    requires Legal(steps) && Bounded(floor) && Below(floor, steps)
    ensures Guarded(Run(steps), floor) && SpacedBy(Run(steps).Standing(), floor)
  {
    if steps != [] {
      var before, step := steps[..|steps| - 1], steps[|steps| - 1];
      RunSpaced(before, floor);
      RunKeeps(before);
      hide Guarded, SpacedBy, Books, Owned, Caused, Bounded, Next;
      assert Placed(Run(before)) by { BooksArePlaced(Run(before)); }
      SpacedStep(Run(before), step, floor);
      GuardedStep(Run(before), step, floor);
    }
  }

  lemma BooksArePlaced(s: State)
    requires Books(s)
    ensures Placed(s)
  {
  }

  /** Where every standing alert comes from. */
  ghost predicate ReservedIn(steps: seq<Step>, t: Ticket) {
    exists i :: 0 <= i < |steps| && steps[i].Reserve? && steps[i].alert == t.alert && steps[i].answered == t.consulted
  }

  lemma {:induction false} StandingWasReserved(steps: seq<Step>, t: Ticket)
    requires Legal(steps) && t in Run(steps).Standing()
    ensures ReservedIn(steps, t)
  {
    if steps != [] {
      var before, step := steps[..|steps| - 1], steps[|steps| - 1];
      if t in Run(before).Standing() {
        StandingWasReserved(before, t);
        var i :| 0 <= i < |before| && before[i].Reserve? && before[i].alert == t.alert
          && before[i].answered == t.consulted;
        assert steps[i] == before[i];
      } else {
        NewIsReserved(Run(before), step, t);
        assert steps[|steps| - 1] == step;
      }
    }
  }

  lemma NewIsReserved(s: State, step: Step, t: Ticket)
    requires Enabled(s, step) && t in Next(s, step).Standing() && t !in s.Standing()
    ensures step.Reserve? && step.alert == t.alert && step.answered == t.consulted
  {
    hide Remembered, Stored, Prune, Hushed, Forget;
  }

  // ------------------------------------------------- spacing without exceptions

  /** Every check of the database was answered. */
  ghost predicate Answered(steps: seq<Step>) {
    forall i :: 0 <= i < |steps| && steps[i].Reserve? ==> steps[i].answered
  }

  ghost predicate Uninterrupted(steps: seq<Step>) {
    forall i :: 0 <= i < |steps| ==> !steps[i].Restart?
  }

  lemma {:induction false} OneLife(steps: seq<Step>)
    requires Legal(steps) && Uninterrupted(steps)
    ensures Run(steps).life == 0
  {
    if steps != [] {
      OneLife(steps[..|steps| - 1]);
      KeepsLife(Run(steps[..|steps| - 1]), steps[|steps| - 1]);
    }
  }

  lemma KeepsLife(s: State, step: Step)
    requires !step.Restart?
    ensures Next(s, step).life == s.life
  {
  }

  /** Later lives come later. */
  ghost predicate LivesInOrder(tickets: set<Ticket>) {
    forall x, y :: x in tickets && y in tickets && x.life < y.life ==> x.At() <= y.At()
  }

  lemma NextStanding(s: State, step: Step, t: Ticket)
    requires Enabled(s, step) && t in Next(s, step).Standing() && t !in s.Standing()
    ensures step.Reserve? && t.life == s.life && t.At() >= s.now
  {
    hide Remembered, Stored, Prune, Hushed, Forget;
  }

  lemma {:induction false} RunLivesInOrder(steps: seq<Step>)
    requires Legal(steps)
    ensures LivesInOrder(Run(steps).Standing())
  {
    if steps != [] {
      var before, step := steps[..|steps| - 1], steps[|steps| - 1];
      RunLivesInOrder(before);
      RunKeeps(before);
      BooksArePlaced(Run(before));
      var s := Run(before);
      hide Next, Owned, Caused, Books;
      forall x, y | x in Run(steps).Standing() && y in Run(steps).Standing() && x.life < y.life
        ensures x.At() <= y.At() {
        if x !in s.Standing() {
          NextStanding(s, step, x);
        }
        if y !in s.Standing() {
          NextStanding(s, step, y);
        }
      }
    }
  }

  /** When every check is answered, or nothing restarts, the funnel knows of every earlier alert: all
      alerts of a key are as far apart as any lower bound of its cooldowns. */
  lemma KnownAreApart(steps: seq<Step>, floor: Floor)
    requires Legal(steps) && Bounded(floor) && Below(floor, steps)
    requires Answered(steps) || Uninterrupted(steps)
    ensures ApartBy(Run(steps).Standing(), floor)
  {
    RunSpaced(steps, floor);
    RunLivesInOrder(steps);
    RunKeeps(steps);
    BooksArePlaced(Run(steps));
    hide Run, Legal, Books, Owned, Caused, Guarded;
    forall x, y | x in Run(steps).Standing() && y in Run(steps).Standing() && x != y && Before(x, y)
      ensures y.At() - x.At() >= floor(y.alert.key)
    {
      KnewOneAnother(steps, x, y);
    }
  }

  lemma KnewOneAnother(steps: seq<Step>, x: Ticket, y: Ticket)
    requires Legal(steps) && x in Run(steps).Standing() && y in Run(steps).Standing()
    requires Answered(steps) || Uninterrupted(steps)
    ensures if x.life <= y.life then Knew(x, y) else Knew(y, x)
  {
    if Answered(steps) {
      StandingWasReserved(steps, x);
      StandingWasReserved(steps, y);
    } else {
      OneLife(steps);
      RunKeeps(steps);
      BooksArePlaced(Run(steps));
    }
  }

  /** The cooldown of the alerts drawn with a key. */
  ghost function Common(kinds: set<Kind>, key: string): int {
    if exists k :: k in kinds && k.key == key then var k :| k in kinds && k.key == key; k.Cooldown() else 0
  }

  lemma CommonIsFloor(kinds: set<Kind>)
    requires OneCooldown(kinds)
    ensures Bounded(key => Common(kinds, key))
    ensures forall k :: k in kinds && k.key != "" ==> Common(kinds, k.key) == k.Cooldown()
  {
    hide CategoryCooldown, Kind.Cooldown;
    forall key ensures Common(kinds, key) <= MAX_COOLDOWN {
      if exists k :: k in kinds && k.key == key {
        var k :| k in kinds && k.key == key && Common(kinds, key) == k.Cooldown();
        CooldownBounds(k);
      }
    }
  }

  /** A floor for the drawn alerts, the empty key left out: it is never a duplicate. */
  ghost function FloorOf(kinds: set<Kind>): Floor {
    key => if key == "" then 0 else Common(kinds, key)
  }

  lemma FloorIsBelow(steps: seq<Step>, kinds: set<Kind>)
    requires Drawn(steps, kinds) && OneCooldown(kinds)
    ensures Bounded(FloorOf(kinds)) && Below(FloorOf(kinds), steps)
    ensures forall t: Ticket ::
              t.alert.key != "" && ReservedIn(steps, t) ==> FloorOf(kinds)(t.alert.key) == t.Cooldown()
  {
    hide CategoryCooldown, Kind.Cooldown;
    CommonIsFloor(kinds);
    hide Common;
    var floor := FloorOf(kinds);
    assert forall key :: Common(kinds, key) <= MAX_COOLDOWN by {
      forall key ensures Common(kinds, key) <= MAX_COOLDOWN {
        assert (k => Common(kinds, k))(key) <= MAX_COOLDOWN;
      }
    }
    forall i | 0 <= i < |steps| && steps[i].Reserve?
      ensures floor(steps[i].alert.key) <= KindOf(steps[i].alert).Cooldown() {
      CooldownBounds(KindOf(steps[i].alert));
    }
  }

  lemma DrawnAreSpaced(steps: seq<Step>, kinds: set<Kind>)
    requires Legal(steps) && Drawn(steps, kinds) && OneCooldown(kinds)
    ensures Guarded(Run(steps), FloorOf(kinds)) && SpacedBy(Run(steps).Standing(), FloorOf(kinds))
    ensures forall t :: t in Run(steps).Standing() && t.alert.key != "" ==> FloorOf(kinds)(t.alert.key) == t.Cooldown()
  {
    hide CategoryCooldown, Kind.Cooldown, Run, Legal, ReservedIn, Common, FloorOf, Bounded, Below;
    FloorIsBelow(steps, kinds);
    RunSpaced(steps, FloorOf(kinds));
    forall t | t in Run(steps).Standing() && t.alert.key != "" ensures FloorOf(kinds)(t.alert.key) == t.Cooldown() {
      StandingWasReserved(steps, t);
    }
  }

  lemma DrawnAreApart(steps: seq<Step>, kinds: set<Kind>)
    requires Legal(steps) && Drawn(steps, kinds) && OneCooldown(kinds)
    requires Answered(steps) || Uninterrupted(steps)
    ensures Apart(Run(steps).Standing())
  {
    hide CategoryCooldown, Kind.Cooldown, Run, Legal, Drawn, ReservedIn, Common, FloorOf, Bounded, Below, Guarded;
    hide SpacedBy;
    FloorIsBelow(steps, kinds);
    KnownAreApart(steps, FloorOf(kinds));
    DrawnAreSpaced(steps, kinds);
  }

  /** Two cooldowns on one key: `a` is in flight, `b` passes after the shorter cooldown and its
      write fails, taking the memory of the key with it, and `c` passes at once. */
  function Breach(a: Alert, b: Alert, c: Alert): seq<Step> {
    [Reserve(a, false, true), Reserve(b, false, true), Fail(Ticket(b, 0, true)), Reserve(c, false, true),
     Commit(Ticket(a, 0, true)), Commit(Ticket(c, 0, true))]
  }

  function AlertOf(k: Kind, id: nat, at: int): Alert {
    Alert(id, k.key, at, Correlator.Alert(k.category, k.severity, "", "", None, ""))
  }

  lemma TwoCooldownsBreach(short: Kind, long: Kind, kinds: set<Kind>)
    requires short in kinds && long in kinds && short.key == long.key != "" && short.Cooldown() < long.Cooldown()
    ensures var steps := Breach(AlertOf(short, 0, 0), AlertOf(short, 1, short.Cooldown()),
        AlertOf(long, 2, short.Cooldown()));
            Legal(steps) && Drawn(steps, kinds) && Answered(steps) && Uninterrupted(steps) && !Apart(Run(steps).rows)
  {
    hide CategoryCooldown, Kind.Cooldown, Next, Run, Legal, Enabled;
    CooldownBounds(short);
    CooldownBounds(long);
    var c, k := short.Cooldown(), short.key;
    var a, b, d := AlertOf(short, 0, 0), AlertOf(short, 1, c), AlertOf(long, 2, c);
    var steps := Breach(a, b, d);
    var ta, tb, td := Ticket(a, 0, true), Ticket(b, 0, true), Ticket(d, 0, true);
    var s1 := State(map[k := 0], {ta}, {}, {}, 0, 0, 1, 0, 0, 0);
    var s2 := State(map[k := c], {ta, tb}, {}, {}, 0, c, 2, 0, 0, 0);
    var s3 := State(map[], {ta}, {}, {}, 0, c, 2, 0, 0, 1);
    var s4 := State(map[k := c], {ta, td}, {}, {}, 0, c, 3, 0, 0, 1);
    var s5 := State(map[k := c], {td}, {ta}, {ta}, 0, c, 3, 0, 0, 1);
    var s6 := State(map[k := c], {}, {ta, td}, {ta, td}, 0, c, 3, 0, 0, 1);
    assert Legal(steps[..0]) && Run(steps[..0]) == START by { NoSteps(); }
    PassesUnwritten(START, a);
    Extends(steps, 0, START, s1);
    PassesUnwritten(s1, b);
    assert s1.cache[k := c] == s2.cache && s1.inFlight + {tb} == s2.inFlight;
    Extends(steps, 1, s1, s2);
    assert Enabled(s2, Fail(tb)) && Next(s2, Fail(tb)) == s3 by { FailsLast(s2, tb, s3); }
    Extends(steps, 2, s2, s3);
    PassesUnwritten(s3, d);
    assert s3.inFlight + {td} == s4.inFlight;
    Extends(steps, 3, s3, s4);
    assert Enabled(s4, Commit(ta)) && Next(s4, Commit(ta)) == s5 by { Commits(s4, ta, s5); }
    Extends(steps, 4, s4, s5);
    assert Enabled(s5, Commit(td)) && Next(s5, Commit(td)) == s6 by { Commits(s5, td, s6); }
    Extends(steps, 5, s5, s6);
    assert steps[..6] == steps;
    assert ta in s6.rows && td in s6.rows && Before(ta, td);
  }

  lemma NoSteps()
    ensures Legal([]) && Run([]) == START
  {
  }

  /** With at most its key remembered, an alert passes outside the cooldown of everything known. */
  lemma PassesUnwritten(s: State, a: Alert)
    requires s.cache.Keys <= {a.key} && (a.key in s.cache ==> s.cache[a.key] <= a.timestamp - KindOf(a).Cooldown())
    requires forall t :: t in s.rows ==> t.At() < a.timestamp - KindOf(a).Cooldown()
    requires a.timestamp >= s.now && forall t :: t in s.Standing() ==> t.alert.id != a.id
    ensures Enabled(s, Reserve(a, false, true))
    ensures Next(s, Reserve(a, false, true)) ==
            s.(processed := s.processed + 1, now := a.timestamp, cache := s.cache[a.key := a.timestamp],
               inFlight := s.inFlight + {Ticket(a, s.life, true)})
  {
    hide CategoryCooldown, Kind.Cooldown;
    var cache := s.cache[a.key := a.timestamp];
    assert Prune(cache, a.timestamp) == cache by {
      assert forall k :: k in cache ==> k == a.key;
    }
  }

  lemma FailsLast(s: State, t: Ticket, n: State)
    requires t in s.inFlight && s.cache == map[t.alert.key := t.At()]
    requires n == s.(cache := map[], inFlight := n.inFlight, failed := s.failed + 1) && n.inFlight == s.inFlight - {t}
    ensures Enabled(s, Fail(t)) && Next(s, Fail(t)) == n
  {
    assert s.cache - {t.alert.key} == map[];
  }

  lemma Commits(s: State, t: Ticket, n: State)
    requires t in s.inFlight && n.inFlight == s.inFlight - {t} && n.rows == s.rows + {t} && n.written == s.written + {t}
    requires n == s.(inFlight := n.inFlight, rows := n.rows, written := n.written)
    ensures Enabled(s, Commit(t)) && Next(s, Commit(t)) == n
  {
  }

  lemma Extends(steps: seq<Step>, i: nat, s: State, n: State)
    requires i < |steps| && Legal(steps[..i]) && Run(steps[..i]) == s
    requires Enabled(s, steps[i]) && Next(s, steps[i]) == n
    ensures Legal(steps[..i + 1]) && Run(steps[..i + 1]) == n
  {
    assert steps[..i + 1][..i] == steps[..i];
  }

  /** A restart, and the next check of the database gets no answer: the alert passes at once. */
  lemma UnansweredBreach(k: Kind, kinds: set<Kind>)
    requires k in kinds && k.key != ""
    ensures var a, b := AlertOf(k, 0, 0), AlertOf(k, 1, 1);
            var steps := [Reserve(a, false, true), Commit(Ticket(a, 0, true)), Restart, Reserve(b, false, false),
                          Commit(Ticket(b, 1, false))];
            Legal(steps) && Drawn(steps, kinds) && !Apart(Run(steps).rows)
  {
    hide CategoryCooldown, Kind.Cooldown, Next, Run, Legal, Enabled;
    CooldownBounds(k);
    var a, b := AlertOf(k, 0, 0), AlertOf(k, 1, 1);
    var ta, tb := Ticket(a, 0, true), Ticket(b, 1, false);
    var steps := [Reserve(a, false, true), Commit(ta), Restart, Reserve(b, false, false), Commit(tb)];
    var s1 := State(map[k.key := 0], {ta}, {}, {}, 0, 0, 1, 0, 0, 0);
    var s2 := State(map[k.key := 0], {}, {ta}, {ta}, 0, 0, 1, 0, 0, 0);
    var s3 := State(map[], {}, {}, {ta}, 1, 0, 0, 0, 0, 0);
    var s4 := State(map[k.key := 1], {tb}, {}, {ta}, 1, 1, 1, 0, 0, 0);
    var s5 := State(map[k.key := 1], {}, {tb}, {ta, tb}, 1, 1, 1, 0, 0, 0);
    assert Legal(steps[..0]) && Run(steps[..0]) == START by { NoSteps(); }
    PassesUnwritten(START, a);
    Extends(steps, 0, START, s1);
    assert Enabled(s1, Commit(ta)) && Next(s1, Commit(ta)) == s2 by { Commits(s1, ta, s2); }
    Extends(steps, 1, s1, s2);
    assert Enabled(s2, Restart) && Next(s2, Restart) == s3 by { Restarts(s2); }
    Extends(steps, 2, s2, s3);
    PassesUnanswered(s3, b);
    Extends(steps, 3, s3, s4);
    assert Enabled(s4, Commit(tb)) && Next(s4, Commit(tb)) == s5 by { Commits(s4, tb, s5); }
    Extends(steps, 4, s4, s5);
    assert steps[..5] == steps;
    assert ta in s5.rows && tb in s5.rows && Before(ta, tb);
  }

  lemma Restarts(s: State)
    ensures Enabled(s, Restart) && Next(s, Restart) == State(map[], {}, {}, s.rows, s.life + 1, s.now, 0, 0, 0, 0)
  {
  }

  /** With an empty memory and no answer, any alert passes. */
  lemma PassesUnanswered(s: State, a: Alert)
    requires s.cache == map[] && a.timestamp >= s.now && forall t :: t in s.Standing() ==> t.alert.id != a.id
    ensures Enabled(s, Reserve(a, false, false))
    ensures Next(s, Reserve(a, false, false)) ==
            s.(processed := s.processed + 1, now := a.timestamp, cache := map[a.key := a.timestamp],
               inFlight := s.inFlight + {Ticket(a, s.life, false)})
  {
    hide CategoryCooldown, Kind.Cooldown;
    var cache := s.cache[a.key := a.timestamp];
    assert cache == map[a.key := a.timestamp] && Prune(cache, a.timestamp) == cache;
  }

  /** Legal runs of such alerts, with an answer to every check if `reliable`, without a restart if
      `oneLife`. */
  ghost predicate Possible(steps: seq<Step>, kinds: set<Kind>, reliable: bool, oneLife: bool) {
    Legal(steps) && Drawn(steps, kinds) && (reliable ==> Answered(steps)) && (oneLife ==> Uninterrupted(steps))
  }

  /** The exact condition for the promised spacing.  Whatever the interleaving, failed writes and
      pruning, any two stored alerts of a key are at least the later one's cooldown apart if and only
      if alerts that share a key share one cooldown, and restarts do not come together with unanswered
      checks. (Alerts without a key are never suppressed and promise nothing.) */
  lemma SpacingIff(kinds: set<Kind>, reliable: bool, oneLife: bool)
    ensures (forall steps :: Possible(steps, kinds, reliable, oneLife) ==> Apart(Run(steps).rows))
            <==> OneCooldown(kinds) && (reliable || oneLife || forall k :: k in kinds ==> k.key == "")
  {
    hide CategoryCooldown, Kind.Cooldown, Run, Legal;
    if !OneCooldown(kinds) {
      var a, b :| a in kinds && b in kinds && a.key == b.key != "" && a.Cooldown() != b.Cooldown();
      if a.Cooldown() < b.Cooldown() {
        TwoCooldownsBreach(a, b, kinds);
      } else {
        TwoCooldownsBreach(b, a, kinds);
      }
    } else if reliable || oneLife {
      forall steps | Possible(steps, kinds, reliable, oneLife) ensures Apart(Run(steps).rows) {
        DrawnAreApart(steps, kinds);
      }
    } else if k :| k in kinds && k.key != "" {
      UnansweredBreach(k, kinds);
    } else {
      forall steps | Possible(steps, kinds, reliable, oneLife) ensures Apart(Run(steps).rows) {
        KeylessAreApart(steps, kinds);
      }
    }
  }

  lemma KeylessAreApart(steps: seq<Step>, kinds: set<Kind>)
    requires Legal(steps) && Drawn(steps, kinds) && forall k :: k in kinds ==> k.key == ""
    ensures Apart(Run(steps).rows)
  {
    forall t | t in Run(steps).rows ensures t.alert.key == "" {
      StandingWasReserved(steps, t);
      assert KindOf(t.alert) in kinds;
    }
  }

  // -------------------------------------------------- one at a time, any cooldowns

  /** Nothing else with the alert's key is being written, and the database answers. */
  ghost predicate Calm(s: State, step: Step) {
    step.Reserve? ==> step.answered && forall t :: t in s.inFlight ==> t.alert.key != step.alert.key
  }

  ghost predicate AlwaysCalm(steps: seq<Step>) {
    forall i :: 0 <= i < |steps| ==> Calm(Run(steps[..i]), steps[i])
  }

  /** Spacing by more than the cooldown. */
  ghost predicate StrictlyApart(tickets: set<Ticket>) {
    forall x, y :: x in tickets && y in tickets && x != y && Before(x, y) ==> y.At() - x.At() > y.Cooldown()
  }

  lemma CalmAdmit(s: State, a: Alert)
    requires Placed(s) && StrictlyApart(s.Standing()) && a.timestamp >= s.now && !Duplicate(s, a, true)
    requires forall t :: t in s.inFlight ==> t.alert.key != a.key
    ensures StrictlyApart(s.Standing() + {Ticket(a, s.life, true)})
  {
    hide CategoryCooldown, Kind.Cooldown, Remembered;
    var y := Ticket(a, s.life, true);
    CooldownBounds(KindOf(a));
    forall x | x in s.Standing() && x.alert.key == a.key != "" ensures x.At() < y.At() - y.Cooldown() {
      assert x in s.rows && !Stored(s, a);
    }
  }

  lemma CalmStep(s: State, step: Step)
    requires Placed(s) && StrictlyApart(s.Standing()) && Enabled(s, step) && Calm(s, step)
    ensures StrictlyApart(Next(s, step).Standing())
  {
    hide CategoryCooldown, Kind.Cooldown, Hushed, Remembered, Stored, Prune;
    match step
    case Reserve(a, quiet, answered) =>
      if Admits(s, a, quiet, answered) {
        CalmAdmit(s, a);
        assert Next(s, step).Standing() == s.Standing() + {Ticket(a, s.life, true)};
      } else {
        assert Next(s, step).Standing() == s.Standing();
      }
    case Commit(t) =>
      assert Next(s, step).Standing() == s.Standing();
    case Count(t) =>
      assert Next(s, step).Standing() == s.Standing();
    case Fail(t) =>
      assert Next(s, step).Standing() <= s.Standing();
    case Restart =>
      assert Next(s, step).Standing() <= s.Standing();
  }

  /** Without concurrent writes on one key, even mixed cooldowns and restarts keep any two stored
      alerts of a key more than the later one's cooldown apart. */
  lemma {:induction false} CalmRunsAreSpaced(steps: seq<Step>)
    requires Legal(steps) && AlwaysCalm(steps)
    ensures StrictlyApart(Run(steps).Standing())
  {
    if steps != [] {
      var before, step := steps[..|steps| - 1], steps[|steps| - 1];
      forall i | 0 <= i < |before| ensures Calm(Run(before[..i]), before[i]) {
        assert before[..i] == steps[..i];
      }
      CalmRunsAreSpaced(before);
      RunKeeps(before);
      CalmStep(Run(before), step);
    }
  }
}
