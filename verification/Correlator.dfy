/** The incident correlator (alerts/correlator.py:61-191) as a step function on its bounded
    state, beside a plain reference that keeps every observation and every incident. */
module Correlator {
  import opened Basics
  import opened OrderedDict

  datatype Severity = Info | Low | Medium | High | Critical

  datatype Category =
    | ArpAnomaly | NewDevice | PortScan | Beacon | ConnectionAnomaly | DnsAnomaly | LateralMovement
    | AuthAnomaly | TrafficSpike | ProcessAnomaly | ThreatIntel | Honeypot | IncidentCategory | SystemCategory

  datatype Event = Event(timestamp: int, sensor: string, target: string, category: Category, severity: Severity)

  datatype Config = Config(windowSeconds: nat, minSensors: nat, minTargets: nat, cooldownSeconds: nat, maxActors: nat) {
    function Window(): nat { windowSeconds * SECOND }
    function Cooldown(): nat { cooldownSeconds * SECOND }
    /** How often the whole state is swept. */
    function Interval(): nat {
      (if windowSeconds < 1 then 1 else if windowSeconds > 60 then 60 else windowSeconds) * SECOND
    }
  }

  const MAX_EVENTS := 500

  datatype Answer = Silent | SequenceIncident(matched: seq<Event>) | Incident(events: seq<Event>)

  // ------------------------------------------------------- what alerts are about

  datatype Alert = Alert(category: Category, severity: Severity, affectedHost: string, relatedHost: string,
                         sensor: Option<string>, srcIp: string)

  function Or(first: string, second: string): string { if first != "" then first else second }

  function ActorOf(a: Alert): string {
    if a.category == PortScan || a.category == LateralMovement then Or(a.relatedHost, a.affectedHost)
    else if a.category == AuthAnomaly then Or(a.srcIp, Or(a.relatedHost, a.affectedHost))
    else Or(a.affectedHost, a.relatedHost)
  }

  function TargetOf(a: Alert, actor: string): string {
    var target := if a.category == PortScan || a.category == LateralMovement then a.affectedHost else a.relatedHost;
    if target != actor then target else ""
  }

  function EventOf(a: Alert, actor: string, now: int): Event {
    Event(now, match a.sensor case None => "local" case Some(s) => s, TargetOf(a, actor), a.category, a.severity)
  }

  // ------------------------------------------------------------ window decisions

  /** `while events and events[0].timestamp < cutoff: events.popleft()`. */
  function Prune(events: seq<Event>, cutoff: int): seq<Event> {
    if events == [] || events[0].timestamp >= cutoff then events else Prune(events[1..], cutoff)
  }

  /** What a `deque(maxlen=500)` keeps. */
  function Last(events: seq<Event>): seq<Event> {
    if |events| <= MAX_EVENTS then events else events[|events| - MAX_EVENTS..]
  }

  function Sensors(events: seq<Event>): set<string> { set e | e in events :: e.sensor }

  function Targets(events: seq<Event>): set<string> { set e | e in events && e.target != "" :: e.target }

  predicate Triggered(events: seq<Event>, cfg: Config) {
    |Sensors(events)| >= cfg.minSensors || |Targets(events)| >= cfg.minTargets
  }

  const SEQUENCE := [NewDevice, PortScan, LateralMovement]

  /** The greedy left-to-right scan, from step `next` of the sequence on. */
  function Match(events: seq<Event>, next: nat): Option<seq<Event>>
    requires next < |SEQUENCE|
    decreases |events|
  {
    if events == [] then None
    else if events[0].category != SEQUENCE[next] then Match(events[1..], next)
    else if next + 1 == |SEQUENCE| then Some([events[0]])
    else match Match(events[1..], next + 1)
         case None => None
         case Some(rest) => Some([events[0]] + rest)
  }

  /** The incident an actor's window calls for, cooldown aside. */
  function Verdict(events: seq<Event>, cfg: Config): Answer {
    if Triggered(events, cfg) then Incident(events)
    else match Match(events, 0)
         case None => Silent
         case Some(matched) => SequenceIncident(matched)
  }

  // --------------------------------------------------------------------- the state

  datatype State = State(events: Dict<string, seq<Event>>, lastIncident: map<string, int>, lastCleanup: Option<int>)

  const NO_STATE := State(Empty(), map[], None)

  /** Prunes every actor's deque and drops the actors left with none. */
  function Sweep(events: Dict<string, seq<Event>>, actors: seq<string>, cutoff: int): Dict<string, seq<Event>>
    decreases |actors|
  {
    if actors == [] then events
    else
      var a := actors[0];
      var kept := if a in events.items then Prune(events.items[a], cutoff) else [];
      Sweep(if kept == [] then events.Remove(a) else events.Put(a, kept), actors[1..], cutoff)
  }

  function Cleanup(s: State, cfg: Config, now: int): State {
    if s.lastCleanup.Some? && now - s.lastCleanup.value < cfg.Interval() then s
    else State(Sweep(s.events, s.events.order, now - cfg.Window()),
               map a | a in s.lastIncident && s.lastIncident[a] > now - cfg.Cooldown() :: s.lastIncident[a],
               Some(now))
  }

  /** Makes room for one more actor, oldest out first, its cooldown with it. */
  function Evict(s: State, max: nat): State
    requires max >= 1
    decreases |s.events.order|
  {
    if |s.events.order| < max then s
    else
      var stale := s.events.order[0];
      assert |Without(s.events.order[1..], stale)| <= |s.events.order[1..]|;
      Evict(s.(events := s.events.Remove(stale), lastIncident := s.lastIncident - {stale}), max)
  }

  predicate OnCooldown(last: map<string, int>, actor: string, cfg: Config, now: int) {
    actor in last && now - last[actor] < cfg.Cooldown()
  }

  /** The state in which the actor's deque is the newest entry. */
  function Track(s: State, cfg: Config, actor: string): State
    requires cfg.maxActors >= 1
  {
    if actor in s.events.items then s.(events := s.events.MoveToEnd(actor))
    else var s1 := Evict(s, cfg.maxActors); s1.(events := s1.events.Put(actor, []))
  }

  /** `observe` for an alert of a named actor. */
  function Observe(s: State, cfg: Config, actor: string, e: Event): (State, Answer)
    requires cfg.maxActors >= 1
  {
    var now := e.timestamp;
    var s1 := Track(Cleanup(s, cfg, now), cfg, actor);
    var had := if actor in s1.events.items then s1.events.items[actor] else [];
    var window := Prune(Last(had + [e]), now - cfg.Window());
    var s2 := s1.(events := s1.events.Put(actor, window));
    var verdict := Verdict(window, cfg);
    if verdict == Silent || OnCooldown(s2.lastIncident, actor, cfg, now) then (s2, Silent)
    else (s2.(lastIncident := s2.lastIncident[actor := now]), verdict)
  }

  /** The actors `observe` evicts to stay within the cap. */
  function Evicted(s: State, cfg: Config, actor: string, now: int): set<string>
    requires cfg.maxActors >= 1
  {
    var s0 := Cleanup(s, cfg, now);
    s0.events.items.Keys - Track(s0, cfg, actor).events.items.Keys
  }

  // ----------------------------------------------------------------- the reference

  /** Everything observed of each actor, and its last incident, since the actor was last evicted. */
  datatype Plain = Plain(history: map<string, seq<Event>>, raised: map<string, int>)

  const NOTHING := Plain(map[], map[])

  function HistoryOf(p: Plain, actor: string): seq<Event> {
    if actor in p.history then p.history[actor] else []
  }

  /** The observations not older than the cutoff. */
  function InWindow(events: seq<Event>, cutoff: int): seq<Event> {
    if events == [] then []
    else (if events[0].timestamp >= cutoff then [events[0]] else []) + InWindow(events[1..], cutoff)
  }

  /** The reference: no sweeps, no pruning, no recency, no cooldown expiry. */
  function Consult(p: Plain, cfg: Config, actor: string, e: Event, evicted: set<string>): (Plain, Answer) {
    var p1 := Plain(p.history - evicted, p.raised - evicted);
    var history := HistoryOf(p1, actor) + [e];
    var p2 := p1.(history := p1.history[actor := history]);
    var verdict := Verdict(InWindow(Last(history), e.timestamp - cfg.Window()), cfg);
    if verdict == Silent || OnCooldown(p2.raised, actor, cfg, e.timestamp) then (p2, Silent)
    else (p2.(raised := p2.raised[actor := e.timestamp]), verdict)
  }

  // --------------------------------------------------------------------- whole runs

  datatype Observation = Observation(actor: string, event: Event)

  /** The clock does not go back. */
  ghost predicate Ordered(obs: seq<Observation>) {
    forall i, j :: 0 <= i < j < |obs| ==> obs[i].event.timestamp <= obs[j].event.timestamp
  }

  function RunState(obs: seq<Observation>, cfg: Config): State
    requires cfg.maxActors >= 1
    decreases |obs|
  {
    if obs == [] then NO_STATE
    else Observe(RunState(obs[..|obs| - 1], cfg), cfg, obs[|obs| - 1].actor, obs[|obs| - 1].event).0
  }

  function RunPlain(obs: seq<Observation>, cfg: Config): Plain
    requires cfg.maxActors >= 1
    decreases |obs|
  {
    if obs == [] then NOTHING
    else
      var before, o := obs[..|obs| - 1], obs[|obs| - 1];
      Consult(RunPlain(before, cfg), cfg, o.actor, o.event,
              Evicted(RunState(before, cfg), cfg, o.actor, o.event.timestamp)).0
  }

  // ------------------------------------------------------------------- pruning facts

  ghost predicate Sorted(events: seq<Event>) {
    forall i, j :: 0 <= i < j < |events| ==> events[i].timestamp <= events[j].timestamp
  }

  lemma {:induction false} PruneIsWindow(events: seq<Event>, cutoff: int)
    requires Sorted(events)
    ensures Prune(events, cutoff) == InWindow(events, cutoff)
  {
    if events != [] {
      if events[0].timestamp < cutoff {
        PruneIsWindow(events[1..], cutoff);
      } else {
        AllInWindow(events, cutoff);
      }
    }
  }

  lemma AllInWindow(events: seq<Event>, cutoff: int)
    requires forall i :: 0 <= i < |events| ==> events[i].timestamp >= cutoff
    ensures InWindow(events, cutoff) == events
  {
    if events != [] {
      AllInWindow(events[1..], cutoff);
      assert events == [events[0]] + events[1..];
    }
  }

  lemma NoneInWindow(events: seq<Event>, cutoff: int)
    requires forall i :: 0 <= i < |events| ==> events[i].timestamp < cutoff
    ensures InWindow(events, cutoff) == []
  {
  }

  lemma {:induction false} InWindowSplit(a: seq<Event>, b: seq<Event>, cutoff: int)
    ensures InWindow(a + b, cutoff) == InWindow(a, cutoff) + InWindow(b, cutoff)
  {
    if a == [] {
      assert a + b == b;
    } else {
      assert (a + b)[1..] == a[1..] + b;
      InWindowSplit(a[1..], b, cutoff);
    }
  }

  lemma {:induction false} PruneIsSuffix(events: seq<Event>, cutoff: int)
    ensures |Prune(events, cutoff)| <= |events|
    ensures Prune(events, cutoff) == events[|events| - |Prune(events, cutoff)|..]
    ensures forall i :: 0 <= i < |events| - |Prune(events, cutoff)| ==> events[i].timestamp < cutoff
  {
    if events != [] && events[0].timestamp < cutoff {
      PruneIsSuffix(events[1..], cutoff);
      var kept := Prune(events[1..], cutoff);
      forall i | 0 <= i < |events| - |kept| ensures events[i].timestamp < cutoff {
        if i > 0 {
          assert events[i] == events[1..][i - 1];
        }
      }
    }
  }

  /** A deque that stands for a history: its newest part, short of at most what the length
      limit or the window exclude anyway. */
  ghost predicate Represents(deque: seq<Event>, history: seq<Event>, cutoff: int) {
    && |deque| <= |history| && |deque| <= MAX_EVENTS
    && deque == history[|history| - |deque|..]
    && forall i :: 0 <= i < |history| - |deque| && i >= |history| - MAX_EVENTS ==> history[i].timestamp < cutoff
  }

  lemma RepresentsLater(deque: seq<Event>, history: seq<Event>, cutoff: int, later: int)
    requires Represents(deque, history, cutoff) && cutoff <= later
    ensures Represents(deque, history, later)
  {
  }

  lemma PruneRepresents(deque: seq<Event>, history: seq<Event>, cutoff: int)
    requires Represents(deque, history, cutoff)
    ensures Represents(Prune(deque, cutoff), history, cutoff)
  {
    PruneIsSuffix(deque, cutoff);
    var kept := Prune(deque, cutoff);
    assert forall i :: |history| - |deque| <= i < |history| ==> history[i] == deque[i - (|history| - |deque|)];
  }

  lemma AppendRepresents(deque: seq<Event>, history: seq<Event>, e: Event, cutoff: int)
    requires Represents(deque, history, cutoff)
    ensures Represents(Last(deque + [e]), history + [e], cutoff)
  {
    var all := history + [e];
    assert deque + [e] == all[|history| - |deque|..];
  }

  /** The pruned deque is exactly the plain history's window. */
  lemma WindowAgrees(deque: seq<Event>, history: seq<Event>, cutoff: int)
    requires Represents(deque, history, cutoff) && Sorted(history)
    ensures Prune(deque, cutoff) == InWindow(Last(history), cutoff)
  {
    var recent := Last(history);
    var older := recent[..|recent| - |deque|];
    assert recent == older + deque;
    hide Prune, InWindow, Sorted;
    forall i | 0 <= i < |older| ensures older[i].timestamp < cutoff {
      assert older[i] == history[|history| - |recent| + i];
    }
    NoneInWindow(older, cutoff);
    InWindowSplit(older, deque, cutoff);
    PruneIsWindow(deque, cutoff);
  }
}
