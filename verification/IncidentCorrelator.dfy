/** The correlator as the object it is; every method is proved to take the step of Correlator. */
module IncidentCorrelator {
  import opened Basics
  import opened OrderedDict
  import opened Correlator
  import opened CorrelatorRefinement

  class IncidentCorrelator {
    const cfg: Config
    /** Actors least recently seen first, each with its deque. */
    var events: Dict<string, seq<Event>>
    var lastIncident: map<string, int>
    var lastCleanup: Option<int>
    /** Everything observed so far, with the clock reading of each observation. */
    ghost var history: seq<Observation>

    ghost function View(): State
      reads this
    {
      State(events, lastIncident, lastCleanup)
    }

    ghost predicate Valid()
      reads this
    {
      cfg.maxActors >= 1 && View() == RunState(history, cfg)
    }

    constructor (windowSeconds: nat, minSensors: nat, minTargets: nat, cooldownSeconds: nat, maxActors: int)
      ensures Valid() && history == []
      ensures cfg == Config(windowSeconds, minSensors, minTargets, cooldownSeconds,
          if maxActors < 1 then 1 else maxActors)
    {
      cfg := Config(windowSeconds, minSensors, minTargets, cooldownSeconds, if maxActors < 1 then 1 else maxActors);
      events, lastIncident, lastCleanup := Empty(), map[], None;
      history := [];
    }

    method CleanupAt(now: int)
      requires events.Valid()
      modifies this`events, this`lastIncident, this`lastCleanup
      ensures View() == Cleanup(old(View()), cfg, now)
    {
      hide Prune, Sweep;
      if lastCleanup.Some? && now - lastCleanup.value < cfg.Interval() {
        return;
      }
      ghost var s := View();
      var cutoff := now - cfg.Window();
      var actors := events.order;
      var i := 0;
      SweepEnd(events, actors, cutoff);
      while i < |actors|
        invariant 0 <= i <= |actors|
        invariant View() == s.(events := events) && actors == s.events.order
        invariant Sweep(events, actors[i..], cutoff) == Sweep(s.events, actors, cutoff)
      {
        SweepStep(events, actors, i, cutoff);
        var actor := actors[i];
        var kept := PruneFrom(if actor in events.items then events.items[actor] else [], cutoff);
        if kept == [] {
          events := events.Remove(actor);
        } else {
          events := events.Put(actor, kept);
        }
        i := i + 1;
      }
      SweepEnd(events, actors, cutoff);
      lastIncident := map a | a in lastIncident && lastIncident[a] > now - cfg.Cooldown() :: lastIncident[a];
      lastCleanup := Some(now);
    }

    /** The eviction loop of `observe`. */
    method EvictStale()
      requires events.Valid() && cfg.maxActors >= 1
      modifies this`events, this`lastIncident
      ensures View() == Evict(old(View()), cfg.maxActors)
    {
      ghost var s := View();
      while |events.order| >= cfg.maxActors
        invariant events.Valid() && Evict(View(), cfg.maxActors) == Evict(s, cfg.maxActors)
        decreases |events.order|
      {
        var stale := events.order[0];
        RemoveValid(events, stale);
        events := events.Remove(stale);
        lastIncident := lastIncident - {stale};
      }
    }

    method TrackActor(actor: string)
      requires events.Valid() && cfg.maxActors >= 1
      modifies this`events, this`lastIncident
      ensures View() == Track(old(View()), cfg, actor) && actor in events.items
    {
      if actor in events.items {
        events := events.MoveToEnd(actor);
      } else {
        EvictStale();
        events := events.Put(actor, []);
      }
    }

    method ObserveAlert(alert: Alert, now: int) returns (actor: string, answer: Answer)
      requires Valid()
      modifies this
      ensures Valid() && actor == ActorOf(alert)
      ensures alert.category == IncidentCategory || actor == "" ==>
                answer == Silent && View() == old(View()) && history == old(history)
      ensures alert.category != IncidentCategory && actor != "" ==>
                && answer == Observe(old(View()), cfg, actor, EventOf(alert, actor, now)).1
                && history == old(history) + [Observation(actor, EventOf(alert, actor, now))]
    {
      actor, answer := ActorOf(alert), Silent;
      if alert.category == IncidentCategory || actor == "" {
        return;
      }
      hide Observe, RunState;
      var event := EventOf(alert, actor, now);
      RunSnoc(history, Observation(actor, event), cfg);
      TrackedWereSeen(history, cfg);
      answer := ObserveActor(actor, event);
      history := history + [Observation(actor, event)];
    }

    /** The part of `observe` that holds the lock. */
    method ObserveActor(actor: string, event: Event) returns (answer: Answer)
      requires events.Valid() && cfg.maxActors >= 1
      modifies this`events, this`lastIncident, this`lastCleanup
      ensures (View(), answer) == Observe(old(View()), cfg, actor, event)
    {
      hide Cleanup, Track, Prune, Match, Last, Sensors, Targets;
      var now := event.timestamp;
      CleanupTracks(View(), cfg, now);
      CleanupAt(now);
      TrackActor(actor);
      var window := PruneFrom(Last(events.items[actor] + [event]), now - cfg.Window());
      events := events.Put(actor, window);
      var triggered := |Sensors(window)| >= cfg.minSensors || |Targets(window)| >= cfg.minTargets;
      var sequence := MatchedSequence(window);
      if !triggered && sequence.None? {
        return Silent;
      }
      if OnCooldown(lastIncident, actor, cfg, now) {
        return Silent;
      }
      lastIncident := lastIncident[actor := now];
      answer := if !triggered && sequence.Some? then SequenceIncident(sequence.value) else Incident(window);
    }
  }

  /** One turn of the sweep. */
  lemma SweepStep(events: Dict<string, seq<Event>>, actors: seq<string>, i: nat, cutoff: int)
    requires i < |actors|
    ensures var kept := Prune(if actors[i] in events.items then events.items[actors[i]] else [], cutoff);
            Sweep(events, actors[i..], cutoff)
            == Sweep(if kept == [] then events.Remove(actors[i]) else events.Put(actors[i], kept), actors[i + 1..],
              cutoff)
  {
    assert Prune([], cutoff) == [];
    hide Prune;
    assert actors[i..][1..] == actors[i + 1..];
  }

  lemma SweepEnd(events: Dict<string, seq<Event>>, actors: seq<string>, cutoff: int)
    ensures Sweep(events, actors[|actors|..], cutoff) == events
    ensures Sweep(events, actors[0..], cutoff) == Sweep(events, actors, cutoff)
  {
    assert actors[|actors|..] == [] && actors[0..] == actors;
  }

  lemma RunSnoc(obs: seq<Observation>, o: Observation, cfg: Config)
    requires cfg.maxActors >= 1
    ensures RunState(obs + [o], cfg) == Observe(RunState(obs, cfg), cfg, o.actor, o.event).0
  {
    assert (obs + [o])[..|obs|] == obs;
  }

  /** The pruning loop on one deque. */
  method PruneFrom(deque: seq<Event>, cutoff: int) returns (kept: seq<Event>)
    ensures kept == Prune(deque, cutoff)
  {
    kept := deque;
    while kept != [] && kept[0].timestamp < cutoff
      invariant Prune(kept, cutoff) == Prune(deque, cutoff)
      decreases |kept|
    {
      kept := kept[1..];
    }
  }

  /** The single scan for the intrusion sequence. */
  method MatchedSequence(events: seq<Event>) returns (r: Option<seq<Event>>)
    ensures r == Match(events, 0)
  {
    var matched: seq<Event> := [];
    var nextIndex := 0;
    var i := 0;
    assert events[0..] == events;
    PrependNothing(Match(events, 0));
    while i < |events|
      invariant 0 <= i <= |events| && 0 <= nextIndex < |SEQUENCE|
      invariant Match(events, 0) == Prepend(matched, Match(events[i..], nextIndex))
    {
      var event := events[i];
      assert events[i..][1..] == events[i + 1..];
      if event.category == SEQUENCE[nextIndex] {
        if nextIndex + 1 < |SEQUENCE| {
          PrependOne(matched, event, Match(events[i + 1..], nextIndex + 1));
        }
        matched := matched + [event];
        nextIndex := nextIndex + 1;
        if nextIndex == |SEQUENCE| {
          return Some(matched);
        }
      }
      i := i + 1;
    }
    r := None;
  }

  function Prepend(matched: seq<Event>, rest: Option<seq<Event>>): Option<seq<Event>> {
    match rest case None => None case Some(r) => Some(matched + r)
  }

  lemma PrependNothing(rest: Option<seq<Event>>)
    ensures Prepend([], rest) == rest
  {
    if rest.Some? {
      assert [] + rest.value == rest.value;
    }
  }

  lemma PrependOne(matched: seq<Event>, e: Event, rest: Option<seq<Event>>)
    ensures Prepend(matched, Prepend([e], rest)) == Prepend(matched + [e], rest)
  {
    if rest.Some? {
      assert matched + ([e] + rest.value) == matched + [e] + rest.value;
    }
  }

  function Rank(s: Severity): nat {
    match s case Info => 0 case Low => 1 case Medium => 2 case High => 3 case Critical => 4
  }

  /** The severities that are not above this one. */
  function AtMost(s: Severity): set<Severity> {
    match s
    case Info => {Info}
    case Low => {Info, Low}
    case Medium => {Info, Low, Medium}
    case High => {Info, Low, Medium, High}
    case Critical => {Info, Low, Medium, High, Critical}
  }

  /** The highest severity among the contributing alerts, INFO when there are none. */
  method PeakSeverity(events: seq<Event>) returns (peak: Severity)
    ensures forall e :: e in events ==> e.severity in AtMost(peak)
    ensures peak == Info || exists e :: e in events && e.severity == peak
  {
    peak := Info;
    for i := 0 to |events|
      invariant forall j :: 0 <= j < i ==> Rank(events[j].severity) <= Rank(peak)
      invariant peak == Info || exists e :: e in events && e.severity == peak
    {
      if Rank(peak) < Rank(events[i].severity) {
        peak := events[i].severity;
      }
    }
  }
}
