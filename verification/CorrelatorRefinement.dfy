/** The bounded correlator answers every observation as the plain reference does. */
module CorrelatorRefinement {
  import opened OrderedDict
  import opened Correlator

  function DequeOf(events: Dict<string, seq<Event>>, actor: string): seq<Event> {
    if actor in events.items then events.items[actor] else []
  }

  // -------------------------------------------------------------------- relation

  /** What ties an actor's bounded state to its plain history at clock reading `now`. */
  ghost predicate ActorAgrees(s: State, p: Plain, cfg: Config, now: int, a: string) {
    && Sorted(HistoryOf(p, a)) && (forall i :: 0 <= i < |HistoryOf(p, a)| ==> HistoryOf(p, a)[i].timestamp <= now)
    && Represents(DequeOf(s.events, a), HistoryOf(p, a), now - cfg.Window())
    && (a in s.lastIncident ==> a in p.raised && p.raised[a] == s.lastIncident[a])
    && (a in p.raised && a !in s.lastIncident ==> now - p.raised[a] >= cfg.Cooldown())
  }

  ghost predicate Agrees(s: State, p: Plain, cfg: Config, now: int) {
    && s.events.Valid() && |s.events.order| <= cfg.maxActors
    && forall a :: ActorAgrees(s, p, cfg, now, a)
  }

  lemma AgreesLater(s: State, p: Plain, cfg: Config, now: int, later: int)
    requires Agrees(s, p, cfg, now) && now <= later
    ensures Agrees(s, p, cfg, later)
  {
    forall a ensures ActorAgrees(s, p, cfg, later, a) {
      assert ActorAgrees(s, p, cfg, now, a);
      RepresentsLater(DequeOf(s.events, a), HistoryOf(p, a), now - cfg.Window(), later - cfg.Window());
    }
  }

  // ---------------------------------------------------------------- the sweep

  lemma SweepOne(events: Dict<string, seq<Event>>, a: string, kept: seq<Event>)
    requires events.Valid()
    ensures var r := if kept == [] then events.Remove(a) else events.Put(a, kept);
            && r.Valid() && (a in events.items ==> |r.order| <= |events.order|)
            && DequeOf(r, a) == kept
            && forall x :: x != a ==> DequeOf(r, x) == DequeOf(events, x) && (x in r.items <==> x in events.items)
  {
    RemoveValid(events, a);
  }

  lemma {:induction false} SweepShape(events: Dict<string, seq<Event>>, actors: seq<string>, cutoff: int)
    requires events.Valid() && Distinct(actors) && forall a :: a in actors ==> a in events.items
    ensures var r := Sweep(events, actors, cutoff);
            && r.Valid() && |r.order| <= |events.order|
            && (forall a :: DequeOf(r, a) == if a in actors then Prune(DequeOf(events, a), cutoff)
                else DequeOf(events, a))
    decreases |actors|
  {
    hide Prune, Without;
    if actors != [] {
      var a := actors[0];
      var kept := Prune(events.items[a], cutoff);
      var next := if kept == [] then events.Remove(a) else events.Put(a, kept);
      SweepOne(events, a, kept);
      assert DequeOf(events, a) == events.items[a];
      hide DequeOf;
      assert actors == [a] + actors[1..] && a !in actors[1..];
      SweepShape(next, actors[1..], cutoff);
    }
  }

  lemma {:induction false} SweepKeys(events: Dict<string, seq<Event>>, actors: seq<string>, cutoff: int)
    requires events.Valid() && Distinct(actors) && forall a :: a in actors ==> a in events.items
    ensures Sweep(events, actors, cutoff).Valid()
    ensures forall a :: a in Sweep(events, actors, cutoff).items ==> a in events.items
    decreases |actors|
  {
    hide DequeOf, Prune;
    if actors != [] {
      var a := actors[0];
      var kept := Prune(events.items[a], cutoff);
      var next := if kept == [] then events.Remove(a) else events.Put(a, kept);
      SweepOne(events, a, kept);
      assert actors == [a] + actors[1..] && a !in actors[1..];
      SweepKeys(next, actors[1..], cutoff);
    }
  }

  /** One actor before and after a sweep that deletes the cooldowns that are over. */
  lemma SweptActorAgrees(s: State, r: State, p: Plain, cfg: Config, now: int, a: string)
    requires ActorAgrees(s, p, cfg, now, a)
    requires DequeOf(r.events, a) == DequeOf(s.events, a)
        || DequeOf(r.events, a) == Prune(DequeOf(s.events, a), now - cfg.Window())
    requires a in r.lastIncident <==> a in s.lastIncident && s.lastIncident[a] > now - cfg.Cooldown()
    requires a in r.lastIncident ==> r.lastIncident[a] == s.lastIncident[a]
    ensures ActorAgrees(r, p, cfg, now, a)
  {
    PruneRepresents(DequeOf(s.events, a), HistoryOf(p, a), now - cfg.Window());
    hide Represents, Prune, DequeOf, HistoryOf;
  }

  /** Throttled cleanup changes no actor's window and no live cooldown. */
  lemma CleanupAgrees(s: State, p: Plain, cfg: Config, now: int)
    requires Agrees(s, p, cfg, now)
    ensures Agrees(Cleanup(s, cfg, now), p, cfg, now)
  {
    hide ActorAgrees, Sweep, Prune;
    var r := Cleanup(s, cfg, now);
    SweepShape(s.events, s.events.order, now - cfg.Window());
    if r != s {
      forall a ensures ActorAgrees(r, p, cfg, now, a) {
        assert ActorAgrees(s, p, cfg, now, a);
        SweptActorAgrees(s, r, p, cfg, now, a);
      }
    }
  }

  // ------------------------------------------------------------------ eviction

  /** `r` is `s` without some actors and their cooldowns. */
  ghost predicate Shrunk(s: State, r: State) {
    && r.events.Valid() && r.lastCleanup == s.lastCleanup
    && (forall a :: a in r.events.items ==> a in s.events.items && r.events.items[a] == s.events.items[a])
    && (forall a :: a in r.lastIncident <==> a in s.lastIncident && (a in s.events.items ==> a in r.events.items))
    && (forall a :: a in r.lastIncident ==> r.lastIncident[a] == s.lastIncident[a])
  }

  lemma ShrinkOne(s: State, stale: string)
    requires s.events.Valid() && stale in s.events.items
    ensures var r := s.(events := s.events.Remove(stale), lastIncident := s.lastIncident - {stale});
            Shrunk(s, r) && |r.events.order| == |s.events.order| - 1
  {
    RemoveValid(s.events, stale);
  }

  lemma ShrunkTrans(s: State, m: State, r: State)
    requires Shrunk(s, m) && Shrunk(m, r)
    ensures Shrunk(s, r)
  {
  }

  lemma {:induction false} EvictShape(s: State, max: nat)
    requires s.events.Valid() && max >= 1
    ensures Shrunk(s, Evict(s, max)) && |Evict(s, max).events.order| < max
    ensures |s.events.order| < max ==> Evict(s, max) == s
    decreases |s.events.order|
  {
    if |s.events.order| >= max {
      var stale := s.events.order[0];
      ShrinkOne(s, stale);
      var next := s.(events := s.events.Remove(stale), lastIncident := s.lastIncident - {stale});
      EvictShape(next, max);
      ShrunkTrans(s, next, Evict(next, max));
    }
  }

  /** The plain reference without the evicted actors. */
  function Forget(p: Plain, evicted: set<string>): Plain {
    Plain(p.history - evicted, p.raised - evicted)
  }

  /** Dropping actors and giving `actor` an entry keeps every actor in agreement. */
  lemma ForgetAgrees(s: State, r: State, p: Plain, cfg: Config, now: int, actor: string)
    requires Agrees(s, p, cfg, now) && Shrunk(s, r)
    ensures forall a :: ActorAgrees(r, Forget(p, s.events.items.Keys - r.events.items.Keys), cfg, now, a)
  {
    var evicted := s.events.items.Keys - r.events.items.Keys;
    forall a ensures ActorAgrees(r, Forget(p, evicted), cfg, now, a) {
      assert ActorAgrees(s, p, cfg, now, a);
      assert DequeOf(r.events, a) == if a in evicted then [] else DequeOf(s.events, a);
      assert HistoryOf(Forget(p, evicted), a) == if a in evicted then [] else HistoryOf(p, a);
    }
  }

  lemma SameDequesAgree(s: State, r: State, p: Plain, cfg: Config, now: int)
    requires forall a :: ActorAgrees(s, p, cfg, now, a)
    requires r.lastIncident == s.lastIncident && forall a :: DequeOf(r.events, a) == DequeOf(s.events, a)
    ensures forall a :: ActorAgrees(r, p, cfg, now, a)
  {
    forall a ensures ActorAgrees(r, p, cfg, now, a) {
      assert ActorAgrees(s, p, cfg, now, a);
    }
  }

  /** Making room and moving to the end leave every other actor as it was. */
  lemma TrackAgrees(s: State, p: Plain, cfg: Config, now: int, actor: string)
    requires Agrees(s, p, cfg, now) && cfg.maxActors >= 1
    ensures var r := Track(s, cfg, actor);
            && Agrees(r, Forget(p, s.events.items.Keys - r.events.items.Keys), cfg, now)
            && actor in r.events.items
  {
    hide Evict, ActorAgrees, Without;
    var r := Track(s, cfg, actor);
    var evicted := s.events.items.Keys - r.events.items.Keys;
    if actor in s.events.items {
      MoveToEndValid(s.events, actor);
      assert evicted == {};
      assert p == Forget(p, evicted);
      SameDequesAgree(s, r, p, cfg, now);
    } else {
      EvictShape(s, cfg.maxActors);
      var room := Evict(s, cfg.maxActors);
      PutValid(room.events, actor, []);
      assert evicted == s.events.items.Keys - room.events.items.Keys;
      ForgetAgrees(s, room, p, cfg, now, actor);
      SameDequesAgree(room, r, Forget(p, evicted), cfg, now);
    }
  }

  // ----------------------------------------------------------------- one step

  lemma RecordWindow(deque: seq<Event>, past: seq<Event>, e: Event, cfg: Config)
    requires Sorted(past) && forall i :: 0 <= i < |past| ==> past[i].timestamp <= e.timestamp
    requires Represents(deque, past, e.timestamp - cfg.Window())
    ensures var cutoff := e.timestamp - cfg.Window(); var window := Prune(Last(deque + [e]), cutoff);
            && window == InWindow(Last(past + [e]), cutoff) && Represents(window, past + [e], cutoff)
    ensures Sorted(past + [e]) && forall i :: 0 <= i < |past + [e]| ==> (past + [e])[i].timestamp <= e.timestamp
  {
    hide Sorted, Represents, Prune, InWindow, Last;
    SortedGrows(past, e);
    var cutoff := e.timestamp - cfg.Window();
    AppendRepresents(deque, past, e, cutoff);
    WindowAgrees(Last(deque + [e]), past + [e], cutoff);
    PruneRepresents(Last(deque + [e]), past + [e], cutoff);
  }

  lemma SortedGrows(past: seq<Event>, e: Event)
    requires Sorted(past) && forall i :: 0 <= i < |past| ==> past[i].timestamp <= e.timestamp
    ensures Sorted(past + [e]) && forall i :: 0 <= i < |past + [e]| ==> (past + [e])[i].timestamp <= e.timestamp
  {
  }

  lemma RecordAgrees(s: State, p: Plain, cfg: Config, actor: string, e: Event)
    requires Agrees(s, p, cfg, e.timestamp) && actor in s.events.items
    ensures var cutoff := e.timestamp - cfg.Window();
            var window := Prune(Last(DequeOf(s.events, actor) + [e]), cutoff);
            var history := HistoryOf(p, actor) + [e];
            && window == InWindow(Last(history), cutoff)
            && Agrees(s.(events := s.events.Put(actor, window)), p.(history := p.history[actor := history]), cfg,
                e.timestamp)
  {
    hide Represents, Sorted, Prune, InWindow, Last;
    assert ActorAgrees(s, p, cfg, e.timestamp, actor);
    RecordWindow(DequeOf(s.events, actor), HistoryOf(p, actor), e, cfg);
    var window := Prune(Last(DequeOf(s.events, actor) + [e]), e.timestamp - cfg.Window());
    PutValid(s.events, actor, window);
    var s' := s.(events := s.events.Put(actor, window));
    var p' := p.(history := p.history[actor := HistoryOf(p, actor) + [e]]);
    forall a ensures ActorAgrees(s', p', cfg, e.timestamp, a) {
      assert ActorAgrees(s, p, cfg, e.timestamp, a);
      if a == actor {
        assert HistoryOf(p', a) == HistoryOf(p, a) + [e] && DequeOf(s'.events, a) == window;
      } else {
        assert HistoryOf(p', a) == HistoryOf(p, a) && DequeOf(s'.events, a) == DequeOf(s.events, a);
      }
    }
  }

  lemma RaiseAgrees(s: State, p: Plain, cfg: Config, actor: string, now: int)
    requires Agrees(s, p, cfg, now)
    ensures OnCooldown(s.lastIncident, actor, cfg, now) <==> OnCooldown(p.raised, actor, cfg, now)
    ensures Agrees(s.(lastIncident := s.lastIncident[actor := now]), p.(raised := p.raised[actor := now]), cfg, now)
  {
    hide Represents, Sorted, DequeOf;
    assert ActorAgrees(s, p, cfg, now, actor);
    var s', p' := s.(lastIncident := s.lastIncident[actor := now]), p.(raised := p.raised[actor := now]);
    forall a ensures ActorAgrees(s', p', cfg, now, a) {
      assert ActorAgrees(s, p, cfg, now, a);
    }
  }

  /** One observation: same answer, and the relation holds again. */
  lemma ObserveAgrees(s: State, p: Plain, cfg: Config, actor: string, e: Event)
    requires Agrees(s, p, cfg, e.timestamp) && cfg.maxActors >= 1
    ensures var (s', answer) := Observe(s, cfg, actor, e);
            var (p', expected) := Consult(p, cfg, actor, e, Evicted(s, cfg, actor, e.timestamp));
            answer == expected && Agrees(s', p', cfg, e.timestamp)
  {
    hide Sweep, Evict, Verdict, Prune, InWindow, Last, ActorAgrees, OnCooldown;
    var now := e.timestamp;
    var s0 := Cleanup(s, cfg, now);
    CleanupAgrees(s, p, cfg, now);
    TrackAgrees(s0, p, cfg, now, actor);
    var s1, p1 := Track(s0, cfg, actor), Forget(p, Evicted(s, cfg, actor, now));
    var history := HistoryOf(p1, actor) + [e];
    var window := Prune(Last(DequeOf(s1.events, actor) + [e]), now - cfg.Window());
    RecordAgrees(s1, p1, cfg, actor, e);
    var s2, p2 := s1.(events := s1.events.Put(actor, window)), p1.(history := p1.history[actor := history]);
    RaiseAgrees(s2, p2, cfg, actor, now);
  }

  // ---------------------------------------------------------------- whole runs

  lemma {:induction false} RunAgrees(obs: seq<Observation>, cfg: Config, now: int)
    requires Ordered(obs) && cfg.maxActors >= 1 && forall i :: 0 <= i < |obs| ==> obs[i].event.timestamp <= now
    ensures Agrees(RunState(obs, cfg), RunPlain(obs, cfg), cfg, now)
    decreases |obs|
  {
    if obs == [] {
      forall a ensures ActorAgrees(NO_STATE, NOTHING, cfg, now, a) {}
    } else {
      var before, o := obs[..|obs| - 1], obs[|obs| - 1];
      RunAgrees(before, cfg, o.event.timestamp);
      ObserveAgrees(RunState(before, cfg), RunPlain(before, cfg), cfg, o.actor, o.event);
      AgreesLater(RunState(obs, cfg), RunPlain(obs, cfg), cfg, o.event.timestamp, now);
    }
  }

  /** The correlator refines plain history: after any run, an observation is answered exactly
      as by the reference, which decides on the actor's last 500 observations inside the
      window and on its last incident, both since the actor was last evicted.  And at most
      `maxActors` actors are held. */
  lemma CorrelatorRefinesHistory(obs: seq<Observation>, o: Observation, cfg: Config)
    requires Ordered(obs + [o]) && cfg.maxActors >= 1
    ensures var s := RunState(obs, cfg);
            Observe(s, cfg, o.actor, o.event).1
            == Consult(RunPlain(obs, cfg), cfg, o.actor, o.event, Evicted(s, cfg, o.actor, o.event.timestamp)).1
    ensures |RunState(obs, cfg).events.order| <= cfg.maxActors
  {
    var all := obs + [o];
    forall i | 0 <= i < |obs| ensures obs[i].event.timestamp <= o.event.timestamp {
      assert all[i].event.timestamp <= all[|obs|].event.timestamp;
    }
    assert Ordered(obs) by {
      forall i, j | 0 <= i < j < |obs| ensures obs[i].event.timestamp <= obs[j].event.timestamp {
        assert all[i].event.timestamp <= all[j].event.timestamp;
      }
    }
    RunAgrees(obs, cfg, o.event.timestamp);
    ObserveAgrees(RunState(obs, cfg), RunPlain(obs, cfg), cfg, o.actor, o.event);
  }

  // ---------------------------------------------------- when nothing is evicted

  function Actors(obs: seq<Observation>): set<string> { set o | o in obs :: o.actor }

  lemma CleanupTracks(s: State, cfg: Config, now: int)
    requires s.events.Valid()
    ensures Cleanup(s, cfg, now).events.Valid()
    ensures forall a :: a in Cleanup(s, cfg, now).events.items ==> a in s.events.items
  {
    hide Sweep, DequeOf;
    SweepKeys(s.events, s.events.order, now - cfg.Window());
  }

  lemma TrackTracks(s: State, cfg: Config, actor: string)
    requires s.events.Valid() && cfg.maxActors >= 1
    ensures Track(s, cfg, actor).events.Valid()
    ensures forall a :: a in Track(s, cfg, actor).events.items ==> a in s.events.items || a == actor
  {
    if actor in s.events.items {
      MoveToEndValid(s.events, actor);
    } else {
      EvictShape(s, cfg.maxActors);
      PutValid(Evict(s, cfg.maxActors).events, actor, []);
    }
  }

  lemma ObserveTracks(s: State, cfg: Config, actor: string, e: Event)
    requires s.events.Valid() && cfg.maxActors >= 1
    ensures Observe(s, cfg, actor, e).0.events.Valid()
    ensures forall a :: a in Observe(s, cfg, actor, e).0.events.items ==> a in s.events.items || a == actor
  {
    hide Cleanup, Track, Verdict, Prune, Last;
    CleanupTracks(s, cfg, e.timestamp);
    TrackTracks(Cleanup(s, cfg, e.timestamp), cfg, actor);
  }

  lemma {:induction false} TrackedWereSeen(obs: seq<Observation>, cfg: Config)
    requires cfg.maxActors >= 1
    ensures RunState(obs, cfg).events.Valid()
    ensures forall a :: a in RunState(obs, cfg).events.items ==> a in Actors(obs)
    decreases |obs|
  {
    hide Observe;
    if obs != [] {
      var before, o := obs[..|obs| - 1], obs[|obs| - 1];
      TrackedWereSeen(before, cfg);
      ObserveTracks(RunState(before, cfg), cfg, o.actor, o.event);
      assert obs == before + [o];
      assert o in obs && forall x :: x in before ==> x in obs;
    }
  }

  /** As long as the actors seen fit the cap nothing is ever evicted, so the reference keeps
      its whole history. */
  lemma NothingEvictedBelowCap(obs: seq<Observation>, o: Observation, cfg: Config)
    requires cfg.maxActors >= 1 && |Actors(obs) + {o.actor}| <= cfg.maxActors
    ensures Evicted(RunState(obs, cfg), cfg, o.actor, o.event.timestamp) == {}
  {
    hide RunState, Observe, Cleanup, Sweep;
    TrackedWereSeen(obs, cfg);
    var s := RunState(obs, cfg);
    CleanupTracks(s, cfg, o.event.timestamp);
    var s0 := Cleanup(s, cfg, o.event.timestamp);
    if o.actor !in s0.events.items {
      var others := Actors(obs) + {o.actor} - {o.actor};
      DistinctSize(s0.events.order, others);
      assert |others| < |Actors(obs) + {o.actor}|;
      EvictShape(s0, cfg.maxActors);
    }
  }

  // -------------------------------------------------------------- the sequence

  /** `matched` is an order-preserving selection from `events`. */
  ghost predicate SubSequence(matched: seq<Event>, events: seq<Event>) {
    if matched == [] then true
    else if events == [] then false
    else if matched[0] == events[0] && SubSequence(matched[1..], events[1..]) then true
    else SubSequence(matched, events[1..])
  }

  ghost predicate FollowsFrom(matched: seq<Event>, next: nat) {
    |matched| + next == |SEQUENCE| && forall i :: 0 <= i < |matched| ==> matched[i].category == SEQUENCE[next + i]
  }

  /** What the scan returns is an embedding of the rest of the sequence. */
  lemma {:induction false} MatchIsEmbedding(events: seq<Event>, next: nat)
    requires next < |SEQUENCE| && Match(events, next).Some?
    ensures SubSequence(Match(events, next).value, events) && FollowsFrom(Match(events, next).value, next)
    decreases |events|
  {
    var r := Match(events, next).value;
    if events[0].category != SEQUENCE[next] {
      MatchIsEmbedding(events[1..], next);
    } else if next + 1 < |SEQUENCE| {
      MatchIsEmbedding(events[1..], next + 1);
      assert r[1..] == Match(events[1..], next + 1).value;
    } else {
      assert r[1..] == [];
    }
  }

  /** The greedy scan misses nothing: any embedding makes it succeed. */
  lemma {:induction false} MatchIsComplete(events: seq<Event>, next: nat, chosen: seq<Event>)
    requires next < |SEQUENCE| && SubSequence(chosen, events) && FollowsFrom(chosen, next)
    ensures Match(events, next).Some?
    decreases |events|
  {
    if events[0].category != SEQUENCE[next] {
      MatchIsComplete(events[1..], next, chosen);
    } else if next + 1 < |SEQUENCE| {
      TailEmbeds(chosen, events);
      MatchIsComplete(events[1..], next + 1, chosen[1..]);
    }
  }

  lemma {:induction false} TailEmbeds(chosen: seq<Event>, events: seq<Event>)
    requires chosen != [] && events != [] && SubSequence(chosen, events)
    ensures SubSequence(chosen[1..], events[1..])
    decreases |events|
  {
    if !(chosen[0] == events[0] && SubSequence(chosen[1..], events[1..])) {
      var rest := events[1..];
      TailEmbeds(chosen, rest);
      if chosen[1..] != [] {
        assert SubSequence(chosen[1..], rest[1..]);
      }
    }
  }

  /** The scan finds a match exactly when new device, port scan and lateral movement occur in
      this order among the window's events. */
  lemma SequenceIffSubSequence(events: seq<Event>)
    ensures Match(events, 0).Some? <==> exists w: seq<Event> :: SubSequence(w, events) && FollowsFrom(w, 0)
  {
    if Match(events, 0).Some? {
      MatchIsEmbedding(events, 0);
    }
    if w: seq<Event> :| SubSequence(w, events) && FollowsFrom(w, 0) {
      MatchIsComplete(events, 0, w);
    }
  }
}
