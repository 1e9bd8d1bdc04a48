/** Who the correlator's cap evicts, and at what load (alerts/correlator.py:77-89, 125-137). */
module CorrelatorEviction {
  import opened OrderedDict
  import opened Correlator
  import opened CorrelatorRefinement

  // ---------------------------------------------------------------- the order of actors

  /** The place of the actor's last observation, 0 if there is none. */
  function LastSeen(obs: seq<Observation>, actor: string): nat {
    if obs == [] then 0
    else if obs[|obs| - 1].actor == actor then |obs|
    else LastSeen(obs[..|obs| - 1], actor)
  }

  lemma {:induction false} LastSeenFits(obs: seq<Observation>, actor: string)
    ensures LastSeen(obs, actor) <= |obs|
  {
    if obs != [] {
      LastSeenFits(obs[..|obs| - 1], actor);
    }
  }

  lemma LastSeenGrows(obs: seq<Observation>, o: Observation, actor: string)
    ensures LastSeen(obs + [o], actor) == if o.actor == actor then |obs| + 1 else LastSeen(obs, actor)
  {
    assert (obs + [o])[..|obs|] == obs;
  }

  lemma {:induction false} SweepSorted(events: Dict<string, seq<Event>>, actors: seq<string>, cutoff: int,
      f: string -> int)
    requires SortedBy(events.order, f) && events.Valid() && forall a :: a in actors ==> a in events.items
    requires Distinct(actors)
    ensures SortedBy(Sweep(events, actors, cutoff).order, f)
    decreases |actors|
  {
    hide Prune;
    if actors != [] {
      var a := actors[0];
      var kept := Prune(events.items[a], cutoff);
      var next := if kept == [] then events.Remove(a) else events.Put(a, kept);
      SortedWithout(events.order, f, a);
      SweepOne(events, a, kept);
      assert actors == [a] + actors[1..] && a !in actors[1..];
      SweepSorted(next, actors[1..], cutoff, f);
    }
  }

  /** Eviction takes actors from the front. */
  lemma {:induction false} EvictTakesFront(s: State, max: nat)
    requires s.events.Valid() && max >= 1
    ensures |Evict(s, max).events.order| <= |s.events.order|
    ensures Evict(s, max).events.order == s.events.order[|s.events.order| - |Evict(s, max).events.order|..]
    decreases |s.events.order|
  {
    if |s.events.order| >= max {
      var stale := s.events.order[0];
      var next := s.(events := s.events.Remove(stale), lastIncident := s.lastIncident - {stale});
      RemoveValid(s.events, stale);
      WithoutFirst(s.events.order);
      EvictTakesFront(next, max);
    }
  }

  lemma CleanupSorted(s: State, cfg: Config, now: int, f: string -> int)
    requires s.events.Valid() && SortedBy(s.events.order, f)
    ensures SortedBy(Cleanup(s, cfg, now).events.order, f)
  {
    SweepSorted(s.events, s.events.order, now - cfg.Window(), f);
    hide Sweep;
  }

  /** After tracking, the actor is last and the others keep their order. */
  lemma TrackSorted(s: State, cfg: Config, actor: string, f: string -> int)
    requires s.events.Valid() && SortedBy(s.events.order, f) && cfg.maxActors >= 1
    ensures var order := Track(s, cfg, actor).events.order;
            && order != [] && order[|order| - 1] == actor
            && SortedBy(order[..|order| - 1], f) && actor !in order[..|order| - 1]
  {
    var r := Track(s, cfg, actor);
    if actor in s.events.items {
      SortedWithout(s.events.order, f, actor);
      assert r.events.order[..|r.events.order| - 1] == Without(s.events.order, actor);
    } else {
      EvictTakesFront(s, cfg.maxActors);
      EvictShape(s, cfg.maxActors);
      var room := Evict(s, cfg.maxActors);
      hide Evict;
      assert r.events.order == room.events.order + [actor];
      assert r.events.order[..|r.events.order| - 1] == room.events.order;
    }
  }

  lemma ObserveOrder(s: State, cfg: Config, actor: string, e: Event)
    requires s.events.Valid() && cfg.maxActors >= 1
    ensures Observe(s, cfg, actor, e).0.events.order == Track(Cleanup(s, cfg, e.timestamp), cfg, actor).events.order
  {
    CleanupTracks(s, cfg, e.timestamp);
    hide Cleanup, Evict, Verdict, Prune, Last;
    TrackAgreesOnActor(Cleanup(s, cfg, e.timestamp), cfg, actor);
  }

  lemma TrackAgreesOnActor(s: State, cfg: Config, actor: string)
    requires s.events.Valid() && cfg.maxActors >= 1
    ensures actor in Track(s, cfg, actor).events.items
  {
    hide Evict;
  }

  lemma OrderStep(before: seq<Observation>, o: Observation, s: State, cfg: Config)
    requires s.events.Valid() && cfg.maxActors >= 1 && SortedBy(s.events.order, a => LastSeen(before, a))
    ensures SortedBy(Observe(s, cfg, o.actor, o.event).0.events.order, a => LastSeen(before + [o], a))
  {
    hide Observe, Cleanup, Track;
    var f: string -> int, g: string -> int := a => LastSeen(before, a), a => LastSeen(before + [o], a);
    var s0 := Cleanup(s, cfg, o.event.timestamp);
    CleanupSorted(s, cfg, o.event.timestamp, f);
    CleanupTracks(s, cfg, o.event.timestamp);
    TrackSorted(s0, cfg, o.actor, f);
    ObserveOrder(s, cfg, o.actor, o.event);
    var order := Track(s0, cfg, o.actor).events.order;
    forall x ensures f(x) < |before| + 1 && g(x) == (if x == o.actor then |before| + 1 else f(x)) {
      LastSeenFits(before, x);
      LastSeenGrows(before, o, x);
    }
    hide LastSeen;
    SortedAppend(order[..|order| - 1], o.actor, f, g, |before| + 1);
    assert order == order[..|order| - 1] + [o.actor];
  }

  /** The actors held are in order of their last observation. */
  lemma {:induction false} ObservationOrder(obs: seq<Observation>, cfg: Config)
    requires cfg.maxActors >= 1
    ensures RunState(obs, cfg).events.Valid()
    ensures SortedBy(RunState(obs, cfg).events.order, a => LastSeen(obs, a))
    decreases |obs|
  {
    hide Observe, LastSeen;
    TrackedWereSeen(obs, cfg);
    if obs != [] {
      var before, o := obs[..|obs| - 1], obs[|obs| - 1];
      ObservationOrder(before, cfg);
      OrderStep(before, o, RunState(before, cfg), cfg);
      assert obs == before + [o];
    }
  }

  /** An evicted actor was observed less recently than every actor that stays. */
  lemma EvictedActorIsOldest(obs: seq<Observation>, o: Observation, cfg: Config, gone: string, other: string)
    requires cfg.maxActors >= 1
    requires var s, now := RunState(obs, cfg), o.event.timestamp;
             && gone in Evicted(s, cfg, o.actor, now)
             && other in Track(Cleanup(s, cfg, now), cfg, o.actor).events.items && other != o.actor
    ensures LastSeen(obs, gone) < LastSeen(obs, other)
  {
    ObservationOrder(obs, cfg);
    var s, now := RunState(obs, cfg), o.event.timestamp;
    hide RunState;
    CleanupSorted(s, cfg, now, a => LastSeen(obs, a));
    CleanupTracks(s, cfg, now);
    var s0 := Cleanup(s, cfg, now);
    hide Cleanup;
    FrontIsOlder(s0, cfg, o.actor, gone, other, a => LastSeen(obs, a));
  }

  lemma FrontIsOlder(s: State, cfg: Config, actor: string, gone: string, other: string, f: string -> int)
    requires s.events.Valid() && SortedBy(s.events.order, f) && cfg.maxActors >= 1
    requires gone in s.events.items && gone !in Track(s, cfg, actor).events.items
    requires other in Track(s, cfg, actor).events.items && other != actor
    ensures f(gone) < f(other)
  {
    EvictTakesFront(s, cfg.maxActors);
    EvictShape(s, cfg.maxActors);
    var room := Evict(s, cfg.maxActors);
    hide Evict;
    SuffixIsNewer(s.events.order, |s.events.order| - |room.events.order|, gone, other, f);
  }

  lemma SuffixIsNewer(order: seq<string>, cut: nat, gone: string, other: string, f: string -> int)
    requires SortedBy(order, f) && cut <= |order|
    requires gone in order && gone !in order[cut..] && other in order[cut..]
    ensures f(gone) < f(other)
  {
    assert forall i :: cut <= i < |order| ==> order[i] in order[cut..] by {
      assert forall i :: cut <= i < |order| ==> order[i] == order[cut..][i - cut];
    }
    var i :| 0 <= i < |order| && order[i] == gone;
    var j :| 0 <= j < |order[cut..]| && order[cut..][j] == other;
    assert order[cut + j] == other;
  }

  // -------------------------------------------------------------------- the load it takes

  /** The actors observed after a time. */
  function Active(obs: seq<Observation>, since: int): set<string> {
    set o | o in obs && o.event.timestamp > since :: o.actor
  }

  /** The actor has an observation at or after a time. */
  ghost predicate SeenAt(obs: seq<Observation>, actor: string, since: int) {
    exists e :: Observation(actor, e) in obs && e.timestamp >= since
  }

  /** Deques hold observations of their actor. */
  ghost predicate Traced(s: State, obs: seq<Observation>) {
    forall a, e :: a in s.events.items && e in s.events.items[a] ==> Observation(a, e) in obs
  }

  /** Every actor held was observed inside the window as of the last sweep. */
  ghost predicate Alive(s: State, obs: seq<Observation>, cfg: Config, clock: int) {
    forall a :: a in s.events.items ==>
      s.lastCleanup.Some? && s.lastCleanup.value <= clock && SeenAt(obs, a, s.lastCleanup.value - cfg.Window())
  }

  /** What a sweep leaves of one actor. */
  ghost predicate Swept(events: Dict<string, seq<Event>>, r: Dict<string, seq<Event>>, cutoff: int, a: string) {
    a in r.items ==> a in events.items && r.items[a] == Prune(events.items[a], cutoff) != []
  }

  lemma {:induction false} SweepLeaves(events: Dict<string, seq<Event>>, actors: seq<string>, cutoff: int, a: string)
    requires events.Valid() && Distinct(actors) && forall x :: x in actors ==> x in events.items
    ensures a in actors ==> Swept(events, Sweep(events, actors, cutoff), cutoff, a)
    ensures a !in actors ==> (a in Sweep(events, actors, cutoff).items <==> a in events.items)
                             && (a in events.items ==> Sweep(events, actors, cutoff).items[a] == events.items[a])
    decreases |actors|
  {
    hide Prune;
    if actors != [] {
      var first := actors[0];
      var kept := Prune(events.items[first], cutoff);
      var next := if kept == [] then events.Remove(first) else events.Put(first, kept);
      SweepOne(events, first, kept);
      assert actors == [first] + actors[1..] && first !in actors[1..];
      SweepLeaves(next, actors[1..], cutoff, a);
    }
  }

  lemma {:induction false} PruneKeeps(events: seq<Event>, cutoff: int)
    ensures forall e :: e in Prune(events, cutoff) ==> e in events
    ensures Prune(events, cutoff) != [] ==> Prune(events, cutoff)[0].timestamp >= cutoff
  {
    if events != [] && events[0].timestamp < cutoff {
      PruneKeeps(events[1..], cutoff);
    }
  }

  lemma SweptIsAlive(s: State, r: Dict<string, seq<Event>>, obs: seq<Observation>, cutoff: int, a: string)
    requires Traced(s, obs) && Swept(s.events, r, cutoff, a) && a in r.items
    ensures SeenAt(obs, a, cutoff) && forall e :: e in r.items[a] ==> Observation(a, e) in obs
  {
    PruneKeeps(s.events.items[a], cutoff);
    var e := r.items[a][0];
    assert e in s.events.items[a];
    assert Observation(a, e) in obs;
  }

  /** Cleanup leaves only actors seen within the window and one sweep interval. */
  lemma CleanupAlive(s: State, obs: seq<Observation>, cfg: Config, clock: int, now: int)
    requires s.events.Valid() && Traced(s, obs) && Alive(s, obs, cfg, clock) && clock <= now
    ensures var r := Cleanup(s, cfg, now);
            && Traced(r, obs) && Alive(r, obs, cfg, now)
            && (forall a :: a in r.events.items ==> SeenAt(obs, a, now - cfg.Window() - cfg.Interval() + 1))
            && (r.lastCleanup.Some? && (r.lastCleanup == s.lastCleanup || r.lastCleanup.value == now))
  {
    var r, cutoff := Cleanup(s, cfg, now), now - cfg.Window();
    if r == s && s.lastCleanup.Some? && now - s.lastCleanup.value < cfg.Interval() {
      forall a | a in r.events.items ensures SeenAt(obs, a, now - cfg.Window() - cfg.Interval() + 1) {
        assert SeenAt(obs, a, s.lastCleanup.value - cfg.Window());
      }
    } else {
      forall a | a in r.events.items
        ensures SeenAt(obs, a, cutoff) && SeenAt(obs, a, cutoff - cfg.Interval() + 1)
        ensures forall e :: e in r.events.items[a] ==> Observation(a, e) in obs
      {
        SweepLeaves(s.events, s.events.order, cutoff, a);
        SweptIsAlive(s, r.events, obs, cutoff, a);
      }
    }
  }

  /** The actor's own deque after its observation. */
  lemma WindowTraced(had: seq<Event>, e: Event, cutoff: int)
    ensures forall x :: x in Prune(Last(had + [e]), cutoff) ==> x in had || x == e
  {
    PruneKeeps(Last(had + [e]), cutoff);
  }

  lemma ObserveAlive(s: State, obs: seq<Observation>, cfg: Config, clock: int, o: Observation)
    requires s.events.Valid() && Traced(s, obs) && Alive(s, obs, cfg, clock)
    requires clock <= o.event.timestamp && cfg.maxActors >= 1 && (s.lastCleanup.Some? ==> s.lastCleanup.value <= clock)
    ensures var r := Observe(s, cfg, o.actor, o.event).0;
            Traced(r, obs + [o]) && Alive(r, obs + [o], cfg, o.event.timestamp)
            && (r.lastCleanup.Some? && r.lastCleanup.value <= o.event.timestamp)
  {
    hide Observe, Cleanup, Track, Prune, Last;
    var now := o.event.timestamp;
    CleanupAlive(s, obs, cfg, clock, now);
    CleanupTracks(s, cfg, now);
    var s0 := Cleanup(s, cfg, now);
    ObserveShape(s, cfg, o.actor, o.event);
    TrackKeeps(s0, cfg, o.actor);
    var r, s1 := Observe(s, cfg, o.actor, o.event).0, Track(s0, cfg, o.actor);
    var had := if o.actor in s1.events.items then s1.events.items[o.actor] else [];
    WindowTraced(had, o.event, now - cfg.Window());
    assert Observation(o.actor, o.event) == o;
    assert o in obs + [o];
    forall a | a in r.events.items ensures SeenAt(obs + [o], a, r.lastCleanup.value - cfg.Window()) {
      if a == o.actor {
        assert Observation(a, o.event) in obs + [o];
      } else {
        assert a in s0.events.items;
        SeenLater(obs, o, a, s0.lastCleanup.value - cfg.Window());
      }
    }
  }

  lemma ObserveShape(s: State, cfg: Config, actor: string, e: Event)
    requires cfg.maxActors >= 1
    ensures var r, s1 := Observe(s, cfg, actor, e).0, Track(Cleanup(s, cfg, e.timestamp), cfg, actor);
            var had := if actor in s1.events.items then s1.events.items[actor] else [];
            && r.lastCleanup == s1.lastCleanup
            && r.events == s1.events.Put(actor, Prune(Last(had + [e]), e.timestamp - cfg.Window()))
  {
    hide Cleanup, Track, Prune, Last, Verdict;
  }

  lemma SeenLater(obs: seq<Observation>, o: Observation, a: string, since: int)
    requires SeenAt(obs, a, since)
    ensures SeenAt(obs + [o], a, since)
  {
    var e :| Observation(a, e) in obs && e.timestamp >= since;
    assert Observation(a, e) in obs + [o];
  }

  /** Tracking keeps deques, adds at most an empty one, and leaves the sweep time alone. */
  lemma TrackKeeps(s: State, cfg: Config, actor: string)
    requires s.events.Valid() && cfg.maxActors >= 1
    ensures var r := Track(s, cfg, actor);
            && r.lastCleanup == s.lastCleanup
            && (forall a ::
                  a in r.events.items && a != actor
                  ==> a in s.events.items && r.events.items[a] == s.events.items[a])
            && (actor in r.events.items ==>
                  r.events.items[actor] == if actor in s.events.items then s.events.items[actor] else [])
  {
    if actor !in s.events.items {
      EvictShape(s, cfg.maxActors);
      hide Evict;
    }
  }

  lemma {:induction false} RunAlive(obs: seq<Observation>, cfg: Config, clock: int)
    requires Ordered(obs) && cfg.maxActors >= 1 && forall i :: 0 <= i < |obs| ==> obs[i].event.timestamp <= clock
    ensures var s := RunState(obs, cfg);
            && s.events.Valid() && Traced(s, obs) && Alive(s, obs, cfg, clock)
            && (s.lastCleanup.Some? ==> s.lastCleanup.value <= clock)
    decreases |obs|
  {
    hide Observe, Ordered;
    TrackedWereSeen(obs, cfg);
    if obs != [] {
      var before, o := obs[..|obs| - 1], obs[|obs| - 1];
      assert obs == before + [o];
      OrderedBefore(before, o);
      RunAlive(before, cfg, o.event.timestamp);
      hide Traced, Alive;
      ObserveAlive(RunState(before, cfg), before, cfg, o.event.timestamp, o);
      AliveLater(RunState(obs, cfg), obs, cfg, o.event.timestamp, clock);
    }
  }

  lemma AliveLater(s: State, obs: seq<Observation>, cfg: Config, clock: int, later: int)
    requires Alive(s, obs, cfg, clock) && clock <= later
    ensures Alive(s, obs, cfg, later)
  {
  }

  lemma OrderedBefore(obs: seq<Observation>, o: Observation)
    requires Ordered(obs + [o])
    ensures Ordered(obs) && forall i :: 0 <= i < |obs| ==> obs[i].event.timestamp <= o.event.timestamp
  {
    var all := obs + [o];
    assert forall i :: 0 <= i < |obs| ==> all[i] == obs[i];
    assert all[|obs|] == o;
  }

  /** The cap evicts only when more actors than it holds were observed within the window and one
      sweep interval, the one observed now included. */
  lemma EvictedOnlyWhenBusy(obs: seq<Observation>, o: Observation, cfg: Config)
    requires Ordered(obs + [o]) && cfg.maxActors >= 1
    requires Evicted(RunState(obs, cfg), cfg, o.actor, o.event.timestamp) != {}
    ensures var sweep := if cfg.windowSeconds < 1 then 1 else if cfg.windowSeconds > 60 then 60 else cfg.windowSeconds;
            |Active(obs, o.event.timestamp - (cfg.windowSeconds + sweep) * 1_000_000) + {o.actor}| > cfg.maxActors
  {
    hide RunState, Cleanup, Ordered, Traced, Alive, Track;
    var s, now := RunState(obs, cfg), o.event.timestamp;
    OrderedBefore(obs, o);
    RunAlive(obs, cfg, now);
    CleanupAlive(s, obs, cfg, now, now);
    CleanupTracks(s, cfg, now);
    HeldAreActive(Cleanup(s, cfg, now), obs, cfg, o.actor, now - cfg.Window() - cfg.Interval());
  }

  lemma HeldAreActive(s: State, obs: seq<Observation>, cfg: Config, actor: string, since: int)
    requires s.events.Valid() && cfg.maxActors >= 1 && forall a :: a in s.events.items ==> SeenAt(obs, a, since + 1)
    requires s.events.items.Keys - Track(s, cfg, actor).events.items.Keys != {}
    ensures |Active(obs, since) + {actor}| > cfg.maxActors
  {
    EvictShape(s, cfg.maxActors);
    assert actor !in s.events.items && |s.events.order| >= cfg.maxActors;
    hide Evict, Track;
    forall a | a in s.events.order ensures a in Active(obs, since) + {actor} - {actor} {
      assert SeenAt(obs, a, since + 1);
      var e :| Observation(a, e) in obs && e.timestamp >= since + 1;
      assert Observation(a, e).actor == a;
    }
    DistinctSize(s.events.order, Active(obs, since) + {actor} - {actor});
    assert |Active(obs, since) + {actor} - {actor}| == |Active(obs, since) + {actor}| - 1;
  }
}
