/** Adaptive thresholds (detectors/adaptive.py:65-109): trips pruned as they are read, keys dropped
    when idle and swept at a ceiling, beside a reference that keeps every trip. */
module Adaptive {
  import opened Basics
  import opened OrderedDict

  datatype Key = Key(signal: string, host: string)

  /** What the configuration loader lets through; clock readings count microseconds. */
  datatype Config = Config(enabled: bool, tripsBeforeBackoff: nat, window: nat, step: real, maxMultiplier: real) {
    predicate Valid() { window > 0 && step > 0.0 && maxMultiplier >= 1.0 }
  }

  const MAX_KEYS: nat := 8192

  type Trips = Dict<Key, seq<int>>

  /** The capped linear backoff for a number of recent trips. */
  function Backoff(cfg: Config, count: nat): real {
    if !cfg.enabled || count < cfg.tripsBeforeBackoff then 1.0
    else Raised(cfg, count - cfg.tripsBeforeBackoff + 1)
  }

  function Raised(cfg: Config, excess: nat): real {
    var raised := 1.0 + cfg.step * excess as real;
    if raised < cfg.maxMultiplier then raised else cfg.maxMultiplier
  }

  /** `while dq and dq[0] < cutoff: dq.popleft()`. */
  function Prune(trips: seq<int>, cutoff: int): seq<int> {
    if trips == [] || trips[0] >= cutoff then trips else Prune(trips[1..], cutoff)
  }

  /** `_recent_trips` on the state: the key's old trips go, and the key with them if none is left. */
  function Recent(d: Trips, k: Key, cutoff: int): Trips {
    if k !in d.items then d
    else
      var kept := Prune(d.items[k], cutoff);
      if kept == [] then d.Remove(k) else d.Put(k, kept)
  }

  function CountOf(d: Trips, k: Key): nat {
    if k in d.items then |d.items[k]| else 0
  }

  /** `multiplier`: the pruned state and the answer. */
  function Multiplier(d: Trips, cfg: Config, k: Key, now: int): (Trips, real) {
    if !cfg.enabled then (d, 1.0)
    else var n := Recent(d, k, now - cfg.window); (n, Backoff(cfg, CountOf(n, k)))
  }

  /** The sweep at the ceiling, key by key until there is room. */
  function Sweep(d: Trips, keys: seq<Key>, cutoff: int): Trips
    decreases |keys|
  {
    if keys == [] then d
    else
      var n := Recent(d, keys[0], cutoff);
      if |n.items| < MAX_KEYS then n else Sweep(n, keys[1..], cutoff)
  }

  /** `record_trip`. */
  function RecordTrip(d: Trips, cfg: Config, k: Key, now: int): Trips {
    if !cfg.enabled then d
    else
      var n := if |d.items| >= MAX_KEYS then Sweep(d, d.order, now - cfg.window) else d;
      n.Put(k, (if k in n.items then n.items[k] else []) + [now])
  }

  // ---------------------------------------------------------------------- reference

  type History = map<Key, seq<int>>

  function TripsOf(h: History, k: Key): seq<int> {
    if k in h then h[k] else []
  }

  /** How many trips lie at or after a time. */
  function Since(trips: seq<int>, cutoff: int): nat {
    if trips == [] then 0
    else Since(trips[..|trips| - 1], cutoff) + if trips[|trips| - 1] >= cutoff then 1 else 0
  }

  /** What the multiplier stands for: the backoff for every trip ever recorded in the window. */
  function Deserved(h: History, cfg: Config, k: Key, now: int): real {
    Backoff(cfg, Since(TripsOf(h, k), now - cfg.window))
  }

  function Recorded(h: History, cfg: Config, k: Key, now: int): History {
    if !cfg.enabled then h else h[k := TripsOf(h, k) + [now]]
  }

  // --------------------------------------------------------------------- refinement

  /** A key's deque is its history without a stretch of trips that are out of the window. */
  ghost predicate Stands(deque: seq<int>, history: seq<int>, cutoff: int) {
    && |deque| <= |history| && deque == history[|history| - |deque|..]
    && (forall i :: 0 <= i < |history| - |deque| ==> history[i] < cutoff)
    && (forall i, j :: 0 <= i < j < |history| ==> history[i] <= history[j])
  }

  ghost predicate Fits(deque: seq<int>, history: seq<int>, cutoff: int, clock: int) {
    Stands(deque, history, cutoff) && forall i :: 0 <= i < |history| ==> history[i] <= clock
  }

  function DequeOf(d: Trips, k: Key): seq<int> {
    if k in d.items then d.items[k] else []
  }

  ghost predicate Related(d: Trips, h: History, cfg: Config, clock: int) {
    forall k :: Fits(DequeOf(d, k), TripsOf(h, k), clock - cfg.window, clock)
  }

  lemma {:induction false} PruneStands(deque: seq<int>, history: seq<int>, cutoff: int)
    requires Stands(deque, history, cutoff)
    ensures Stands(Prune(deque, cutoff), history, cutoff)
    ensures Prune(deque, cutoff) == [] || Prune(deque, cutoff)[0] >= cutoff
    decreases |deque|
  {
    if deque != [] && deque[0] < cutoff {
      assert history[|history| - |deque|] == deque[0];
      assert deque[1..] == history[|history| - |deque[1..]|..];
      PruneStands(deque[1..], history, cutoff);
    }
  }

  lemma {:induction false} SinceSplits(a: seq<int>, b: seq<int>, cutoff: int)
    ensures Since(a + b, cutoff) == Since(a, cutoff) + Since(b, cutoff)
  {
    if b == [] {
      assert a + b == a;
    } else {
      assert (a + b)[..|a + b| - 1] == a + b[..|b| - 1];
      SinceSplits(a, b[..|b| - 1], cutoff);
    }
  }

  lemma {:induction false} SinceAll(trips: seq<int>, cutoff: int)
    requires forall i :: 0 <= i < |trips| ==> trips[i] >= cutoff
    ensures Since(trips, cutoff) == |trips|
  {
    if trips != [] {
      SinceAll(trips[..|trips| - 1], cutoff);
    }
  }

  lemma {:induction false} SinceNone(trips: seq<int>, cutoff: int)
    requires forall i :: 0 <= i < |trips| ==> trips[i] < cutoff
    ensures Since(trips, cutoff) == 0
  {
    if trips != [] {
      SinceNone(trips[..|trips| - 1], cutoff);
    }
  }

  lemma StandsApart(deque: seq<int>, history: seq<int>, cutoff: int)
    requires Stands(deque, history, cutoff) && (deque == [] || deque[0] >= cutoff)
    ensures var older := history[..|history| - |deque|];
            && history == older + deque
            && (forall i :: 0 <= i < |older| ==> older[i] < cutoff)
                && (forall i :: 0 <= i < |deque| ==> deque[i] >= cutoff)
  {
    forall i | 0 <= i < |deque| ensures deque[i] >= cutoff {
      assert history[|history| - |deque|] == deque[0] && history[|history| - |deque| + i] == deque[i];
    }
  }

  /** A freshly pruned deque holds exactly the trips in the window. */
  lemma PrunedCounts(deque: seq<int>, history: seq<int>, cutoff: int)
    requires Stands(deque, history, cutoff) && (deque == [] || deque[0] >= cutoff)
    ensures |deque| == Since(history, cutoff)
  {
    var older := history[..|history| - |deque|];
    StandsApart(deque, history, cutoff);
    hide Stands, Since;
    SinceSplits(older, deque, cutoff);
    SinceNone(older, cutoff);
    SinceAll(deque, cutoff);
  }

  lemma RecentDeques(d: Trips, k: Key, j: Key, cutoff: int)
    ensures DequeOf(Recent(d, k, cutoff), j) == if j == k then Prune(DequeOf(d, k), cutoff) else DequeOf(d, j)
    ensures CountOf(Recent(d, k, cutoff), k) == |Prune(DequeOf(d, k), cutoff)|
  {
  }

  lemma RecentRelated(d: Trips, h: History, cfg: Config, k: Key, now: int)
    requires Related(d, h, cfg, now)
    ensures Related(Recent(d, k, now - cfg.window), h, cfg, now)
    ensures CountOf(Recent(d, k, now - cfg.window), k) == Since(TripsOf(h, k), now - cfg.window)
  {
    hide Recent, DequeOf, Prune, Stands, TripsOf, CountOf;
    var cutoff := now - cfg.window;
    RecentDeques(d, k, k, cutoff);
    assert Fits(DequeOf(d, k), TripsOf(h, k), cutoff, now);
    PruneStands(DequeOf(d, k), TripsOf(h, k), cutoff);
    PrunedCounts(Prune(DequeOf(d, k), cutoff), TripsOf(h, k), cutoff);
    forall j ensures Fits(DequeOf(Recent(d, k, cutoff), j), TripsOf(h, j), cutoff, now) {
      RecentDeques(d, k, j, cutoff);
      assert Fits(DequeOf(d, j), TripsOf(h, j), cutoff, now);
    }
  }

  lemma {:induction false} SweepRelated(d: Trips, keys: seq<Key>, h: History, cfg: Config, now: int)
    requires Related(d, h, cfg, now)
    ensures Related(Sweep(d, keys, now - cfg.window), h, cfg, now)
    decreases |keys|
  {
    if keys != [] {
      RecentRelated(d, h, cfg, keys[0], now);
      SweepRelated(Recent(d, keys[0], now - cfg.window), keys[1..], h, cfg, now);
    }
  }

  lemma RelatedLater(d: Trips, h: History, cfg: Config, clock: int, later: int)
    requires Related(d, h, cfg, clock) && clock <= later
    ensures Related(d, h, cfg, later)
  {
    forall k ensures Fits(DequeOf(d, k), TripsOf(h, k), later - cfg.window, later) {
      assert Fits(DequeOf(d, k), TripsOf(h, k), clock - cfg.window, clock);
    }
  }

  lemma AppendFits(deque: seq<int>, history: seq<int>, cutoff: int, now: int)
    requires Fits(deque, history, cutoff, now)
    ensures Fits(deque + [now], history + [now], cutoff, now)
  {
    assert deque + [now] == (history + [now])[|history| - |deque|..];
  }

  lemma RecordRelated(d: Trips, h: History, cfg: Config, k: Key, now: int)
    requires Related(d, h, cfg, now)
    ensures Related(RecordTrip(d, cfg, k, now), Recorded(h, cfg, k, now), cfg, now)
  {
    hide Sweep, Related, TripsOf;
    if cfg.enabled {
      SweepRelated(d, d.order, h, cfg, now);
      PutRelated(if |d.items| >= MAX_KEYS then Sweep(d, d.order, now - cfg.window) else d, h, cfg, k, now);
    }
  }

  lemma PutRelated(d: Trips, h: History, cfg: Config, k: Key, now: int)
    requires Related(d, h, cfg, now)
    ensures Related(d.Put(k, DequeOf(d, k) + [now]), h[k := TripsOf(h, k) + [now]], cfg, now)
  {
    hide DequeOf, TripsOf, Fits;
    var n, g, cutoff := d.Put(k, DequeOf(d, k) + [now]), h[k := TripsOf(h, k) + [now]], now - cfg.window;
    forall j ensures Fits(DequeOf(n, j), TripsOf(g, j), cutoff, now) {
      assert Fits(DequeOf(d, j), TripsOf(h, j), cutoff, now);
      PutDeques(d, h, k, j, now);
      if j == k {
        AppendFits(DequeOf(d, k), TripsOf(h, k), cutoff, now);
      }
    }
  }

  lemma PutDeques(d: Trips, h: History, k: Key, j: Key, now: int)
    ensures DequeOf(d.Put(k, DequeOf(d, k) + [now]), j) == if j == k then DequeOf(d, k) + [now] else DequeOf(d, j)
    ensures TripsOf(h[k := TripsOf(h, k) + [now]], j) == if j == k then TripsOf(h, k) + [now] else TripsOf(h, j)
  {
  }

  /** What one call answers is what every trip ever recorded for its own key deserves, whatever
      pruning, dropped keys and sweeps for other keys have done to the state. */
  lemma MultiplierIsDeserved(d: Trips, h: History, cfg: Config, clock: int, k: Key, now: int)
    requires Related(d, h, cfg, clock) && clock <= now
    ensures Multiplier(d, cfg, k, now).1 == Deserved(h, cfg, k, now)
    ensures Related(Multiplier(d, cfg, k, now).0, h, cfg, now)
  {
    RelatedLater(d, h, cfg, clock, now);
    RecentRelated(d, h, cfg, k, now);
  }

  // ------------------------------------------------------------------------ whole runs

  datatype Call = Ask(key: Key, now: int) | Trip(key: Key, now: int)

  function Run(calls: seq<Call>, cfg: Config): Trips {
    if calls == [] then Empty()
    else
      var before := Run(calls[..|calls| - 1], cfg);
      match calls[|calls| - 1]
      case Ask(k, now) => Multiplier(before, cfg, k, now).0
      case Trip(k, now) => RecordTrip(before, cfg, k, now)
  }

  // ---------------------------------------------------------------------- the ceiling

  ghost predicate Live(d: Trips, k: Key, cutoff: int) {
    k in d.items ==> d.items[k] != [] && d.items[k][0] >= cutoff
  }

  lemma {:induction false} PrunedIsLive(trips: seq<int>, cutoff: int)
    ensures Prune(trips, cutoff) == [] || Prune(trips, cutoff)[0] >= cutoff
  {
    if trips != [] && trips[0] < cutoff {
      PrunedIsLive(trips[1..], cutoff);
    }
  }

  lemma RecentIsLive(d: Trips, k: Key, cutoff: int, j: Key)
    ensures Live(Recent(d, k, cutoff), k, cutoff)
    ensures j != k ==> (j in Recent(d, k, cutoff).items <==> j in d.items)
    ensures j != k && j in d.items ==> Recent(d, k, cutoff).items[j] == d.items[j]
  {
    if k in d.items {
      PrunedIsLive(d.items[k], cutoff);
    }
    hide Prune;
  }

  /** A sweep ends with room, or with nothing idle among its keys. */
  lemma {:induction false} SweepEnds(d: Trips, keys: seq<Key>, cutoff: int, done: set<Key>)
    requires forall j :: j in done ==> Live(d, j, cutoff)
    ensures var n := Sweep(d, keys, cutoff);
            |n.items| < 8192 || keys == [] || forall j :: j in done || j in keys ==> Live(n, j, cutoff)
    decreases |keys|
  {
    hide Recent, Live;
    if keys != [] {
      var n := Recent(d, keys[0], cutoff);
      forall j | j in done + {keys[0]} ensures Live(n, j, cutoff) {
        RecentIsLive(d, keys[0], cutoff, j);
        if j != keys[0] {
          SameIsLive(d, n, j, cutoff);
        }
      }
      assert keys == [keys[0]] + keys[1..];
      SweepEnds(n, keys[1..], cutoff, done + {keys[0]});
    }
  }

  lemma SameIsLive(d: Trips, n: Trips, j: Key, cutoff: int)
    requires (j in n.items <==> j in d.items) && (j in d.items ==> n.items[j] == d.items[j])
    ensures Live(d, j, cutoff) ==> Live(n, j, cutoff)
  {
  }

  /** Recording a trip with fewer than 8192 keys leaves every other key alone.  With more it forgets
      idle keys, until there is room or no key without a trip in the window is left. */
  lemma CeilingIffFull(d: Trips, cfg: Config, k: Key, now: int, j: Key)
    requires cfg.enabled && d.Valid() && j != k
    ensures var n := RecordTrip(d, cfg, k, now);
            && (|d.items| < 8192 ==> (j in n.items <==> j in d.items) && (j in d.items ==> n.items[j] == d.items[j]))
            && (|d.items| >= 8192 ==> |n.items| <= 8192 || Live(n, j, now - cfg.window))
  {
    hide Sweep, Live;
    if |d.items| >= 8192 {
      SizeIsOrder(d);
      assert d.order != [];
      SweepEnds(d, d.order, now - cfg.window, {});
      SweepStays(d, d.order, now - cfg.window, j);
      PutGrows(Sweep(d, d.order, now - cfg.window), k, now, j, now - cfg.window);
    }
  }

  lemma PutGrows(d: Trips, k: Key, now: int, j: Key, cutoff: int)
    requires j != k
    ensures var n := d.Put(k, (if k in d.items then d.items[k] else []) + [now]);
            |n.items| <= |d.items| + 1 && (Live(d, j, cutoff) ==> Live(n, j, cutoff))
    ensures j !in d.items ==> Live(d, j, cutoff)
  {
    var n := d.Put(k, (if k in d.items then d.items[k] else []) + [now]);
    assert n.items.Keys == d.items.Keys + {k};
  }

  lemma {:induction false} SweepStays(d: Trips, keys: seq<Key>, cutoff: int, j: Key)
    ensures j in Sweep(d, keys, cutoff).items ==> j in d.items
    decreases |keys|
  {
    hide Prune;
    if keys != [] {
      SweepStays(Recent(d, keys[0], cutoff), keys[1..], cutoff, j);
    }
  }

  lemma Asked(calls: seq<Call>, cfg: Config, k: Key, now: int)
    ensures Run(calls + [Ask(k, now)], cfg) == Multiplier(Run(calls, cfg), cfg, k, now).0
  {
    assert (calls + [Ask(k, now)])[..|calls|] == calls;
  }

  function RunHistory(calls: seq<Call>, cfg: Config): History {
    if calls == [] then map[]
    else
      var before := RunHistory(calls[..|calls| - 1], cfg);
      match calls[|calls| - 1]
      case Ask(_, _) => before
      case Trip(k, now) => Recorded(before, cfg, k, now)
  }

  ghost predicate Ordered(calls: seq<Call>) {
    forall i, j :: 0 <= i < j < |calls| ==> calls[i].now <= calls[j].now
  }

  lemma {:induction false} RunRelated(calls: seq<Call>, cfg: Config, clock: int)
    requires Ordered(calls) && forall i :: 0 <= i < |calls| ==> calls[i].now <= clock
    ensures Related(Run(calls, cfg), RunHistory(calls, cfg), cfg, clock)
  {
    if calls != [] {
      var before, c := calls[..|calls| - 1], calls[|calls| - 1];
      RunRelated(before, cfg, c.now);
      hide Related, Multiplier, RecordTrip, Recorded;
      match c {
        case Ask(k, now) => MultiplierIsDeserved(Run(before, cfg), RunHistory(before, cfg), cfg, now, k, now);
        case Trip(k, now) => RecordRelated(Run(before, cfg), RunHistory(before, cfg), cfg, k, now);
      }
      RelatedLater(Run(calls, cfg), RunHistory(calls, cfg), cfg, c.now, clock);
    }
  }

  /** Over any run of calls with a clock that does not go back, the multiplier is the capped linear
      function of the trips recorded for its key in the window. */
  lemma RunMultiplier(calls: seq<Call>, cfg: Config, k: Key, now: int)
    requires Ordered(calls + [Ask(k, now)])
    ensures Multiplier(Run(calls, cfg), cfg, k, now).1 == Deserved(RunHistory(calls, cfg), cfg, k, now)
  {
    var all := calls + [Ask(k, now)];
    assert forall i :: 0 <= i < |calls| ==> all[i] == calls[i];
    assert all[|calls|] == Ask(k, now);
    RunRelated(calls, cfg, now);
    MultiplierIsDeserved(Run(calls, cfg), RunHistory(calls, cfg), cfg, now, k, now);
  }

  // ------------------------------------------------------- what the multiplier promises

  lemma RaisedGrows(cfg: Config, x: nat, y: nat)
    requires cfg.Valid() && x <= y
    ensures 1.0 <= Raised(cfg, x) <= Raised(cfg, y) <= cfg.maxMultiplier
  {
    Scaled(cfg.step, 0.0, x as real);
    Scaled(cfg.step, x as real, y as real);
  }

  lemma BackoffGrows(cfg: Config, a: nat, b: nat)
    requires cfg.Valid() && a <= b
    ensures 1.0 <= Backoff(cfg, a) <= Backoff(cfg, b) <= cfg.maxMultiplier
  {
    hide Raised;
    if cfg.enabled && cfg.tripsBeforeBackoff <= b {
      var t := cfg.tripsBeforeBackoff;
      RaisedGrows(cfg, if t <= a then a - t + 1 else 0, b - t + 1);
    }
  }

  lemma {:induction false} SinceFalls(trips: seq<int>, cutoff: int, later: int)
    requires cutoff <= later
    ensures Since(trips, later) <= Since(trips, cutoff)
  {
    if trips != [] {
      SinceFalls(trips[..|trips| - 1], cutoff, later);
    }
  }

  /** Between one and the maximum, never lower for another trip, never higher as time passes
      without one, and untouched by the trips of other keys. */
  lemma MultiplierPromises(h: History, cfg: Config, k: Key, other: Key, now: int, later: int)
    requires cfg.window > 0 && cfg.step > 0.0 && cfg.maxMultiplier >= 1.0 && now <= later && other != k
    ensures 1.0 <= Deserved(h, cfg, k, now) <= cfg.maxMultiplier
    ensures Deserved(h, cfg, k, now) <= Deserved(Recorded(h, cfg, k, now), cfg, k, now)
    ensures Deserved(h, cfg, k, later) <= Deserved(h, cfg, k, now)
    ensures Deserved(Recorded(h, cfg, other, now), cfg, k, later) == Deserved(h, cfg, k, later)
  {
    var trips, cutoff := TripsOf(h, k), now - cfg.window;
    assert (trips + [now])[..|trips|] == trips;
    BackoffGrows(cfg, Since(trips, cutoff), Since(trips + [now], cutoff));
    SinceFalls(trips, cutoff, later - cfg.window);
    BackoffGrows(cfg, Since(trips, later - cfg.window), Since(trips, cutoff));
  }

  lemma {:induction false} TripsWereCalls(calls: seq<Call>, cfg: Config, k: Key, at: int)
    requires at in TripsOf(RunHistory(calls, cfg), k)
    ensures Trip(k, at) in calls
  {
    if calls != [] {
      var before, c := calls[..|calls| - 1], calls[|calls| - 1];
      assert calls == before + [c];
      if at in TripsOf(RunHistory(before, cfg), k) {
        TripsWereCalls(before, cfg, k, at);
      }
    }
  }

  /** The module's promise that a quiet host sees full sensitivity: after any run of calls, a key
      without a trip in the window has multiplier one if and only if backoff needs at least one trip,
      or cannot raise anything. The configuration also accepts zero. */
  lemma QuietIsFullySensitiveIff(calls: seq<Call>, cfg: Config, k: Key, now: int)
    requires cfg.window > 0 && cfg.step > 0.0 && cfg.maxMultiplier >= 1.0 && Ordered(calls + [Ask(k, now)])
    requires forall at :: Trip(k, at) in calls ==> at < now - cfg.window
    ensures Multiplier(Run(calls, cfg), cfg, k, now).1 == 1.0
            <==> !cfg.enabled || cfg.tripsBeforeBackoff >= 1 || cfg.maxMultiplier == 1.0
  {
    RunMultiplier(calls, cfg, k, now);
    var trips := TripsOf(RunHistory(calls, cfg), k);
    forall i | 0 <= i < |trips| ensures trips[i] < now - cfg.window {
      TripsWereCalls(calls, cfg, k, trips[i]);
    }
    SinceNone(trips, now - cfg.window);
    hide Multiplier, Run, RunHistory;
  }

  // ------------------------------------------------------------------------ the object

  class AdaptiveThresholds {
    const cfg: Config
    var trips: Trips
    ghost var history: seq<Call>

    ghost predicate Valid()
      reads this
    {
      trips == Run(history, cfg)
    }

    constructor (c: Config)
      ensures Valid() && cfg == c && history == []
    {
      cfg, trips, history := c, Empty(), [];
    }

    /** Prunes trips outside the window and returns how many remain. */
    method RecentTrips(k: Key, now: int) returns (count: nat)
      modifies this`trips
      ensures trips == Recent(old(trips), k, now - cfg.window) && count == CountOf(trips, k)
    {
      if k !in trips.items {
        return 0;
      }
      var dq := trips.items[k];
      var cutoff := now - cfg.window;
      while dq != [] && dq[0] < cutoff
        invariant Prune(dq, cutoff) == Prune(trips.items[k], cutoff)
        decreases |dq|
      {
        dq := dq[1..];
      }
      if dq == [] {
        trips := trips.Remove(k);
        return 0;
      }
      trips := trips.Put(k, dq);
      return |dq|;
    }

    method MultiplierFor(k: Key, now: int) returns (multiplier: real)
      requires Valid()
      modifies this
      ensures Valid() && history == old(history) + [Ask(k, now)]
      ensures (trips, multiplier) == Multiplier(old(trips), cfg, k, now)
    {
      hide Recent, Sweep, Prune;
      Asked(history, cfg, k, now);
      hide Run;
      history := history + [Ask(k, now)];
      if !cfg.enabled {
        return 1.0;
      }
      var count := RecentTrips(k, now);
      if count < cfg.tripsBeforeBackoff {
        return 1.0;
      }
      var excess := count - cfg.tripsBeforeBackoff + 1;
      var raised := 1.0 + cfg.step * excess as real;
      multiplier := if raised < cfg.maxMultiplier then raised else cfg.maxMultiplier;
      assert multiplier == Backoff(cfg, count);
    }

    method RecordTripAt(k: Key, now: int)
      requires Valid()
      modifies this
      ensures Valid() && history == old(history) + [Trip(k, now)] && trips == RecordTrip(old(trips), cfg, k, now)
    {
      hide Sweep;
      assert (history + [Trip(k, now)])[..|history|] == history;
      history := history + [Trip(k, now)];
      if !cfg.enabled {
        return;
      }
      if |trips.items| >= MAX_KEYS {
        SweepKeys(now);
      }
      trips := trips.Put(k, (if k in trips.items then trips.items[k] else []) + [now]);
    }

    /** The loop over a copy of the keys, left once there is room. */
    method SweepKeys(now: int)
      modifies this`trips
      ensures trips == Sweep(old(trips), old(trips.order), now - cfg.window)
    {
      hide Recent;
      var keys, cutoff := trips.order, now - cfg.window;
      var i := 0;
      while i < |keys|
        invariant 0 <= i <= |keys| && keys == old(trips.order)
        invariant Sweep(trips, keys[i..], cutoff) == Sweep(old(trips), keys, cutoff)
      {
        assert keys[i..][0] == keys[i] && keys[i..][1..] == keys[i + 1..];
        var _ := RecentTrips(keys[i], now);
        if |trips.items| < MAX_KEYS {
          return;
        }
        i := i + 1;
      }
    }
  }
}
