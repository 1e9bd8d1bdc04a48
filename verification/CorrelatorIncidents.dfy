/** When the correlator raises an incident, in numbers (alerts/correlator.py:36-164): over whole runs,
    from the observations alone. */
module CorrelatorIncidents {
  import opened Basics
  import opened OrderedDict
  import opened Correlator
  import opened CorrelatorRefinement
  import opened CorrelatorEviction

  // -------------------------------------------------------------- what a run shows

  function AnswerAt(obs: seq<Observation>, o: Observation, cfg: Config): Answer
    requires cfg.maxActors >= 1
  {
    Observe(RunState(obs, cfg), cfg, o.actor, o.event).1
  }

  predicate RaisedAt(obs: seq<Observation>, i: nat, cfg: Config)
    requires cfg.maxActors >= 1 && i < |obs|
  {
    AnswerAt(obs[..i], obs[i], cfg) != Silent
  }

  /** The actor is evicted to make room for observation `k`. */
  ghost predicate EvictedAt(obs: seq<Observation>, k: nat, cfg: Config, actor: string)
    requires cfg.maxActors >= 1 && k < |obs|
  {
    actor in Evicted(RunState(obs[..k], cfg), cfg, obs[k].actor, obs[k].event.timestamp)
  }

  /** Observation `i` raised an incident for the actor, who has not been evicted since. */
  ghost predicate Standing(obs: seq<Observation>, i: nat, cfg: Config, actor: string)
    requires cfg.maxActors >= 1 && i < |obs|
  {
    obs[i].actor == actor && RaisedAt(obs, i, cfg) && forall k :: i < k < |obs| ==> !EvictedAt(obs, k, cfg, actor)
  }

  /** What was observed of the actor since it was last evicted. */
  ghost function OwnEvents(obs: seq<Observation>, cfg: Config, actor: string): seq<Event>
    requires cfg.maxActors >= 1
  {
    if obs == [] then []
    else
      var last := |obs| - 1;
      (if EvictedAt(obs, last, cfg, actor) then [] else OwnEvents(obs[..last], cfg, actor))
      + if obs[last].actor == actor then [obs[last].event] else []
  }

  /** The newest 500 of them that are within the window at the last observation. */
  ghost function WindowAt(obs: seq<Observation>, cfg: Config): seq<Event>
    requires cfg.maxActors >= 1 && obs != []
  {
    var o := obs[|obs| - 1];
    var own := OwnEvents(obs, cfg, o.actor);
    InWindow(if |own| <= 500 then own else own[|own| - 500..], o.event.timestamp - cfg.windowSeconds * 1_000_000)
  }

  ghost predicate Crowded(window: seq<Event>, cfg: Config) {
    || |set e | e in window :: e.sensor| >= cfg.minSensors
    || |set e | e in window && e.target != "" :: e.target| >= cfg.minTargets
  }

  ghost predicate Moves(events: seq<Event>) {
    exists k :: 0 <= k < |events| && events[k].category == LateralMovement
  }

  ghost predicate ScansThenMoves(events: seq<Event>) {
    exists j :: 0 <= j < |events| && events[j].category == PortScan && Moves(events[j + 1..])
  }

  /** A new device, later a port scan, and later a lateral movement. */
  ghost predicate Intrusion(window: seq<Event>) {
    exists i :: 0 <= i < |window| && window[i].category == NewDevice && ScansThenMoves(window[i + 1..])
  }

  // ------------------------------------------------------------------ the sequence

  lemma {:induction false} MovesIff(events: seq<Event>)
    ensures Match(events, 2).Some? <==> Moves(events)
  {
    if events != [] {
      var rest := events[1..];
      MovesIff(rest);
      if k :| 0 <= k < |rest| && rest[k].category == LateralMovement {
        assert events[k + 1] == rest[k];
      }
      if k :| 0 < k < |events| && events[k].category == LateralMovement {
        assert rest[k - 1] == events[k];
      }
    }
  }

  lemma ScansThenMovesSplits(events: seq<Event>)
    requires events != []
    ensures ScansThenMoves(events)
            <==> ScansThenMoves(events[1..]) || (events[0].category == PortScan && Moves(events[1..]))
  {
    hide Moves;
    var rest := events[1..];
    if j :| 0 <= j < |rest| && rest[j].category == PortScan && Moves(rest[j + 1..]) {
      assert events[j + 1] == rest[j] && events[j + 1 + 1..] == rest[j + 1..];
    }
    if j :| 0 < j < |events| && events[j].category == PortScan && Moves(events[j + 1..]) {
      assert rest[j - 1] == events[j] && rest[j - 1 + 1..] == events[j + 1..];
    }
    if events[0].category == PortScan && Moves(rest) {
      assert events[0 + 1..] == rest;
    }
  }

  lemma ScansBeforeMoves(events: seq<Event>)
    requires ScansThenMoves(events)
    ensures Moves(events)
  {
    var j :| 0 <= j < |events| && events[j].category == PortScan && Moves(events[j + 1..]);
    var k :| 0 <= k < |events[j + 1..]| && events[j + 1..][k].category == LateralMovement;
    assert events[j + 1 + k].category == LateralMovement;
  }

  lemma {:induction false} ScansThenMovesIff(events: seq<Event>)
    ensures Match(events, 1).Some? <==> ScansThenMoves(events)
  {
    if events != [] {
      hide ScansThenMoves, Moves;
      ScansThenMovesIff(events[1..]);
      MovesIff(events[1..]);
      ScansThenMovesSplits(events);
      if ScansThenMoves(events[1..]) {
        ScansBeforeMoves(events[1..]);
      }
    } else {
      assert !ScansThenMoves(events);
    }
  }

  lemma IntrusionSplits(events: seq<Event>)
    requires events != []
    ensures Intrusion(events)
            <==> Intrusion(events[1..]) || (events[0].category == NewDevice && ScansThenMoves(events[1..]))
  {
    hide ScansThenMoves;
    var rest := events[1..];
    if i :| 0 <= i < |rest| && rest[i].category == NewDevice && ScansThenMoves(rest[i + 1..]) {
      assert events[i + 1] == rest[i] && events[i + 1 + 1..] == rest[i + 1..];
    }
    if i :| 0 < i < |events| && events[i].category == NewDevice && ScansThenMoves(events[i + 1..]) {
      assert rest[i - 1] == events[i] && rest[i - 1 + 1..] == events[i + 1..];
    }
    if events[0].category == NewDevice && ScansThenMoves(rest) {
      assert events[0 + 1..] == rest;
    }
  }

  lemma {:induction false} IntrusionScans(events: seq<Event>)
    requires Intrusion(events)
    ensures ScansThenMoves(events)
  {
    var i :| 0 <= i < |events| && events[i].category == NewDevice && ScansThenMoves(events[i + 1..]);
    var j :| 0 <= j < |events[i + 1..]| && events[i + 1..][j].category == PortScan
             && Moves(events[i + 1..][j + 1..]);
    assert events[i + 1 + j].category == PortScan && events[i + 1 + j + 1..] == events[i + 1..][j + 1..];
  }

  lemma {:induction false} MatchIffIntrusion(events: seq<Event>)
    ensures Match(events, 0).Some? <==> Intrusion(events)
  {
    if events != [] {
      hide Intrusion, ScansThenMoves;
      MatchIffIntrusion(events[1..]);
      ScansThenMovesIff(events[1..]);
      IntrusionSplits(events);
      if Intrusion(events[1..]) {
        IntrusionScans(events[1..]);
      }
    } else {
      assert !Intrusion(events);
    }
  }

  lemma VerdictIs(window: seq<Event>, cfg: Config)
    ensures Verdict(window, cfg).Incident? <==> Crowded(window, cfg)
    ensures Verdict(window, cfg).Incident? ==> Verdict(window, cfg).events == window
    ensures Verdict(window, cfg).SequenceIncident? <==> !Crowded(window, cfg) && Intrusion(window)
  {
    MatchIffIntrusion(window);
    assert Sensors(window) == set e | e in window :: e.sensor;
    assert Targets(window) == set e | e in window && e.target != "" :: e.target;
    hide Match, Intrusion;
  }

  // --------------------------------------------------------- the reference, in numbers

  lemma {:induction false} HistoryIsOwn(obs: seq<Observation>, cfg: Config, actor: string)
    requires cfg.maxActors >= 1
    ensures HistoryOf(RunPlain(obs, cfg), actor) == OwnEvents(obs, cfg, actor)
    decreases |obs|
  {
    hide Verdict, Evicted, RunState;
    if obs != [] {
      var before, o := obs[..|obs| - 1], obs[|obs| - 1];
      HistoryIsOwn(before, cfg, actor);
      if o.actor == actor {
        NotEvictedItself(RunState(before, cfg), cfg, actor, o.event.timestamp);
      }
    }
  }

  lemma NotEvictedItself(s: State, cfg: Config, actor: string, now: int)
    requires cfg.maxActors >= 1
    ensures actor !in Evicted(s, cfg, actor, now)
  {
    hide Cleanup, Evict;
  }

  lemma OrderedBefore(obs: seq<Observation>, i: nat)
    requires Ordered(obs) && i < |obs|
    ensures Ordered(obs[..i]) && Ordered(obs[..i] + [obs[i]])
  {
    assert obs[..i] + [obs[i]] == obs[..i + 1];
  }

  /** The reference's last incident of an actor is the latest standing one. */
  ghost predicate IsLatest(obs: seq<Observation>, cfg: Config, actor: string, raised: map<string, int>)
    requires cfg.maxActors >= 1
  {
    && (actor in raised ==>
          exists i :: 0 <= i < |obs| && Standing(obs, i, cfg, actor) && raised[actor] == obs[i].event.timestamp)
    && (forall i :: 0 <= i < |obs| && Standing(obs, i, cfg, actor) ==>
          actor in raised && obs[i].event.timestamp <= raised[actor])
  }

  lemma {:induction false} RaisedIsLatest(obs: seq<Observation>, cfg: Config, actor: string)
    requires Ordered(obs) && cfg.maxActors >= 1
    ensures IsLatest(obs, cfg, actor, RunPlain(obs, cfg).raised)
    decreases |obs|
  {
    if obs != [] {
      var last := |obs| - 1;
      var before, o := obs[..last], obs[last];
      OrderedBefore(obs, last);
      RaisedIsLatest(before, cfg, actor);
      CorrelatorRefinesHistory(before, o, cfg);
      var evicted := Evicted(RunState(before, cfg), cfg, o.actor, o.event.timestamp);
      var p := RunPlain(before, cfg);
      RaisedAfter(p, cfg, o.actor, o.event, evicted);
      assert RunPlain(obs, cfg) == Consult(p, cfg, o.actor, o.event, evicted).0;
      hide IsLatest, Consult, RunPlain, Observe, RunState, Evicted;
      LatestStep(obs, cfg, actor, p.raised, Consult(p, cfg, o.actor, o.event, evicted).0.raised);
    }
  }

  /** How one observation changes the latest incident. */
  lemma LatestStep(obs: seq<Observation>, cfg: Config, actor: string, raised: map<string, int>, after: map<string, int>)
    requires obs != [] && Ordered(obs) && cfg.maxActors >= 1
    requires var last := |obs| - 1;
             && IsLatest(obs[..last], cfg, actor, raised)
             && (if actor == obs[last].actor && RaisedAt(obs, last, cfg)
                 then actor in after && after[actor] == obs[last].event.timestamp
                 else (actor in after <==> actor in raised && !EvictedAt(obs, last, cfg, actor))
                      && (actor in after ==> after[actor] == raised[actor]))
    ensures IsLatest(obs, cfg, actor, after)
  {
    hide RaisedAt, EvictedAt;
    var last := |obs| - 1;
    var before, o := obs[..last], obs[last];
    forall i | 0 <= i < last ensures Standing(obs, i, cfg, actor)
        <==> Standing(before, i, cfg, actor) && !EvictedAt(obs, last, cfg, actor) {
      StandingGrows(obs, i, cfg, actor);
    }
    assert Standing(obs, last, cfg, actor) <==> actor == o.actor && RaisedAt(obs, last, cfg);
    hide Standing;
    if actor in after && !(actor == o.actor && RaisedAt(obs, last, cfg)) {
      var i :| 0 <= i < |before| && Standing(before, i, cfg, actor) && raised[actor] == before[i].event.timestamp;
      assert Standing(obs, i, cfg, actor) && obs[i] == before[i];
    }
    forall i | 0 <= i < |obs| && Standing(obs, i, cfg, actor)
      ensures actor in after && obs[i].event.timestamp <= after[actor] {
      if i < last {
        assert obs[i] == before[i] && Standing(before, i, cfg, actor);
      }
    }
  }

  lemma RaisedAfter(p: Plain, cfg: Config, actor: string, e: Event, evicted: set<string>)
    ensures var (q, answer) := Consult(p, cfg, actor, e, evicted);
            q.raised == if answer == Silent then p.raised - evicted else (p.raised - evicted)[actor := e.timestamp]
  {
    hide Verdict;
  }

  lemma StandingGrows(obs: seq<Observation>, i: nat, cfg: Config, actor: string)
    requires cfg.maxActors >= 1 && i < |obs| - 1
    ensures Standing(obs, i, cfg, actor)
            <==> Standing(obs[..|obs| - 1], i, cfg, actor) && !EvictedAt(obs, |obs| - 1, cfg, actor)
  {
    hide RaisedAt, EvictedAt;
    var before := obs[..|obs| - 1];
    assert before[..i] == obs[..i];
    assert RaisedAt(before, i, cfg) <==> RaisedAt(obs, i, cfg) by { SameUntil(obs, |obs| - 1, i, cfg, actor); }
    forall k | 0 <= k < |before| ensures EvictedAt(before, k, cfg, actor) <==> EvictedAt(obs, k, cfg, actor) {
      SameUntil(obs, |obs| - 1, k, cfg, actor);
    }
  }

  // ------------------------------------------------------------------ the theorems

  /** An observation raises an incident if and only if its window calls for one and every incident of
      the actor that stands is at least the cooldown old.  It is the correlated incident when enough
      sensors or targets come together, and the sequence otherwise. */
  lemma RaisesIff(obs: seq<Observation>, cfg: Config)
    requires obs != [] && Ordered(obs) && cfg.maxActors >= 1
    ensures var last := |obs| - 1; var window := WindowAt(obs, cfg);
            && (RaisedAt(obs, last, cfg)
                <==> (Crowded(window, cfg) || Intrusion(window))
                     && forall i :: 0 <= i < last && Standing(obs, i, cfg, obs[last].actor) ==>
                          obs[last].event.timestamp - obs[i].event.timestamp >= cfg.cooldownSeconds * 1_000_000)
            && (RaisedAt(obs, last, cfg) ==>
                  if Crowded(window, cfg) then AnswerAt(obs[..last], obs[last], cfg) == Incident(window)
                  else AnswerAt(obs[..last], obs[last], cfg).SequenceIncident?)
  {
    var last := |obs| - 1;
    var before, o := obs[..last], obs[last];
    var window, raised := WindowAt(obs, cfg), RunPlain(before, cfg).raised;
    OrderedBefore(obs, last);
    AnswerIs(obs, cfg);
    VerdictIs(window, cfg);
    RaisedIsLatest(before, cfg, o.actor);
    hide RunPlain, RunState, Observe, Verdict, Crowded, Intrusion, WindowAt, Ordered;
    LatestRests(obs, cfg, raised);
  }

  /** The latest incident is old enough if and only if all standing ones are. */
  lemma LatestRests(obs: seq<Observation>, cfg: Config, raised: map<string, int>)
    requires obs != [] && cfg.maxActors >= 1
    requires IsLatest(obs[..|obs| - 1], cfg, obs[|obs| - 1].actor, raised)
    ensures var last := |obs| - 1;
            (obs[last].actor in raised
              && obs[last].event.timestamp - raised[obs[last].actor] < cfg.cooldownSeconds * 1_000_000)
            <==> !forall i :: 0 <= i < last && Standing(obs, i, cfg, obs[last].actor) ==>
                   obs[last].event.timestamp - obs[i].event.timestamp >= cfg.cooldownSeconds * 1_000_000
  {
    var last := |obs| - 1;
    var before, o := obs[..last], obs[last];
    NotEvictedItself(RunState(before, cfg), cfg, o.actor, o.event.timestamp);
    assert !EvictedAt(obs, last, cfg, o.actor);
    hide EvictedAt, Evicted;
    forall i | 0 <= i < last
      ensures Standing(obs, i, cfg, o.actor) <==> Standing(before, i, cfg, o.actor)
      ensures obs[i] == before[i] {
      StandingGrows(obs, i, cfg, o.actor);
    }
    hide Standing;
  }

  lemma AnswerIs(obs: seq<Observation>, cfg: Config)
    requires obs != [] && Ordered(obs) && cfg.maxActors >= 1
    ensures var last := |obs| - 1; var o, raised := obs[last], RunPlain(obs[..last], cfg).raised;
            AnswerAt(obs[..last], o, cfg)
            == if o.actor in raised && o.event.timestamp - raised[o.actor] < cfg.cooldownSeconds * 1_000_000 then Silent
               else Verdict(WindowAt(obs, cfg), cfg)
  {
    hide RunState, Consult, Observe, Evicted, Verdict, InWindow, OwnEvents, HistoryOf, Ordered, RunPlain;
    var last := |obs| - 1;
    var before, o := obs[..last], obs[last];
    OrderedBefore(obs, last);
    CorrelatorRefinesHistory(before, o, cfg);
    HistoryIsOwn(obs, cfg, o.actor);
    NotEvictedItself(RunState(before, cfg), cfg, o.actor, o.event.timestamp);
    PlainSnoc(obs, cfg);
    ConsultIs(RunPlain(before, cfg), cfg, o.actor, o.event,
              Evicted(RunState(before, cfg), cfg, o.actor, o.event.timestamp));
  }

  lemma PlainSnoc(obs: seq<Observation>, cfg: Config)
    requires obs != [] && cfg.maxActors >= 1
    ensures var before, o := obs[..|obs| - 1], obs[|obs| - 1];
            RunPlain(obs, cfg) == Consult(RunPlain(before, cfg), cfg, o.actor, o.event,
                                          Evicted(RunState(before, cfg), cfg, o.actor, o.event.timestamp)).0
  {
    hide Consult, Evicted, RunState;
  }

  lemma ConsultIs(p: Plain, cfg: Config, actor: string, e: Event, evicted: set<string>)
    requires actor !in evicted
    ensures var own := HistoryOf(p, actor) + [e];
            var window := InWindow(if |own| <= 500 then own else own[|own| - 500..],
                                   e.timestamp - cfg.windowSeconds * 1_000_000);
            var rests := actor in p.raised && e.timestamp - p.raised[actor] < cfg.cooldownSeconds * 1_000_000;
            && Consult(p, cfg, actor, e, evicted).1 == (if rests then Silent else Verdict(window, cfg))
            && HistoryOf(Consult(p, cfg, actor, e, evicted).0, actor) == own
  {
    hide Verdict, InWindow;
  }

  /** Two incidents of one actor, who is not evicted in between, are at least the cooldown apart. */
  lemma IncidentsAreApart(obs: seq<Observation>, i: nat, j: nat, cfg: Config)
    requires Ordered(obs) && cfg.maxActors >= 1 && i < j < |obs| && obs[i].actor == obs[j].actor
    requires RaisedAt(obs, i, cfg) && RaisedAt(obs, j, cfg)
    requires forall k :: i < k <= j ==> !EvictedAt(obs, k, cfg, obs[i].actor)
    ensures obs[j].event.timestamp - obs[i].event.timestamp >= cfg.cooldownSeconds * 1_000_000
  {
    hide RaisedAt, EvictedAt, Ordered, WindowAt, Crowded, Intrusion, AnswerAt;
    var until := obs[..j + 1];
    OrderedBefore(obs, j);
    assert until == obs[..j] + [obs[j]];
    SameUntil(obs, j + 1, i, cfg, obs[i].actor);
    SameUntil(obs, j + 1, j, cfg, obs[i].actor);
    forall k | i < k < |until| ensures !EvictedAt(until, k, cfg, obs[i].actor) {
      SameUntil(obs, j + 1, k, cfg, obs[i].actor);
    }
    assert Standing(until, i, cfg, until[j].actor);
    hide Standing;
    RaisesIff(until, cfg);
  }

  lemma SameUntil(obs: seq<Observation>, n: nat, k: nat, cfg: Config, actor: string)
    requires cfg.maxActors >= 1 && k < n <= |obs|
    ensures RaisedAt(obs[..n], k, cfg) <==> RaisedAt(obs, k, cfg)
    ensures EvictedAt(obs[..n], k, cfg, actor) <==> EvictedAt(obs, k, cfg, actor)
  {
    hide AnswerAt, Evicted;
    assert obs[..n][..k] == obs[..k];
  }

  // ------------------------------------------------------- from alerts to incidents

  datatype Heard = Heard(alert: Alert, at: int)

  /** The alert tells of `attacker` acting on `victim`: scans and lateral movements name the attacker as
      the related host, authentication anomalies as the source address, and all others as the affected
      host. */
  predicate Against(a: Alert, attacker: string, victim: string) {
    match a.category
    case PortScan | LateralMovement => a.relatedHost == attacker && a.affectedHost == victim
    case AuthAnomaly => a.srcIp == attacker && a.relatedHost == victim
    case _ => a.affectedHost == attacker && a.relatedHost == victim
  }

  /** An alert that names one host only is blamed on it, and has no victim; so is an authentication
      anomaly without a source address on its related host. */
  predicate Alone(a: Alert, host: string) {
    && (a.category == AuthAnomaly ==> a.srcIp == "")
    && ((a.affectedHost == host && a.relatedHost in {"", host})
        || (a.relatedHost == host && a.affectedHost in {"", host}))
  }

  lemma BlamedOn(a: Alert, host: string, victim: string, now: int)
    requires host != ""
    ensures Against(a, host, victim) && victim !in {"", host}
        ==> ActorOf(a) == host && EventOf(a, host, now).target == victim
    ensures Alone(a, host) ==> ActorOf(a) == host && EventOf(a, host, now).target == ""
    ensures a.category == AuthAnomaly && a.srcIp == "" && a.relatedHost == host ==>
              ActorOf(a) == host && EventOf(a, host, now).target == ""
  {
  }

  function Observed(heard: seq<Heard>): (obs: seq<Observation>)
    ensures |obs| == |heard|
  {
    seq(|heard|, i requires 0 <= i < |heard| =>
      Observation(ActorOf(heard[i].alert), EventOf(heard[i].alert, ActorOf(heard[i].alert), heard[i].at)))
  }

  function SensorOf(h: Heard): string {
    match h.alert.sensor case None => "local" case Some(name) => name
  }

  /** Alerts of one attacker within one window. */
  ghost predicate Campaign(heard: seq<Heard>, attacker: string, victims: seq<string>, cfg: Config) {
    && 0 < |heard| == |victims| <= 500 && attacker != "" && cfg.maxActors >= 1
    && (forall i :: 0 <= i < |heard| ==>
          Against(heard[i].alert, attacker, victims[i]) && victims[i] != "" && victims[i] != attacker)
    && (forall i, j :: 0 <= i < j < |heard| ==> heard[i].at <= heard[j].at)
    && heard[|heard| - 1].at - heard[0].at <= cfg.windowSeconds * 1_000_000
  }

  /** An attacker whose alerts within one window name enough victims, or come from enough sensors, does
      not go without an incident. */
  lemma CampaignsAreRaised(heard: seq<Heard>, attacker: string, victims: seq<string>, cfg: Config)
    requires Campaign(heard, attacker, victims, cfg)
    requires |set v | v in victims| >= cfg.minTargets || |set h | h in heard :: SensorOf(h)| >= cfg.minSensors
    ensures exists i :: 0 <= i < |heard| && RaisedAt(Observed(heard), i, cfg)
  {
    var obs := Observed(heard);
    CampaignIsOfOne(heard, attacker, victims, cfg);
    CampaignWindow(heard, attacker, victims, cfg);
    hide RaisedAt, WindowAt, Observed, Against, Crowded, Intrusion, AnswerAt;
    RaisesIff(obs, cfg);
    if !RaisedAt(obs, |obs| - 1, cfg) {
      var i :| 0 <= i < |obs| - 1 && Standing(obs, i, cfg, obs[|obs| - 1].actor);
    }
  }

  lemma CampaignIsOfOne(heard: seq<Heard>, attacker: string, victims: seq<string>, cfg: Config)
    requires Campaign(heard, attacker, victims, cfg)
    ensures var obs := Observed(heard);
            && Ordered(obs) && forall i :: 0 <= i < |obs| ==> obs[i].actor == attacker
    ensures forall i :: 0 <= i < |heard| ==>
              Observed(heard)[i].event.target == victims[i] && Observed(heard)[i].event.sensor == SensorOf(heard[i])
  {
    forall i | 0 <= i < |heard|
      ensures Observed(heard)[i].actor == attacker && Observed(heard)[i].event.target == victims[i] {
      BlamedOn(heard[i].alert, attacker, victims[i], heard[i].at);
      hide ActorOf;
    }
  }

  /** With one actor only, nothing is evicted and the history is everything observed. */
  lemma {:induction false} OneActorKeepsAll(obs: seq<Observation>, cfg: Config, actor: string)
    requires cfg.maxActors >= 1 && forall i :: 0 <= i < |obs| ==> obs[i].actor == actor
    ensures OwnEvents(obs, cfg, actor) == EventsOf(obs)
    decreases |obs|
  {
    hide Evicted, RunState, EventsOf;
    EventsSnoc(obs);
    if obs != [] {
      var last := |obs| - 1;
      OneActorKeepsAll(obs[..last], cfg, actor);
      NotEvictedItself(RunState(obs[..last], cfg), cfg, actor, obs[last].event.timestamp);
    }
  }

  lemma CampaignWindow(heard: seq<Heard>, attacker: string, victims: seq<string>, cfg: Config)
    requires Campaign(heard, attacker, victims, cfg)
    requires |set v | v in victims| >= cfg.minTargets || |set h | h in heard :: SensorOf(h)| >= cfg.minSensors
    ensures Crowded(WindowAt(Observed(heard), cfg), cfg)
  {
    hide ActorOf, EventOf, Against, Observed, WindowAt;
    CampaignIsOfOne(heard, attacker, victims, cfg);
    WholeWindow(heard, attacker, victims, cfg);
    SetsAre(heard, victims, EventsOf(Observed(heard)));
  }

  lemma EventsSnoc(obs: seq<Observation>)
    ensures EventsOf(obs) == if obs == [] then [] else EventsOf(obs[..|obs| - 1]) + [obs[|obs| - 1].event]
  {
  }

  function EventsOf(obs: seq<Observation>): seq<Event> {
    seq(|obs|, i requires 0 <= i < |obs| => obs[i].event)
  }

  lemma WholeWindow(heard: seq<Heard>, attacker: string, victims: seq<string>, cfg: Config)
    requires Campaign(heard, attacker, victims, cfg)
    ensures WindowAt(Observed(heard), cfg) == EventsOf(Observed(heard))
  {
    var obs := Observed(heard);
    CampaignIsOfOne(heard, attacker, victims, cfg);
    assert obs[0].event.timestamp == heard[0].at && obs[|obs| - 1].event.timestamp == heard[|heard| - 1].at;
    hide Observed, Campaign;
    SpanFits(obs, attacker, cfg);
  }

  lemma SpanFits(obs: seq<Observation>, actor: string, cfg: Config)
    requires cfg.maxActors >= 1 && 0 < |obs| <= 500 && Ordered(obs)
    requires forall i :: 0 <= i < |obs| ==> obs[i].actor == actor
    requires obs[|obs| - 1].event.timestamp - obs[0].event.timestamp <= cfg.windowSeconds * 1_000_000
    ensures WindowAt(obs, cfg) == EventsOf(obs)
  {
    hide OwnEvents, InWindow, WindowAt;
    OneActorKeepsAll(obs, cfg, actor);
    ShortWindow(obs, cfg);
    var from := obs[|obs| - 1].event.timestamp - cfg.windowSeconds * 1_000_000;
    forall i | 0 <= i < |obs| ensures EventsOf(obs)[i].timestamp >= from {
      assert obs[0].event.timestamp <= obs[i].event.timestamp;
    }
    AllInWindow(EventsOf(obs), from);
  }

  lemma ShortWindow(obs: seq<Observation>, cfg: Config)
    requires cfg.maxActors >= 1 && obs != [] && |OwnEvents(obs, cfg, obs[|obs| - 1].actor)| <= 500
    ensures var o := obs[|obs| - 1];
            WindowAt(obs, cfg) == InWindow(OwnEvents(obs, cfg, o.actor),
              o.event.timestamp - cfg.windowSeconds * 1_000_000)
  {
    hide OwnEvents, InWindow;
  }

  lemma SetsAre(heard: seq<Heard>, victims: seq<string>, events: seq<Event>)
    requires |heard| == |victims| == |events|
    requires forall i :: 0 <= i < |events| ==>
               events[i].target == victims[i] && victims[i] != "" && events[i].sensor == SensorOf(heard[i])
    ensures (set e | e in events && e.target != "" :: e.target) == set v | v in victims
    ensures (set e | e in events :: e.sensor) == set h | h in heard :: SensorOf(h)
  {
    hide SensorOf;
    forall v | v in victims ensures v in set e | e in events && e.target != "" :: e.target {
      var i :| 0 <= i < |victims| && victims[i] == v;
      assert events[i] in events && events[i].target == v;
    }
    forall h | h in heard ensures SensorOf(h) in set e | e in events :: e.sensor {
      var i :| 0 <= i < |heard| && heard[i] == h;
      assert events[i] in events && events[i].sensor == SensorOf(h);
    }
  }
}
