/** The alert manager as the object it is: its cache, its counters, the database behind it and
    the correlator it feeds.  Every method takes the steps of AlertFunnel. */
module AlertManager {
  import opened Basics
  import Correlator
  import C = IncidentCorrelator
  import opened AlertFunnel

  /** What the surroundings decide about one alert. */
  datatype Outcome = Outcome(quiet: bool, answered: bool, written: bool)

  /** The steps one alert takes when nothing comes between them. */
  function Steps(s: State, a: Alert, o: Outcome): seq<Step> {
    var t := Ticket(a, s.life, o.answered);
    [Reserve(a, o.quiet, o.answered)] +
    (if !Admits(s, a, o.quiet, o.answered) then [] else if o.written then [Commit(t), Count(t)] else [Fail(t)])
  }

  predicate Fires(s: State, a: Alert, o: Outcome) {
    Admits(s, a, o.quiet, o.answered) && o.written
  }

  ghost predicate Fresh(s: State, id: nat) {
    forall t :: t in s.Standing() ==> t.alert.id != id
  }

  /** The incident alert built from what the correlator answered. */
  function IncidentAlert(answer: Correlator.Answer, actor: string, id: nat, at: int): Alert
    requires !answer.Silent?
  {
    var severity := if answer.Incident?
        && (|Correlator.Sensors(answer.events)| >= 3 || |Correlator.Targets(answer.events)| >= 20)
                    then Correlator.Critical else Correlator.High;
    Alert(id, (if answer.Incident? then "incident:" else "incident:sequence:") + actor, at,
          Correlator.Alert(Correlator.IncidentCategory, severity, actor, "", None, ""))
  }

  /** What the correlator says to an alert. */
  function Verdict(s: Correlator.State, cfg: Correlator.Config, subject: Correlator.Alert, now: int): Correlator.Answer
    requires cfg.maxActors >= 1
  {
    var actor := Correlator.ActorOf(subject);
    if subject.category.IncidentCategory? || actor == "" then Correlator.Silent
    else Correlator.Observe(s, cfg, actor, Correlator.EventOf(subject, actor, now)).1
  }

  class AlertManager {
    var recentDedup: map<string, int>
    var totalProcessed: nat
    var totalSuppressed: nat
    var totalFired: nat
    var totalPersistenceFailed: nat
    /** The database's alert rows. */
    var rows: set<Ticket>
    const correlator: C.IncidentCorrelator?
    ghost var inFlight: set<Ticket>
    ghost var written: set<Ticket>
    /** How many times the process has started before; kept for the statements only. */
    const life: nat
    ghost var lastSeen: int
    ghost var history: seq<Step>

    ghost function View(): State
      reads this
    {
      State(recentDedup, inFlight, written, rows, life, lastSeen, totalProcessed, totalSuppressed, totalFired,
            totalPersistenceFailed)
    }

    ghost predicate Valid()
      reads this, correlator
    {
      Legal(history) && View() == Run(history) && (correlator != null ==> correlator.Valid())
    }

    /** The start of a process, after the steps of the lives before it. */
    constructor (c: C.IncidentCorrelator?, stored: set<Ticket>, past: nat, ghost before: seq<Step>)
      requires c != null ==> c.Valid()
      requires Legal(before) && Run(before).rows == stored && Run(before).life + 1 == past
      ensures Valid() && history == before + [Restart] && correlator == c && rows == stored && life == past
      ensures recentDedup == map[] && totalProcessed == totalSuppressed == totalFired == totalPersistenceFailed == 0
    {
      recentDedup, rows, correlator := map[], stored, c;
      totalProcessed, totalSuppressed, totalFired, totalPersistenceFailed := 0, 0, 0, 0;
      inFlight, written, life, lastSeen := {}, {}, past, Run(before).now;
      history := before + [Restart];
      Snoc(before, Restart);
    }

    /** `_is_duplicate`, which remembers a repeat that only the database knows. */
    method IsDuplicate(a: Alert, answered: bool) returns (duplicate: bool)
      modifies this`recentDedup
      ensures duplicate == Duplicate(old(View()), a, answered)
      ensures recentDedup == if duplicate && !Remembered(old(View()), a) then old(recentDedup)[a.key := a.timestamp]
                             else old(recentDedup)
    {
      hide CategoryCooldown, Kind.Cooldown;
      if a.key == "" {
        return false;
      }
      var cutoff := a.timestamp - KindOf(a).Cooldown();
      if a.key in recentDedup && recentDedup[a.key] > cutoff {
        return true;
      }
      if answered {
        var recentKeys := set t | t in rows && t.At() >= cutoff :: t.alert.key;
        if a.key in recentKeys {
          recentDedup := recentDedup[a.key := a.timestamp];
          return true;
        }
      }
      return false;
    }

    /** `_prune_dedup`: collect the expired keys, then delete them one by one. */
    method PruneDedup(now: int)
      modifies this`recentDedup
      ensures recentDedup == Prune(old(recentDedup), now)
    {
      if |recentDedup| <= PRUNE_THRESHOLD {
        return;
      }
      var cutoff := now - MAX_COOLDOWN;
      var expired := set k | k in recentDedup && recentDedup[k] < cutoff;
      var left := expired;
      while left != {}
        invariant left <= expired
        invariant recentDedup == old(recentDedup) - (expired - left)
        decreases |left|
      {
        var k :| k in left;
        recentDedup := recentDedup - {k};
        left := left - {k};
      }
    }

    /** The first block under the lock. */
    method Admit(a: Alert, quiet: bool, answered: bool) returns (passed: bool)
      requires Valid() && Enabled(View(), Reserve(a, quiet, answered))
      modifies this
      ensures Valid() && history == old(history) + [Reserve(a, quiet, answered)]
      ensures View() == Next(old(View()), Reserve(a, quiet, answered))
      ensures passed == Admits(old(View()), a, quiet, answered)
      ensures passed <==> (!quiet || a.subject.severity in {Correlator.High, Correlator.Critical})
                          && !Duplicate(old(View()), a, answered)
    {
      hide Remembered, Stored, Legal, Run, Prune;
      Snoc(history, Reserve(a, quiet, answered));
      history := history + [Reserve(a, quiet, answered)];
      totalProcessed, lastSeen := totalProcessed + 1, a.timestamp;
      if Hushed(a, quiet) {
        totalSuppressed := totalSuppressed + 1;
        return false;
      }
      SameChecks(old(View()), View(), a);
      var duplicate := IsDuplicate(a, answered);
      if duplicate {
        totalSuppressed := totalSuppressed + 1;
        return false;
      }
      recentDedup := recentDedup[a.key := a.timestamp];
      PruneDedup(a.timestamp);
      inFlight := inFlight + {Ticket(a, life, answered)};
      return true;
    }

    /** The database write, and the block under the lock after it. */
    method Persist(t: Ticket, saved: bool)
      requires Valid() && t in View().inFlight
      modifies this
      ensures Valid() && history == old(history) + if saved then [Commit(t), Count(t)] else [Fail(t)]
      ensures lastSeen == old(lastSeen) && View().Standing() <= old(View().Standing())
    {
      hide Legal, Run;
      if saved {
        Snoc(history, Commit(t));
        Snoc(history + [Commit(t)], Count(t));
        assert history + [Commit(t), Count(t)] == history + [Commit(t)] + [Count(t)];
        history := history + [Commit(t), Count(t)];
        rows, inFlight := rows + {t}, inFlight - {t};
        written := written + {t} - {t};
        totalFired := totalFired + 1;
      } else {
        Snoc(history, Fail(t));
        history := history + [Fail(t)];
        if t.alert.key in recentDedup && recentDedup[t.alert.key] == t.At() {
          recentDedup := recentDedup - {t.alert.key};
        }
        inFlight := inFlight - {t};
        totalPersistenceFailed := totalPersistenceFailed + 1;
      }
    }

    /** `_handle_alert` with nothing coming in between: an alert that fires is shown to the
        correlator, and an incident it raises goes through the funnel too. */
    method HandleAlert(a: Alert, o: Outcome, observedAt: int, incidentId: nat, incidentAt: int, io: Outcome)
      returns (fired: bool, raised: Option<Alert>)
      requires Valid() && Enabled(View(), Reserve(a, o.quiet, o.answered))
      requires a.subject.category.IncidentCategory?
        || (Fresh(View(), incidentId) && incidentId != a.id && incidentAt >= a.timestamp)
      modifies this, correlator
      ensures Valid() && fired == Fires(old(View()), a, o)
      ensures raised == if fired && correlator != null
                          && !Verdict(old(correlator.View()), correlator.cfg, a.subject, observedAt).Silent?
                        then Some(IncidentAlert(Verdict(old(correlator.View()), correlator.cfg, a.subject, observedAt),
                                                           Correlator.ActorOf(a.subject), incidentId, incidentAt))
                        else None
      ensures var first := old(history) + Steps(old(View()), a, o);
              history == if raised.None? then first else first + Steps(Run(first), raised.value, io)
      ensures a.subject.category.IncidentCategory? ==> raised.None?
      decreases if a.subject.category.IncidentCategory? then 0 else 1
    {
      hide Legal, Run, Next, Admits, Correlator.Observe, Correlator.RunState;
      raised := None;
      ghost var before := View();
      var passed := Admit(a, o.quiet, o.answered);
      if !passed {
        return false, raised;
      }
      var t := Ticket(a, life, o.answered);
      AfterAdmission(before, a, o.quiet, o.answered);
      Persist(t, o.written);
      ghost var first := history;
      assert first == old(history) + Steps(before, a, o);
      fired := o.written;
      if fired && correlator != null {
        var actor, answer := correlator.ObserveAlert(a.subject, observedAt);
        if !answer.Silent? {
          raised := Some(IncidentAlert(answer, actor, incidentId, incidentAt));
          var _, _ := HandleAlert(raised.value, io, observedAt, incidentId, incidentAt, io);
        }
      }
    }
  }

  /** Incidents are heard at any hour and only a repeat of the same actor's holds them back: for two
      minutes when at least three sensors or twenty targets came together, else for ten. */
  lemma IncidentsAreHeard(answer: Correlator.Answer, actor: string, id: nat, at: int, s: State, quiet: bool,
      answered: bool)
    requires !answer.Silent?
    ensures var a := IncidentAlert(answer, actor, id, at);
            var wide := answer.Incident? && (|set e | e in answer.events :: e.sensor| >= 3
                        || |set e | e in answer.events && e.target != "" :: e.target| >= 20);
            && (Admits(s, a, quiet, answered) <==> !Duplicate(s, a, answered))
            && KindOf(a).Cooldown() == (if wide then 120 else 600) * 1_000_000
            && a.key == (if answer.Incident? then "incident:" + actor else "incident:sequence:" + actor)
            && a.subject.category == Correlator.IncidentCategory && a.timestamp == at
            && a.subject.affectedHost == actor && a.subject.relatedHost == ""
  {
    hide Remembered, Stored;
    if answer.Incident? {
      assert Correlator.Sensors(answer.events) == set e | e in answer.events :: e.sensor;
      assert Correlator.Targets(answer.events) == set e | e in answer.events && e.target != "" :: e.target;
    }
  }

  lemma Snoc(steps: seq<Step>, step: Step)
    requires Legal(steps) && Enabled(Run(steps), step)
    ensures Legal(steps + [step]) && Run(steps + [step]) == Next(Run(steps), step)
  {
    assert (steps + [step])[..|steps|] == steps;
  }

  lemma AfterAdmission(s: State, a: Alert, quiet: bool, answered: bool)
    requires Admits(s, a, quiet, answered)
    ensures var n := Next(s, Reserve(a, quiet, answered));
            && n.now == a.timestamp && n.life == s.life && n.inFlight == s.inFlight + {Ticket(a, s.life, answered)}
            && n.rows == s.rows
  {
    hide Remembered, Stored, Prune, Hushed;
  }

  /** The duplicate check reads the cache and the database only. */
  lemma SameChecks(s: State, n: State, a: Alert)
    requires s.cache == n.cache && s.rows == n.rows
    ensures Remembered(s, a) == Remembered(n, a) && Stored(s, a) == Stored(n, a)
  {
  }
}
