/** What stops an alert, in numbers (alerts/manager.py:40-65, 157-176, 247-297): quiet hours, the
    seconds of each category, and what memory holds. */
module AlertGates {
  import opened Basics
  import Correlator
  import opened AlertFunnel

  // --------------------------------------------------------------------- quiet hours

  /** In every run: an alert is let through if and only if it is no duplicate and, in quiet hours, HIGH
      or CRITICAL.  What is not let through is counted as suppressed. */
  lemma LetThroughIff(steps: seq<Step>, a: Alert, quiet: bool, answered: bool)
    requires Legal(steps + [Reserve(a, quiet, answered)])
    ensures var s, n := Run(steps), Run(steps + [Reserve(a, quiet, answered)]);
            var passes := (!quiet || a.subject.severity in {Correlator.High, Correlator.Critical})
                          && !Duplicate(s, a, answered);
            && n.Standing() == s.Standing() + (if passes then {Ticket(a, s.life, answered)} else {})
            && Ticket(a, s.life, answered) !in s.Standing()
            && n.processed == s.processed + 1 && n.suppressed == s.suppressed + if passes then 0 else 1
  {
    var all := steps + [Reserve(a, quiet, answered)];
    assert all[..|steps|] == steps;
    hide Remembered, Stored, Prune, Run, Legal;
  }

  // ------------------------------------------------------------------------- seconds

  /** The category's cooldown in seconds. */
  const SECONDS: map<Category, int> := map[
    Correlator.ArpAnomaly := 300, Correlator.NewDevice := 3600, Correlator.PortScan := 300, Correlator.Beacon := 1800,
    Correlator.ConnectionAnomaly := 600, Correlator.DnsAnomaly := 600, Correlator.LateralMovement := 300,
    Correlator.AuthAnomaly := 300, Correlator.TrafficSpike := 600, Correlator.ProcessAnomaly := 1800,
    Correlator.ThreatIntel := 3600, Correlator.Honeypot := 300, Correlator.IncidentCategory := 600,
    Correlator.SystemCategory := 300]

  /** CRITICAL alerts come back after at most two minutes. */
  function SecondsOf(k: Kind): int {
    if k.severity == Correlator.Critical then 120
    else if k.category in SECONDS then SECONDS[k.category] else 0
  }

  lemma CooldownIs(k: Kind)
    ensures k.Cooldown() == SecondsOf(k) * 1_000_000
  {
  }

  /** A stored alert of a key holds back one of the same kind until its seconds are over; with the
      database's answer the last moment is still held back, from memory alone it is not. */
  lemma RepeatPassesIff(k: Kind, a: Alert, b: Alert, after: nat, answered: bool)
    requires k.key != "" && a == AlertOf(k, 0, 0) && b == AlertOf(k, 1, after)
    ensures var steps := [Reserve(a, false, true), Commit(Ticket(a, 0, true))];
            && Legal(steps + [Reserve(b, false, answered)])
            && (Ticket(b, 0, answered) in Run(steps + [Reserve(b, false, answered)]).inFlight
                <==> if answered then after > SecondsOf(k) * 1_000_000 else after >= SecondsOf(k) * 1_000_000)
  {
    CooldownIs(k);
    CooldownBounds(k);
    var t := Ticket(a, 0, true);
    var steps := [Reserve(a, false, true), Commit(t)];
    hide CategoryCooldown, Kind.Cooldown, SecondsOf, Next, Run, Legal, Enabled;
    var s1 := State(map[k.key := 0], {t}, {}, {}, 0, 0, 1, 0, 0, 0);
    var s2 := State(map[k.key := 0], {}, {t}, {t}, 0, 0, 1, 0, 0, 0);
    assert Legal(steps[..0]) && Run(steps[..0]) == START by { NoSteps(); }
    PassesUnwritten(START, a);
    Extends(steps, 0, START, s1);
    assert Enabled(s1, Commit(t)) && Next(s1, Commit(t)) == s2 by { Commits(s1, t, s2); }
    Extends(steps, 1, s1, s2);
    assert steps[..2] == steps;
    RepeatAfter(s2, t, b, answered);
    var all := steps + [Reserve(b, false, answered)];
    assert all[..2] == steps;
    Extends(all, 2, s2, Next(s2, Reserve(b, false, answered)));
    assert all[..3] == all;
  }

  lemma RepeatAfter(s: State, t: Ticket, b: Alert, answered: bool)
    requires s == State(map[b.key := 0], {}, {t}, {t}, 0, 0, 1, 0, 0, 0) && t.At() == 0 && t.alert.key == b.key != ""
    requires b.timestamp >= 0 && t.alert.id != b.id
    ensures Enabled(s, Reserve(b, false, answered))
    ensures Ticket(b, 0, answered) in Next(s, Reserve(b, false, answered)).inFlight
            <==> if answered then b.timestamp > KindOf(b).Cooldown() else b.timestamp >= KindOf(b).Cooldown()
  {
    hide CategoryCooldown, Kind.Cooldown, Prune;
    if b.timestamp - KindOf(b).Cooldown() <= 0 {
      assert Stored(s, b);
    }
  }

  // -------------------------------------------------------------------------- memory

  /** After an alert is let through, memory holds at most 2048 keys or nothing older than an hour, and
      while it holds no more than 2048 nothing is forgotten. */
  lemma MemoryIsPruned(s: State, a: Alert, answered: bool)
    ensures var n := Admitted(s, a, answered); var all := s.cache[a.key := a.timestamp];
            && (|n.cache| <= 2048 || forall k :: k in n.cache ==> n.cache[k] >= a.timestamp - 3600 * 1_000_000)
            && (|all| <= 2048 ==> n.cache == all)
            && (forall k ::
                  k in all && all[k] >= a.timestamp - 3600 * 1_000_000
                  ==> k in n.cache && n.cache[k] == all[k])
  {
  }
}
