/** Whether a poll's evictions can change an alert: the detector beside one that is never polled. */
module PortScanEviction {
  import A = Adaptive
  import opened PortScan

  /** The same detector without the polls. */
  function RunUnpolled(steps: seq<Step>, cfg: Config): State {
    if steps == [] then State(map[], map[], map[], NO_TRIPS)
    else
      var before := RunUnpolled(steps[..|steps| - 1], cfg);
      match steps[|steps| - 1]
      case Seen(p) => Record(before, cfg, p).0
      case Poll(_) => before
  }

  /** The evictions do not show in the next probe's alerts. */
  predicate Unseen(steps: seq<Step>, cfg: Config, p: Probe) {
    && Record(Run(steps, cfg), cfg, p).1 == Record(RunUnpolled(steps, cfg), cfg, p).1
    && Record(Run(steps, cfg), cfg, p).2 == Record(RunUnpolled(steps, cfg), cfg, p).2
  }

  /** Without polls the tables stand for the same histories. */
  lemma {:induction false} UnpolledTables(steps: seq<Step>, cfg: Config, start: int, slip: Slip)
    requires Timely(steps, start, slip)
    ensures Tables(RunUnpolled(steps, cfg), RunPlain(steps, cfg), Clock(steps, start, slip), slip)
  {
    hide Record, Consult;
    if steps != [] {
      hide Tables;
      var before, step := steps[..|steps| - 1], steps[|steps| - 1];
      UnpolledTables(before, cfg, start, slip);
      var u, q, clock, later :=
        RunUnpolled(before, cfg), RunPlain(before, cfg), Clock(before, start, slip), Clock(steps, start, slip);
      match step {
        case Seen(p) => RecordTables(u, q, cfg, clock, later, p, slip);
        case Poll(now) => TablesLater(u, q, clock, later, slip);
      }
    }
  }

  lemma TablesLater(s: State, q: Plain, clock: int, later: int, slip: Slip)
    requires Tables(s, q, clock, slip) && clock <= later
    ensures Tables(s, q, later, slip)
  {
    hide Mirrors;
    MirrorsLater(s.scanPorts, q.ports, clock, later, slip);
    MirrorsLater(s.sweepTargets, q.hosts, clock, later, slip);
  }

  /** The same trips, and no cooldown forgotten that still runs. */
  ghost predicate Same(s: State, u: State, clock: int) {
    s.trips == u.trips && Remembers(s.lastAlert, u.lastAlert, clock)
  }

  lemma JudgeSame(last: map<AlertKey, int>, kept: map<AlertKey, int>, trips: A.Trips, cfg: A.Config, k: AlertKey,
      signal: A.Key, count: nat, base: nat, clock: int, now: int)
    requires Remembers(last, kept, clock) && clock <= now
    ensures var a, b := Judge(last, trips, cfg, k, signal, count, base, now),
                        Judge(kept, trips, cfg, k, signal, count, base, now);
            a.alert == b.alert && a.trips == b.trips && Remembers(a.lastAlert, b.lastAlert, clock)
  {
    hide A.Multiplier, A.RecordTrip;
  }

  lemma RecordSame(s: State, u: State, q: Plain, cfg: Config, clock: int, p: Probe, slip: Slip)
    requires Tables(s, q, clock, slip) && Tables(u, q, clock, slip) && slip.Blind() == 0
    requires Same(s, u, clock) && clock <= p.at
    ensures var a, b := Record(s, cfg, p), Record(u, cfg, p); a.1 == b.1 && a.2 == b.2 && Same(a.0, b.0, clock)
  {
    hide Judge, Mirrors, Remembers, EntriesOf, Newest, Unique, Locals;
    var pair := Pair(p.src, p.dst);
    CountsAgree(s.scanPorts, q.ports, clock, pair, Entry(p.at, p.port), p.at - WINDOW, slip);
    CountsAgree(u.scanPorts, q.ports, clock, pair, Entry(p.at, p.port), p.at - WINDOW, slip);
    CountsAgree(s.sweepTargets, q.hosts, clock, p.src, Entry(p.at, p.dst), p.at - WINDOW, slip);
    CountsAgree(u.sweepTargets, q.hosts, clock, p.src, Entry(p.at, p.dst), p.at - WINDOW, slip);
    var n := |Unique(PortsAt(s.scanPorts, p), p.at - WINDOW)|;
    var m := |Locals(Unique(HostsAt(s.sweepTargets, p), p.at - WINDOW), cfg)|;
    JudgeSame(s.lastAlert, u.lastAlert, s.trips, cfg.adaptive, ScanOf(pair), ScanSignal(p.src), n, cfg.ports, clock,
      p.at);
    var a := Judge(s.lastAlert, s.trips, cfg.adaptive, ScanOf(pair), ScanSignal(p.src), n, cfg.ports, p.at);
    var b := Judge(u.lastAlert, s.trips, cfg.adaptive, ScanOf(pair), ScanSignal(p.src), n, cfg.ports, p.at);
    JudgeSame(a.lastAlert, b.lastAlert, a.trips, cfg.adaptive, SweepOf(p.src), SweepSignal(p.src), m, SWEEP_BASE, clock,
      p.at);
  }

  lemma SameLater(s: State, u: State, clock: int, later: int)
    requires Same(s, u, clock) && clock <= later
    ensures Same(s, u, later)
  {
  }

  lemma EvictSame(s: State, u: State, clock: int, later: int, now: int)
    requires Same(s, u, clock) && clock <= later && now - 1 <= later
    ensures Same(Evict(s, now), u, later)
  {
    hide Idle;
  }

  lemma {:induction false} RunSame(steps: seq<Step>, cfg: Config, start: int, slip: Slip)
    requires Timely(steps, start, slip) && slip.lag + slip.disorder <= 1
    ensures Same(Run(steps, cfg), RunUnpolled(steps, cfg), Clock(steps, start, slip))
  {
    hide Record, Evict, Tables;
    if steps != [] {
      hide Same;
      var before, step := steps[..|steps| - 1], steps[|steps| - 1];
      RunSame(before, cfg, start, slip);
      RunTables(before, cfg, start, slip);
      UnpolledTables(before, cfg, start, slip);
      var s, u, q := Run(before, cfg), RunUnpolled(before, cfg), RunPlain(before, cfg);
      var clock, later := Clock(before, start, slip), Clock(steps, start, slip);
      match step {
        case Seen(p) =>
          RecordSame(s, u, q, cfg, clock, p, slip);
          SameLater(Record(s, cfg, p).0, Record(u, cfg, p).0, clock, later);
        case Poll(now) =>
          EvictSame(s, u, clock, later, now);
      }
    }
  }

  lemma EvictionsAreUnseen(steps: seq<Step>, cfg: Config, p: Probe, start: int, slip: Slip)
    requires Timely(steps, start, slip) && p.at >= Clock(steps, start, slip) && slip.lag + slip.disorder <= 1
    ensures Unseen(steps, cfg, p)
  {
    RunSame(steps, cfg, start, slip);
    RunTables(steps, cfg, start, slip);
    UnpolledTables(steps, cfg, start, slip);
    hide Record, Run, RunPlain, RunUnpolled, Same, Tables;
    RecordSame(Run(steps, cfg), RunUnpolled(steps, cfg), RunPlain(steps, cfg), cfg, Clock(steps, start, slip), p, slip);
  }
}
