/** What a scan or sweep alert says about the probes before it, in numbers
    (detectors/port_scan_detector.py:91-259). */
module PortScanAlerts {
  import opened Basics
  import A = Adaptive
  import opened PortScan
  import opened PortScanLimits

  predicate ScanAt(steps: seq<Step>, cfg: Config, i: nat)
    requires i < |steps|
  {
    steps[i].Seen? && Record(Run(steps[..i], cfg), cfg, steps[i].probe).1
  }

  predicate SweepAt(steps: seq<Step>, cfg: Config, i: nat)
    requires i < |steps|
  {
    steps[i].Seen? && Record(Run(steps[..i], cfg), cfg, steps[i].probe).2
  }

  // ------------------------------------------------------------------ five minutes apart

  lemma TimelyPrefix(steps: seq<Step>, start: int, slip: Slip, i: nat)
    requires Timely(steps, start, slip) && i < |steps|
    ensures Timely(steps[..i], start, slip)
    ensures steps[i].Seen? ==> steps[i].probe.at >= Clock(steps[..i], start, slip)
  {
    var before := steps[..|steps| - 1];
    if i < |steps| - 1 {
      assert before[..i] == steps[..i] && before[i] == steps[i];
      TimelyPrefix(before, start, slip, i);
    }
  }

  lemma {:induction false} ClockRises(steps: seq<Step>, start: int, lag: int, i: nat)
    requires Timely(steps, start, Slip(lag, 0)) && i < |steps| && steps[i].Seen?
    ensures steps[i].probe.at <= Clock(steps, start, Slip(lag, 0))
  {
    if i < |steps| - 1 {
      ClockRises(steps[..|steps| - 1], start, lag, i);
    }
  }

  /** The reference's last alert of a key is at least as late as any alert it has raised. */
  lemma {:induction false} AlertedSince(steps: seq<Step>, cfg: Config, start: int, lag: int, k: AlertKey, i: nat)
    requires Timely(steps, start, Slip(lag, 0)) && i < |steps| && steps[i].Seen?
    requires k in RunPlain(steps[..i + 1], cfg).alerted && RunPlain(steps[..i + 1], cfg).alerted[k] == steps[i].probe.at
    ensures k in RunPlain(steps, cfg).alerted && RunPlain(steps, cfg).alerted[k] >= steps[i].probe.at
    decreases |steps|
  {
    if i == |steps| - 1 {
      assert steps[..i + 1] == steps;
    } else {
      var before, step := steps[..|steps| - 1], steps[|steps| - 1];
      assert before[..i + 1] == steps[..i + 1];
      AlertedSince(before, cfg, start, lag, k, i);
      ClockRises(before, start, lag, i);
      if step.Seen? {
        AlertedGrows(RunPlain(before, cfg), cfg, step.probe);
      }
    }
  }

  lemma AlertedGrows(q: Plain, cfg: Config, p: Probe)
    ensures var n, scan, sweep := Consult(q, cfg, p).0, Consult(q, cfg, p).1, Consult(q, cfg, p).2;
            && (forall k :: k in q.alerted ==> k in n.alerted && (n.alerted[k] == q.alerted[k] || n.alerted[k] == p.at))
            && (scan ==> ScanOf(Pair(p.src, p.dst)) in n.alerted && n.alerted[ScanOf(Pair(p.src, p.dst))] == p.at)
            && (sweep ==> SweepOf(p.src) in n.alerted && n.alerted[SweepOf(p.src)] == p.at)
            && (scan && ScanOf(Pair(p.src, p.dst)) in q.alerted ==>
                  p.at - q.alerted[ScanOf(Pair(p.src, p.dst))] >= 300 * 1_000_000)
            && (sweep && SweepOf(p.src) in q.alerted ==> p.at - q.alerted[SweepOf(p.src)] >= 300 * 1_000_000)
  {
    hide A.Deserved, A.Recorded, Newest, Unique, Locals, EntriesOf;
  }

  /** Two port-scan alerts of one pair are at least five minutes apart. */
  lemma ScansAreApart(steps: seq<Step>, cfg: Config, start: int, lag: int, i: nat, j: nat)
    requires Timely(steps, start, Slip(lag, 0)) && lag <= 1 && i < j < |steps|
    requires ScanAt(steps, cfg, i) && ScanAt(steps, cfg, j)
    requires steps[i].probe.src == steps[j].probe.src && steps[i].probe.dst == steps[j].probe.dst
    ensures steps[j].probe.at - steps[i].probe.at >= 300 * 1_000_000
  {
    hide Consult, Record, RunPlain, Run, Timely, Clock;
    var p := steps[i].probe;
    AlertOfReference(steps, cfg, start, lag, i);
    AlertOfReference(steps, cfg, start, lag, j);
    assert steps[..j][..i + 1] == steps[..i + 1] && steps[..j][i] == steps[i];
    TimelyPrefix(steps, start, Slip(lag, 0), j);
    AlertedGrows(RunPlain(steps[..j], cfg), cfg, steps[j].probe);
    AlertedSince(steps[..j], cfg, start, lag, ScanOf(Pair(p.src, p.dst)), i);
  }

  /** Two host-sweep alerts of one source are at least five minutes apart. */
  lemma SweepsAreApart(steps: seq<Step>, cfg: Config, start: int, lag: int, i: nat, j: nat)
    requires Timely(steps, start, Slip(lag, 0)) && lag <= 1 && i < j < |steps|
    requires SweepAt(steps, cfg, i) && SweepAt(steps, cfg, j) && steps[i].probe.src == steps[j].probe.src
    ensures steps[j].probe.at - steps[i].probe.at >= 300 * 1_000_000
  {
    hide Consult, Record, RunPlain, Run, Timely, Clock;
    AlertOfReference(steps, cfg, start, lag, i);
    AlertOfReference(steps, cfg, start, lag, j);
    assert steps[..j][..i + 1] == steps[..i + 1] && steps[..j][i] == steps[i];
    TimelyPrefix(steps, start, Slip(lag, 0), j);
    AlertedGrows(RunPlain(steps[..j], cfg), cfg, steps[j].probe);
    AlertedSince(steps[..j], cfg, start, lag, SweepOf(steps[i].probe.src), i);
  }

  lemma AlertOfReference(steps: seq<Step>, cfg: Config, start: int, lag: int, i: nat)
    requires Timely(steps, start, Slip(lag, 0)) && lag <= 1 && i < |steps| && steps[i].Seen?
    ensures ScanAt(steps, cfg, i) == Consult(RunPlain(steps[..i], cfg), cfg, steps[i].probe).1
    ensures SweepAt(steps, cfg, i) == Consult(RunPlain(steps[..i], cfg), cfg, steps[i].probe).2
    ensures RunPlain(steps[..i + 1], cfg) == Consult(RunPlain(steps[..i], cfg), cfg, steps[i].probe).0
    ensures var p, n := steps[i].probe, RunPlain(steps[..i + 1], cfg).alerted;
            && (ScanAt(steps, cfg, i) ==> ScanOf(Pair(p.src, p.dst)) in n && n[ScanOf(Pair(p.src, p.dst))] == p.at)
            && (SweepAt(steps, cfg, i) ==> SweepOf(p.src) in n && n[SweepOf(p.src)] == p.at)
  {
    TimelyPrefix(steps, start, Slip(lag, 0), i);
    LagRefinesHistory(steps[..i], cfg, steps[i].probe, start, lag);
    AlertedGrows(RunPlain(steps[..i], cfg), cfg, steps[i].probe);
    assert steps[..i + 1][..i] == steps[..i];
    hide Consult, Record, Run;
  }

  // ------------------------------------------------------------------- probes behind it

  /** The ports of the pair probed within a minute of the last step. */
  ghost function PortsProbed(steps: seq<Step>): set<nat>
    requires steps != [] && steps[|steps| - 1].Seen?
  {
    var p := steps[|steps| - 1].probe;
    set i | 0 <= i < |steps| && steps[i].Seen? && steps[i].probe.src == p.src && steps[i].probe.dst == p.dst
            && p.at - steps[i].probe.at < 60 * 1_000_000 :: steps[i].probe.port
  }

  /** The local hosts the source probed within a minute of the last step. */
  ghost function HostsProbed(steps: seq<Step>, cfg: Config): set<string>
    requires steps != [] && steps[|steps| - 1].Seen?
  {
    var p := steps[|steps| - 1].probe;
    set i | 0 <= i < |steps| && steps[i].Seen? && steps[i].probe.src == p.src && cfg.local(steps[i].probe.dst)
            && p.at - steps[i].probe.at < 60 * 1_000_000 :: steps[i].probe.dst
  }

  ghost predicate PortProbed(steps: seq<Step>, pair: Pair, e: Entry<nat>) {
    exists i :: 0 <= i < |steps| && steps[i] == Seen(Probe(pair.src, pair.dst, e.what, e.at))
  }

  ghost predicate HostProbed(steps: seq<Step>, src: string, e: Entry<string>) {
    exists i :: 0 <= i < |steps| && IsProbeOf(steps[i], src, e)
  }

  predicate IsProbeOf(step: Step, src: string, e: Entry<string>) {
    step.Seen? && step.probe.src == src && step.probe.dst == e.what && step.probe.at == e.at
  }

  lemma ProbedGrows(steps: seq<Step>, step: Step, pair: Pair, e: Entry<nat>, src: string, h: Entry<string>)
    ensures PortProbed(steps, pair, e) || step == Seen(Probe(pair.src, pair.dst, e.what, e.at)) ==>
              PortProbed(steps + [step], pair, e)
    ensures HostProbed(steps, src, h) || IsProbeOf(step, src, h) ==> HostProbed(steps + [step], src, h)
  {
    var all := steps + [step];
    assert all[|steps|] == step;
    if i :| 0 <= i < |steps| && steps[i] == Seen(Probe(pair.src, pair.dst, e.what, e.at)) {
      assert all[i] == steps[i];
    }
    if i :| 0 <= i < |steps| && IsProbeOf(steps[i], src, h) {
      assert all[i] == steps[i];
    }
  }

  lemma {:induction false} EntriesWereProbed(steps: seq<Step>, cfg: Config)
    ensures forall pair, e :: e in EntriesOf(Run(steps, cfg).scanPorts, pair) ==> PortProbed(steps, pair, e)
    ensures forall src, e :: e in EntriesOf(Run(steps, cfg).sweepTargets, src) ==> HostProbed(steps, src, e)
  {
    hide Next, PortProbed, HostProbed, IsProbeOf;
    if steps != [] {
      var before, step := steps[..|steps| - 1], steps[|steps| - 1];
      assert steps == before + [step];
      EntriesWereProbed(before, cfg);
      var s, n := Run(before, cfg), Run(steps, cfg);
      assert n == Next(s, cfg, step);
      hide Run, EntriesOf;
      EntriesAfter(s, cfg, step);
      forall pair, e | e in EntriesOf(n.scanPorts, pair) ensures PortProbed(steps, pair, e) {
        ProbedGrows(before, step, pair, e, "", Entry(0, ""));
      }
      forall src, e | e in EntriesOf(n.sweepTargets, src) ensures HostProbed(steps, src, e) {
        ProbedGrows(before, step, Pair("", ""), Entry(0, 0), src, e);
      }
    }
  }

  lemma EntriesAfter(s: State, cfg: Config, step: Step)
    ensures forall pair, e :: e in EntriesOf(Next(s, cfg, step).scanPorts, pair) ==>
              e in EntriesOf(s.scanPorts, pair) || step == Seen(Probe(pair.src, pair.dst, e.what, e.at))
    ensures forall src, e :: e in EntriesOf(Next(s, cfg, step).sweepTargets, src) ==>
              e in EntriesOf(s.sweepTargets, src) || IsProbeOf(step, src, e)
  {
    hide Judge, Unique, Locals;
  }

  /** A port-scan alert has at least the configured number of ports, and a host-sweep alert at least 15
      local hosts, probed within the minute that ends with its probe: over every run, in any order. */
  lemma AlertsHaveCauses(steps: seq<Step>, cfg: Config)
    requires steps != [] && steps[|steps| - 1].Seen? && cfg.adaptive.Valid()
    ensures ScanAt(steps, cfg, |steps| - 1) ==> |PortsProbed(steps)| >= cfg.ports
    ensures SweepAt(steps, cfg, |steps| - 1) ==> |HostsProbed(steps, cfg)| >= 15
  {
    var last := |steps| - 1;
    var s, p := Run(steps[..last], cfg), steps[last].probe;
    CountedWereProbed(steps, cfg);
    AlertsCount(s, cfg, p);
    hide Run, Record, PortsAt, HostsAt, Unique, Locals;
    SubsetSize(Unique(PortsAt(s.scanPorts, p), p.at - WINDOW), PortsProbed(steps));
    SubsetSize(Locals(Unique(HostsAt(s.sweepTargets, p), p.at - WINDOW), cfg), HostsProbed(steps, cfg));
  }

  lemma CountedWereProbed(steps: seq<Step>, cfg: Config)
    requires steps != [] && steps[|steps| - 1].Seen?
    ensures var last := |steps| - 1; var s, p := Run(steps[..last], cfg), steps[last].probe;
            && Unique(PortsAt(s.scanPorts, p), p.at - WINDOW) <= PortsProbed(steps)
            && Locals(Unique(HostsAt(s.sweepTargets, p), p.at - WINDOW), cfg) <= HostsProbed(steps, cfg)
  {
    var last := |steps| - 1;
    var before, p := steps[..last], steps[last].probe;
    var s := Run(before, cfg);
    assert steps == before + [Seen(p)];
    EntriesWereProbed(before, cfg);
    hide Run, EntriesOf, PortProbed, HostProbed, IsProbeOf, PortsProbed, HostsProbed;
    forall e | e in PortsAt(s.scanPorts, p) && e.at > p.at - WINDOW ensures e.what in PortsProbed(steps) {
      assert e in EntriesOf(s.scanPorts, Pair(p.src, p.dst)) || e == Entry(p.at, p.port);
      ProbedGrows(before, Seen(p), Pair(p.src, p.dst), e, "", Entry(0, ""));
      PortIsListed(steps, e);
    }
    forall e | e in HostsAt(s.sweepTargets, p) && e.at > p.at - WINDOW && cfg.local(e.what)
      ensures e.what in HostsProbed(steps, cfg) {
      assert e in EntriesOf(s.sweepTargets, p.src) || e == Entry(p.at, p.dst);
      assert e == Entry(p.at, p.dst) ==> IsProbeOf(Seen(p), p.src, e) by { ItsOwnProbe(p, e); }
      ProbedGrows(before, Seen(p), Pair("", ""), Entry(0, 0), p.src, e);
      HostIsListed(steps, cfg, e);
    }
  }

  lemma ItsOwnProbe(p: Probe, e: Entry<string>)
    ensures e == Entry(p.at, p.dst) ==> IsProbeOf(Seen(p), p.src, e)
  {
  }

  lemma PortIsListed(steps: seq<Step>, e: Entry<nat>)
    requires steps != [] && steps[|steps| - 1].Seen?
    requires var p := steps[|steps| - 1].probe; PortProbed(steps, Pair(p.src, p.dst), e) && e.at > p.at - WINDOW
    ensures e.what in PortsProbed(steps)
  {
  }

  lemma HostIsListed(steps: seq<Step>, cfg: Config, e: Entry<string>)
    requires steps != [] && steps[|steps| - 1].Seen? && cfg.local(e.what)
    requires var p := steps[|steps| - 1].probe; HostProbed(steps, p.src, e) && e.at > p.at - WINDOW
    ensures e.what in HostsProbed(steps, cfg)
  {
  }

  lemma AlertsCount(s: State, cfg: Config, p: Probe)
    requires cfg.adaptive.Valid()
    ensures Record(s, cfg, p).1 ==> |Unique(PortsAt(s.scanPorts, p), p.at - WINDOW)| >= cfg.ports
    ensures Record(s, cfg, p).2 ==> |Locals(Unique(HostsAt(s.sweepTargets, p), p.at - WINDOW), cfg)| >= 15
  {
    hide Judge, Unique, Locals, PortsAt, HostsAt, A.Backoff;
    A.BackoffGrows(cfg.adaptive, 0, 0);
    var pair := Pair(p.src, p.dst);
    var ports, hosts := |Unique(PortsAt(s.scanPorts, p), p.at - WINDOW)|,
                        |Locals(Unique(HostsAt(s.sweepTargets, p), p.at - WINDOW), cfg)|;
    var scan := Judge(s.lastAlert, s.trips, cfg.adaptive, ScanOf(pair), ScanSignal(p.src), ports, cfg.ports, p.at);
    if scan.alert {
      JudgeNeedsBase(s.lastAlert, s.trips, cfg.adaptive, ScanOf(pair), ScanSignal(p.src), ports, cfg.ports, p.at);
      Scaled(cfg.ports as real, 1.0, A.Backoff(cfg.adaptive, 0));
    }
    if Record(s, cfg, p).2 {
      JudgeNeedsBase(scan.lastAlert, scan.trips, cfg.adaptive, SweepOf(p.src), SweepSignal(p.src), hosts, SWEEP_BASE,
        p.at);
      Scaled(SWEEP_BASE as real, 1.0, A.Backoff(cfg.adaptive, 0));
    }
  }
}
