/** Where port-scan detection ends: polls seen by probes older than they are, probes handled out of
    order, and thresholds that a deque of 500 probes cannot reach. */
module PortScanLimits {
  import opened Basics
  import A = Adaptive
  import opened PortScan
  import opened PortScanEviction

  /** The threshold of a host without trips. */
  function Base(cfg: Config): real { cfg.ports as real * A.Backoff(cfg.adaptive, 0) }

  const SRC := "192.0.2.1"
  const DST := "192.0.2.2"
  const PAIR := Pair(SRC, DST)

  /** Ports 0 to `n - 1` probed at time 0. */
  function Ports(n: nat): seq<Entry<nat>> {
    if n == 0 then [] else Ports(n - 1) + [Entry(0, n - 1)]
  }

  function Hosts(n: nat): seq<Entry<string>> {
    if n == 0 then [] else Hosts(n - 1) + [Entry(0, DST)]
  }

  function Probes(n: nat): seq<Step> {
    if n == 0 then [] else Probes(n - 1) + [Seen(Probe(SRC, DST, n - 1, 0))]
  }

  function Table0<K, T>(k: K, entries: seq<Entry<T>>): Table<K, T> {
    if entries == [] then map[] else map[k := entries]
  }

  lemma {:induction false} PortsAre(n: nat)
    ensures |Ports(n)| == n && |Hosts(n)| == n
    ensures forall e :: e in Ports(n) <==> e.at == 0 && e.what < n
    ensures forall e :: e in Hosts(n) ==> e == Entry(0, DST)
  {
    if n > 0 {
      PortsAre(n - 1);
    }
  }

  function Numbers(n: nat): (r: set<nat>)
    ensures |r| == n && forall i :: i in r <==> 0 <= i < n
  {
    if n == 0 then {} else Numbers(n - 1) + {n - 1}
  }

  /** The last of `n` ports may come later than the others, as long as they all count. */
  lemma PortsCount(n: nat, at: int, cutoff: int)
    requires n > 0 && cutoff < 0 <= at
    ensures |Unique(Ports(n - 1) + [Entry(at, n - 1)], cutoff)| == n
  {
    PortsAre(n - 1);
    var all := Ports(n - 1) + [Entry(at, n - 1)];
    forall i: nat | i < n ensures i in Unique(all, cutoff) {
      if i < n - 1 {
        assert Entry(0, i) in all;
      } else {
        assert all[n - 1] == Entry(at, n - 1);
      }
    }
    assert Unique(all, cutoff) == Numbers(n);
  }

  lemma OneHost(hosts: seq<Entry<string>>, cutoff: int, cfg: Config)
    requires forall e :: e in hosts ==> e.what == DST
    ensures |Locals(Unique(hosts, cutoff), cfg)| <= 1
  {
    var locals := Locals(Unique(hosts, cutoff), cfg);
    if locals != {} {
      assert locals == {DST};
    }
  }

  /** Below the threshold nothing happens, neither in the code nor in the reference. */
  lemma BelowThreshold(cfg: A.Config, k: AlertKey, signal: A.Key, count: nat, base: nat, now: int)
    requires count as real < base as real * A.Backoff(cfg, 0)
    ensures Judge(map[], NO_TRIPS, cfg, k, signal, count, base, now) == Judged(map[], NO_TRIPS, false)
    ensures Due(map[], map[], cfg, k, signal, count, base, now) == PlainJudged(map[], map[], false)
  {
  }

  lemma AtThreshold(cfg: A.Config, k: AlertKey, signal: A.Key, count: nat, base: nat, now: int)
    requires count as real >= base as real * A.Backoff(cfg, 0)
    ensures Judge(map[], NO_TRIPS, cfg, k, signal, count, base, now).alert
    ensures Due(map[], map[], cfg, k, signal, count, base, now).alert
  {
  }

  /** One host is below the sweep threshold. */
  lemma NoSweep(cfg: Config, hosts: seq<Entry<string>>, now: int)
    requires cfg.adaptive.Valid() && forall e :: e in hosts ==> e.what == DST
    ensures var n := |Locals(Unique(hosts, now - WINDOW), cfg)|;
            && Judge(map[], NO_TRIPS, cfg.adaptive, SweepOf(SRC), SweepSignal(SRC), n, SWEEP_BASE, now)
               == Judged(map[], NO_TRIPS, false)
            && Due(map[], map[], cfg.adaptive, SweepOf(SRC), SweepSignal(SRC), n, SWEEP_BASE, now)
               == PlainJudged(map[], map[], false)
  {
    OneHost(hosts, now - WINDOW, cfg);
    A.BackoffGrows(cfg.adaptive, 0, 0);
    var n := |Locals(Unique(hosts, now - WINDOW), cfg)|;
    assert SWEEP_BASE as real * A.Backoff(cfg.adaptive, 0) >= 15.0;
    BelowThreshold(cfg.adaptive, SweepOf(SRC), SweepSignal(SRC), n, SWEEP_BASE, now);
  }

  lemma NextTables(n: nat)
    requires n < MAX_ENTRIES
    ensures var ports := EntriesOf(Table0(PAIR, Ports(n)), PAIR) + [Entry(0, n)];
            ports == Newest(ports) == Ports(n + 1) && Table0(PAIR, Ports(n))[PAIR := ports]
              == Table0(PAIR, Ports(n + 1))
    ensures var hosts := EntriesOf(Table0(SRC, Hosts(n)), SRC) + [Entry(0, DST)];
            hosts == Newest(hosts) == Hosts(n + 1) && Table0(SRC, Hosts(n))[SRC := hosts] == Table0(SRC, Hosts(n + 1))
  {
    PortsAre(n);
    assert EntriesOf(Table0(PAIR, Ports(n)), PAIR) == Ports(n) && EntriesOf(Table0(SRC, Hosts(n)), SRC) == Hosts(n);
  }

  /** The checks after a probe of the next port stay quiet. */
  lemma NextIsQuiet(cfg: Config, n: nat)
    requires cfg.adaptive.Valid() && (n + 1) as real < Base(cfg)
    ensures BelowThresholds(cfg, |Unique(Ports(n + 1), 0 - WINDOW)|, |Locals(Unique(Hosts(n + 1), 0 - WINDOW), cfg)|)
  {
    hide Judge, Due, Unique, Locals, A.Backoff;
    PortsAre(n + 1);
    PortsCount(n + 1, 0, -WINDOW);
    assert Ports(n + 1) == Ports(n) + [Entry(0, n)];
    NoSweep(cfg, Hosts(n + 1), 0);
    BelowThreshold(cfg.adaptive, ScanOf(PAIR), ScanSignal(SRC), n + 1, cfg.ports, 0);
  }

  predicate BelowThresholds(cfg: Config, ports: nat, hosts: nat) {
    && Judge(map[], NO_TRIPS, cfg.adaptive, ScanOf(PAIR), ScanSignal(SRC), ports, cfg.ports, 0)
        == Judged(map[], NO_TRIPS, false)
    && Due(map[], map[], cfg.adaptive, ScanOf(PAIR), ScanSignal(SRC), ports, cfg.ports, 0)
        == PlainJudged(map[], map[], false)
    && Judge(map[], NO_TRIPS, cfg.adaptive, SweepOf(SRC), SweepSignal(SRC), hosts, SWEEP_BASE, 0)
        == Judged(map[], NO_TRIPS, false)
    && Due(map[], map[], cfg.adaptive, SweepOf(SRC), SweepSignal(SRC), hosts, SWEEP_BASE, 0)
        == PlainJudged(map[], map[], false)
  }

  /** A quiet probe of the next port. */
  lemma NextPort(cfg: Config, n: nat)
    requires cfg.adaptive.Valid() && n < MAX_ENTRIES && (n + 1) as real < Base(cfg)
    ensures Record(State(Table0(PAIR, Ports(n)), Table0(SRC, Hosts(n)), map[], NO_TRIPS), cfg, Probe(SRC, DST, n, 0)).0
            == State(Table0(PAIR, Ports(n + 1)), Table0(SRC, Hosts(n + 1)), map[], NO_TRIPS)
    ensures Consult(Plain(Table0(PAIR, Ports(n)), Table0(SRC, Hosts(n)), map[], map[]), cfg, Probe(SRC, DST, n, 0)).0
            == Plain(Table0(PAIR, Ports(n + 1)), Table0(SRC, Hosts(n + 1)), map[], map[])
  {
    hide Judge, Due, Unique, Locals, A.Backoff, Ports, Hosts, EntriesOf, Table0, Newest;
    NextTables(n);
    NextIsQuiet(cfg, n);
  }

  /** After `n` probes below the threshold the tables hold them, and nothing else has happened. */
  lemma {:induction false} AfterProbes(cfg: Config, n: nat)
    requires cfg.adaptive.Valid() && n <= MAX_ENTRIES && (n > 0 ==> n as real < Base(cfg))
    ensures Hold(Probes(n), cfg, Ports(n), Hosts(n))
  {
    if n > 0 {
      AfterProbes(cfg, n - 1);
      NextPort(cfg, n - 1);
      hide Record, Consult, Ports, Hosts;
      assert Probes(n)[..n - 1] == Probes(n - 1) by { ProbeCount(n); }
      ProbeCount(n);
    }
  }

  lemma {:induction false} ProbeCount(n: nat)
    ensures |Probes(n)| == n
    ensures n > 0 ==> Probes(n)[..n - 1] == Probes(n - 1)
  {
    if n > 0 {
      ProbeCount(n - 1);
    }
  }

  lemma {:induction false} ProbesAreTimely(n: nat, slip: Slip)
    ensures Timely(Probes(n), 0 - slip.disorder, slip) && Clock(Probes(n), 0 - slip.disorder, slip) == 0 - slip.disorder
  {
    if n > 0 {
      ProbesAreTimely(n - 1, slip);
      ProbeCount(n);
    }
  }

  /** The number of ports that reaches a threshold. */
  lemma Enough(x: real) returns (n: nat)
    requires 0.0 <= x <= 500.0
    ensures 1 <= n <= 500 && x <= n as real && (n > 1 ==> (n - 1) as real < x)
  {
    var f := x.Floor;
    n := if f as real == x then f else f + 1;
    if n == 0 {
      n := 1;
    }
  }

  // ----------------------------------------------------------------- polls and lag

  /** An alert of the reference, or of the detector without polls, that the detector does not raise. */
  predicate Missed(steps: seq<Step>, cfg: Config, p: Probe) {
    && !Record(Run(steps, cfg), cfg, p).1
    && Consult(RunPlain(steps, cfg), cfg, p).1 && Record(RunUnpolled(steps, cfg), cfg, p).1
  }

  /** All but one port, a poll whose eviction reads the clock just over a minute later, and the last
      port stamped before that: queued when the poll came, or taken by the poll itself. */
  lemma LateProbeIsMissed(cfg: Config, n: nat)
    requires cfg.adaptive.Valid() && 2 <= n <= MAX_ENTRIES && (n - 1) as real < Base(cfg) <= n as real
        && Base(cfg) > 1.0
    ensures Missed(Probes(n - 1) + [Poll(WINDOW + 1)], cfg, Probe(SRC, DST, n - 1, WINDOW - 1))
  {
    hide Run, RunPlain, RunUnpolled, Ports, Hosts, Probes, Table0, Unique, Missed, Base;
    AfterProbes(cfg, n - 1);
    PortsAre(n - 1);
    PortsCount(n, WINDOW - 1, -1);
    var ports, hosts := Ports(n - 1), Hosts(n - 1);
    assert ports[n - 2] in ports && hosts[n - 2] in hosts;
    MissedAfter(Probes(n - 1), ports, hosts, WINDOW + 1, cfg, n, Probe(SRC, DST, n - 1, WINDOW - 1));
  }

  /** Nothing but these probes has happened, with polls or without. */
  predicate Hold(steps: seq<Step>, cfg: Config, ports: seq<Entry<nat>>, hosts: seq<Entry<string>>) {
    && Run(steps, cfg) == State(Table0(PAIR, ports), Table0(SRC, hosts), map[], NO_TRIPS)
    && RunUnpolled(steps, cfg) == Run(steps, cfg)
    && RunPlain(steps, cfg) == Plain(Table0(PAIR, ports), Table0(SRC, hosts), map[], map[])
  }

  /** What both missed alerts share: the poll finds the tables idle, though the next port completes them. */
  lemma MissedAfter(before: seq<Step>, ports: seq<Entry<nat>>, hosts: seq<Entry<string>>, now: int, cfg: Config, n: nat,
      p: Probe)
    requires Hold(before, cfg, ports, hosts)
    requires ports != [] && ports[|ports| - 1].at < now - WINDOW && |ports| < MAX_ENTRIES
    requires hosts != [] && hosts[|hosts| - 1].at < now - WINDOW
    requires p.src == SRC && p.dst == DST && 1.0 < Base(cfg) <= n as real
    requires |Unique(ports + [Entry(p.at, p.port)], p.at - WINDOW)| == n
    ensures Missed(before + [Poll(now)], cfg, p)
  {
    var steps := before + [Poll(now)];
    assert steps[..|steps| - 1] == before;
    hide Record, Consult, Table0, A.Backoff, Evict, Unique;
    AllIdle(ports, hosts, now);
    MissedByCode(cfg, p);
    SeenWithout(cfg, n, ports, hosts, p);
  }

  /** All but one port, a repeat handled late, a poll a minute after the repeat, and the last port when
      the others still count: the repeat hides them from the poll.  From two ticks of disorder on, the
      last port is not even older than the poll. */
  lemma DisorderIsMissed(cfg: Config, n: nat, disorder: nat)
    requires cfg.adaptive.Valid() && 2 <= n < MAX_ENTRIES && (n - 1) as real < Base(cfg) <= n as real
        && Base(cfg) > 1.0 && disorder >= 1
    ensures Missed(Disordered(n - 1, disorder), cfg, Probe(SRC, DST, n - 1, WINDOW - 1))
  {
    hide Run, RunPlain, RunUnpolled, Ports, Hosts, Probes, Table0, Unique, Missed, Base, Hold;
    var before := Probes(n - 1) + [Seen(Probe(SRC, DST, 0, 0 - disorder))];
    var ports, hosts := Ports(n - 1) + [Entry(0 - disorder, 0)], Hosts(n - 1) + [Entry(0 - disorder, DST)];
    LateRepeat(cfg, n - 1, disorder);
    RepeatCounts(n, disorder);
    PortsAre(n - 1);
    MissedAfter(before, ports, hosts, WINDOW + 1 - disorder, cfg, n, Probe(SRC, DST, n - 1, WINDOW - 1));
  }

  function Disordered(n: nat, disorder: nat): seq<Step> {
    Probes(n) + [Seen(Probe(SRC, DST, 0, 0 - disorder))] + [Poll(WINDOW + 1 - disorder)]
  }

  /** The late repeat raises nothing. */
  lemma LateRepeat(cfg: Config, n: nat, disorder: nat)
    requires cfg.adaptive.Valid() && 1 <= n < MAX_ENTRIES && n as real < Base(cfg)
    ensures Hold(Probes(n) + [Seen(Probe(SRC, DST, 0, 0 - disorder))], cfg,
                 Ports(n) + [Entry(0 - disorder, 0)], Hosts(n) + [Entry(0 - disorder, DST)])
  {
    hide Run, RunPlain, RunUnpolled, Record, Consult, Ports, Hosts, Probes, Table0, Base;
    var p := Probe(SRC, DST, 0, 0 - disorder);
    AfterProbes(cfg, n);
    RepeatIsQuiet(cfg, n, p);
    OneMoreProbe(Probes(n), cfg, p);
  }

  lemma OneMoreProbe(steps: seq<Step>, cfg: Config, p: Probe)
    ensures Run(steps + [Seen(p)], cfg) == Record(Run(steps, cfg), cfg, p).0
    ensures RunUnpolled(steps + [Seen(p)], cfg) == Record(RunUnpolled(steps, cfg), cfg, p).0
    ensures RunPlain(steps + [Seen(p)], cfg) == Consult(RunPlain(steps, cfg), cfg, p).0
  {
    hide Record, Consult;
    var longer := steps + [Seen(p)];
    assert longer[..|longer| - 1] == steps;
  }

  lemma RepeatIsQuiet(cfg: Config, n: nat, p: Probe)
    requires cfg.adaptive.Valid() && 1 <= n < MAX_ENTRIES && n as real < Base(cfg)
    requires p.src == SRC && p.dst == DST && p.port == 0
    ensures var ports, hosts := Table0(PAIR, Ports(n) + [Entry(p.at, 0)]), Table0(SRC, Hosts(n) + [Entry(p.at, DST)]);
            && Record(State(Table0(PAIR, Ports(n)), Table0(SRC, Hosts(n)), map[], NO_TRIPS), cfg, p).0
               == State(ports, hosts, map[], NO_TRIPS)
            && Consult(Plain(Table0(PAIR, Ports(n)), Table0(SRC, Hosts(n)), map[], map[]), cfg, p).0
               == Plain(ports, hosts, map[], map[])
  {
    hide Judge, Due, Locals, Unique, EntriesOf, Newest, Ports, Hosts, Table0, Base, A.Backoff;
    RepeatTables(n, p.at);
    RepeatPorts(n, p.at);
    PortsAre(n);
    var ports, hosts := Ports(n) + [Entry(p.at, 0)], Hosts(n) + [Entry(p.at, DST)];
    StaysBelow(cfg, |Unique(ports, p.at - WINDOW)|, n, p.at);
    NoSweep(cfg, hosts, p.at);
  }

  lemma RepeatTables(n: nat, at: int)
    requires 1 <= n < MAX_ENTRIES
    ensures var ports := EntriesOf(Table0(PAIR, Ports(n)), PAIR) + [Entry(at, 0)];
            && ports == Newest(ports) == Ports(n) + [Entry(at, 0)]
            && Table0(PAIR, Ports(n))[PAIR := ports] == Table0(PAIR, ports)
    ensures var hosts := EntriesOf(Table0(SRC, Hosts(n)), SRC) + [Entry(at, DST)];
            && hosts == Newest(hosts) == Hosts(n) + [Entry(at, DST)]
            && Table0(SRC, Hosts(n))[SRC := hosts] == Table0(SRC, hosts)
  {
    PortsAre(n);
    hide Ports, Hosts;
  }

  lemma RepeatPorts(n: nat, at: int)
    requires n >= 1
    ensures |Unique(Ports(n) + [Entry(at, 0)], at - WINDOW)| <= n
  {
    PortsAre(n);
    hide Ports;
    var ports := Ports(n) + [Entry(at, 0)];
    forall x | x in Unique(ports, at - WINDOW) ensures x in Numbers(n) {
      var e :| e in ports && e.what == x;
      assert e in Ports(n) || e == Entry(at, 0);
    }
    SubsetSize(Unique(ports, at - WINDOW), Numbers(n));
  }

  lemma StaysBelow(cfg: Config, count: nat, n: nat, now: int)
    requires count <= n && n as real < Base(cfg)
    ensures Judge(map[], NO_TRIPS, cfg.adaptive, ScanOf(PAIR), ScanSignal(SRC), count, cfg.ports, now)
            == Judged(map[], NO_TRIPS, false)
    ensures Due(map[], map[], cfg.adaptive, ScanOf(PAIR), ScanSignal(SRC), count, cfg.ports, now)
            == PlainJudged(map[], map[], false)
  {
    assert count as real < Base(cfg);
    hide Judge, Due;
    BelowThreshold(cfg.adaptive, ScanOf(PAIR), ScanSignal(SRC), count, cfg.ports, now);
  }

  /** The repeat itself no longer counts for the last port, the others do. */
  lemma RepeatCounts(n: nat, disorder: nat)
    requires n >= 2 && disorder >= 1
    ensures |Unique(Ports(n - 1) + [Entry(0 - disorder, 0)] + [Entry(WINDOW - 1, n - 1)], -1)| == n
  {
    PortsCount(n, WINDOW - 1, -1);
    var some, all := Ports(n - 1) + [Entry(WINDOW - 1, n - 1)],
                     Ports(n - 1) + [Entry(0 - disorder, 0)] + [Entry(WINDOW - 1, n - 1)];
    hide Ports;
    assert forall e :: e in all ==> e in some || e.at == 0 - disorder;
    assert forall e :: e in some ==> e in all;
    assert Unique(some, -1) == Unique(all, -1);
  }

  /** A poll a minute after the last entries finds nothing to keep. */
  lemma AllIdle(ports: seq<Entry<nat>>, hosts: seq<Entry<string>>, now: int)
    requires ports != [] && ports[|ports| - 1].at < now - WINDOW
    requires hosts != [] && hosts[|hosts| - 1].at < now - WINDOW
    ensures Evict(State(Table0(PAIR, ports), Table0(SRC, hosts), map[], NO_TRIPS), now)
            == State(map[], map[], map[], NO_TRIPS)
  {
    assert Idle(Table0(PAIR, ports), now - WINDOW) == {PAIR};
    assert Idle(Table0(SRC, hosts), now - WINDOW) == {SRC};
    hide Idle;
    assert Table0(PAIR, ports) - {PAIR} == map[];
    assert Table0(SRC, hosts) - {SRC} == map[];
    assert Expired(map[], now - COOLDOWN) == {};
  }

  lemma MissedByCode(cfg: Config, p: Probe)
    requires p.src == SRC && p.dst == DST && Base(cfg) > 1.0
    ensures !Record(State(map[], map[], map[], NO_TRIPS), cfg, p).1
  {
    var ports := Newest([] + [Entry(p.at, p.port)]);
    assert ports == [Entry(p.at, p.port)];
    assert Unique(ports, p.at - WINDOW) == {p.port};
    BelowThreshold(cfg.adaptive, ScanOf(PAIR), ScanSignal(SRC), 1, cfg.ports, p.at);
    hide Judge;
  }

  lemma SeenWithout(cfg: Config, n: nat, ports: seq<Entry<nat>>, hosts: seq<Entry<string>>, p: Probe)
    requires p.src == SRC && p.dst == DST && |ports| < MAX_ENTRIES && Base(cfg) <= n as real
    requires |Unique(ports + [Entry(p.at, p.port)], p.at - WINDOW)| == n
    ensures Consult(Plain(Table0(PAIR, ports), Table0(SRC, hosts), map[], map[]), cfg, p).1
    ensures Record(State(Table0(PAIR, ports), Table0(SRC, hosts), map[], NO_TRIPS), cfg, p).1
  {
    AtThreshold(cfg.adaptive, ScanOf(PAIR), ScanSignal(SRC), n, cfg.ports, p.at);
    hide Due, Judge, Unique, Locals, A.Backoff;
    assert EntriesOf(Table0(PAIR, ports), PAIR) == ports;
  }

  /** A run as late as `slip` allows, and a probe whose alert is missed, whenever the slips add up to
      more than a tick. */
  lemma SlipIsMissed(cfg: Config, slip: Slip) returns (steps: seq<Step>, p: Probe, start: int)
    requires cfg.adaptive.Valid() && cfg.ports >= 2 && Within(cfg, slip) && slip.lag + slip.disorder > 1
    ensures Timely(steps, start, slip) && p.at >= Clock(steps, start, slip) && Missed(steps, cfg, p)
  {
    hide Missed, A.Backoff;
    BaseIsOver(cfg);
    var n := Enough(Base(cfg));
    start, p := 0 - slip.disorder, Probe(SRC, DST, n - 1, WINDOW - 1);
    ProbesAreTimely(n - 1, slip);
    if slip.disorder == 0 {
      steps := Probes(n - 1) + [Poll(WINDOW + 1)];
      assert steps[..|steps| - 1] == Probes(n - 1);
      LateProbeIsMissed(cfg, n);
    } else {
      steps := Disordered(n - 1, slip.disorder);
      var before := Probes(n - 1) + [Seen(Probe(SRC, DST, 0, 0 - slip.disorder))];
      assert steps[..|steps| - 1] == before && before[..|before| - 1] == Probes(n - 1);
      DisorderIsMissed(cfg, n, slip.disorder);
    }
  }

  /** Thresholds above one port that the deque can reach, with room for one repeat if there is
      disorder. */
  predicate Within(cfg: Config, slip: Slip) {
    Base(cfg) <= if slip.disorder == 0 then MAX_ENTRIES as real else (MAX_ENTRIES - 1) as real
  }

  /** The exact reach of "keys that can no longer affect detection".  Let probes be handled up to
      `lag` ticks older than an earlier poll and up to `disorder` ticks older than an earlier probe:
      over all such runs evictions never change an alert if and only if the two add up to at most one
      clock tick. */
  lemma EvictionInvisibleIff(cfg: Config, slip: Slip)
    requires cfg.adaptive.window > 0 && cfg.adaptive.step > 0.0 && cfg.adaptive.maxMultiplier >= 1.0
        && cfg.ports >= 2 && Within(cfg, slip)
    ensures (forall steps, p: Probe, start ::
               Timely(steps, start, slip) && p.at >= Clock(steps, start, slip)
               ==> Unseen(steps, cfg, p))
            <==> slip.lag + slip.disorder <= 1
  {
    hide Unseen, A.Backoff;
    if slip.lag + slip.disorder <= 1 {
      forall steps, p: Probe, start | Timely(steps, start, slip) && p.at >= Clock(steps, start, slip)
        ensures Unseen(steps, cfg, p) {
        EvictionsAreUnseen(steps, cfg, p, start, slip);
      }
    } else {
      var steps, p, start := SlipIsMissed(cfg, slip);
      assert !Unseen(steps, cfg, p) by { MissedShows(steps, cfg, p); }
    }
  }

  lemma MissedShows(steps: seq<Step>, cfg: Config, p: Probe)
    requires Missed(steps, cfg, p)
    ensures !Unseen(steps, cfg, p) && !SameAlerts(steps, cfg, p)
  {
  }

  /** For probes handled in the order of their times, the same against the reference that forgets
      nothing at all. */
  lemma HistoryAgreesIff(cfg: Config, lag: int)
    requires cfg.adaptive.window > 0 && cfg.adaptive.step > 0.0 && cfg.adaptive.maxMultiplier >= 1.0
        && cfg.ports >= 2 && Within(cfg, Slip(lag, 0))
    ensures (forall steps, p: Probe, start ::
               Timely(steps, start, Slip(lag, 0)) && p.at >= Clock(steps, start, Slip(lag, 0))
               ==> SameAlerts(steps, cfg, p))
            <==> lag <= 1
  {
    hide SameAlerts, A.Backoff;
    var slip := Slip(lag, 0);
    if lag <= 1 {
      forall steps, p: Probe, start | Timely(steps, start, slip) && p.at >= Clock(steps, start, slip)
        ensures SameAlerts(steps, cfg, p) {
        LagRefinesHistory(steps, cfg, p, start, lag);
      }
    } else {
      var steps, p, start := SlipIsMissed(cfg, slip);
      assert !SameAlerts(steps, cfg, p) by { MissedShows(steps, cfg, p); }
    }
  }

  lemma BaseIsOver(cfg: Config)
    requires cfg.adaptive.Valid()
    ensures Base(cfg) >= cfg.ports as real
  {
    A.BackoffGrows(cfg.adaptive, 0, 0);
    Scaled(cfg.ports as real, 1.0, A.Backoff(cfg.adaptive, 0));
  }

  // -------------------------------------------------------------- what can alert at all

  lemma {:induction false} NewestFits<T>(s: seq<Entry<T>>, cutoff: int)
    ensures |Unique(Newest(s), cutoff)| <= MAX_ENTRIES
  {
    UniqueFits(Newest(s), cutoff);
  }

  lemma {:induction false} UniqueFits<T>(s: seq<Entry<T>>, cutoff: int)
    ensures |Unique(s, cutoff)| <= |s|
  {
    if s == [] {
      assert Unique(s, cutoff) == {};
    } else {
      var front, last := s[..|s| - 1], s[|s| - 1];
      UniqueFits(front, cutoff);
      assert s == front + [last];
      assert Unique(s, cutoff) == Unique(front, cutoff) + if last.at > cutoff then {last.what} else {};
    }
  }

  lemma JudgeNeedsBase(last: map<AlertKey, int>, trips: A.Trips, cfg: A.Config, k: AlertKey, signal: A.Key,
      count: nat, base: nat, now: int)
    requires cfg.Valid() && Judge(last, trips, cfg, k, signal, count, base, now).alert
    ensures count as real >= base as real * A.Backoff(cfg, 0)
  {
    hide A.Multiplier, A.Backoff, A.RecordTrip;
    var m := A.Multiplier(trips, cfg, signal, now).1;
    assert count as real >= base as real * m;
    hide Judge;
    MultiplierIsOver(trips, cfg, signal, now);
    Scaled(base as real, A.Backoff(cfg, 0), m);
  }

  lemma MultiplierIsOver(trips: A.Trips, cfg: A.Config, signal: A.Key, now: int)
    requires cfg.Valid()
    ensures A.Multiplier(trips, cfg, signal, now).1 >= A.Backoff(cfg, 0)
  {
    A.BackoffGrows(cfg, 0, A.CountOf(A.Recent(trips, signal, now - cfg.window), signal));
    hide A.Recent;
  }

  /** The deque holds 500 probes: a higher threshold, which the configuration accepts, silences port
      scans for good, and any other leaves traffic that alerts. */
  lemma CanAlertIff(cfg: Config)
    requires cfg.adaptive.window > 0 && cfg.adaptive.step > 0.0 && cfg.adaptive.maxMultiplier >= 1.0
    ensures (exists steps, p: Probe :: Record(Run(steps, cfg), cfg, p).1) <==> Base(cfg) <= MAX_ENTRIES as real
  {
    if Base(cfg) <= MAX_ENTRIES as real {
      Reaches(cfg);
    }
    forall steps, p: Probe | Record(Run(steps, cfg), cfg, p).1 ensures Base(cfg) <= MAX_ENTRIES as real {
      AlertIsWithinReach(Run(steps, cfg), cfg, p);
    }
  }

  lemma AlertIsWithinReach(s: State, cfg: Config, p: Probe)
    requires cfg.adaptive.Valid() && Record(s, cfg, p).1
    ensures Base(cfg) <= MAX_ENTRIES as real
  {
    hide Judge, Unique, Newest, A.Backoff, Locals;
    var pair := Pair(p.src, p.dst);
    var seen := EntriesOf(s.scanPorts, pair) + [Entry(p.at, p.port)];
    NewestFits(seen, p.at - WINDOW);
    JudgeNeedsBase(s.lastAlert, s.trips, cfg.adaptive, ScanOf(pair), ScanSignal(p.src),
      |Unique(Newest(seen), p.at - WINDOW)|, cfg.ports, p.at);
  }

  lemma Reaches(cfg: Config)
    requires cfg.adaptive.Valid() && Base(cfg) <= MAX_ENTRIES as real
    ensures exists steps, p: Probe :: Record(Run(steps, cfg), cfg, p).1
  {
    BaseIsOver(cfg);
    var n := Enough(Base(cfg));
    hide A.Backoff;
    AfterProbes(cfg, n - 1);
    LastPortAlerts(cfg, n);
  }

  lemma LastPortAlerts(cfg: Config, n: nat)
    requires 1 <= n <= MAX_ENTRIES && Base(cfg) <= n as real
    ensures Record(State(Table0(PAIR, Ports(n - 1)), Table0(SRC, Hosts(n - 1)), map[], NO_TRIPS), cfg,
        Probe(SRC, DST, n - 1, 0)).1
  {
    assert Ports(n) == Ports(n - 1) + [Entry(0, n - 1)];
    hide Judge, Unique, Locals, Ports, Hosts, Table0, EntriesOf, Newest, A.Backoff;
    NextTables(n - 1);
    PortsCount(n, 0, -WINDOW);
    AtThreshold(cfg.adaptive, ScanOf(PAIR), ScanSignal(SRC), n, cfg.ports, 0);
    assert Judge(map[], NO_TRIPS, cfg.adaptive, ScanOf(PAIR), ScanSignal(SRC),
                 |Unique(Ports(n - 1 + 1), 0 - WINDOW)|, cfg.ports, 0).alert;
  }
}
