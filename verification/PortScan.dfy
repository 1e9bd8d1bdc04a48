/** Port-scan and host-sweep detection (detectors/port_scan_detector.py:59-259, with the eviction of
    detectors/base.py:115-148): windows in bounded deques, keys and cooldowns evicted by polls,
    beside a reference that forgets nothing. */
module PortScan {
  import opened Basics
  import A = Adaptive
  import OrderedDict

  const WINDOW := 60 * SECOND
  const COOLDOWN := 300 * SECOND
  const MAX_ENTRIES := 500
  const SWEEP_BASE := 15

  const NO_TRIPS: A.Trips := OrderedDict.Empty()

  datatype Entry<T> = Entry(at: int, what: T)

  type Table<K, T> = map<K, seq<Entry<T>>>

  function EntriesOf<K, T>(m: Table<K, T>, k: K): seq<Entry<T>> {
    if k in m then m[k] else []
  }

  /** What a `deque(maxlen=500)` keeps. */
  function Newest<T>(s: seq<Entry<T>>): seq<Entry<T>> {
    if |s| <= MAX_ENTRIES then s else s[|s| - MAX_ENTRIES..]
  }

  /** The distinct things seen after a time. */
  function Unique<T>(s: seq<Entry<T>>, cutoff: int): set<T> {
    set e | e in s && e.at > cutoff :: e.what
  }

  datatype Pair = Pair(src: string, dst: string)
  datatype AlertKey = ScanOf(pair: Pair) | SweepOf(src: string)

  /** `ports` is the configured threshold, `local` the addresses of the configured subnets. */
  datatype Config = Config(ports: nat, local: string -> bool, adaptive: A.Config)

  datatype State = State(
    scanPorts: Table<Pair, nat>,
    sweepTargets: Table<string, string>,
    lastAlert: map<AlertKey, int>,
    trips: A.Trips)

  predicate Cooling(last: map<AlertKey, int>, k: AlertKey, now: int) {
    k in last && now - last[k] < COOLDOWN
  }

  datatype Judged = Judged(lastAlert: map<AlertKey, int>, trips: A.Trips, alert: bool)

  /** One check: the cooldown, the adaptive threshold, and what an alert leaves behind. */
  function Judge(last: map<AlertKey, int>, trips: A.Trips, cfg: A.Config, k: AlertKey, signal: A.Key, count: nat,
      base: nat, now: int): Judged {
    if Cooling(last, k, now) then Judged(last, trips, false)
    else
      var m := A.Multiplier(trips, cfg, signal, now);
      if (count as real) < base as real * m.1 then Judged(last, m.0, false)
      else Judged(last[k := now], A.RecordTrip(m.0, cfg, signal, now), true)
  }

  datatype Probe = Probe(src: string, dst: string, port: nat, at: int)

  function ScanSignal(src: string): A.Key { A.Key("port_scan", src) }
  function SweepSignal(src: string): A.Key { A.Key("host_sweep", src) }

  function Locals(hosts: set<string>, cfg: Config): set<string> {
    set h | h in hosts && cfg.local(h)
  }

  /** The pair's newest ports with the probe's own. */
  function PortsAt(m: Table<Pair, nat>, p: Probe): seq<Entry<nat>> {
    Newest(EntriesOf(m, Pair(p.src, p.dst)) + [Entry(p.at, p.port)])
  }

  function HostsAt(m: Table<string, string>, p: Probe): seq<Entry<string>> {
    Newest(EntriesOf(m, p.src) + [Entry(p.at, p.dst)])
  }

  /** `_record_connection` for a probe that no whitelist excludes. */
  function Record(s: State, cfg: Config, p: Probe): (State, bool, bool) {
    var pair := Pair(p.src, p.dst);
    var ports, hosts := PortsAt(s.scanPorts, p), HostsAt(s.sweepTargets, p);
    var scan := Judge(s.lastAlert, s.trips, cfg.adaptive, ScanOf(pair), ScanSignal(p.src),
                      |Unique(ports, p.at - WINDOW)|, cfg.ports, p.at);
    var sweep := Judge(scan.lastAlert, scan.trips, cfg.adaptive, SweepOf(p.src), SweepSignal(p.src),
                       |Locals(Unique(hosts, p.at - WINDOW), cfg)|, SWEEP_BASE, p.at);
    (State(s.scanPorts[pair := ports], s.sweepTargets[p.src := hosts], sweep.lastAlert, sweep.trips), scan.alert,
      sweep.alert)
  }

  /** `_evict_idle_deques`: the keys whose deque is empty or ends before the cutoff. */
  function Idle<K, T>(m: Table<K, T>, cutoff: int): set<K> {
    set k | k in m && (m[k] == [] || m[k][|m[k]| - 1].at < cutoff)
  }

  /** `_evict_expired_times`. */
  function Expired(last: map<AlertKey, int>, cutoff: int): set<AlertKey> {
    set k | k in last && last[k] < cutoff
  }

  /** The eviction at the start of a poll, which reads the clock once more: the probes that the poll
      itself takes from the connection table carry its earlier reading. */
  function Evict(s: State, now: int): State {
    s.(scanPorts := s.scanPorts - Idle(s.scanPorts, now - WINDOW),
       sweepTargets := s.sweepTargets - Idle(s.sweepTargets, now - WINDOW),
       lastAlert := s.lastAlert - Expired(s.lastAlert, now - COOLDOWN))
  }

  datatype Step = Seen(probe: Probe) | Poll(now: int)

  function Next(s: State, cfg: Config, step: Step): State {
    match step
    case Seen(p) => Record(s, cfg, p).0
    case Poll(now) => Evict(s, now)
  }

  // ---------------------------------------------------------------------- reference

  datatype Plain = Plain(ports: Table<Pair, nat>, hosts: Table<string, string>, alerted: map<AlertKey, int>,
      trips: A.History)

  datatype PlainJudged = PlainJudged(alerted: map<AlertKey, int>, trips: A.History, alert: bool)

  /** An alert is due when the count reaches the base times the deserved multiplier and the key's
      last alert, whenever it was, is at least five minutes old. */
  function Due(alerted: map<AlertKey, int>, h: A.History, cfg: A.Config, k: AlertKey, signal: A.Key, count: nat,
      base: nat, now: int): PlainJudged {
    if (k in alerted ==> now - alerted[k] >= 300 * 1_000_000)
      && count as real >= base as real * A.Deserved(h, cfg, signal, now)
    then PlainJudged(alerted[k := now], A.Recorded(h, cfg, signal, now), true)
    else PlainJudged(alerted, h, false)
  }

  function Consult(q: Plain, cfg: Config, p: Probe): (Plain, bool, bool) {
    var pair := Pair(p.src, p.dst);
    var ports := EntriesOf(q.ports, pair) + [Entry(p.at, p.port)];
    var hosts := EntriesOf(q.hosts, p.src) + [Entry(p.at, p.dst)];
    var scan := Due(q.alerted, q.trips, cfg.adaptive, ScanOf(pair), ScanSignal(p.src),
                    |Unique(Newest(ports), p.at - 60 * 1_000_000)|, cfg.ports, p.at);
    var sweep := Due(scan.alerted, scan.trips, cfg.adaptive, SweepOf(p.src), SweepSignal(p.src),
                     |Locals(Unique(Newest(hosts), p.at - 60 * 1_000_000), cfg)|, 15, p.at);
    (Plain(q.ports[pair := ports], q.hosts[p.src := hosts], sweep.alerted, sweep.trips), scan.alert, sweep.alert)
  }

  function Run(steps: seq<Step>, cfg: Config): State {
    if steps == [] then State(map[], map[], map[], NO_TRIPS)
    else Next(Run(steps[..|steps| - 1], cfg), cfg, steps[|steps| - 1])
  }

  function RunPlain(steps: seq<Step>, cfg: Config): Plain {
    if steps == [] then Plain(map[], map[], map[], map[])
    else
      var before := RunPlain(steps[..|steps| - 1], cfg);
      match steps[|steps| - 1]
      case Seen(p) => Consult(before, cfg, p).0
      case Poll(_) => before
  }

  /** How late probes may be handled: `disorder` ticks older than an earlier probe, `lag` ticks older
      than an earlier poll. */
  datatype Slip = Slip(lag: int, disorder: nat) {
    /** The oldest part of the window that evictions can take with them. */
    function Blind(): nat { if lag + disorder > 1 then lag + disorder - 1 else 0 }
  }

  /** The earliest time a probe may carry. */
  function Clock(steps: seq<Step>, start: int, slip: Slip): int {
    if steps == [] then start
    else
      var before, step := Clock(steps[..|steps| - 1], start, slip), steps[|steps| - 1];
      var at := match step case Seen(p) => p.at - slip.disorder case Poll(now) => now - slip.lag;
      if at > before then at else before
  }

  ghost predicate Timely(steps: seq<Step>, start: int, slip: Slip) {
    steps == [] ||
    var before, step := steps[..|steps| - 1], steps[|steps| - 1];
    Timely(before, start, slip) && (step.Seen? ==> step.probe.at >= Clock(before, start, slip))
  }

  // ------------------------------------------------------------------- window tables

  ghost predicate Sorted<T>(history: seq<Entry<T>>, clock: int, disorder: nat) {
    && (forall i, j :: 0 <= i < j < |history| ==> history[i].at <= history[j].at + disorder)
    && (forall i :: 0 <= i < |history| ==> history[i].at <= clock + disorder)
  }

  /** A deque is the newest part of its history, short of what the length limit or the window
      exclude anyway. */
  ghost predicate Stands<T>(deque: seq<Entry<T>>, history: seq<Entry<T>>, cutoff: int) {
    && |deque| <= |history| && |deque| <= MAX_ENTRIES && deque == history[|history| - |deque|..]
    && forall i :: 0 <= i < |history| - |deque| && i >= |history| - MAX_ENTRIES ==> history[i].at <= cutoff
  }

  ghost predicate Fits<T>(deque: seq<Entry<T>>, history: seq<Entry<T>>, clock: int, slip: Slip) {
    Stands(deque, history, clock - WINDOW + slip.Blind()) && Sorted(history, clock, slip.disorder)
  }

  ghost predicate Mirrors<K(!new), T>(m: Table<K, T>, h: Table<K, T>, clock: int, slip: Slip) {
    forall k :: Fits(EntriesOf(m, k), EntriesOf(h, k), clock, slip)
  }

  lemma UniqueAgrees<T>(deque: seq<Entry<T>>, history: seq<Entry<T>>, cutoff: int)
    requires Stands(deque, history, cutoff)
    ensures Unique(deque, cutoff) == Unique(Newest(history), cutoff)
  {
    var newest := Newest(history);
    forall e | e in newest && e.at > cutoff ensures e in deque {
      var i :| 0 <= i < |newest| && newest[i] == e;
      var j := |history| - |newest| + i;
      assert history[j] == e;
      assert deque[j - (|history| - |deque|)] == e;
    }
    Inside(deque, history, cutoff);
  }

  lemma Inside<T>(deque: seq<Entry<T>>, history: seq<Entry<T>>, cutoff: int)
    requires Stands(deque, history, cutoff)
    ensures forall e :: e in deque ==> e in Newest(history)
  {
    var newest := Newest(history);
    forall e | e in deque ensures e in newest {
      var i :| 0 <= i < |deque| && deque[i] == e;
      assert history[|history| - |deque| + i] == e;
      assert newest[|newest| - |deque| + i] == e;
    }
  }

  lemma AppendFits<T>(deque: seq<Entry<T>>, history: seq<Entry<T>>, clock: int, later: int, e: Entry<T>, slip: Slip)
    requires Fits(deque, history, clock, slip) && clock <= later && clock <= e.at <= later + slip.disorder
    ensures Fits(Newest(deque + [e]), history + [e], later, slip)
  {
    var all := history + [e];
    assert deque + [e] == all[|history| - |deque|..];
  }

  lemma EvictedFits<T>(deque: seq<Entry<T>>, history: seq<Entry<T>>, clock: int, slip: Slip)
    requires Fits(deque, history, clock, slip)
    requires deque == [] || deque[|deque| - 1].at < clock + slip.lag - WINDOW
    ensures Fits([], history, clock, slip)
  {
    if deque != [] {
      assert history[|history| - 1] == deque[|deque| - 1];
    }
  }

  lemma MirrorsLater<K(!new), T>(m: Table<K, T>, h: Table<K, T>, clock: int, later: int, slip: Slip)
    requires Mirrors(m, h, clock, slip) && clock <= later
    ensures Mirrors(m, h, later, slip)
  {
    forall k ensures Fits(EntriesOf(m, k), EntriesOf(h, k), later, slip) {
      assert Fits(EntriesOf(m, k), EntriesOf(h, k), clock, slip);
    }
  }

  lemma MirrorsAppend<K(!new), T>(m: Table<K, T>, h: Table<K, T>, clock: int, later: int, k: K, e: Entry<T>, slip: Slip)
    requires Mirrors(m, h, clock, slip) && clock <= later && clock <= e.at <= later + slip.disorder
    ensures Mirrors(m[k := Newest(EntriesOf(m, k) + [e])], h[k := EntriesOf(h, k) + [e]], later, slip)
  {
    hide Newest, Unique, Stands, Sorted;
    MirrorsLater(m, h, clock, later, slip);
    var deque, history := EntriesOf(m, k), EntriesOf(h, k);
    assert Fits(deque, history, clock, slip);
    AppendFits(deque, history, clock, later, e, slip);
    var n, g := m[k := Newest(deque + [e])], h[k := history + [e]];
    forall j ensures Fits(EntriesOf(n, j), EntriesOf(g, j), later, slip) {
      assert Fits(EntriesOf(m, j), EntriesOf(h, j), later, slip);
    }
  }

  /** What a probe counts is in its history, and all of its history but for the blind part of the
      window is counted. */
  lemma CountsAgree<K(!new), T>(m: Table<K, T>, h: Table<K, T>, clock: int, k: K, e: Entry<T>, cutoff: int, slip: Slip)
    requires Mirrors(m, h, clock, slip) && clock <= e.at
    ensures Unique(Newest(EntriesOf(m, k) + [e]), cutoff) <= Unique(Newest(EntriesOf(h, k) + [e]), cutoff)
    ensures cutoff >= e.at - WINDOW + slip.Blind() ==>
              Unique(Newest(EntriesOf(m, k) + [e]), cutoff) == Unique(Newest(EntriesOf(h, k) + [e]), cutoff)
  {
    hide Newest, Unique, Sorted;
    assert Fits(EntriesOf(m, k), EntriesOf(h, k), clock, slip);
    AppendFits(EntriesOf(m, k), EntriesOf(h, k), clock, e.at, e, slip);
    NewestAgree(Newest(EntriesOf(m, k) + [e]), EntriesOf(h, k) + [e], e.at - WINDOW + slip.Blind(), cutoff);
  }

  lemma NewestAgree<T>(deque: seq<Entry<T>>, history: seq<Entry<T>>, blind: int, cutoff: int)
    requires Stands(deque, history, blind)
    ensures Unique(deque, cutoff) <= Unique(Newest(history), cutoff)
    ensures cutoff >= blind ==> Unique(deque, cutoff) == Unique(Newest(history), cutoff)
  {
    hide Newest;
    Inside(deque, history, blind);
    if cutoff >= blind {
      UniqueAgrees(deque, history, cutoff);
    }
  }

  lemma MirrorsEvict<K(!new), T>(m: Table<K, T>, h: Table<K, T>, clock: int, later: int, now: int, slip: Slip)
    requires Mirrors(m, h, clock, slip) && clock <= later && now - slip.lag <= later
    ensures Mirrors(m - Idle(m, now - WINDOW), h, later, slip)
  {
    hide Stands, Sorted;
    var n := m - Idle(m, now - WINDOW);
    MirrorsLater(m, h, clock, later, slip);
    forall k ensures Fits(EntriesOf(n, k), EntriesOf(h, k), later, slip) {
      assert Fits(EntriesOf(m, k), EntriesOf(h, k), later, slip);
      if k in Idle(m, now - WINDOW) {
        EvictedFits(EntriesOf(m, k), EntriesOf(h, k), later, slip);
      }
    }
  }

  /** Both tables stand for the full histories, whatever was judged. */
  ghost predicate Tables(s: State, q: Plain, clock: int, slip: Slip) {
    Mirrors(s.scanPorts, q.ports, clock, slip) && Mirrors(s.sweepTargets, q.hosts, clock, slip)
  }

  lemma RecordTables(s: State, q: Plain, cfg: Config, clock: int, later: int, p: Probe, slip: Slip)
    requires Tables(s, q, clock, slip) && clock <= later && clock <= p.at <= later + slip.disorder
    ensures Tables(Record(s, cfg, p).0, Consult(q, cfg, p).0, later, slip)
  {
    hide Mirrors, EntriesOf, Newest, Unique, Locals, Judge, Due;
    MirrorsAppend(s.scanPorts, q.ports, clock, later, Pair(p.src, p.dst), Entry(p.at, p.port), slip);
    MirrorsAppend(s.sweepTargets, q.hosts, clock, later, p.src, Entry(p.at, p.dst), slip);
  }

  lemma EvictTables(s: State, q: Plain, clock: int, later: int, now: int, slip: Slip)
    requires Tables(s, q, clock, slip) && clock <= later && now - slip.lag <= later
    ensures Tables(Evict(s, now), q, later, slip)
  {
    hide Mirrors, Idle;
    MirrorsEvict(s.scanPorts, q.ports, clock, later, now, slip);
    MirrorsEvict(s.sweepTargets, q.hosts, clock, later, now, slip);
  }

  lemma {:induction false} RunTables(steps: seq<Step>, cfg: Config, start: int, slip: Slip)
    requires Timely(steps, start, slip)
    ensures Tables(Run(steps, cfg), RunPlain(steps, cfg), Clock(steps, start, slip), slip)
  {
    hide Record, Consult, Evict;
    if steps != [] {
      hide Tables;
      var before, step := steps[..|steps| - 1], steps[|steps| - 1];
      RunTables(before, cfg, start, slip);
      var s, q, clock, later :=
        Run(before, cfg), RunPlain(before, cfg), Clock(before, start, slip), Clock(steps, start, slip);
      match step {
        case Seen(p) => RecordTables(s, q, cfg, clock, later, p, slip);
        case Poll(now) => EvictTables(s, q, clock, later, now, slip);
      }
    }
  }

  /** Whatever the schedule and the disorder, a probe counts only ports and hosts of its history, and
      evictions hide at most the oldest ticks of the window: the rest is counted in full. */
  lemma WindowLosesAtMost(steps: seq<Step>, cfg: Config, p: Probe, start: int, slip: Slip, cutoff: int)
    requires Timely(steps, start, slip) && p.at >= Clock(steps, start, slip)
    ensures var s, q := Run(steps, cfg), RunPlain(steps, cfg);
            && Unique(PortsAt(s.scanPorts, p), cutoff) <= Unique(PortsAt(q.ports, p), cutoff)
            && Unique(HostsAt(s.sweepTargets, p), cutoff) <= Unique(HostsAt(q.hosts, p), cutoff)
            && (cutoff >= p.at - WINDOW + slip.Blind() ==>
                  && Unique(PortsAt(s.scanPorts, p), cutoff) == Unique(PortsAt(q.ports, p), cutoff)
                  && Unique(HostsAt(s.sweepTargets, p), cutoff) == Unique(HostsAt(q.hosts, p), cutoff))
  {
    RunTables(steps, cfg, start, slip);
    hide Run, RunPlain, Unique, Newest, EntriesOf, Mirrors;
    var s, q, clock := Run(steps, cfg), RunPlain(steps, cfg), Clock(steps, start, slip);
    CountsAgree(s.scanPorts, q.ports, clock, Pair(p.src, p.dst), Entry(p.at, p.port), cutoff, slip);
    CountsAgree(s.sweepTargets, q.hosts, clock, p.src, Entry(p.at, p.dst), cutoff, slip);
  }

  // ----------------------------------------------------------------------- cooldowns

  ghost predicate Remembers(last: map<AlertKey, int>, alerted: map<AlertKey, int>, clock: int) {
    && (forall k :: k in last ==> k in alerted && alerted[k] == last[k])
    && (forall k :: k in alerted && k !in last ==> alerted[k] <= clock - COOLDOWN)
  }

  lemma JudgeIsDue(last: map<AlertKey, int>, alerted: map<AlertKey, int>, trips: A.Trips, h: A.History, cfg: A.Config,
                   k: AlertKey, signal: A.Key, count: nat, base: nat, clock: int, now: int)
    requires Remembers(last, alerted, clock) && A.Related(trips, h, cfg, clock) && clock <= now
    ensures var a, b := Judge(last, trips, cfg, k, signal, count, base, now),
        Due(alerted, h, cfg, k, signal, count, base, now);
            a.alert == b.alert && Remembers(a.lastAlert, b.alerted, now) && A.Related(a.trips, b.trips, cfg, now)
  {
    hide A.Related, A.Multiplier, A.RecordTrip, A.Deserved, A.Recorded;
    A.RelatedLater(trips, h, cfg, clock, now);
    A.MultiplierIsDeserved(trips, h, cfg, now, signal, now);
    A.RecordRelated(A.Multiplier(trips, cfg, signal, now).0, h, cfg, signal, now);
  }

  // --------------------------------------------------------------------- refinement

  ghost predicate Related(s: State, q: Plain, cfg: Config, clock: int) {
    Remembers(s.lastAlert, q.alerted, clock) && A.Related(s.trips, q.trips, cfg.adaptive, clock)
  }

  lemma RecordRelated(s: State, q: Plain, cfg: Config, clock: int, p: Probe, slip: Slip)
    requires Tables(s, q, clock, slip) && slip.Blind() == 0 && Related(s, q, cfg, clock) && clock <= p.at
    ensures var a, b := Record(s, cfg, p), Consult(q, cfg, p);
            a.1 == b.1 && a.2 == b.2 && Related(a.0, b.0, cfg, p.at)
  {
    hide A.Related, Judge, Due, Mirrors, Remembers, EntriesOf, Newest, Unique, Locals;
    var pair := Pair(p.src, p.dst);
    CountsAgree(s.scanPorts, q.ports, clock, pair, Entry(p.at, p.port), p.at - WINDOW, slip);
    CountsAgree(s.sweepTargets, q.hosts, clock, p.src, Entry(p.at, p.dst), p.at - WINDOW, slip);
    var n := |Unique(PortsAt(s.scanPorts, p), p.at - WINDOW)|;
    var m := |Locals(Unique(HostsAt(s.sweepTargets, p), p.at - WINDOW), cfg)|;
    JudgeIsDue(s.lastAlert, q.alerted, s.trips, q.trips, cfg.adaptive, ScanOf(pair), ScanSignal(p.src), n, cfg.ports,
      clock, p.at);
    var a := Judge(s.lastAlert, s.trips, cfg.adaptive, ScanOf(pair), ScanSignal(p.src), n, cfg.ports, p.at);
    var b := Due(q.alerted, q.trips, cfg.adaptive, ScanOf(pair), ScanSignal(p.src), n, cfg.ports, p.at);
    JudgeIsDue(a.lastAlert, b.alerted, a.trips, b.trips, cfg.adaptive, SweepOf(p.src), SweepSignal(p.src), m,
      SWEEP_BASE, p.at, p.at);
  }

  lemma EvictRelated(s: State, q: Plain, cfg: Config, clock: int, later: int, now: int)
    requires Related(s, q, cfg, clock) && clock <= later && now - 1 <= later
    ensures Related(Evict(s, now), q, cfg, later)
  {
    hide A.Related, Idle;
    A.RelatedLater(s.trips, q.trips, cfg.adaptive, clock, later);
  }

  lemma NothingRelated(cfg: Config, start: int)
    ensures Related(Run([], cfg), RunPlain([], cfg), cfg, start)
  {
  }

  lemma {:induction false} RunRelated(steps: seq<Step>, cfg: Config, start: int, lag: int)
    requires Timely(steps, start, Slip(lag, 0)) && lag <= 1
    ensures Related(Run(steps, cfg), RunPlain(steps, cfg), cfg, Clock(steps, start, Slip(lag, 0)))
  {
    hide Related, Tables, Record, Consult, Evict;
    if steps == [] {
      NothingRelated(cfg, start);
    } else {
      var slip := Slip(lag, 0);
      var before, step := steps[..|steps| - 1], steps[|steps| - 1];
      RunRelated(before, cfg, start, lag);
      RunTables(before, cfg, start, slip);
      var s, q, clock := Run(before, cfg), RunPlain(before, cfg), Clock(before, start, slip);
      match step {
        case Seen(p) => RecordRelated(s, q, cfg, clock, p, slip);
        case Poll(now) => EvictRelated(s, q, cfg, clock, Clock(steps, start, slip), now);
      }
    }
  }

  /** Whatever the schedule of polls, a probe raises a port-scan alert exactly when the distinct
      ports among the pair's last 500 probes within a minute reach the base times the multiplier its
      trips deserve and the pair has had no alert for five minutes; and likewise for sweeps.  Probes
      are handled in the order of their times, and none more than a tick older than an earlier poll. */
  lemma DetectionRefinesHistory(steps: seq<Step>, cfg: Config, p: Probe, start: int)
    requires Timely(steps, start, Slip(1, 0)) && p.at >= Clock(steps, start, Slip(1, 0))
    ensures SameAlerts(steps, cfg, p)
  {
    LagRefinesHistory(steps, cfg, p, start, 1);
  }

  /** The code and the reference raise the same alerts for the next probe. */
  predicate SameAlerts(steps: seq<Step>, cfg: Config, p: Probe) {
    && Record(Run(steps, cfg), cfg, p).1 == Consult(RunPlain(steps, cfg), cfg, p).1
    && Record(Run(steps, cfg), cfg, p).2 == Consult(RunPlain(steps, cfg), cfg, p).2
  }

  lemma LagRefinesHistory(steps: seq<Step>, cfg: Config, p: Probe, start: int, lag: int)
    requires Timely(steps, start, Slip(lag, 0)) && p.at >= Clock(steps, start, Slip(lag, 0)) && lag <= 1
    ensures SameAlerts(steps, cfg, p)
  {
    var slip := Slip(lag, 0);
    RunRelated(steps, cfg, start, lag);
    RunTables(steps, cfg, start, slip);
    hide Record, Consult, Run, RunPlain, Related, Tables;
    RecordRelated(Run(steps, cfg), RunPlain(steps, cfg), cfg, Clock(steps, start, slip), p, slip);
  }
}
