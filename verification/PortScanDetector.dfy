/** The port-scan detector as the object it is.  Every method takes the step of PortScan. */
module PortScanDetector {
  import A = Adaptive
  import opened PortScan

  class PortScanDetector {
    const cfg: Config
    const adaptive: A.AdaptiveThresholds
    var scanPorts: Table<Pair, nat>
    var sweepTargets: Table<string, string>
    var lastAlert: map<AlertKey, int>
    ghost var history: seq<Step>

    ghost function View(): State
      reads this, adaptive
    {
      State(scanPorts, sweepTargets, lastAlert, adaptive.trips)
    }

    ghost predicate Valid()
      reads this, adaptive
    {
      adaptive.cfg == cfg.adaptive && adaptive.Valid() && View() == Run(history, cfg)
    }

    constructor (c: Config)
      ensures Valid() && history == [] && cfg == c && fresh(adaptive)
    {
      cfg, scanPorts, sweepTargets, lastAlert, history := c, map[], map[], map[], [];
      adaptive := new A.AdaptiveThresholds(c.adaptive);
    }

    /** The checks of `_check_port_scan` and `_check_host_sweep`, which differ in their keys, their
        counts and their bases only. */
    method CheckThreshold(k: AlertKey, signal: A.Key, count: nat, base: nat, now: int) returns (alert: bool)
      requires adaptive.cfg == cfg.adaptive && adaptive.Valid()
      modifies this`lastAlert, adaptive
      ensures adaptive.Valid()
      ensures Judged(lastAlert, adaptive.trips, alert) ==
              Judge(old(lastAlert), old(adaptive.trips), cfg.adaptive, k, signal, count, base, now)
    {
      hide A.Multiplier, A.RecordTrip, A.Run;
      if k in lastAlert && now - lastAlert[k] < COOLDOWN {
        return false;
      }
      var multiplier := adaptive.MultiplierFor(signal, now);
      var threshold := base as real * multiplier;
      if count as real < threshold {
        return false;
      }
      lastAlert := lastAlert[k := now];
      adaptive.RecordTripAt(signal, now);
      return true;
    }

    /** `_record_connection`. */
    method RecordConnection(p: Probe, whitelisted: bool) returns (scan: bool, sweep: bool)
      requires Valid()
      modifies this, adaptive
      ensures Valid()
      ensures whitelisted ==> !scan && !sweep && View() == old(View()) && history == old(history)
      ensures !whitelisted ==> (View(), scan, sweep) == Record(old(View()), cfg, p)
      ensures !whitelisted ==> history == old(history) + [Seen(p)]
    {
      if whitelisted {
        return false, false;
      }
      hide Record, A.Run;
      Snoc(history, Seen(p), cfg);
      hide Run;
      scan, sweep := RecordProbe(p);
      history := history + [Seen(p)];
    }

    method RecordProbe(p: Probe) returns (scan: bool, sweep: bool)
      requires adaptive.cfg == cfg.adaptive && adaptive.Valid()
      modifies this`scanPorts, this`sweepTargets, this`lastAlert, adaptive
      ensures adaptive.Valid() && (View(), scan, sweep) == Record(old(View()), cfg, p)
    {
      hide Judge, Newest, Unique, Locals, EntriesOf, A.Run;
      var pair := Pair(p.src, p.dst);
      var ports := Newest(EntriesOf(scanPorts, pair) + [Entry(p.at, p.port)]);
      var hosts := Newest(EntriesOf(sweepTargets, p.src) + [Entry(p.at, p.dst)]);
      scanPorts, sweepTargets := scanPorts[pair := ports], sweepTargets[p.src := hosts];
      var uniquePorts, localHosts := Unique(ports, p.at - WINDOW), Locals(Unique(hosts, p.at - WINDOW), cfg);
      scan := CheckThreshold(ScanOf(pair), ScanSignal(p.src), |uniquePorts|, cfg.ports, p.at);
      sweep := CheckThreshold(SweepOf(p.src), SweepSignal(p.src), |localHosts|, SWEEP_BASE, p.at);
    }

    /** The eviction at the start of `_poll`. */
    method EvictAt(now: int)
      requires Valid()
      modifies this
      ensures Valid() && history == old(history) + [Poll(now)] && View() == Evict(old(View()), now)
    {
      Snoc(history, Poll(now), cfg);
      hide Run, Idle, Expired, A.Run;
      scanPorts := EvictIdle(scanPorts, now - WINDOW);
      sweepTargets := EvictIdle(sweepTargets, now - WINDOW);
      EvictExpired(now - COOLDOWN);
      history := history + [Poll(now)];
    }

    method EvictExpired(cutoff: int)
      modifies this`lastAlert
      ensures lastAlert == old(lastAlert) - Expired(old(lastAlert), cutoff)
    {
      var stale := Expired(lastAlert, cutoff);
      var left := stale;
      while left != {}
        invariant left <= stale && lastAlert == old(lastAlert) - (stale - left)
        decreases |left|
      {
        var k :| k in left;
        lastAlert, left := lastAlert - {k}, left - {k};
      }
    }
  }

  /** `_evict_idle_deques`. */
  method EvictIdle<K, T>(m: Table<K, T>, cutoff: int) returns (kept: Table<K, T>)
    ensures kept == m - Idle(m, cutoff)
  {
    var stale := Idle(m, cutoff);
    var left := stale;
    kept := m;
    while left != {}
      invariant left <= stale && kept == m - (stale - left)
      decreases |left|
    {
      var k :| k in left;
      kept, left := kept - {k}, left - {k};
    }
  }

  lemma Snoc(steps: seq<Step>, step: Step, cfg: Config)
    ensures Run(steps + [step], cfg) == Next(Run(steps, cfg), cfg, step)
  {
    assert (steps + [step])[..|steps|] == steps;
  }
}
