/** Whole runs of the beacon detector (detectors/beacon_detector.py:74-179, 249-260): bounded
    deques, a forgetful cooldown map and a lazy cleanup, beside a reference that forgets nothing
    but the history of flows the cleanup cleared. */
module BeaconDetector {
  import opened Beacon

  datatype Flow = Flow(src: string, dst: string, port: nat)

  /** Clock readings are seconds. */
  const COOLDOWN := 1800.0
  const IDLE := 3600.0
  const CLEANUP_EVERY := 300.0

  datatype State = State(timestamps: map<Flow, seq<real>>, lastAlert: map<Flow, real>, lastCleanup: real)

  function TimesOf(m: map<Flow, seq<real>>, k: Flow): seq<real> {
    if k in m then m[k] else []
  }

  /** Regular timing, once there are enough timestamps to look at. */
  predicate Suspect(ts: seq<real>, cfg: Config, sqrt: real -> real) {
    |ts| >= cfg.minIntervals + 1 && Regular(ts, cfg, sqrt)
  }

  predicate Cooling(last: map<Flow, real>, k: Flow, now: real) {
    k in last && now - last[k] < COOLDOWN
  }

  /** A connection of a flow seen at `at` and handled at `now`. */
  function Observe(s: State, cfg: Config, sqrt: real -> real, k: Flow, at: real, now: real): (State, bool) {
    var ts := Newest(TimesOf(s.timestamps, k) + [at]);
    var s1 := s.(timestamps := s.timestamps[k := ts]);
    if Suspect(ts, cfg, sqrt) && !Cooling(s.lastAlert, k, now)
    then (s1.(lastAlert := s1.lastAlert[k := now]), true)
    else (s1, false)
  }

  function Idle(timestamps: map<Flow, seq<real>>, cutoff: real): set<Flow> {
    set k | k in timestamps && timestamps[k] != [] && timestamps[k][|timestamps[k]| - 1] < cutoff
  }

  /** The end of a poll. */
  function Clean(s: State, now: real): State {
    if now - s.lastCleanup > CLEANUP_EVERY then
      var idle := Idle(s.timestamps, now - IDLE);
      State(s.timestamps - idle, s.lastAlert - idle, now)
    else s
  }

  datatype Step = Connection(flow: Flow, at: real, now: real) | PollEnd(now: real)

  function Next(s: State, cfg: Config, sqrt: real -> real, step: Step): State {
    match step
    case Connection(k, at, now) => Observe(s, cfg, sqrt, k, at, now).0
    case PollEnd(now) => Clean(s, now)
  }

  // ---------------------------------------------------------------------- reference

  /** Every timestamp of a flow since it was last cleared, and its last alert ever. */
  datatype Plain = Plain(history: map<Flow, seq<real>>, alerted: map<Flow, real>)

  function Consult(p: Plain, cfg: Config, sqrt: real -> real, k: Flow, at: real, now: real): (Plain, bool) {
    var history := TimesOf(p.history, k) + [at];
    var p1 := p.(history := p.history[k := history]);
    if |Newest(history)| > cfg.minIntervals && Regular(Newest(history), cfg, sqrt)
       && (k in p.alerted ==> now - p.alerted[k] >= 1800.0)
    then (p1.(alerted := p1.alerted[k := now]), true)
    else (p1, false)
  }

  function Cleared(s: State, step: Step): set<Flow> {
    match step
    case Connection(_, _, _) => {}
    case PollEnd(now) => s.timestamps.Keys - Clean(s, now).timestamps.Keys
  }

  function Follow(p: Plain, s: State, cfg: Config, sqrt: real -> real, step: Step): Plain {
    match step
    case Connection(k, at, now) => Consult(p, cfg, sqrt, k, at, now).0
    case PollEnd(now) => p.(history := p.history - Cleared(s, step))
  }

  function Run(steps: seq<Step>, cfg: Config, sqrt: real -> real, start: real): State {
    if steps == [] then State(map[], map[], start)
    else Next(Run(steps[..|steps| - 1], cfg, sqrt, start), cfg, sqrt, steps[|steps| - 1])
  }

  function RunPlain(steps: seq<Step>, cfg: Config, sqrt: real -> real, start: real): Plain {
    if steps == [] then Plain(map[], map[])
    else
      var before, step := steps[..|steps| - 1], steps[|steps| - 1];
      Follow(RunPlain(before, cfg, sqrt, start), Run(before, cfg, sqrt, start), cfg, sqrt, step)
  }

  /** The clock does not go back, and a connection is handled within the cooldown of being seen. */
  ghost predicate Prompt(steps: seq<Step>) {
    && (forall i, j :: 0 <= i < j < |steps| ==> steps[i].now <= steps[j].now)
    && (forall i :: 0 <= i < |steps| && steps[i].Connection? ==> steps[i].now - steps[i].at <= COOLDOWN)
  }

  // --------------------------------------------------------------------- refinement

  ghost predicate Related(s: State, p: Plain, clock: real) {
    && s.timestamps.Keys == p.history.Keys
    && (forall k :: k in s.timestamps ==> s.timestamps[k] == Newest(p.history[k]) && s.timestamps[k] != [])
    && (forall k :: k in s.lastAlert ==> k in p.alerted && p.alerted[k] == s.lastAlert[k])
    && (forall k :: k in p.alerted ==> p.alerted[k] <= clock)
    && (forall k :: k in p.alerted && k !in s.lastAlert ==> p.alerted[k] <= clock - COOLDOWN)
    && (forall k :: k in s.lastAlert ==> k in s.timestamps && LastOf(s, k) >= s.lastAlert[k] - COOLDOWN)
  }

  function LastOf(s: State, k: Flow): real
    requires k in s.timestamps && s.timestamps[k] != []
  {
    s.timestamps[k][|s.timestamps[k]| - 1]
  }

  lemma NewestGrows(ts: seq<real>, at: real)
    ensures Newest(Newest(ts) + [at]) == Newest(ts + [at])
    ensures Newest(ts + [at]) != [] && Newest(ts + [at])[|Newest(ts + [at])| - 1] == at
  {
  }

  /** A new timestamp, and perhaps an alert. */
  lemma RelatedTouch(s: State, p: Plain, k: Flow, at: real, clock: real, now: real, alerts: bool)
    requires Related(s, p, clock) && clock <= now && now - at <= COOLDOWN
    ensures var ts, history := TimesOf(s.timestamps, k) + [at], TimesOf(p.history, k) + [at];
            && Newest(ts) == Newest(history)
            && Related(State(s.timestamps[k := Newest(ts)], if alerts then s.lastAlert[k := now] else s.lastAlert,
                s.lastCleanup),
                       Plain(p.history[k := history], if alerts then p.alerted[k := now] else p.alerted), now)
  {
    NewestGrows(TimesOf(p.history, k), at);
    NewestOfNothing();
    hide Newest;
    assert TimesOf(s.timestamps, k) == Newest(TimesOf(p.history, k));
    hide TimesOf;
  }

  lemma RelatedConnection(s: State, p: Plain, cfg: Config, sqrt: real -> real, k: Flow, at: real, clock: real,
      now: real)
    requires Related(s, p, clock) && clock <= now && now - at <= COOLDOWN
    ensures Observe(s, cfg, sqrt, k, at, now).1 == Consult(p, cfg, sqrt, k, at, now).1
    ensures Related(Observe(s, cfg, sqrt, k, at, now).0, Consult(p, cfg, sqrt, k, at, now).0, now)
  {
    SameCooling(s, p, k, clock, now);
    hide Newest, Suspect, TimesOf, Related, Cooling;
    RelatedTouch(s, p, k, at, clock, now, Observe(s, cfg, sqrt, k, at, now).1);
  }

  lemma SameCooling(s: State, p: Plain, k: Flow, clock: real, now: real)
    requires Related(s, p, clock) && clock <= now
    ensures Cooling(s.lastAlert, k, now) == Cooling(p.alerted, k, now)
  {
  }

  lemma NewestOfNothing()
    ensures Newest([]) == []
  {
  }

  lemma RelatedPoll(s: State, p: Plain, clock: real, now: real)
    requires Related(s, p, clock) && clock <= now
    ensures Related(Clean(s, now), p.(history := p.history - Cleared(s, PollEnd(now))), now)
  {
    hide Newest;
    var n := Clean(s, now);
    assert n.timestamps == s.timestamps - Cleared(s, PollEnd(now));
  }

  lemma {:induction false} RunRelated(steps: seq<Step>, cfg: Config, sqrt: real -> real, start: real, clock: real)
    requires Prompt(steps) && forall i :: 0 <= i < |steps| ==> steps[i].now <= clock
    ensures Related(Run(steps, cfg, sqrt, start), RunPlain(steps, cfg, sqrt, start), clock)
  {
    hide Related, Observe, Consult, Clean, Cleared;
    if steps == [] {
      NothingRelated(start, clock);
    } else {
      var before, step := steps[..|steps| - 1], steps[|steps| - 1];
      RunRelated(before, cfg, sqrt, start, step.now);
      var s, p := Run(before, cfg, sqrt, start), RunPlain(before, cfg, sqrt, start);
      match step {
        case Connection(k, at, now) => RelatedConnection(s, p, cfg, sqrt, k, at, now, now);
        case PollEnd(now) => RelatedPoll(s, p, now, now);
      }
      RelatedLater(Run(steps, cfg, sqrt, start), RunPlain(steps, cfg, sqrt, start), step.now, clock);
    }
  }

  lemma NothingRelated(start: real, clock: real)
    ensures Related(State(map[], map[], start), Plain(map[], map[]), clock)
  {
  }

  lemma RelatedLater(s: State, p: Plain, clock: real, later: real)
    requires Related(s, p, clock) && clock <= later
    ensures Related(s, p, later)
  {
  }

  /** Over any run, a connection raises an alert exactly when the newest 200 timestamps of its flow
      since it was last cleared are regular and the flow's last alert, if it ever had one, is at
      least half an hour old: bounding the deques and forgetting alerts never changes an answer. */
  lemma DetectorRefinesHistory(steps: seq<Step>, k: Flow, at: real, now: real, cfg: Config, sqrt: real -> real,
      start: real)
    requires Prompt(steps + [Connection(k, at, now)])
    ensures Observe(Run(steps, cfg, sqrt, start), cfg, sqrt, k, at, now).1 ==
            Consult(RunPlain(steps, cfg, sqrt, start), cfg, sqrt, k, at, now).1
  {
    var all := steps + [Connection(k, at, now)];
    assert forall i :: 0 <= i < |steps| ==> all[i] == steps[i];
    assert all[|steps|] == Connection(k, at, now);
    RunRelated(steps, cfg, sqrt, start, now);
    RelatedConnection(Run(steps, cfg, sqrt, start), RunPlain(steps, cfg, sqrt, start), cfg, sqrt, k, at, now, now);
  }

  /** When the idle flows were last cleared: at poll ends more than five minutes after one another. */
  function ClearedAt(steps: seq<Step>, start: real): real {
    if steps == [] then start
    else
      var before, step := ClearedAt(steps[..|steps| - 1], start), steps[|steps| - 1];
      if step.PollEnd? && step.now - before > 300.0 then step.now else before
  }

  lemma {:induction false} LastCleanupIs(steps: seq<Step>, cfg: Config, sqrt: real -> real, start: real)
    ensures Run(steps, cfg, sqrt, start).lastCleanup == ClearedAt(steps, start)
  {
    hide Suspect, Cooling, Newest, Idle;
    if steps != [] {
      LastCleanupIs(steps[..|steps| - 1], cfg, sqrt, start);
    }
  }

  /** A poll end clears a flow if and only if the flow has been silent for more than an hour, and the
      last clearing is more than five minutes ago. */
  lemma ClearedIffIdle(steps: seq<Step>, k: Flow, now: real, cfg: Config, sqrt: real -> real, start: real)
    requires Prompt(steps)
    ensures var history := TimesOf(RunPlain(steps, cfg, sqrt, start).history, k);
            k in Cleared(Run(steps, cfg, sqrt, start), PollEnd(now))
            <==> history != [] && now - history[|history| - 1] > 3600.0 && now - ClearedAt(steps, start) > 300.0
  {
    var clock := if steps == [] then now else steps[|steps| - 1].now;
    RunRelated(steps, cfg, sqrt, start, clock);
    LastCleanupIs(steps, cfg, sqrt, start);
    hide Run, RunPlain, ClearedAt, Related, Cleared;
    ClearedIs(Run(steps, cfg, sqrt, start), RunPlain(steps, cfg, sqrt, start), clock, k, now);
  }

  lemma ClearedIs(s: State, p: Plain, clock: real, k: Flow, now: real)
    requires Related(s, p, clock)
    ensures var history := TimesOf(p.history, k);
            k in Cleared(s, PollEnd(now))
            <==> history != [] && now - history[|history| - 1] > 3600.0 && now - s.lastCleanup > 300.0
  {
    hide Newest;
    assert k in s.timestamps <==> k in p.history;
    if k in p.history {
      assert s.timestamps[k] == Newest(p.history[k]) && s.timestamps[k] != [];
      assert p.history[k] != [] by { NewestOfNone(p.history[k]); }
      LastOfNewest(p.history[k]);
    }
    hide Related;
  }

  lemma NewestOfNone(ts: seq<real>)
    ensures Newest(ts) == [] <==> ts == []
  {
  }

  lemma LastOfNewest(ts: seq<real>)
    requires ts != []
    ensures Newest(ts) != [] && Newest(ts)[|Newest(ts)| - 1] == ts[|ts| - 1]
  {
  }

  /** Two alerts of one flow are at least half an hour apart. */
  lemma AlertsAreApart(steps: seq<Step>, i: nat, j: nat, cfg: Config, sqrt: real -> real, start: real)
    requires Prompt(steps) && i < j < |steps| && steps[i].Connection? && steps[j].Connection?
    requires steps[i].flow == steps[j].flow
    requires Observe(Run(steps[..i], cfg, sqrt, start), cfg, sqrt, steps[i].flow, steps[i].at, steps[i].now).1
    requires Observe(Run(steps[..j], cfg, sqrt, start), cfg, sqrt, steps[j].flow, steps[j].at, steps[j].now).1
    ensures steps[j].now - steps[i].now >= 1800.0
  {
    PromptPrefix(steps, i);
    PromptPrefix(steps, j);
    DetectorRefinesHistory(steps[..i], steps[i].flow, steps[i].at, steps[i].now, cfg, sqrt, start);
    DetectorRefinesHistory(steps[..j], steps[j].flow, steps[j].at, steps[j].now, cfg, sqrt, start);
    assert steps[..j][..i] == steps[..i] && steps[..j][i] == steps[i];
    assert Prompt(steps[..j]);
    hide Observe, Run, Prompt;
    AlertedSince(steps[..j], i, cfg, sqrt, start);
  }

  lemma PromptPrefix(steps: seq<Step>, i: nat)
    requires Prompt(steps) && i < |steps|
    ensures Prompt(steps[..i]) && Prompt(steps[..i] + [steps[i]])
  {
    assert steps[..i] + [steps[i]] == steps[..i + 1];
  }

  lemma {:induction false} AlertedSince(steps: seq<Step>, i: nat, cfg: Config, sqrt: real -> real, start: real)
    requires Prompt(steps) && i < |steps| && steps[i].Connection?
    requires var step := steps[i];
             Consult(RunPlain(steps[..i], cfg, sqrt, start), cfg, sqrt, step.flow, step.at, step.now).1
    ensures var alerted := RunPlain(steps, cfg, sqrt, start).alerted;
            steps[i].flow in alerted && alerted[steps[i].flow] >= steps[i].now
    decreases |steps|
  {
    hide Run, Cleared, Regular;
    var before, step := steps[..|steps| - 1], steps[|steps| - 1];
    if i < |steps| - 1 {
      assert before[..i] == steps[..i] && before[i] == steps[i];
      AlertedSince(before, i, cfg, sqrt, start);
    } else {
      assert before == steps[..i];
    }
  }

  // ---------------------------------------------------------------------- the object

  class BeaconDetector {
    var flowTimestamps: map<Flow, seq<real>>
    var lastAlert: map<Flow, real>
    var lastCleanup: real
    const cfg: Config
    const sqrt: real -> real
    ghost const start: real
    ghost var history: seq<Step>

    ghost function View(): State
      reads this
    {
      State(flowTimestamps, lastAlert, lastCleanup)
    }

    ghost predicate Valid()
      reads this
    {
      View() == Run(history, cfg, sqrt, start)
    }

    constructor (c: Config, root: real -> real, now: real)
      ensures Valid() && history == [] && cfg == c && sqrt == root
    {
      flowTimestamps, lastAlert, lastCleanup := map[], map[], now;
      cfg, sqrt, start, history := c, root, now, [];
    }

    /** The flow part of `_process_event`; `ignored` stands for its address and port filters. */
    method ProcessEvent(k: Flow, at: real, ignored: bool, now: real) returns (alerted: bool)
      requires Valid()
      modifies this
      ensures Valid()
      ensures ignored ==> !alerted && View() == old(View()) && history == old(history)
      ensures !ignored ==> alerted == Observe(old(View()), cfg, sqrt, k, at, now).1
                           && history == old(history) + [Connection(k, at, now)]
    {
      if ignored {
        return false;
      }
      hide Suspect, Newest;
      Snoc(history, Connection(k, at, now), cfg, sqrt, start);
      history := history + [Connection(k, at, now)];
      var ts := Newest(TimesOf(flowTimestamps, k) + [at]);
      flowTimestamps := flowTimestamps[k := ts];
      if |ts| < cfg.minIntervals + 1 {
        assert !Suspect(ts, cfg, sqrt) by { TooFew(ts, cfg, sqrt); }
        return false;
      }
      alerted := AnalyzeFlow(k, ts, now);
      assert View() == Observe(old(View()), cfg, sqrt, k, at, now).0 by { EnoughIsRegular(ts, cfg, sqrt); }
      assert alerted == Observe(old(View()), cfg, sqrt, k, at, now).1 by { EnoughIsRegular(ts, cfg, sqrt); }
    }

    /** `_analyze_flow`. */
    method AnalyzeFlow(k: Flow, ts: seq<real>, now: real) returns (alerted: bool)
      modifies this`lastAlert
      ensures alerted == (Regular(ts, cfg, sqrt) && !Cooling(old(lastAlert), k, now))
      ensures lastAlert == if alerted then old(lastAlert)[k := now] else old(lastAlert)
    {
      if !Regular(ts, cfg, sqrt) {
        return false;
      }
      if k in lastAlert && now - lastAlert[k] < COOLDOWN {
        return false;
      }
      lastAlert := lastAlert[k := now];
      return true;
    }

    /** The end of `_poll`: the cleanup, every five minutes at most. */
    method EndPoll(now: real)
      requires Valid()
      modifies this
      ensures Valid() && history == old(history) + [PollEnd(now)]
    {
      Snoc(history, PollEnd(now), cfg, sqrt, start);
      history := history + [PollEnd(now)];
      if now - lastCleanup > CLEANUP_EVERY {
        CleanupIdleFlows(now);
        lastCleanup := now;
      }
    }

    method CleanupIdleFlows(now: real)
      modifies this`flowTimestamps, this`lastAlert
      ensures flowTimestamps == old(flowTimestamps) - Idle(old(flowTimestamps), now - IDLE)
      ensures lastAlert == old(lastAlert) - Idle(old(flowTimestamps), now - IDLE)
    {
      var idleKeys := Idle(flowTimestamps, now - IDLE);
      var left := idleKeys;
      while left != {}
        invariant left <= idleKeys
        invariant flowTimestamps == old(flowTimestamps) - (idleKeys - left)
        invariant lastAlert == old(lastAlert) - (idleKeys - left)
        decreases |left|
      {
        var k :| k in left;
        flowTimestamps, lastAlert := flowTimestamps - {k}, lastAlert - {k};
        left := left - {k};
      }
    }
  }

  lemma Snoc(steps: seq<Step>, step: Step, cfg: Config, sqrt: real -> real, start: real)
    ensures Run(steps + [step], cfg, sqrt, start) == Next(Run(steps, cfg, sqrt, start), cfg, sqrt, step)
  {
    assert (steps + [step])[..|steps|] == steps;
  }

  lemma TooFew(ts: seq<real>, cfg: Config, sqrt: real -> real)
    requires |ts| < cfg.minIntervals + 1
    ensures !Suspect(ts, cfg, sqrt)
  {
  }

  lemma EnoughIsRegular(ts: seq<real>, cfg: Config, sqrt: real -> real)
    requires |ts| >= cfg.minIntervals + 1
    ensures Suspect(ts, cfg, sqrt) == Regular(ts, cfg, sqrt)
  {
  }
}
