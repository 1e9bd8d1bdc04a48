/** Checkpoints of the connection baselines (baseline/engine.py:167-259), told by the samples each
    key's statistics stand for: those in memory and those in the database. */
module BaselineModel {
  datatype Key = Key(ip: string, hour: nat, day: nat)

  datatype State = State(samples: map<Key, seq<real>>, dirty: set<Key>, stored: map<Key, seq<real>>)

  const EMPTY := State(map[], {}, map[])

  function SamplesOf(m: map<Key, seq<real>>, k: Key): seq<real> {
    if k in m then m[k] else []
  }

  /** `ok` says whether the database write works, should there be one. */
  datatype Step =
    | Record(key: Key, value: real, ok: bool)
    | Flush(saved: set<Key>)
    | Crash

  function Recorded(s: State, k: Key, value: real, ok: bool): State {
    var grown := SamplesOf(s.samples, k) + [value];
    var s1 := State(s.samples[k := grown], s.dirty + {k}, s.stored);
    if |grown| % 10 == 0 && ok then s1.(dirty := s1.dirty - {k}, stored := s1.stored[k := grown]) else s1
  }

  /** The keys whose rows were written before `flush` returned or raised. */
  function Flushed(s: State, saved: set<Key>): State {
    s.(dirty := s.dirty - saved, stored := s.stored + map k | k in saved && k in s.samples :: s.samples[k])
  }

  /** A crash and the start after it: memory is rebuilt from the rows. */
  function Crashed(s: State): State {
    State(s.stored, {}, s.stored)
  }

  function Next(s: State, step: Step): State {
    match step
    case Record(k, value, ok) => Recorded(s, k, value, ok)
    case Flush(saved) => Flushed(s, saved)
    case Crash => Crashed(s)
  }

  function Run(steps: seq<Step>): State {
    if steps == [] then EMPTY else Next(Run(steps[..|steps| - 1]), steps[|steps| - 1])
  }

  ghost predicate Legal(steps: seq<Step>) {
    steps == [] || (Legal(steps[..|steps| - 1]) &&
      var last := steps[|steps| - 1];
      last.Flush? ==> last.saved <= Run(steps[..|steps| - 1]).dirty)
  }

  // -------------------------------------------------------------------- invariants

  /** Every row is an earlier state of its key, and the current one when the key is clean. */
  ghost predicate Checkpointed(s: State) {
    && s.dirty <= s.samples.Keys && s.stored.Keys <= s.samples.Keys
    && (forall k :: k in s.stored ==> s.stored[k] <= s.samples[k])
    && (forall k :: k in s.samples && k !in s.dirty ==> k in s.stored && s.stored[k] == s.samples[k])
  }

  function Lost(s: State, k: Key): int {
    |SamplesOf(s.samples, k)| - |SamplesOf(s.stored, k)|
  }

  /** A row is no older than the last multiple of ten samples. */
  ghost predicate Close(s: State) {
    forall k :: k in s.samples ==> Lost(s, k) <= |s.samples[k]| % 10
  }

  lemma CheckpointedStep(s: State, step: Step)
    requires Checkpointed(s) && (step.Flush? ==> step.saved <= s.dirty)
    ensures Checkpointed(Next(s, step))
  {
    match step
    case Record(k, value, ok) =>
      assert SamplesOf(s.samples, k) <= SamplesOf(s.samples, k) + [value];
      assert Checkpointed(Recorded(s, k, value, ok));
    case Flush(saved) =>
      assert Checkpointed(Flushed(s, saved));
    case Crash =>
      assert Checkpointed(Crashed(s));
  }

  lemma CloseStep(s: State, step: Step)
    requires Checkpointed(s) && Close(s) && (step.Flush? ==> step.saved <= s.dirty) && (step.Record? ==> step.ok)
    ensures Close(Next(s, step))
  {
    match step
    case Record(k, value, ok) =>
      NextRemainder(|SamplesOf(s.samples, k)|);
      assert Close(Recorded(s, k, value, true));
    case Flush(saved) =>
      assert Close(Flushed(s, saved));
    case Crash =>
      assert Close(Crashed(s));
  }

  lemma NextRemainder(n: nat)
    ensures (n + 1) % 10 != 0 ==> (n + 1) % 10 == n % 10 + 1
  {
  }

  /** Whatever fails and however often the process dies, a clean key's row is its current state. */
  lemma {:induction false} RunKeepsCheckpoints(steps: seq<Step>)
    requires Legal(steps)
    ensures Checkpointed(Run(steps))
  {
    if steps != [] {
      RunKeepsCheckpoints(steps[..|steps| - 1]);
      CheckpointedStep(Run(steps[..|steps| - 1]), steps[|steps| - 1]);
    }
  }

  ghost predicate WritesWork(steps: seq<Step>) {
    forall i :: 0 <= i < |steps| && steps[i].Record? ==> steps[i].ok
  }

  lemma {:induction false} RunStaysClose(steps: seq<Step>)
    requires Legal(steps) && WritesWork(steps)
    ensures Close(Run(steps))
  {
    if steps != [] {
      RunStaysClose(steps[..|steps| - 1]);
      RunKeepsCheckpoints(steps[..|steps| - 1]);
      CloseStep(Run(steps[..|steps| - 1]), steps[|steps| - 1]);
    }
  }

  /** As long as checkpoints can be written, a crash at any point takes at most the newest nine
      samples of a key, and what it leaves is the exact statistics of the samples before them. */
  lemma CrashLosesAtMostNine(steps: seq<Step>, k: Key)
    requires Legal(steps) && WritesWork(steps)
    ensures var before, after := SamplesOf(Run(steps).samples, k), SamplesOf(Crashed(Run(steps)).samples, k);
            after <= before && |before| - |after| <= 9
  {
    RunKeepsCheckpoints(steps);
    RunStaysClose(steps);
  }

  /** A flush that returns leaves nothing to write, and nothing to lose. */
  lemma FlushIsComplete(steps: seq<Step>)
    requires Legal(steps)
    ensures var s := Run(steps); var n := Flushed(s, s.dirty);
            && n.dirty == {} && n.samples == s.samples && Crashed(n) == n
            && Flushed(n, n.dirty) == n
  {
    RunKeepsCheckpoints(steps);
    hide Run, Legal;
    FlushSavesAll(Run(steps));
  }

  lemma FlushSavesAll(s: State)
    requires Checkpointed(s)
    ensures var n := Flushed(s, s.dirty);
            n.dirty == {} && n.samples == s.samples && n.stored == n.samples && Flushed(n, {}) == n
  {
    var n := Flushed(s, s.dirty);
    assert n.stored == n.samples;
  }

  lemma Snoc(steps: seq<Step>, step: Step)
    requires Legal(steps) && (step.Flush? ==> step.saved <= Run(steps).dirty)
    ensures Legal(steps + [step]) && Run(steps + [step]) == Next(Run(steps), step)
  {
    assert (steps + [step])[..|steps|] == steps;
  }
}
