/** The baseline engine's connection statistics as objects updated in place, with the database rows
    behind them.  Every method takes the step of BaselineModel. */
module BaselineEngine {
  import opened Welford
  import opened BaselineModel

  /** The rows are the snapshots of the stored samples. */
  ghost predicate RowsOf(rows: map<Key, Snapshot>, stored: map<Key, seq<real>>, sqrt: real -> real) {
    rows.Keys == stored.Keys && forall k :: k in stored ==> rows[k] == Saved(Fold(stored[k]), sqrt)
  }

  class BaselineEngine {
    var connStats: map<Key, RunningStats>
    var dirtyConnStats: set<Key>
    var rows: map<Key, Snapshot>
    const sqrt: real -> real
    ghost var repr: set<object>
    ghost var history: seq<Step>

    /** Distinct keys own distinct statistics, and those are the model's. */
    ghost predicate Owns(samples: map<Key, seq<real>>)
      reads this`connStats, this`repr, repr
    {
      && connStats.Keys == samples.Keys
      && (forall k :: k in connStats ==> connStats[k] in repr && connStats[k].View() == Fold(samples[k]))
      && (forall j, k :: j in connStats && k in connStats && j != k ==> connStats[j] != connStats[k])
    }

    ghost predicate Mirrors(stored: map<Key, seq<real>>)
      reads this`rows
    {
      RowsOf(rows, stored, sqrt)
    }

    ghost predicate Valid()
      reads this, repr
    {
      && TakesRoots(sqrt) && Legal(history) && this !in repr
      && Owns(Run(history).samples) && Mirrors(Run(history).stored) && dirtyConnStats == Run(history).dirty
    }

    /** A start: `_load_from_db` over the rows the lives before it left. */
    constructor (stored: map<Key, Snapshot>, root: real -> real, ghost before: seq<Step>)
      requires TakesRoots(root) && Legal(before)
      requires RowsOf(stored, Run(before).stored, root)
      ensures Valid() && fresh(repr) && history == before + [Crash] && rows == stored && sqrt == root
    {
      connStats, dirtyConnStats, rows, sqrt := map[], {}, stored, root;
      repr := {};
      history := before + [Crash];
      new;
      hide Fold, Legal, Run, TakesRoots, RowsOf, Owns;
      LoadFromDb(Run(before).stored);
      Snoc(before, Crash);
      assert Next(Run(before), Crash) == Crashed(Run(before));
    }

    /** The loading loop: statistics rebuilt for every row. */
    method LoadFromDb(ghost samples: map<Key, seq<real>>)
      requires TakesRoots(sqrt) && RowsOf(rows, samples, sqrt) && connStats == map[] && this !in repr && repr == {}
      modifies this`connStats, this`repr
      ensures Owns(samples) && this !in repr && fresh(repr)
    {
      hide Fold, TakesRoots, RowsOf, Owns, Rehydrated;
      var left := rows.Keys;
      StoredKeys(rows, samples, sqrt);
      NothingOwned();
      assert samples - left == map[];
      while left != {}
        invariant left <= rows.Keys && fresh(repr) && this !in repr
        invariant Owns(samples - left)
        decreases |left|
      {
        var k :| k in left;
        StoredIsSaved(rows, samples, sqrt, k);
        var stats := new RunningStats.FromSnapshot(rows[k]);
        assert (samples - left)[k := samples[k]] == samples - (left - {k});
        Adopt(k, stats, samples - left, samples[k]);
        left := left - {k};
      }
      assert samples - left == samples;
    }

    lemma NothingOwned()
      requires connStats == map[]
      ensures Owns(map[])
    {
    }

    /** `self._conn_stats[key] = stats`. */
    method Adopt(k: Key, stats: RunningStats, ghost samples: map<Key, seq<real>>, ghost xs: seq<real>)
      requires Owns(samples) && this !in repr && k !in samples && stats !in repr && stats.View() == Fold(xs)
      modifies this`connStats, this`repr
      ensures connStats == old(connStats)[k := stats] && repr == old(repr) + {stats} && Owns(samples[k := xs])
    {
      hide Fold;
      connStats, repr := connStats[k := stats], repr + {stats};
    }

    /** Finds or makes the statistics of a key and adds a value to them. */
    method AddTo(k: Key, value: real, ghost samples: map<Key, seq<real>>) returns (stats: RunningStats)
      requires Owns(samples) && this !in repr
      modifies this`connStats, this`repr, repr
      ensures Owns(samples[k := SamplesOf(samples, k) + [value]])
          && stats.View() == Fold(SamplesOf(samples, k) + [value])
      ensures this !in repr && fresh(repr - old(repr))
    {
      ghost var xs := SamplesOf(samples, k);
      FoldGrows(xs, value);
      hide Fold, Update, SamplesOf;
      if k !in connStats {
        stats := new RunningStats();
        assert xs == [] by { NoSamples(samples, k); }
        Adopt(k, stats, samples, xs);
      } else {
        assert samples[k := xs] == samples by { SomeSamples(samples, k); }
      }
      Grow(k, value, samples[k := xs]);
      assert samples[k := xs][k := xs + [value]] == samples[k := xs + [value]];
      stats := connStats[k];
    }

    method Grow(k: Key, value: real, ghost samples: map<Key, seq<real>>)
      requires Owns(samples) && this !in repr && k in samples
      modifies repr
      ensures Owns(samples[k := samples[k] + [value]])
      ensures connStats[k].View() == Fold(samples[k] + [value])
    {
      FoldGrows(samples[k], value);
      hide Fold, Update;
      connStats[k].Add(value);
    }

    /** `record_connection_count`; `raised` when its checkpoint cannot be written. */
    method RecordConnectionCount(k: Key, count: real, ok: bool) returns (raised: bool)
      requires Valid()
      modifies this, repr
      ensures Valid() && fresh(repr - old(repr)) && history == old(history) + [Record(k, count, ok)]
      ensures raised == (!ok && |SamplesOf(Run(history).samples, k)| % 10 == 0)
    {
      hide Fold, Legal, Run, TakesRoots, RowsOf, Owns, SamplesOf;
      ghost var s := Run(history);
      ghost var grown := SamplesOf(s.samples, k) + [count];
      Snoc(history, Record(k, count, ok));
      RecordedSamples(s, k, count, ok);
      var stats := AddTo(k, count, s.samples);
      FoldCounts(grown);
      history := history + [Record(k, count, ok)];
      dirtyConnStats := dirtyConnStats + {k};
      if stats.n % 10 == 0 {
        if !ok {
          return true;
        }
        RowsUpdate(rows, s.stored, k, grown, sqrt);
        rows := rows[k := Saved(stats.View(), sqrt)];
        dirtyConnStats := dirtyConnStats - {k};
      }
      return false;
    }

    /** `flush`; the write after `capacity` writes fails. */
    method FlushDirty(capacity: nat) returns (written: nat, raised: bool)
      requires Valid()
      modifies this`rows, this`dirtyConnStats, this`history
      ensures Valid() && history == old(history) + [Flush(old(dirtyConnStats) - dirtyConnStats)]
      ensures dirtyConnStats <= old(dirtyConnStats) && written == |old(dirtyConnStats)| - |dirtyConnStats|
      ensures raised == (capacity < |old(dirtyConnStats)|)
      ensures if raised then written == capacity else dirtyConnStats == {}
    {
      hide Fold, Legal, Run, TakesRoots, RowsOf, Owns, Flushed;
      ghost var s := Run(history);
      RunKeepsCheckpoints(history);
      written, raised := WriteRows(capacity, s);
      Snoc(history, Flush(s.dirty - dirtyConnStats));
      history := history + [Flush(s.dirty - dirtyConnStats)];
      FlushedKeeps(s, s.dirty - dirtyConnStats);
      assert s.dirty - (s.dirty - dirtyConnStats) == dirtyConnStats;
    }

    /** The writing loop. */
    method WriteRows(capacity: nat, ghost s: State) returns (written: nat, raised: bool)
      requires Owns(s.samples) && this !in repr && RowsOf(rows, s.stored, sqrt)
          && dirtyConnStats == s.dirty <= s.samples.Keys
      modifies this`rows, this`dirtyConnStats
      ensures RowsOf(rows, Flushed(s, s.dirty - dirtyConnStats).stored, sqrt)
      ensures dirtyConnStats <= s.dirty && written == |s.dirty| - |dirtyConnStats|
      ensures raised == (capacity < |s.dirty|)
      ensures if raised then written == capacity else dirtyConnStats == {}
      ensures Owns(s.samples)
    {
      hide RowsOf, Owns, Flushed;
      FlushNothing(s);
      written := 0;
      while dirtyConnStats != {}
        invariant dirtyConnStats <= s.dirty && written == |s.dirty| - |dirtyConnStats| <= capacity
        invariant Owns(s.samples)
        invariant RowsOf(rows, Flushed(s, s.dirty - dirtyConnStats).stored, sqrt)
        decreases |dirtyConnStats|
      {
        if written == capacity {
          return written, true;
        }
        var k :| k in dirtyConnStats;
        FlushOne(s, s.dirty - dirtyConnStats, k);
        RowsUpdate(rows, Flushed(s, s.dirty - dirtyConnStats).stored, k, s.samples[k], sqrt);
        assert s.dirty - dirtyConnStats + {k} == s.dirty - (dirtyConnStats - {k});
        WriteRow(k, s.samples);
        written := written + 1;
      }
      raised := false;
    }

    method WriteRow(k: Key, ghost samples: map<Key, seq<real>>)
      requires Owns(samples) && k in samples && this !in repr
      modifies this`rows, this`dirtyConnStats
      ensures Owns(samples) && rows == old(rows)[k := Saved(Fold(samples[k]), sqrt)]
          && dirtyConnStats == old(dirtyConnStats) - {k}
    {
      rows := rows[k := Saved(connStats[k].View(), sqrt)];
      dirtyConnStats := dirtyConnStats - {k};
    }
  }

  lemma StoredKeys(rows: map<Key, Snapshot>, stored: map<Key, seq<real>>, sqrt: real -> real)
    requires RowsOf(rows, stored, sqrt)
    ensures rows.Keys == stored.Keys
  {
  }

  lemma StoredIsSaved(rows: map<Key, Snapshot>, stored: map<Key, seq<real>>, sqrt: real -> real, k: Key)
    requires RowsOf(rows, stored, sqrt) && TakesRoots(sqrt) && k in stored
    ensures k in rows && Rehydrated(rows[k]) == Fold(stored[k])
  {
    RestartIsTransparent(stored[k], sqrt);
  }

  lemma RowsUpdate(rows: map<Key, Snapshot>, stored: map<Key, seq<real>>, k: Key, xs: seq<real>, sqrt: real -> real)
    requires RowsOf(rows, stored, sqrt)
    ensures RowsOf(rows[k := Saved(Fold(xs), sqrt)], stored[k := xs], sqrt)
  {
    hide Fold, Saved;
  }

  lemma RecordedSamples(s: State, k: Key, value: real, ok: bool)
    ensures Recorded(s, k, value, ok).samples == s.samples[k := SamplesOf(s.samples, k) + [value]]
    ensures SamplesOf(Recorded(s, k, value, ok).samples, k) == SamplesOf(s.samples, k) + [value]
  {
  }

  lemma NoSamples(m: map<Key, seq<real>>, k: Key)
    requires k !in m
    ensures SamplesOf(m, k) == []
  {
  }

  lemma SomeSamples(m: map<Key, seq<real>>, k: Key)
    requires k in m
    ensures SamplesOf(m, k) == m[k] && m[k := SamplesOf(m, k)] == m
  {
  }

  lemma FlushNothing(s: State)
    ensures Flushed(s, {}).stored == s.stored && s.dirty - s.dirty == {}
  {
  }

  lemma FlushOne(s: State, done: set<Key>, k: Key)
    requires k in s.samples
    ensures Flushed(s, done + {k}).stored == Flushed(s, done).stored[k := s.samples[k]]
  {
  }

  lemma FlushedKeeps(s: State, saved: set<Key>)
    ensures Flushed(s, saved).samples == s.samples && Flushed(s, saved).dirty == s.dirty - saved
  {
  }

  lemma FoldGrows(xs: seq<real>, x: real)
    ensures Fold([]) == ZERO && Fold(xs + [x]) == Update(Fold(xs), x)
  {
    assert (xs + [x])[..|xs|] == xs;
  }

  lemma FoldCounts(xs: seq<real>)
    ensures Fold(xs).n == |xs|
  {
    WelfordIsExact(xs);
  }
}
