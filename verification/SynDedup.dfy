/** SYN deduplication (capture/packet_capture.py:97-103, 353-372): an ordered dictionary expired from
    the front and capped, beside a reference that remembers every accepted SYN. */
module SynDedup {
  import opened Basics
  import opened OrderedDict

  datatype Tuple = Tuple(srcIp: string, srcPort: nat, dstIp: string, dstPort: nat)

  const WINDOW := 60 * SECOND
  const MAX_RECENT: nat := 50_000

  type Cache = Dict<Tuple, int>

  predicate IsConnectionInitiation(flags: string) { 'S' in flags && 'A' !in flags }

  /** Pops the oldest entries until one is inside the window. */
  function Expire(d: Cache, cutoff: int): Cache
    requires d.Valid()
    decreases |d.order|
  {
    if d.order == [] || d.items[d.order[0]] > cutoff then d
    else
      RemoveValid(d, d.order[0]);
      Expire(d.Remove(d.order[0]), cutoff)
  }

  /** Pops the oldest entries until the cache fits. */
  function Cap(d: Cache): Cache
    requires d.Valid()
    decreases |d.order|
  {
    if |d.order| <= MAX_RECENT then d
    else
      RemoveValid(d, d.order[0]);
      Cap(d.Remove(d.order[0]))
  }

  predicate Repeated(d: Cache, k: Tuple, cutoff: int) {
    k in d.items && d.items[k] > cutoff
  }

  /** The entry of a SYN that is let through. */
  function Accepted(d: Cache, k: Tuple, t: int): Cache {
    d.Put(k, t).MoveToEnd(k)
  }

  lemma AcceptedValid(d: Cache, k: Tuple, t: int)
    requires d.Valid()
    ensures Accepted(d, k, t).Valid() && Accepted(d, k, t).order == Without(d.order, k) + [k]
  {
    PutValid(d, k, t);
    MoveToEndValid(d.Put(k, t), k);
    if k !in d.items {
      WithoutSplit(d.order, [k], k);
      WithoutAbsent(d.order, k);
    }
  }

  lemma {:induction false} ExpireValid(d: Cache, cutoff: int)
    requires d.Valid()
    ensures Expire(d, cutoff).Valid() && |Expire(d, cutoff).order| <= |d.order|
    decreases |d.order|
  {
    if d.order != [] && d.items[d.order[0]] <= cutoff {
      RemoveValid(d, d.order[0]);
      ExpireValid(d.Remove(d.order[0]), cutoff);
    }
  }

  /** `_is_retransmitted_syn`: the new cache, and whether the SYN is a repeat. */
  function Check(d: Cache, k: Tuple, t: int): (Cache, bool)
    requires d.Valid()
  {
    ExpireValid(d, t - WINDOW);
    var d1 := Expire(d, t - WINDOW);
    if Repeated(d1, k, t - WINDOW) then (d1.MoveToEnd(k), true)
    else AcceptedValid(d1, k, t); (Cap(Accepted(d1, k, t)), false)
  }

  // ---------------------------------------------------------------------- reference

  /** Every tuple's last accepted SYN and last sighting, and the tuples the cap has pushed out
      since they were last accepted. */
  datatype Log = Log(accepted: map<Tuple, int>, touched: map<Tuple, int>, pushedOut: set<Tuple>)

  const NOTHING := Log(map[], map[], {})

  predicate Answer(p: Log, k: Tuple, t: int) {
    k in p.accepted && k !in p.pushedOut && t - p.accepted[k] < 60 * 1_000_000
  }

  function Noted(p: Log, k: Tuple, t: int, pushed: set<Tuple>): Log {
    if Answer(p, k, t) then p.(touched := p.touched[k := t])
    else Log(p.accepted[k := t], p.touched[k := t], p.pushedOut - {k} + pushed)
  }

  /** What the cap pushes out for this SYN. */
  function Pushed(d: Cache, k: Tuple, t: int): set<Tuple>
    requires d.Valid()
  {
    ExpireValid(d, t - WINDOW);
    var d1 := Expire(d, t - WINDOW);
    if Repeated(d1, k, t - WINDOW) then {}
    else AcceptedValid(d1, k, t); Accepted(d1, k, t).items.Keys - Cap(Accepted(d1, k, t)).items.Keys
  }

  // ------------------------------------------------------------------- the invariant

  /** The entries stand in the order they were last seen in. */
  ghost predicate InOrder(order: seq<Tuple>, touched: map<Tuple, int>) {
    && (forall i :: 0 <= i < |order| ==> order[i] in touched)
    && (forall i, j :: 0 <= i < j < |order| ==> touched[order[i]] <= touched[order[j]])
  }

  ghost predicate Entries(d: Cache, p: Log, clock: int) {
    forall k :: k in d.items ==>
      && k in p.accepted && p.accepted[k] == d.items[k] && k !in p.pushedOut
      && k in p.touched && d.items[k] <= p.touched[k] < d.items[k] + WINDOW && p.touched[k] <= clock
  }

  /** What the cache no longer holds was pushed out, or is too old to matter. */
  ghost predicate Gone(d: Cache, p: Log, clock: int) {
    forall k :: k in p.accepted && k !in d.items ==> k in p.pushedOut || p.accepted[k] <= clock - WINDOW
  }

  ghost predicate Related(d: Cache, p: Log, clock: int) {
    d.Valid() && |d.order| <= MAX_RECENT && InOrder(d.order, p.touched) && Entries(d, p, clock) && Gone(d, p, clock)
  }

  lemma {:induction false} WithoutInOrder(s: seq<Tuple>, k: Tuple, touched: map<Tuple, int>)
    requires InOrder(s, touched)
    ensures InOrder(Without(s, k), touched)
  {
    if s != [] {
      WithoutInOrder(s[1..], k, touched);
      var rest := Without(s[1..], k);
      forall x | x in rest ensures touched[s[0]] <= touched[x] {
        var j :| 0 <= j < |s[1..]| && s[1..][j] == x;
        assert s[j + 1] == x;
      }
    }
  }

  lemma {:induction false} ExpireRelated(d: Cache, p: Log, clock: int, cutoff: int)
    requires Related(d, p, clock) && cutoff <= clock - WINDOW
    ensures var n := Expire(d, cutoff);
            && Related(n, p, clock)
            && n.items.Keys <= d.items.Keys
            && (forall k :: k in n.items ==> n.items[k] == d.items[k])
            && (n.order != [] ==> n.items[n.order[0]] > cutoff)
    decreases |d.order|
  {
    if d.order != [] && d.items[d.order[0]] <= cutoff {
      DropFirst(d, p, clock);
      RemoveValid(d, d.order[0]);
      ExpireRelated(d.Remove(d.order[0]), p, clock, cutoff);
    }
  }

  lemma DropFirst(d: Cache, p: Log, clock: int)
    requires Related(d, p, clock) && d.order != [] && d.items[d.order[0]] <= clock - WINDOW
    ensures Related(d.Remove(d.order[0]), p, clock)
  {
    RemoveValid(d, d.order[0]);
    WithoutInOrder(d.order, d.order[0], p.touched);
  }

  lemma RelatedLater(d: Cache, p: Log, clock: int, later: int)
    requires Related(d, p, clock) && clock <= later
    ensures Related(d, p, later)
  {
  }

  /** Every entry the expiry leaves was accepted less than two windows ago: the first is inside the
      window, and the others were seen after it, each within a window of its own acceptance. */
  lemma LeftIsRecent(d: Cache, p: Log, clock: int, cutoff: int, k: Tuple)
    requires Related(d, p, clock) && k in d.items && (d.order != [] ==> d.items[d.order[0]] > cutoff)
    ensures d.items[k] > cutoff - WINDOW
  {
    assert d.order[0] in d.items;
    var i :| 0 <= i < |d.order| && d.order[i] == k;
    assert p.touched[d.order[0]] <= p.touched[d.order[i]];
  }

  lemma MoveRelated(d: Cache, p: Log, k: Tuple, t: int)
    requires Related(d, p, t) && k in d.items && d.items[k] > t - WINDOW
    ensures Related(d.MoveToEnd(k), p.(touched := p.touched[k := t]), t)
  {
    MoveToEndValid(d, k);
    WithoutInOrder(d.order, k, p.touched);
    TouchedLast(Without(d.order, k), p, k, t);
  }

  lemma TouchedLast(s: seq<Tuple>, p: Log, k: Tuple, t: int)
    requires InOrder(s, p.touched) && k !in s && forall x :: x in s ==> p.touched[x] <= t
    ensures InOrder(s + [k], p.touched[k := t])
  {
  }

  /** Before the cap is applied. */
  lemma AcceptRelated(d: Cache, p: Log, k: Tuple, t: int)
    requires Related(d, p, t)
    ensures var n, q := Accepted(d, k, t), Log(p.accepted[k := t], p.touched[k := t], p.pushedOut - {k});
            n.Valid() && |n.order| <= MAX_RECENT + 1 && InOrder(n.order, q.touched) && Entries(n, q, t) && Gone(n, q, t)
  {
    AcceptedValid(d, k, t);
    WithoutInOrder(d.order, k, p.touched);
    TouchedLast(Without(d.order, k), p, k, t);
  }

  lemma CapRelated(d: Cache, p: Log, t: int)
    requires d.Valid() && |d.order| <= MAX_RECENT + 1 && InOrder(d.order, p.touched) && Entries(d, p, t)
        && Gone(d, p, t)
    ensures Related(Cap(d), p.(pushedOut := p.pushedOut + (d.items.Keys - Cap(d).items.Keys)), t)
  {
    if |d.order| > MAX_RECENT {
      var first := d.order[0];
      RemoveValid(d, first);
      WithoutInOrder(d.order, first, p.touched);
      var n := d.Remove(first);
      assert Cap(d) == Cap(n) == n;
      assert d.items.Keys - n.items.Keys == {first};
    } else {
      assert d.items.Keys - d.items.Keys == {};
      assert p.pushedOut + {} == p.pushedOut;
    }
  }

  lemma CheckRelated(d: Cache, p: Log, clock: int, k: Tuple, t: int)
    requires Related(d, p, clock) && clock <= t
    ensures Check(d, k, t).1 == Answer(p, k, t)
    ensures Related(Check(d, k, t).0, Noted(p, k, t, Pushed(d, k, t)), t)
  {
    RelatedLater(d, p, clock, t);
    ExpireRelated(d, p, t, t - WINDOW);
    var d1 := Expire(d, t - WINDOW);
    SameAnswer(d1, p, k, t);
    hide Related, Expire, Cap, Repeated, Answer;
    if Repeated(d1, k, t - WINDOW) {
      RepeatedHolds(d1, k, t - WINDOW);
      MoveRelated(d1, p, k, t);
    } else {
      AcceptRelated(d1, p, k, t);
      CapRelated(Accepted(d1, k, t), Log(p.accepted[k := t], p.touched[k := t], p.pushedOut - {k}), t);
    }
  }

  lemma RepeatedHolds(d: Cache, k: Tuple, cutoff: int)
    ensures Repeated(d, k, cutoff) == (k in d.items && d.items[k] > cutoff)
  {
  }

  lemma SameAnswer(d: Cache, p: Log, k: Tuple, t: int)
    requires Related(d, p, t)
    ensures Repeated(d, k, t - WINDOW) == Answer(p, k, t)
  {
  }

  // ------------------------------------------------------------------------ whole runs

  datatype Syn = Syn(key: Tuple, at: int)

  ghost predicate Ordered(syns: seq<Syn>) {
    forall i, j :: 0 <= i < j < |syns| ==> syns[i].at <= syns[j].at
  }

  function Run(syns: seq<Syn>): (d: Cache)
    ensures d.Valid()
  {
    if syns == [] then Empty()
    else
      var before, s := Run(syns[..|syns| - 1]), syns[|syns| - 1];
      CheckValid(before, s.key, s.at);
      Check(before, s.key, s.at).0
  }

  lemma CheckValid(d: Cache, k: Tuple, t: int)
    requires d.Valid()
    ensures Check(d, k, t).0.Valid()
    ensures |Check(d, k, t).0.order| <= if |d.order| < MAX_RECENT then MAX_RECENT else |d.order|
  {
    ExpireValid(d, t - WINDOW);
    var d1 := Expire(d, t - WINDOW);
    if Repeated(d1, k, t - WINDOW) {
      MoveToEndValid(d1, k);
    } else {
      AcceptedValid(d1, k, t);
      CapFits(Accepted(d1, k, t));
    }
  }

  lemma {:induction false} CapFits(d: Cache)
    requires d.Valid()
    ensures Cap(d).Valid() && |Cap(d).order| <= MAX_RECENT && Cap(d).items.Keys <= d.items.Keys
    ensures forall k :: k in Cap(d).items ==> Cap(d).items[k] == d.items[k]
    decreases |d.order|
  {
    if |d.order| > MAX_RECENT {
      RemoveValid(d, d.order[0]);
      CapFits(d.Remove(d.order[0]));
    }
  }

  /** The cap holds whatever the timestamps. */
  lemma {:induction false} CacheFits(syns: seq<Syn>)
    ensures |Run(syns).items| <= 50_000
  {
    SizeIsOrder(Run(syns));
    if syns != [] {
      var before, s := syns[..|syns| - 1], syns[|syns| - 1];
      CacheFits(before);
      SizeIsOrder(Run(before));
      CheckValid(Run(before), s.key, s.at);
    }
  }

  function RunLog(syns: seq<Syn>): Log {
    if syns == [] then NOTHING
    else
      var before, s := syns[..|syns| - 1], syns[|syns| - 1];
      Noted(RunLog(before), s.key, s.at, Pushed(Run(before), s.key, s.at))
  }

  lemma {:induction false} RunRelated(syns: seq<Syn>, clock: int)
    requires Ordered(syns) && forall i :: 0 <= i < |syns| ==> syns[i].at <= clock
    ensures Related(Run(syns), RunLog(syns), clock)
  {
    if syns != [] {
      var before, s := syns[..|syns| - 1], syns[|syns| - 1];
      RunRelated(before, s.at);
      CheckRelated(Run(before), RunLog(before), s.at, s.key, s.at);
      RelatedLater(Run(syns), RunLog(syns), s.at, clock);
    }
  }

  /** For timestamps that do not go back, a SYN is called a repeat exactly when its tuple's last
      accepted SYN is under a minute old and the cap has not pushed the tuple out since. */
  lemma DedupAgrees(syns: seq<Syn>, k: Tuple, t: int)
    requires Ordered(syns + [Syn(k, t)])
    ensures Check(Run(syns), k, t).1 == Answer(RunLog(syns), k, t)
  {
    var all := syns + [Syn(k, t)];
    assert forall i :: 0 <= i < |syns| ==> all[i] == syns[i];
    assert all[|syns|] == Syn(k, t);
    RunRelated(syns, t);
    CheckRelated(Run(syns), RunLog(syns), t, k, t);
  }

  /** The tuples accepted after a time. */
  function Busy(accepted: map<Tuple, int>, since: int): set<Tuple> {
    set k | k in accepted && accepted[k] > since
  }

  /** The cap pushes something out only when more tuples than it allows were accepted within the
      last two minutes, the one arriving included. */
  lemma PushedOnlyWhenBusy(syns: seq<Syn>, k: Tuple, t: int)
    requires Ordered(syns + [Syn(k, t)]) && Pushed(Run(syns), k, t) != {}
    ensures |Busy(RunLog(syns).accepted, t - 120 * 1_000_000) + {k}| > 50_000
  {
    var all := syns + [Syn(k, t)];
    assert forall i :: 0 <= i < |syns| ==> all[i] == syns[i];
    assert all[|syns|] == Syn(k, t);
    RunRelated(syns, t);
    hide Run, RunLog, Ordered;
    HeldIsBusy(Run(syns), RunLog(syns), k, t);
  }

  /** The cap acts only on a cache that is too large with the newcomer. */
  lemma PushedIsOverfull(d: Cache, k: Tuple, t: int)
    requires d.Valid() && Pushed(d, k, t) != {}
    ensures Expire(d, t - WINDOW).Valid() && |Expire(d, t - WINDOW).items.Keys + {k}| > MAX_RECENT
  {
    ExpireValid(d, t - WINDOW);
    var d1 := Expire(d, t - WINDOW);
    AcceptedValid(d1, k, t);
    SizeIsOrder(Accepted(d1, k, t));
    assert Accepted(d1, k, t).items.Keys == d1.items.Keys + {k};
  }

  /** Everything the cache holds when the cap is applied was accepted within two windows. */
  lemma HeldIsBusy(d: Cache, p: Log, k: Tuple, t: int)
    requires Related(d, p, t) && Pushed(d, k, t) != {}
    ensures |Busy(p.accepted, t - 2 * WINDOW) + {k}| > MAX_RECENT
  {
    ExpireRelated(d, p, t, t - WINDOW);
    PushedIsOverfull(d, k, t);
    hide Pushed;
    var d1 := Expire(d, t - WINDOW);
    forall x | x in d1.items ensures x in Busy(p.accepted, t - 2 * WINDOW) {
      LeftIsRecent(d1, p, t, t - WINDOW, x);
    }
    hide Expire, Related, Busy;
    SubsetSize(d1.items.Keys + {k}, Busy(p.accepted, t - 2 * WINDOW) + {k});
  }

  /** The `i`-th SYN is one of the tuple, at the time given, and was let through. */
  ghost predicate AcceptedAt(syns: seq<Syn>, k: Tuple, at: int, i: nat) {
    i < |syns| && syns[i] == Syn(k, at) && !Check(Run(syns[..i]), k, at).1
  }

  /** Whatever the load and the timestamps, a repeat is never made up: its tuple was accepted less
      than a minute before. */
  lemma {:induction false} RepeatsHaveWitness(syns: seq<Syn>, k: Tuple, t: int)
    requires Check(Run(syns), k, t).1
    ensures exists at, i :: t - at < 60 * 1_000_000 && AcceptedAt(syns, k, at, i)
  {
    ExpireKeeps(Run(syns), t - WINDOW);
    EntryIsAccepted(syns, k);
  }

  lemma {:induction false} ExpireKeeps(d: Cache, cutoff: int)
    requires d.Valid()
    ensures forall k :: k in Expire(d, cutoff).items ==> k in d.items && d.items[k] == Expire(d, cutoff).items[k]
    decreases |d.order|
  {
    if d.order != [] && d.items[d.order[0]] <= cutoff {
      RemoveValid(d, d.order[0]);
      ExpireKeeps(d.Remove(d.order[0]), cutoff);
    }
  }

  /** An entry is the SYN just accepted, or was there before. */
  lemma EntryStep(d: Cache, key: Tuple, t: int, k: Tuple)
    requires d.Valid() && k in Check(d, key, t).0.items
    ensures var n := Check(d, key, t);
            || (k == key && !n.1 && n.0.items[k] == t)
            || (k in d.items && n.0.items[k] == d.items[k])
  {
    ExpireValid(d, t - WINDOW);
    ExpireKeeps(d, t - WINDOW);
    var d1 := Expire(d, t - WINDOW);
    if !Repeated(d1, key, t - WINDOW) {
      AcceptedValid(d1, key, t);
      CapFits(Accepted(d1, key, t));
    }
  }

  lemma LaterStillAccepted(before: seq<Syn>, s: Syn, k: Tuple, at: int, i: nat)
    requires AcceptedAt(before, k, at, i)
    ensures AcceptedAt(before + [s], k, at, i)
  {
    hide Check, Run;
    assert (before + [s])[..i] == before[..i];
  }

  lemma LastAccepted(before: seq<Syn>, k: Tuple, at: int)
    requires !Check(Run(before), k, at).1
    ensures AcceptedAt(before + [Syn(k, at)], k, at, |before|)
  {
    hide Check, Run;
    assert (before + [Syn(k, at)])[..|before|] == before;
  }

  lemma RunGrows(before: seq<Syn>, s: Syn)
    ensures Run(before + [s]) == Check(Run(before), s.key, s.at).0
  {
    hide Check;
    assert (before + [s])[..|before|] == before;
  }

  lemma {:induction false} EntryIsAccepted(syns: seq<Syn>, k: Tuple)
    requires k in Run(syns).items
    ensures exists i :: AcceptedAt(syns, k, Run(syns).items[k], i)
  {
    if syns != [] {
      hide Check, Run, AcceptedAt;
      var before, s := syns[..|syns| - 1], syns[|syns| - 1];
      assert syns == before + [s];
      RunGrows(before, s);
      EntryStep(Run(before), s.key, s.at, k);
      var at := Run(syns).items[k];
      if k in Run(before).items && at == Run(before).items[k] {
        EntryIsAccepted(before, k);
        var i :| AcceptedAt(before, k, at, i);
        LaterStillAccepted(before, s, k, at, i);
      } else {
        LastAccepted(before, k, at);
      }
    }
  }

  // ------------------------------------------------------------------------ the object

  class SynFilter {
    var recentSyns: Cache
    ghost var history: seq<Syn>

    ghost predicate Valid()
      reads this
    {
      recentSyns == Run(history)
    }

    constructor ()
      ensures Valid() && history == []
    {
      recentSyns, history := Empty(), [];
    }

    method PopExpired(cutoff: int)
      requires recentSyns.Valid()
      modifies this`recentSyns
      ensures recentSyns == Expire(old(recentSyns), cutoff)
    {
      while recentSyns.order != []
        invariant recentSyns.Valid() && Expire(recentSyns, cutoff) == Expire(old(recentSyns), cutoff)
        decreases |recentSyns.order|
      {
        var oldest := recentSyns.order[0];
        if recentSyns.items[oldest] > cutoff {
          break;
        }
        RemoveValid(recentSyns, oldest);
        recentSyns := recentSyns.Remove(oldest);
      }
    }

    method PopOverCap()
      requires recentSyns.Valid()
      modifies this`recentSyns
      ensures recentSyns == Cap(old(recentSyns))
    {
      while |recentSyns.order| > MAX_RECENT
        invariant recentSyns.Valid() && Cap(recentSyns) == Cap(old(recentSyns))
        decreases |recentSyns.order|
      {
        RemoveValid(recentSyns, recentSyns.order[0]);
        recentSyns := recentSyns.Remove(recentSyns.order[0]);
      }
    }

    method IsRetransmittedSyn(k: Tuple, timestamp: int) returns (repeated: bool)
      requires Valid()
      modifies this
      ensures Valid() && history == old(history) + [Syn(k, timestamp)]
      ensures repeated == Check(Run(old(history)), k, timestamp).1
    {
      hide Expire, Cap;
      assert (history + [Syn(k, timestamp)])[..|history|] == history;
      history := history + [Syn(k, timestamp)];
      var cutoff := timestamp - WINDOW;
      ExpireValid(recentSyns, cutoff);
      PopExpired(cutoff);
      if k in recentSyns.items && recentSyns.items[k] > cutoff {
        recentSyns := recentSyns.MoveToEnd(k);
        return true;
      }
      AcceptedValid(recentSyns, k, timestamp);
      recentSyns := recentSyns.Put(k, timestamp);
      recentSyns := recentSyns.MoveToEnd(k);
      PopOverCap();
      return false;
    }

    /** The TCP part of `_parse_connection`: whether the packet becomes an event. */
    method PassesTcp(k: Tuple, flags: string, timestamp: int) returns (passes: bool)
      requires Valid()
      modifies this
      ensures Valid()
      ensures passes == ('S' in flags && 'A' !in flags && !Check(Run(old(history)), k, timestamp).1)
      ensures history == old(history) + if 'S' in flags && 'A' !in flags then [Syn(k, timestamp)] else []
    {
      if !IsConnectionInitiation(flags) {
        return false;
      }
      var repeated := IsRetransmittedSyn(k, timestamp);
      return !repeated;
    }
  }
}
