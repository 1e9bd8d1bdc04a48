/** SYN deduplication under load: below the cap it is an unbounded map, and the load that counts is
    that of two minutes. */
module SynDedupLoad {
  import opened Basics
  import opened OrderedDict
  import opened SynDedup

  // ------------------------------------------------------------------------ below the cap

  /** The last accepted SYN of every tuple when nothing is ever dropped. */
  function Unbounded(syns: seq<Syn>): map<Tuple, int> {
    if syns == [] then map[]
    else
      var before, s := Unbounded(syns[..|syns| - 1]), syns[|syns| - 1];
      if IsRepeat(before, s.key, s.at) then before else before[s.key := s.at]
  }

  predicate IsRepeat(accepted: map<Tuple, int>, k: Tuple, t: int) {
    k in accepted && t - accepted[k] < 60 * 1_000_000
  }

  /** At no SYN are more tuples than the cap accepted within two minutes, its own included. */
  ghost predicate Roomy(syns: seq<Syn>) {
    forall i :: 0 <= i < |syns| ==> |Busy(Unbounded(syns[..i]), syns[i].at - 120 * 1_000_000) + {syns[i].key}| <= 50_000
  }

  lemma RoomyPrefix(syns: seq<Syn>)
    requires Ordered(syns) && Roomy(syns) && syns != []
    ensures var before, s := syns[..|syns| - 1], syns[|syns| - 1];
            && Ordered(before) && Roomy(before) && before + [s] == syns
            && |Busy(Unbounded(before), s.at - 120 * 1_000_000) + {s.key}| <= 50_000
  {
    hide Busy, Unbounded;
    var before := syns[..|syns| - 1];
    forall i | 0 <= i < |before|
      ensures |Busy(Unbounded(before[..i]), before[i].at - 120 * 1_000_000) + {before[i].key}| <= 50_000
    {
      assert before[..i] == syns[..i];
    }
  }

  lemma {:induction false} NothingPushed(syns: seq<Syn>)
    requires Ordered(syns) && Roomy(syns)
    ensures RunLog(syns).accepted == Unbounded(syns) && RunLog(syns).pushedOut == {}
  {
    hide Run, Pushed, Busy, Noted, IsRepeat, Ordered, Roomy;
    if syns != [] {
      RoomyPrefix(syns);
      var before, s := syns[..|syns| - 1], syns[|syns| - 1];
      NothingPushed(before);
      NotPushedNow(before, s);
      PlainlyNoted(RunLog(before), s.key, s.at);
    }
  }

  lemma NotPushedNow(before: seq<Syn>, s: Syn)
    requires Ordered(before + [s]) && RunLog(before).accepted == Unbounded(before)
    requires |Busy(Unbounded(before), s.at - 120 * 1_000_000) + {s.key}| <= 50_000
    ensures Pushed(Run(before), s.key, s.at) == {}
  {
    hide Run, Pushed, Busy, RunLog, Unbounded;
    assert s == Syn(s.key, s.at);
    if Pushed(Run(before), s.key, s.at) != {} {
      PushedOnlyWhenBusy(before, s.key, s.at);
    }
  }

  lemma PlainlyNoted(p: Log, k: Tuple, t: int)
    requires p.pushedOut == {}
    ensures var n := Noted(p, k, t, {});
            n.pushedOut == {} && n.accepted == if IsRepeat(p.accepted, k, t) then p.accepted else p.accepted[k := t]
  {
  }

  /** While two minutes of accepted SYNs fit the cap, the answer is that of an unbounded map: a
      repeat exactly when the tuple's last accepted SYN is under a minute old. */
  lemma BelowCapAgrees(syns: seq<Syn>, k: Tuple, t: int)
    requires Ordered(syns + [Syn(k, t)]) && Roomy(syns)
    ensures Check(Run(syns), k, t).1 == IsRepeat(Unbounded(syns), k, t)
  {
    var all := syns + [Syn(k, t)];
    assert forall i :: 0 <= i < |syns| ==> all[i] == syns[i];
    NothingPushed(syns);
    DedupAgrees(syns, k, t);
  }

  // -------------------------------------------------------------------- one minute is short

  const A := Tuple("192.0.2.1", 1, "192.0.2.9", 80)
  const B := Tuple("192.0.2.2", 1, "192.0.2.9", 80)

  function Fresh(i: nat): Tuple { Tuple("192.0.2.3", i, "192.0.2.9", 80) }

  /** A repeats just before its minute is over and moves behind B; then `n` new tuples arrive. */
  function Flood(n: nat): seq<Syn> {
    if n == 0 then [Syn(A, 0), Syn(B, 30 * SECOND), Syn(A, 59 * SECOND)]
    else Flood(n - 1) + [Syn(Fresh(n - 1), 61 * SECOND)]
  }

  /** What the cache holds after the flood: A is over a minute old, but B shields it. */
  function Held(n: nat): (d: Cache)
    ensures d.Valid() && |d.order| == n + 2 && d.order[0] == B
    ensures B in d.items && d.items[B] == 30 * SECOND && A in d.items && d.items[A] == 0
    ensures forall k :: k in d.items ==> k == A || k == B || (k.srcIp == "192.0.2.3" && k.srcPort < n)
  {
    if n == 0 then Dict([B, A], map[B := 30 * SECOND, A := 0])
    else PutValid(Held(n - 1), Fresh(n - 1), 61 * SECOND); Held(n - 1).Put(Fresh(n - 1), 61 * SECOND)
  }

  /** A new tuple when the front entry is inside the window. */
  lemma Arrives(d: Cache, k: Tuple, t: int)
    requires d.Valid() && k !in d.items && (d.order != [] ==> d.items[d.order[0]] > t - WINDOW)
    ensures Check(d, k, t) == (Cap(d.Put(k, t)), false)
    ensures Pushed(d, k, t) == d.Put(k, t).items.Keys - Cap(d.Put(k, t)).items.Keys
  {
    AcceptedValid(d, k, t);
    WithoutAbsent(d.order, k);
    assert Accepted(d, k, t) == d.Put(k, t);
  }

  const ONLY_A: Cache := Dict([A], map[A := 0])
  const A_THEN_B: Cache := Dict([A, B], map[A := 0, B := 30 * SECOND])

  lemma FirstComesA()
    ensures Run([]).Valid() && Run([Syn(A, 0)]) == ONLY_A
  {
    var none: Cache := Empty();
    Arrives(none, A, 0);
    assert none.Put(A, 0) == ONLY_A;
    hide Check;
    RunGrows([], Syn(A, 0));
    assert [] + [Syn(A, 0)] == [Syn(A, 0)];
  }

  lemma ThenComesB()
    ensures Run([Syn(A, 0), Syn(B, 30 * SECOND)]) == A_THEN_B
  {
    FirstComesA();
    Arrives(ONLY_A, B, 30 * SECOND);
    assert ONLY_A.Put(B, 30 * SECOND) == A_THEN_B;
    hide Check, Run;
    RunGrows([Syn(A, 0)], Syn(B, 30 * SECOND));
    assert [Syn(A, 0)] + [Syn(B, 30 * SECOND)] == [Syn(A, 0), Syn(B, 30 * SECOND)];
  }

  lemma ThenAMovesBack()
    ensures A_THEN_B.Valid() && Check(A_THEN_B, A, 59 * SECOND) == (Held(0), true)
  {
    assert Expire(A_THEN_B, 59 * SECOND - WINDOW) == A_THEN_B;
    assert Without([A, B], A) == [B] by { assert [A, B][1..] == [B]; assert [B][1..] == []; }
    assert A_THEN_B.MoveToEnd(A) == Held(0);
    hide Expire, Cap, Held;
  }

  lemma FirstThree()
    ensures Run(Flood(0)) == Held(0)
  {
    hide Check, Run, Held;
    ThenComesB();
    ThenAMovesBack();
    RunGrows([Syn(A, 0), Syn(B, 30 * SECOND)], Syn(A, 59 * SECOND));
    assert Flood(0) == [Syn(A, 0), Syn(B, 30 * SECOND)] + [Syn(A, 59 * SECOND)];
  }

  /** One more of the flood, while there is room. */
  lemma FloodGrows(n: nat)
    requires 0 < n <= MAX_RECENT - 2
    ensures Check(Held(n - 1), Fresh(n - 1), 61 * SECOND).0 == Held(n)
  {
    var d, k, t := Held(n - 1), Fresh(n - 1), 61 * SECOND;
    Arrives(d, k, t);
    assert Held(n) == d.Put(k, t);
    hide Check, Held;
    assert Cap(Held(n)) == Held(n);
  }

  lemma {:induction false} Floods(n: nat)
    requires n <= MAX_RECENT - 2
    ensures Run(Flood(n)) == Held(n)
  {
    hide Check, Run, Held;
    if n == 0 {
      FirstThree();
    } else {
      Floods(n - 1);
      FloodGrows(n);
      RunGrows(Flood(n - 1), Syn(Fresh(n - 1), 61 * SECOND));
    }
  }

  lemma {:induction false} FloodIsOrdered(n: nat)
    ensures Ordered(Flood(n) + [Syn(Fresh(n), 61 * SECOND)])
    ensures forall s :: s in Flood(n) ==> s.key == A || s.key == B || (exists i: nat :: i < n && s.key == Fresh(i))
  {
    if n > 0 {
      FloodIsOrdered(n - 1);
      assert Flood(n)[|Flood(n)| - 1].at == 61 * SECOND;
    }
  }

  lemma {:induction false} AcceptedWasSeen(syns: seq<Syn>, k: Tuple)
    requires k in RunLog(syns).accepted
    ensures exists s :: s in syns && s.key == k
  {
    if syns != [] {
      var before, s := syns[..|syns| - 1], syns[|syns| - 1];
      if s.key != k {
        AcceptedWasSeen(before, k);
      } else {
        assert s in syns;
      }
    }
  }

  function Freshes(n: nat): (r: set<Tuple>)
    ensures |r| <= n && forall i: nat :: i < n ==> Fresh(i) in r
  {
    if n == 0 then {} else Freshes(n - 1) + {Fresh(n - 1)}
  }

  lemma FloodAccepted(n: nat)
    requires n <= MAX_RECENT - 2
    ensures var accepted := RunLog(Flood(n)).accepted;
            A in accepted && accepted[A] == 0 && B in accepted && accepted[B] == 30 * SECOND
  {
    var syns := Flood(n);
    var all := syns + [Syn(Fresh(n), 61 * SECOND)];
    FloodIsOrdered(n);
    forall i, j | 0 <= i < j < |syns| ensures syns[i].at <= syns[j].at {
      assert all[i] == syns[i] && all[j] == syns[j];
    }
    forall i | 0 <= i < |syns| ensures syns[i].at <= 61 * SECOND {
      assert all[i] == syns[i] && all[|syns|].at == 61 * SECOND;
    }
    RunRelated(syns, 61 * SECOND);
    Floods(n);
  }

  /** Only B and the new tuples were accepted within the last minute. */
  lemma FloodIsBusy(n: nat)
    requires n <= MAX_RECENT - 2
    ensures |Busy(RunLog(Flood(n)).accepted, SECOND) + {Fresh(n)}| <= n + 2
  {
    FloodIsOrdered(n);
    FloodAccepted(n);
    hide Ordered, RunLog;
    var accepted := RunLog(Flood(n)).accepted;
    forall k | k in Busy(accepted, SECOND) ensures k in {B} + Freshes(n) {
      AcceptedWasSeen(Flood(n), k);
    }
    SubsetSize(Busy(accepted, SECOND) + {Fresh(n)}, {B} + Freshes(n) + {Fresh(n)});
  }

  /** The two minutes in PushedOnlyWhenBusy are needed: a repeat moves its entry back without
      refreshing its time, so a stale entry waits behind a fresh one, and the cap pushes out the
      fresh one although no more tuples than it allows were accepted within the last minute. */
  lemma OneMinuteIsNotEnough()
    ensures var syns, k, t := Flood(49_998), Fresh(49_998), 61 * 1_000_000;
            && Ordered(syns + [Syn(k, t)])
            && |Busy(RunLog(syns).accepted, t - 60 * 1_000_000) + {k}| <= 50_000
            && Pushed(Run(syns), k, t) == {B} && B in RunLog(syns).accepted
                && t - RunLog(syns).accepted[B] < 60 * 1_000_000
  {
    hide Flood, RunLog, Run, Busy, Pushed, Held, Ordered;
    var n := MAX_RECENT - 2;
    FloodIsOrdered(n);
    FloodIsBusy(n);
    Floods(n);
    PushesB(n);
    FloodAccepted(n);
  }

  lemma PushesB(n: nat)
    requires n == MAX_RECENT - 2
    ensures Pushed(Held(n), Fresh(n), 61 * SECOND) == {B}
  {
    var d := Held(n).Put(Fresh(n), 61 * SECOND);
    Arrives(Held(n), Fresh(n), 61 * SECOND);
    PutValid(Held(n), Fresh(n), 61 * SECOND);
    RemoveValid(d, B);
    hide Held;
    assert d.order[0] == B && |d.order| == MAX_RECENT + 1;
    assert Cap(d) == Cap(d.Remove(B)) == d.Remove(B);
    assert d.items.Keys - d.Remove(B).items.Keys == {B};
  }
}
