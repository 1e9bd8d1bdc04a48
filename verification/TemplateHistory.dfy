/** The template cache over whole histories of datagrams: isolation of contexts,
    recency order, bounds and the eviction counter. */
module TemplateHistory {
  import opened Basics
  import opened OrderedDict
  import opened FlowCodec
  import opened FlowWalker
  import opened TemplateCache

  // ------------------------------------------------------------- table lemmas

  lemma RemoveOldest(t: Templates)
    requires t.Valid() && t.order != []
    ensures t.Remove(t.order[0]) == Dict(t.order[1..], t.items - {t.order[0]})
    ensures t.Remove(t.order[0]).Valid()
  {
    RemoveValid(t, t.order[0]);
    WithoutFirst(t.order);
  }

  lemma {:induction false} TrimShape(t: Templates, max: nat)
    requires t.Valid()
    ensures var r := Trim(t, max); var cut := if |t.order| <= max then 0 else |t.order| - max;
            && r.Valid() && r.order == t.order[cut..]
            && forall k :: k in r.items ==> k in t.items && r.items[k] == t.items[k]
    decreases |t.order|
  {
    if |t.order| > max {
      RemoveOldest(t);
      var shorter := Dict(t.order[1..], t.items - {t.order[0]});
      assert Trim(t, max) == Trim(shorter, max);
      TrimShape(shorter, max);
      assert t.order[1..][|t.order| - 1 - max..] == t.order[|t.order| - max..];
    }
  }

  lemma {:induction false} UpdateKeepsValid(d: Templates, order: seq<nat>, items: map<nat, Template>)
    requires d.Valid() && forall k :: k in order ==> k in items
    ensures UpdateFrom(d, order, items).Valid()
    decreases |order|
  {
    if order != [] {
      UpdateKeepsValid(d, order[..|order| - 1], items);
    }
  }

  lemma WalkSetKeepsValid(setId: nat, body: seq<byte>, d: Dialect, max: nat, w: Walk)
    requires w.seen <= max && w.templates.Valid()
    ensures WalkSet(setId, body, d, max, w).0.templates.Valid()
  {
    if setId == d.templateSetId {
      ReadTemplatesValid(body, d.Ipfix(), Empty());
      var news := ReadTemplates(body, d.Ipfix(), Empty());
      UpdateKeepsValid(w.templates, news.order, news.items);
    }
  }

  lemma {:induction false} WalkKeepsValid(rest: seq<byte>, d: Dialect, max: nat, w: Walk)
    requires w.seen <= max && w.templates.Valid()
    ensures WalkSets(rest, d, max, w).templates.Valid()
    decreases |rest|
  {
    if |rest| >= 4 && 4 <= U16(rest[2..]) <= |rest| {
      var setLen := U16(rest[2..]);
      WalkSetKeepsValid(U16(rest), rest[4..setLen], d, max, w);
      var (w', stop) := WalkSet(U16(rest), rest[4..setLen], d, max, w);
      if !stop {
        WalkKeepsValid(rest[setLen..], d, max, w');
      }
    }
  }

  lemma ParseKeepsValid(data: seq<byte>, t: Templates, max: nat)
    requires t.Valid()
    ensures ParseDatagram(data, t, max).0.Valid()
  {
    if |data| >= V9.headerLen {
      WalkKeepsValid(data[V9.headerLen..], V9, max, Walk(t, [], 0));
    }
    if |data| >= IPFIX.headerLen {
      WalkKeepsValid(data[IPFIX.headerLen..], IPFIX, max, Walk(t, [], 0));
    }
  }

  // ------------------------------------------------------------ bounds, always

  /** What one admitted datagram does to the cache, given its context. */
  ghost predicate Stepped(s: Cache, r: Cache, d: Datagram, c: Context, limits: Limits) {
    var parsed := ParseDatagram(d.data, TableOf(s, c), limits.maxRecords).0;
    && (forall x :: x in r.templates.items <==> x == c || (x in s.templates.items && x !in Removed(s, c, limits)))
    && (forall x :: x in r.templates.items && x != c ==> r.templates.items[x] == TableOf(s, x))
    && c in r.templates.items && r.templates.items[c] == Trim(parsed, limits.maxTemplates)
    && r.evictions == s.evictions + |Removed(s, c, limits)| + Trimmed(parsed, limits)
    && r.exporters == Exporters(s, c, limits)
  }

  lemma StepShape(s: Cache, d: Datagram, c: Context, allowed: set<string>, limits: Limits)
    requires Inv(s, limits) && limits.Valid() && ContextOf(d, allowed) == Some(c)
    ensures var r := Step(s, d, allowed, limits).0;
            Stepped(s, r, d, c, limits) && r.templates.order == Touch(s, c, limits).templates.order
  {
    TouchShape(s, c, limits);
    var s1 := Touch(s, c, limits);
    assert c in s1.templates.items && s1.templates.items[c] == TableOf(s, c);
  }

  lemma StepKeepsInv(s: Cache, d: Datagram, allowed: set<string>, limits: Limits)
    requires Inv(s, limits) && limits.Valid()
    ensures Inv(Step(s, d, allowed, limits).0, limits)
  {
    var context := ContextOf(d, allowed);
    if context.Some? {
      var c := context.value;
      var s1, r := Touch(s, c, limits), Step(s, d, allowed, limits).0;
      TouchShape(s, c, limits);
      StepShape(s, d, c, allowed, limits);
      assert TableOf(s, c).Valid();
      ParseKeepsValid(d.data, TableOf(s, c), limits.maxRecords);
      TrimShape(ParseDatagram(d.data, TableOf(s, c), limits.maxRecords).0, limits.maxTemplates);
      SameOrderShape(s1, r, limits);
    }
  }

  lemma SameOrderShape(s: Cache, r: Cache, limits: Limits)
    requires Shape(s, limits)
    requires r.templates.order == s.templates.order && r.exporters == s.exporters
    requires forall c :: c in r.templates.items <==> c in s.templates.items
    ensures Shape(r, limits)
  {
  }

  /** After every history: the exporters listed are exactly those owning a context, and the
      three limits hold. */
  lemma {:induction false} RunInv(h: seq<Datagram>, allowed: set<string>, limits: Limits)
    requires limits.Valid()
    ensures Inv(Run(h, allowed, limits), limits)
    decreases |h|
  {
    if h == [] {
      forall e ensures OfExporter(NO_CACHE.templates.order, e) == [] {}
    } else {
      RunInv(h[..|h| - 1], allowed, limits);
      StepKeepsInv(Run(h[..|h| - 1], allowed, limits), h[|h| - 1], allowed, limits);
    }
  }

  // --------------------------------------------------------------- isolation

  /** The datagrams of one context, in order. */
  function Own(h: seq<Datagram>, c: Context, allowed: set<string>): seq<Datagram>
    decreases |h|
  {
    if h == [] then []
    else
      var own := Own(h[..|h| - 1], c, allowed);
      if ContextOf(h[|h| - 1], allowed) == Some(c) then own + [h[|h| - 1]] else own
  }

  /** The table a collector would hold that only ever saw `own`. */
  function Replay(own: seq<Datagram>, limits: Limits): Templates
    decreases |own|
  {
    if own == [] then Empty()
    else Learn(Replay(own[..|own| - 1], limits), own[|own| - 1].data, limits)
  }

  /** When a cached context was last created: the step since which it has been present. */
  function CreatedAt(h: seq<Datagram>, c: Context, allowed: set<string>, limits: Limits): (i: nat)
    requires limits.Valid() && c in Run(h, allowed, limits).templates.items
    ensures i < |h|
    decreases |h|
  {
    var before := h[..|h| - 1];
    if c in Run(before, allowed, limits).templates.items then CreatedAt(before, c, allowed, limits)
    else |h| - 1
  }

  /** The table of a context still cached after a datagram. */
  lemma StepTable(s: Cache, d: Datagram, c: Context, allowed: set<string>, limits: Limits)
    requires Inv(s, limits) && limits.Valid() && c in Step(s, d, allowed, limits).0.templates.items
    ensures Step(s, d, allowed, limits).0.templates.items[c]
            == if ContextOf(d, allowed) == Some(c) then Learn(TableOf(s, c), d.data, limits) else TableOf(s, c)
    ensures c !in s.templates.items ==> ContextOf(d, allowed) == Some(c)
  {
    var context := ContextOf(d, allowed);
    if context.Some? {
      StepShape(s, d, context.value, allowed, limits);
    }
  }

  lemma ReplaySnoc(own: seq<Datagram>, d: Datagram, limits: Limits)
    ensures Replay(own + [d], limits) == Learn(Replay(own, limits), d.data, limits)
  {
    assert (own + [d])[..|own|] == own;
  }

  lemma OwnSnoc(h: seq<Datagram>, i: nat, c: Context, allowed: set<string>)
    requires i < |h|
    ensures var own := Own(h[..|h| - 1][i..], c, allowed);
            Own(h[i..], c, allowed) == if ContextOf(h[|h| - 1], allowed) == Some(c) then own + [h[|h| - 1]] else own
  {
    var since := h[i..];
    assert since[|since| - 1] == h[|h| - 1] && since[..|since| - 1] == h[..|h| - 1][i..];
  }

  /** Context isolation: whatever other exporters and domains send, and whatever gets
      evicted, a cached context's table is the one got by replaying only its own
      datagrams since it was last created. */
  lemma {:induction false} ContextsAreIsolated(h: seq<Datagram>, c: Context, allowed: set<string>, limits: Limits)
    requires limits.Valid() && c in Run(h, allowed, limits).templates.items
    ensures Run(h, allowed, limits).templates.items[c]
            == Replay(Own(h[CreatedAt(h, c, allowed, limits)..], c, allowed), limits)
    decreases |h|
  {
    var before, d := h[..|h| - 1], h[|h| - 1];
    var s, i := Run(before, allowed, limits), CreatedAt(h, c, allowed, limits);
    RunInv(before, allowed, limits);
    StepTable(s, d, c, allowed, limits);
    OwnSnoc(h, i, c, allowed);
    var own := Own(before[i..], c, allowed);
    if c in s.templates.items {
      ContextsAreIsolated(before, c, allowed, limits);
    } else {
      assert before[i..] == [];
    }
    ReplaySnoc(own, d, limits);
  }

  /** So the flows a datagram yields depend only on its own context's datagrams since that
      context was last created. */
  lemma FlowsAreIsolated(h: seq<Datagram>, d: Datagram, c: Context, allowed: set<string>, limits: Limits)
    requires limits.Valid() && ContextOf(d, allowed) == Some(c)
    ensures var own := if c in Run(h, allowed, limits).templates.items
                       then Own(h[CreatedAt(h, c, allowed, limits)..], c, allowed) else [];
            Step(Run(h, allowed, limits), d, allowed, limits).1
            == ParseDatagram(d.data, Replay(own, limits), limits.maxRecords).1
  {
    var s := Run(h, allowed, limits);
    RunInv(h, allowed, limits);
    TouchShape(s, c, limits);
    assert TableOf(Touch(s, c, limits), c) == TableOf(s, c);
    if c in s.templates.items {
      ContextsAreIsolated(h, c, allowed, limits);
    }
  }

  // ------------------------------------------------------------------ recency

  /** Index of the last datagram of a context, -1 if it never sent one. */
  function LastUse(h: seq<Datagram>, c: Context, allowed: set<string>): (i: int)
    ensures -1 <= i < |h|
    decreases |h|
  {
    if h == [] then -1
    else if ContextOf(h[|h| - 1], allowed) == Some(c) then |h| - 1
    else LastUse(h[..|h| - 1], c, allowed)
  }

  /** Index of the last datagram of an exporter that named a context. */
  function LastHeard(h: seq<Datagram>, e: string, allowed: set<string>): (i: int)
    ensures -1 <= i < |h|
    decreases |h|
  {
    if h == [] then -1
    else
      var c := ContextOf(h[|h| - 1], allowed);
      if c.Some? && c.value.exporter == e then |h| - 1 else LastHeard(h[..|h| - 1], e, allowed)
  }

  lemma {:induction false} DropAllSorted(s: Cache, stale: seq<Context>, f: Context -> int)
    requires SortedBy(s.templates.order, f)
    ensures SortedBy(DropAll(s, stale).templates.order, f)
    decreases |stale|
  {
    if stale != [] {
      SortedWithout(s.templates.order, f, stale[0]);
      DropAllSorted(s.(templates := s.templates.Remove(stale[0]), evictions := s.evictions + 1), stale[1..], f);
    }
  }

  lemma {:induction false} EvictExportersSorted(s: Cache, max: nat, f: Context -> int)
    requires max >= 1 && SortedBy(s.templates.order, f)
    ensures SortedBy(EvictExporters(s, max).templates.order, f)
    decreases |s.exporters|
  {
    if |s.exporters| >= max {
      var stale := OfExporter(s.templates.order, s.exporters[0]);
      DropAllSorted(s, stale, f);
      var dropped := DropAll(s, stale);
      EvictExportersSorted(Cache(dropped.templates, s.exporters[1..], dropped.evictions), max, f);
    }
  }

  lemma {:induction false} EvictDomainsSorted(s: Cache, keys: seq<Context>, max: nat, f: Context -> int)
    requires max >= 1 && SortedBy(s.templates.order, f)
    ensures SortedBy(EvictDomains(s, keys, max).templates.order, f)
    decreases |keys|
  {
    if |keys| >= max {
      DropAllSorted(s, [keys[0]], f);
      EvictDomainsSorted(DropAll(s, [keys[0]]), keys[1..], max, f);
    }
  }

  lemma TouchSorted(s: Cache, c: Context, limits: Limits, f: Context -> int)
    requires Shape(s, limits) && limits.Valid() && SortedBy(s.templates.order, f)
    ensures var order := Touch(s, c, limits).templates.order;
            order != [] && order[|order| - 1] == c && SortedBy(order[..|order| - 1], f)
  {
    TouchShape(s, c, limits);
    var order := Touch(s, c, limits).templates.order;
    if c in s.templates.items {
      SortedWithout(s.templates.order, f, c);
      assert order[..|order| - 1] == Without(s.templates.order, c);
    } else {
      var s1 := if c.exporter in s.exporters then s.(exporters := Without(s.exporters, c.exporter) + [c.exporter])
                else var e := EvictExporters(s, limits.maxExporters); e.(exporters := e.exporters + [c.exporter]);
      EvictExportersSorted(s, limits.maxExporters, f);
      EvictDomainsSorted(s1, OfExporter(s1.templates.order, c.exporter), limits.maxDomains, f);
      var s2 := EvictDomains(s1, OfExporter(s1.templates.order, c.exporter), limits.maxDomains);
      assert Touch(s, c, limits).templates == s2.templates.Put(c, Empty());
      if c !in s2.templates.items {
        assert order[..|order| - 1] == s2.templates.order;
      } else {
        assert order == s2.templates.order;
        assert SortedBy(order[..|order| - 1], f);
      }
    }
  }

  lemma LastOfDistinct<T(!new)>(s: seq<T>, c: T)
    requires Distinct(s) && s != [] && s[|s| - 1] == c
    ensures s == s[..|s| - 1] + [c] && c !in s[..|s| - 1]
  {
  }

  lemma ContextRecencyStep(before: seq<Datagram>, d: Datagram, c: Context, s: Cache, allowed: set<string>,
      limits: Limits)
    requires Inv(s, limits) && limits.Valid() && ContextOf(d, allowed) == Some(c)
    requires SortedBy(s.templates.order, x => LastUse(before, x, allowed))
    ensures SortedBy(Step(s, d, allowed, limits).0.templates.order, x => LastUse(before + [d], x, allowed))
  {
    var f, g := (x: Context) => LastUse(before, x, allowed), (x: Context) => LastUse(before + [d], x, allowed);
    assert (before + [d])[..|before|] == before;
    StepShape(s, d, c, allowed, limits);
    TouchSorted(s, c, limits, f);
    TouchShape(s, c, limits);
    LastOfDistinct(Touch(s, c, limits).templates.order, c);
    var order := Touch(s, c, limits).templates.order;
    SortedAppend(order[..|order| - 1], c, f, g, |before|);
  }

  lemma ExporterRecencyStep(before: seq<Datagram>, d: Datagram, c: Context, s: Cache, allowed: set<string>,
      limits: Limits)
    requires Inv(s, limits) && limits.Valid() && ContextOf(d, allowed) == Some(c)
    requires SortedBy(s.exporters, e => LastHeard(before, e, allowed))
    ensures SortedBy(Step(s, d, allowed, limits).0.exporters, e => LastHeard(before + [d], e, allowed))
  {
    var f, g := (e: string) => LastHeard(before, e, allowed), (e: string) => LastHeard(before + [d], e, allowed);
    assert (before + [d])[..|before|] == before;
    StepShape(s, d, c, allowed, limits);
    ExportersSorted(s, c, limits, f);
    var r := Exporters(s, c, limits);
    assert r == r[..|r| - 1] + [c.exporter];
    SortedAppend(r[..|r| - 1], c.exporter, f, g, |before|);
  }

  /** Both lists are in order of last use. */
  lemma {:induction false} RecencyOrder(h: seq<Datagram>, allowed: set<string>, limits: Limits)
    requires limits.Valid()
    ensures SortedBy(Run(h, allowed, limits).templates.order, c => LastUse(h, c, allowed))
    ensures SortedBy(Run(h, allowed, limits).exporters, e => LastHeard(h, e, allowed))
    decreases |h|
  {
    if h != [] {
      var before, d := h[..|h| - 1], h[|h| - 1];
      assert before + [d] == h;
      RecencyOrder(before, allowed, limits);
      RunInv(before, allowed, limits);
      var s, context := Run(before, allowed, limits), ContextOf(d, allowed);
      if context.Some? {
        ContextRecencyStep(before, d, context.value, s, allowed, limits);
        ExporterRecencyStep(before, d, context.value, s, allowed, limits);
      }
    }
  }

  lemma ExportersSorted(s: Cache, c: Context, limits: Limits, f: string -> int)
    requires SortedBy(s.exporters, f) && Distinct(s.exporters)
    ensures var r := Exporters(s, c, limits);
            r != [] && r[|r| - 1] == c.exporter && SortedBy(r[..|r| - 1], f) && c.exporter !in r[..|r| - 1]
  {
    var r := Exporters(s, c, limits);
    if c.exporter in s.exporters {
      SortedWithout(s.exporters, f, c.exporter);
      assert r[..|r| - 1] == Without(s.exporters, c.exporter);
    } else if |s.exporters| < limits.maxExporters || s.exporters == [] {
      assert r[..|r| - 1] == s.exporters;
    } else {
      assert r[..|r| - 1] == s.exporters[1..];
    }
  }

  lemma GoneExporter(exporters: seq<string>, s: Cache, c: Context, e: string, limits: Limits)
    requires s.exporters == exporters && e in exporters && e !in Exporters(s, c, limits)
    ensures exporters[0] == e
  {
    assert exporters == [exporters[0]] + exporters[1..];
  }

  /** An evicted exporter was the least recently heard of all. */
  lemma EvictedExporterIsOldest(h: seq<Datagram>, d: Datagram, e: string, other: string, allowed: set<string>,
      limits: Limits)
    requires limits.Valid()
    requires var s := Run(h, allowed, limits);
             e in s.exporters && e !in Step(s, d, allowed, limits).0.exporters && other in s.exporters && other != e
    ensures LastHeard(h, e, allowed) < LastHeard(h, other, allowed)
  {
    var s := Run(h, allowed, limits);
    RunInv(h, allowed, limits);
    RecencyOrder(h, allowed, limits);
    var c := ContextOf(d, allowed).value;
    StepShape(s, d, c, allowed, limits);
    GoneExporter(s.exporters, s, c, e, limits);
    var i :| 0 <= i < |s.exporters| && s.exporters[i] == other;
  }

  /** Of a listed exporter, only the oldest context can be removed, and only by its own datagram. */
  lemma RemovedDomain(s: Cache, x: Context, c: Context, limits: Limits)
    requires Shape(s, limits) && c in Removed(s, x, limits) && c.exporter in Exporters(s, x, limits)
    ensures x.exporter == c.exporter
    ensures OfExporter(s.templates.order, c.exporter) != [] && OfExporter(s.templates.order, c.exporter)[0] == c
  {
    if s.exporters != [] {
      assert s.exporters == [s.exporters[0]] + s.exporters[1..];
    }
  }

  /** A context evicted from a listed exporter was that exporter's least recently used. */
  lemma EvictedDomainIsOldest(h: seq<Datagram>, d: Datagram, c: Context, other: Context, allowed: set<string>,
      limits: Limits)
    requires limits.Valid()
    requires var s := Run(h, allowed, limits); var r := Step(s, d, allowed, limits).0;
             && c in s.templates.items && c !in r.templates.items && c.exporter in r.exporters
             && other in s.templates.items && other != c && other.exporter == c.exporter
    ensures ContextOf(d, allowed).Some? && ContextOf(d, allowed).value.exporter == c.exporter
    ensures LastUse(h, c, allowed) < LastUse(h, other, allowed)
  {
    var s := Run(h, allowed, limits);
    RunInv(h, allowed, limits);
    var x := ContextOf(d, allowed).value;
    StepShape(s, d, x, allowed, limits);
    hide Step;
    RemovedDomain(s, x, c, limits);
    hide Removed, Exporters;
    RecencyOrder(h, allowed, limits);
    OldestOwn(s.templates.order, c, other, y => LastUse(h, y, allowed));
  }

  lemma OldestOwn(order: seq<Context>, c: Context, other: Context, f: Context -> int)
    requires SortedBy(order, f) && other in order && other != c && other.exporter == c.exporter
    requires OfExporter(order, c.exporter) != [] && OfExporter(order, c.exporter)[0] == c
    ensures f(c) < f(other)
  {
    OfExporterSorted(order, c.exporter, f);
    var own := OfExporter(order, c.exporter);
    assert other in own;
    var i :| 0 <= i < |own| && own[i] == other;
  }

  lemma SortedPrepend(x: Context, rest: seq<Context>, f: Context -> int)
    requires SortedBy(rest, f) && forall y :: y in rest ==> f(x) < f(y)
    ensures SortedBy([x] + rest, f)
  {
    assert forall i :: 0 <= i < |rest| ==> rest[i] in rest;
  }

  lemma {:induction false} OfExporterSorted(order: seq<Context>, e: string, f: Context -> int)
    requires SortedBy(order, f)
    ensures SortedBy(OfExporter(order, e), f)
  {
    if order != [] {
      OfExporterSorted(order[1..], e, f);
      if order[0].exporter == e {
        forall y | y in OfExporter(order[1..], e) ensures f(order[0]) < f(y) {
          assert y in order[1..];
        }
        SortedPrepend(order[0], OfExporter(order[1..], e), f);
      }
    }
  }

  // ----------------------------------------------------------------- counting

  /** Contexts that disappear in a step, and templates trimmed from the one it touches. */
  function Losses(s: Cache, d: Datagram, allowed: set<string>, limits: Limits): int
    requires limits.Valid()
  {
    match ContextOf(d, allowed)
    case None => 0
    case Some(c) =>
      var r := Step(s, d, allowed, limits).0;
      |s.templates.items.Keys - r.templates.items.Keys|
      + |ParseDatagram(d.data, TableOf(s, c), limits.maxRecords).0.order| - |TableOf(r, c).order|
  }

  function TotalLosses(h: seq<Datagram>, allowed: set<string>, limits: Limits): int
    requires limits.Valid()
    decreases |h|
  {
    if h == [] then 0
    else TotalLosses(h[..|h| - 1], allowed, limits)
         + Losses(Run(h[..|h| - 1], allowed, limits), h[|h| - 1], allowed, limits)
  }

  /** The counter: over any history, evictions are the contexts lost plus the templates trimmed. */
  lemma {:induction false} EvictionsCountLosses(h: seq<Datagram>, allowed: set<string>, limits: Limits)
    requires limits.Valid()
    ensures Run(h, allowed, limits).evictions == TotalLosses(h, allowed, limits)
    decreases |h|
  {
    if h != [] {
      var before, d := h[..|h| - 1], h[|h| - 1];
      var s := Run(before, allowed, limits);
      EvictionsCountLosses(before, allowed, limits);
      RunInv(before, allowed, limits);
      hide Step, Losses;
      StepCountsLosses(s, d, allowed, limits);
    }
  }

  lemma StepCountsLosses(s: Cache, d: Datagram, allowed: set<string>, limits: Limits)
    requires Inv(s, limits) && limits.Valid()
    ensures Step(s, d, allowed, limits).0.evictions == s.evictions + Losses(s, d, allowed, limits)
  {
    hide ParseDatagram, Trim, Touch, OfExporter;
    var context := ContextOf(d, allowed);
    if context.Some? {
      var c := context.value;
      var r := Step(s, d, allowed, limits).0;
      StepShape(s, d, c, allowed, limits);
      RemovedDistinct(s, c, limits);
      DistinctSize(Removed(s, c, limits), s.templates.items.Keys - r.templates.items.Keys);
      ParseKeepsValid(d.data, TableOf(s, c), limits.maxRecords);
      TrimShape(ParseDatagram(d.data, TableOf(s, c), limits.maxRecords).0, limits.maxTemplates);
    }
  }

  lemma RemovedDistinct(s: Cache, c: Context, limits: Limits)
    requires Shape(s, limits)
    ensures Distinct(Removed(s, c, limits)) && c !in Removed(s, c, limits)
    ensures forall x :: x in Removed(s, c, limits) ==> x in s.templates.items
  {
    if c !in s.templates.items && s.exporters != [] {
      OfExporterDistinct(s.templates.order, s.exporters[0]);
    }
  }
}
