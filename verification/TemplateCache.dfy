/** The collector's two-level LRU template cache (capture/flow_ingest.py:554-644) as a
    value: contexts in recency order, each with its template table, and exporters in
    recency order.  `Step` is one datagram, `Run` a whole history. */
module TemplateCache {
  import opened Basics
  import opened OrderedDict
  import opened FlowCodec
  import opened FlowWalker

  datatype Context = Context(exporter: string, domain: nat)

  datatype Limits = Limits(maxExporters: nat, maxDomains: nat, maxTemplates: nat, maxRecords: nat) {
    /** The constructor clamps every limit to at least 1. */
    ghost predicate Valid() {
      maxExporters >= 1 && maxDomains >= 1 && maxTemplates >= 1 && maxRecords >= 1
    }
  }

  datatype Datagram = Datagram(data: seq<byte>, exporter: string)

  datatype Cache = Cache(templates: Dict<Context, Templates>, exporters: seq<string>, evictions: nat)

  const NO_CACHE := Cache(Empty(), [], 0)

  /** The (exporter, domain) pair a datagram belongs to, if it is long enough to say. */
  function TemplateContext(data: seq<byte>, exporter: string): Option<Context> {
    if |data| < 2 then None
    else if U16(data) == 5 then Some(Context(exporter, 0))
    else if U16(data) == 9 && |data| >= 20 then Some(Context(exporter, U32(data[16..])))
    else if U16(data) == 10 && |data| >= 16 then Some(Context(exporter, U32(data[12..])))
    else None
  }

  /** The context of a datagram that is let in. */
  function ContextOf(d: Datagram, allowed: set<string>): Option<Context> {
    if d.exporter in allowed then TemplateContext(d.data, d.exporter) else None
  }

  // ------------------------------------------------------------------ one step

  /** The contexts of one exporter, oldest first. */
  function OfExporter(order: seq<Context>, exporter: string): (r: seq<Context>)
    ensures forall c :: c in r <==> c in order && c.exporter == exporter
  {
    if order == [] then []
    else (if order[0].exporter == exporter then [order[0]] else []) + OfExporter(order[1..], exporter)
  }

  /** Deletes the listed contexts and counts each as an eviction. */
  function DropAll(s: Cache, stale: seq<Context>): Cache
    decreases |stale|
  {
    if stale == [] then s
    else DropAll(s.(templates := s.templates.Remove(stale[0]), evictions := s.evictions + 1), stale[1..])
  }

  /** Makes room for one more exporter. */
  function EvictExporters(s: Cache, max: nat): Cache
    requires max >= 1
    decreases |s.exporters|
  {
    if |s.exporters| < max then s
    else
      var stale := s.exporters[0];
      var s' := DropAll(s, OfExporter(s.templates.order, stale));
      EvictExporters(Cache(s'.templates, s.exporters[1..], s'.evictions), max)
  }

  /** Makes room for one more context of `exporter`, whose contexts are `keys`. */
  function EvictDomains(s: Cache, keys: seq<Context>, max: nat): Cache
    requires max >= 1
    decreases |keys|
  {
    if |keys| < max then s
    else EvictDomains(DropAll(s, [keys[0]]), keys[1..], max)
  }

  /** Looks a context up, creating it if need be; either way it becomes the most recent. */
  function Touch(s: Cache, c: Context, limits: Limits): Cache
    requires limits.Valid()
  {
    if c in s.templates.items then
      s.(templates := s.templates.MoveToEnd(c), exporters := Without(s.exporters, c.exporter) + [c.exporter])
    else
      var s1 := if c.exporter in s.exporters then s.(exporters := Without(s.exporters, c.exporter) + [c.exporter])
                else var e := EvictExporters(s, limits.maxExporters); e.(exporters := e.exporters + [c.exporter]);
      var s2 := EvictDomains(s1, OfExporter(s1.templates.order, c.exporter), limits.maxDomains);
      s2.(templates := s2.templates.Put(c, Empty()))
  }

  /** Drops the oldest templates over the limit. */
  function Trim(t: Templates, max: nat): Templates
    decreases |t.order|
  {
    if |t.order| <= max || t.order == [] then t
    else
      assert |Without(t.order[1..], t.order[0])| <= |t.order[1..]|;
      Trim(t.Remove(t.order[0]), max)
  }

  /** The table of one context after one of its datagrams. */
  function Learn(t: Templates, data: seq<byte>, limits: Limits): Templates {
    Trim(ParseDatagram(data, t, limits.maxRecords).0, limits.maxTemplates)
  }

  /** One datagram: the new cache and the flows it yields. */
  function Step(s: Cache, d: Datagram, allowed: set<string>, limits: Limits): (Cache, seq<FlowRecord>)
    requires limits.Valid()
  {
    match ContextOf(d, allowed)
    case None => (s, [])
    case Some(c) =>
      var s1 := Touch(s, c, limits);
      var (parsed, flows) := ParseDatagram(d.data, TableOf(s1, c), limits.maxRecords);
      var kept := Trim(parsed, limits.maxTemplates);
      (s1.(templates := s1.templates.Put(c, kept), evictions := s1.evictions + Trimmed(parsed, limits)), flows)
  }

  function Trimmed(parsed: Templates, limits: Limits): nat {
    if |parsed.order| <= limits.maxTemplates then 0 else |parsed.order| - limits.maxTemplates
  }

  /** The table of a context; a context not cached starts from nothing. */
  function TableOf(s: Cache, c: Context): Templates {
    if c in s.templates.items then s.templates.items[c] else Empty()
  }

  function Run(h: seq<Datagram>, allowed: set<string>, limits: Limits): Cache
    requires limits.Valid()
    decreases |h|
  {
    if h == [] then NO_CACHE
    else Step(Run(h[..|h| - 1], allowed, limits), h[|h| - 1], allowed, limits).0
  }

  // --------------------------------------------------------- recency and dropping

  lemma {:induction false} OfExporterWithout(order: seq<Context>, e: string, k: Context)
    ensures OfExporter(Without(order, k), e) == Without(OfExporter(order, e), k)
  {
    if order != [] {
      OfExporterWithout(order[1..], e, k);
      var head := if order[0].exporter == e then [order[0]] else [];
      WithoutSplit(head, OfExporter(order[1..], e), k);
      var rest := Without(order[1..], k);
      if order[0] != k {
        assert ([order[0]] + rest)[1..] == rest;
      }
    }
  }

  lemma {:induction false} OfExporterAppend(order: seq<Context>, c: Context, e: string)
    ensures OfExporter(order + [c], e) == OfExporter(order, e) + (if c.exporter == e then [c] else [])
  {
    if order == [] {
      assert order + [c] == [c] && [c][1..] == [];
    } else {
      assert (order + [c])[1..] == order[1..] + [c];
      OfExporterAppend(order[1..], c, e);
    }
  }

  lemma {:induction false} OfExporterDistinct(order: seq<Context>, e: string)
    requires Distinct(order)
    ensures Distinct(OfExporter(order, e))
  {
    if order != [] {
      OfExporterDistinct(order[1..], e);
    }
  }

  /** `r` is `s` without the contexts in `stale`, each counted once. */
  ghost predicate Dropped(s: Cache, r: Cache, stale: seq<Context>) {
    && r.templates.Valid() && r.exporters == s.exporters
    && r.evictions == s.evictions + |stale|
    && (forall c :: c in r.templates.items <==> c in s.templates.items && c !in stale)
    && (forall c :: c in r.templates.items ==> r.templates.items[c] == s.templates.items[c])
  }

  lemma {:induction false} DropAllShape(s: Cache, stale: seq<Context>)
    requires s.templates.Valid() && Distinct(stale) && forall c :: c in stale ==> c in s.templates.items
    ensures Dropped(s, DropAll(s, stale), stale)
    ensures forall e :: (forall c :: c in stale ==> c.exporter != e) ==>
              OfExporter(DropAll(s, stale).templates.order, e) == OfExporter(s.templates.order, e)
    decreases |stale|
  {
    if stale != [] {
      var k := stale[0];
      RemoveValid(s.templates, k);
      var s' := s.(templates := s.templates.Remove(k), evictions := s.evictions + 1);
      assert stale == [k] + stale[1..] && k !in stale[1..];
      DropAllShape(s', stale[1..]);
      forall e | forall c :: c in stale ==> c.exporter != e
        ensures OfExporter(s'.templates.order, e) == OfExporter(s.templates.order, e)
      {
        OfExporterWithout(s.templates.order, e, k);
        WithoutAbsent(OfExporter(s.templates.order, e), k);
      }
    }
  }

  // ------------------------------------------------------------------ invariant

  /** The cache bounds, and the exporter list is exactly the exporters owning a context. */
  ghost predicate Inv(s: Cache, limits: Limits) {
    && Shape(s, limits)
    && (forall c :: c in s.templates.items ==>
          s.templates.items[c].Valid() && |s.templates.items[c].order| <= limits.maxTemplates)
  }

  ghost predicate Shape(s: Cache, limits: Limits) {
    && s.templates.Valid() && Distinct(s.exporters)
    && (forall c :: c in s.templates.items ==> c.exporter in s.exporters)
    && (forall e :: e in s.exporters ==> OfExporter(s.templates.order, e) != [])
    && |s.exporters| <= limits.maxExporters
    && (forall e :: |OfExporter(s.templates.order, e)| <= limits.maxDomains)
  }

  /** Which contexts a lookup removes: all of the oldest exporter's when a new exporter
      finds the list full, or else the exporter's own oldest when it has its share. */
  function Removed(s: Cache, c: Context, limits: Limits): seq<Context> {
    if c in s.templates.items then []
    else if c.exporter !in s.exporters then
      if |s.exporters| < limits.maxExporters || s.exporters == [] then []
      else OfExporter(s.templates.order, s.exporters[0])
    else
      var own := OfExporter(s.templates.order, c.exporter);
      if |own| < limits.maxDomains || own == [] then [] else [own[0]]
  }

  /** The exporter list after a lookup. */
  function Exporters(s: Cache, c: Context, limits: Limits): seq<string> {
    if c.exporter in s.exporters then Without(s.exporters, c.exporter) + [c.exporter]
    else
      (if |s.exporters| < limits.maxExporters || s.exporters == [] then s.exporters else s.exporters[1..])
      + [c.exporter]
  }

  /** The whole effect of a lookup. */
  ghost predicate Touched(s: Cache, r: Cache, c: Context, limits: Limits) {
    && r.exporters == Exporters(s, c, limits)
    && r.evictions == s.evictions + |Removed(s, c, limits)|
    && (forall x :: x in r.templates.items <==> x == c || (x in s.templates.items && x !in Removed(s, c, limits)))
    && (forall x :: x in r.templates.items ==> r.templates.items[x] == TableOf(s, x))
    && r.templates.order != [] && r.templates.order[|r.templates.order| - 1] == c
  }

  lemma MoveKeepsCount(order: seq<Context>, c: Context, e: string)
    requires Distinct(order) && c in order
    ensures |OfExporter(Without(order, c) + [c], e)| == |OfExporter(order, e)|
  {
    OfExporterWithout(order, e, c);
    OfExporterAppend(Without(order, c), c, e);
    OfExporterDistinct(order, e);
    WithoutKeepsDistinct(OfExporter(order, e), c);
    if c.exporter != e {
      WithoutAbsent(OfExporter(order, e), c);
    }
  }

  lemma MoveKeepsExporters(exporters: seq<string>, e: string)
    requires Distinct(exporters) && e in exporters
    ensures var r := Without(exporters, e) + [e];
            Distinct(r) && |r| == |exporters| && forall x :: x in r <==> x in exporters
  {
    WithoutKeepsDistinct(exporters, e);
  }

  lemma TouchKnownShape(s: Cache, c: Context, limits: Limits)
    requires Shape(s, limits) && limits.Valid() && c in s.templates.items
    ensures Shape(Touch(s, c, limits), limits)
  {
    var order := s.templates.order;
    MoveToEndValid(s.templates, c);
    MoveKeepsExporters(s.exporters, c.exporter);
    forall e ensures |OfExporter(Without(order, c) + [c], e)| == |OfExporter(order, e)| {
      MoveKeepsCount(order, c, e);
    }
    var r := Touch(s, c, limits);
    assert r.templates.order == Without(order, c) + [c];
    forall e | e in r.exporters ensures OfExporter(r.templates.order, e) != [] {
      assert |OfExporter(r.templates.order, e)| == |OfExporter(order, e)|;
    }
  }

  lemma TouchKnown(s: Cache, c: Context, limits: Limits)
    requires Shape(s, limits) && limits.Valid() && c in s.templates.items
    ensures Touched(s, Touch(s, c, limits), c, limits)
  {
    var r := Touch(s, c, limits);
    assert r.templates.order[..|r.templates.order| - 1] == Without(s.templates.order, c);
  }

  /** Appending the new context to a cache with room for it. */
  lemma Admit(s: Cache, r: Cache, c: Context, limits: Limits)
    requires s.templates.Valid() && Distinct(s.exporters) && |s.exporters| <= limits.maxExporters
    requires c !in s.templates.items && c.exporter in s.exporters
    requires forall x :: x in s.templates.items ==> x.exporter in s.exporters
    requires forall e :: e in s.exporters && e != c.exporter ==> OfExporter(s.templates.order, e) != []
    requires forall e :: |OfExporter(s.templates.order, e)| + (if e == c.exporter then 1 else 0) <= limits.maxDomains
    requires r == s.(templates := s.templates.Put(c, Empty()))
    ensures Shape(r, limits)
  {
    hide OfExporter;
    PutValid(s.templates, c, Empty());
    forall e
      ensures OfExporter(r.templates.order, e) == OfExporter(s.templates.order, e)
          + (if c.exporter == e then [c] else [])
    {
      OfExporterAppend(s.templates.order, c, e);
    }
  }

  lemma NoneOwned(order: seq<Context>, e: string)
    requires forall c :: c in order ==> c.exporter != e
    ensures OfExporter(order, e) == []
  {
  }

  /** Evicting exporters from a full list drops the oldest one with all its contexts. */
  lemma EvictExportersShape(s: Cache, limits: Limits)
    requires Shape(s, limits) && limits.Valid() && |s.exporters| >= limits.maxExporters
    ensures var stale := OfExporter(s.templates.order, s.exporters[0]);
            var r := EvictExporters(s, limits.maxExporters);
            && r.exporters == s.exporters[1..]
            && Dropped(s, r.(exporters := s.exporters), stale)
            && OldestGone(s, r)
  {
    var oldest := s.exporters[0];
    var stale := OfExporter(s.templates.order, oldest);
    OfExporterDistinct(s.templates.order, oldest);
    DropAllShape(s, stale);
    var dropped := DropAll(s, stale);
    assert EvictExporters(s, limits.maxExporters) == Cache(dropped.templates, s.exporters[1..], dropped.evictions);
    NoneOwned(dropped.templates.order, oldest);
    forall e | e != oldest ensures OfExporter(dropped.templates.order, e) == OfExporter(s.templates.order, e) {
      assert forall c :: c in stale ==> c.exporter != e;
    }
  }

  /** A cache with room for context `c`, its exporter not yet listed. */
  ghost predicate HasRoom(s: Cache, room: Cache, c: Context, limits: Limits) {
    && room.templates.Valid()
    && room.exporters + [c.exporter] == Exporters(s, c, limits)
    && room.evictions == s.evictions + |Removed(s, c, limits)|
    && (forall x :: x in room.templates.items <==> x in s.templates.items && x !in Removed(s, c, limits))
    && (forall x :: x in room.templates.items ==> room.templates.items[x] == s.templates.items[x])
  }

  lemma MakeRoom(s: Cache, c: Context, limits: Limits)
    requires Shape(s, limits) && limits.Valid()
    requires c !in s.templates.items && c.exporter !in s.exporters
    ensures HasRoom(s, EvictExporters(s, limits.maxExporters), c, limits)
  {
    if |s.exporters| >= limits.maxExporters {
      EvictExportersShape(s, limits);
    }
  }

  lemma RoomOwners(s: Cache, c: Context, limits: Limits, room: Cache)
    requires Shape(s, limits) && limits.Valid()
    requires c !in s.templates.items && c.exporter !in s.exporters
    requires room == EvictExporters(s, limits.maxExporters)
    ensures |room.exporters| < limits.maxExporters && Distinct(room.exporters) && c.exporter !in room.exporters
    ensures forall x :: x in room.templates.items ==> x.exporter in room.exporters
  {
    hide OfExporter, DropAll, Without, OldestGone;
    if |s.exporters| >= limits.maxExporters {
      EvictExportersShape(s, limits);
      hide EvictExporters;
      TailOf(s.exporters);
      RestOwners(s, room, s.exporters[0], s.exporters[1..]);
    }
  }

  lemma TailOf(exporters: seq<string>)
    requires Distinct(exporters) && exporters != []
    ensures exporters == [exporters[0]] + exporters[1..] && Distinct(exporters[1..])
    ensures forall e :: e in exporters[1..] ==> e in exporters
  {
  }

  lemma RestOwners(s: Cache, room: Cache, oldest: string, rest: seq<string>)
    requires s.exporters == [oldest] + rest && forall x :: x in s.templates.items ==> x.exporter in s.exporters
    requires forall x :: x in s.templates.items <==> x in s.templates.order
    requires forall x ::
               x in room.templates.items
               ==> x in s.templates.items && x !in OfExporter(s.templates.order, oldest)
    ensures forall x :: x in room.templates.items ==> x.exporter in rest
  {
  }

  /** What is left of each exporter's contexts once the oldest exporter is gone. */
  ghost predicate OldestGone(s: Cache, room: Cache) {
    && s.exporters != [] && room.exporters == s.exporters[1..]
    && forall e :: OfExporter(room.templates.order, e)
                   == if e == s.exporters[0] then [] else OfExporter(s.templates.order, e)
  }

  ghost predicate NoneOwnedBy(s: Cache, e: string) {
    OfExporter(s.templates.order, e) == []
  }

  lemma RoomCounts(s: Cache, c: Context, limits: Limits, room: Cache, e: string)
    requires Shape(s, limits) && c !in s.templates.items && c.exporter !in s.exporters
    requires room == s || OldestGone(s, room)
    ensures e in room.exporters ==> OfExporter(room.templates.order, e) != []
    ensures |OfExporter(room.templates.order, e)| <= limits.maxDomains
    ensures e == c.exporter ==> OfExporter(room.templates.order, e) == []
  {
    hide OfExporter;
    assert NoneOwnedBy(s, c.exporter) by {
      NoneOwned(s.templates.order, c.exporter);
    }
    assert Distinct(s.exporters) && |OfExporter(s.templates.order, e)| <= limits.maxDomains;
    assert e in s.exporters ==> OfExporter(s.templates.order, e) != [];
    hide Shape;
    if room != s {
      assert s.exporters == [s.exporters[0]] + s.exporters[1..];
      assert OfExporter(room.templates.order, e)
          == if e == s.exporters[0] then [] else OfExporter(s.templates.order, e);
    }
  }

  lemma TouchNewExporterIs(s: Cache, c: Context, limits: Limits, room: Cache)
    requires Shape(s, limits) && limits.Valid()
    requires c !in s.templates.items && c.exporter !in s.exporters
    requires room == EvictExporters(s, limits.maxExporters)
    requires OfExporter(room.templates.order, c.exporter) == []
    ensures Touch(s, c, limits)
            == Cache(room.templates.Put(c, Empty()), room.exporters + [c.exporter], room.evictions)
  {
  }

  lemma AppendNew(room: Cache, r: Cache, c: Context, limits: Limits)
    requires room.templates.Valid() && Distinct(room.exporters) && |room.exporters| < limits.maxExporters
    requires c !in room.templates.items && c.exporter !in room.exporters && limits.Valid()
    requires forall x :: x in room.templates.items ==> x.exporter in room.exporters
    requires forall e :: e in room.exporters ==> OfExporter(room.templates.order, e) != []
    requires forall e :: |OfExporter(room.templates.order, e)| <= limits.maxDomains
    requires OfExporter(room.templates.order, c.exporter) == []
    requires r == Cache(room.templates.Put(c, Empty()), room.exporters + [c.exporter], room.evictions)
    ensures Shape(r, limits)
  {
    Admit(room.(exporters := room.exporters + [c.exporter]), r, c, limits);
  }

  lemma TouchNewExporter(s: Cache, c: Context, limits: Limits)
    requires Shape(s, limits) && limits.Valid()
    requires c !in s.templates.items && c.exporter !in s.exporters
    ensures Shape(Touch(s, c, limits), limits) && Touched(s, Touch(s, c, limits), c, limits)
  {
    var room := EvictExporters(s, limits.maxExporters);
    MakeRoom(s, c, limits);
    RoomOwners(s, c, limits, room);
    if |s.exporters| >= limits.maxExporters {
      EvictExportersShape(s, limits);
    }
    forall e
      ensures e in room.exporters ==> OfExporter(room.templates.order, e) != []
      ensures |OfExporter(room.templates.order, e)| <= limits.maxDomains
      ensures e == c.exporter ==> OfExporter(room.templates.order, e) == []
    {
      RoomCounts(s, c, limits, room, e);
    }
    TouchNewExporterIs(s, c, limits, room);
    AppendNew(room, Touch(s, c, limits), c, limits);
    AppendTouched(s, room, Touch(s, c, limits), c, limits);
  }

  lemma AppendTouched(s: Cache, room: Cache, r: Cache, c: Context, limits: Limits)
    requires HasRoom(s, room, c, limits) && c !in s.templates.items
    requires r == Cache(room.templates.Put(c, Empty()), Exporters(s, c, limits), room.evictions)
    ensures Touched(s, r, c, limits)
  {
  }

  /** Making room for one more domain drops at most the exporter's oldest. */
  lemma EvictDomainsShape(s: Cache, e: string, limits: Limits)
    requires s.templates.Valid() && limits.Valid()
    requires |OfExporter(s.templates.order, e)| <= limits.maxDomains
    ensures var own := OfExporter(s.templates.order, e);
            var stale := if |own| < limits.maxDomains then [] else [own[0]];
            var r := EvictDomains(s, own, limits.maxDomains);
            && Dropped(s, r, stale)
            && forall x :: |OfExporter(r.templates.order, x)|
                           == |OfExporter(s.templates.order, x)| - (if x == e then |stale| else 0)
  {
    var own := OfExporter(s.templates.order, e);
    OfExporterDistinct(s.templates.order, e);
    if |own| >= limits.maxDomains {
      var k := own[0];
      assert EvictDomains(s, own, limits.maxDomains) == DropAll(s, [k]);
      DropAllShape(s, [k]);
      assert [k][1..] == [];
      assert DropAll(s, [k]).templates == s.templates.Remove(k);
      OfExporterWithout(s.templates.order, e, k);
      WithoutKeepsDistinct(own, k);
    }
  }

  lemma TouchNewDomainShape(s: Cache, c: Context, limits: Limits, s2: Cache)
    requires Shape(s, limits) && limits.Valid()
    requires c !in s.templates.items && c.exporter in s.exporters
    requires var s1 := s.(exporters := Without(s.exporters, c.exporter) + [c.exporter]);
             s2 == EvictDomains(s1, OfExporter(s.templates.order, c.exporter), limits.maxDomains)
    ensures Shape(s2.(templates := s2.templates.Put(c, Empty())), limits)
  {
    var s1 := s.(exporters := Without(s.exporters, c.exporter) + [c.exporter]);
    MoveKeepsExporters(s.exporters, c.exporter);
    EvictDomainsShape(s1, c.exporter, limits);
    forall e | e in s2.exporters && e != c.exporter ensures OfExporter(s2.templates.order, e) != [] {
      assert |OfExporter(s2.templates.order, e)| == |OfExporter(s1.templates.order, e)|;
    }
    Admit(s2, s2.(templates := s2.templates.Put(c, Empty())), c, limits);
  }

  lemma TouchNewDomain(s: Cache, c: Context, limits: Limits)
    requires Shape(s, limits) && limits.Valid()
    requires c !in s.templates.items && c.exporter in s.exporters
    ensures Shape(Touch(s, c, limits), limits) && Touched(s, Touch(s, c, limits), c, limits)
  {
    var s1 := s.(exporters := Without(s.exporters, c.exporter) + [c.exporter]);
    var s2 := EvictDomains(s1, OfExporter(s.templates.order, c.exporter), limits.maxDomains);
    TouchNewDomainShape(s, c, limits, s2);
    var r := Touch(s, c, limits);
    assert r == s2.(templates := s2.templates.Put(c, Empty()));
    EvictDomainsShape(s1, c.exporter, limits);
    assert HasRoom(s, s2.(exporters := Without(s.exporters, c.exporter)), c, limits);
    AppendTouched(s, s2.(exporters := Without(s.exporters, c.exporter)), r, c, limits);
  }

  lemma TouchShape(s: Cache, c: Context, limits: Limits)
    requires Shape(s, limits) && limits.Valid()
    ensures Shape(Touch(s, c, limits), limits) && Touched(s, Touch(s, c, limits), c, limits)
  {
    if c in s.templates.items {
      TouchKnownShape(s, c, limits);
      TouchKnown(s, c, limits);
    } else if c.exporter in s.exporters {
      TouchNewDomain(s, c, limits);
    } else {
      TouchNewExporter(s, c, limits);
    }
  }
}
