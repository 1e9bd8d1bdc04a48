/** The NetFlow collector as the object it is: tables are shared by reference between the
    cache and the parser, which fills them in place.  Every method is proved against the
    cache model of TemplateCache. */
module Collector {
  import opened Basics
  import opened OrderedDict
  import opened FlowCodec
  import opened FlowWalker
  import opened TemplateCache
  import opened TemplateHistory

  class NetFlowCollector {
    const allowed: set<string>
    const limits: Limits
    var templates: Dict<Context, TemplateTable>
    var exporters: seq<string>
    var cacheEvictions: nat
    var emitted: nat
    var dropped: nat
    var rejectedExporters: nat
    var malformed: nat
    /** The events accepted by the pipeline's queue, oldest first. */
    var queue: seq<FlowRecord>

    /** Every datagram received so far. */
    ghost var history: seq<Datagram>
    /** The tables ever handed out by this collector. */
    ghost var repr: set<object>

    /** The cached tables are distinct objects: filling one leaves the others alone. */
    ghost predicate Separate()
      reads this`templates, this`repr
    {
      && this !in repr
      && (forall c :: c in templates.items ==> templates.items[c] in repr)
      && (forall c, c' :: c in templates.items && c' in templates.items && c != c' ==>
            templates.items[c] != templates.items[c'])
    }

    ghost function View(): Cache
      requires Separate()
      reads this`templates, this`exporters, this`cacheEvictions, this`repr, repr
    {
      Cache(Dict(templates.order, map c | c in templates.items :: templates.items[c].dict), exporters, cacheEvictions)
    }

    ghost predicate Valid()
      reads this, repr
    {
      limits.Valid() && Separate() && View() == Run(history, allowed, limits)
    }

    constructor (allowed: set<string>, maxExporters: int, maxDomains: int, maxTemplates: int, maxRecords: int)
      ensures Valid() && history == []
      ensures this.allowed == allowed
      ensures limits == Limits(if maxExporters >= 1 then maxExporters else 1, if maxDomains >= 1 then maxDomains else 1,
                               if maxTemplates >= 1 then maxTemplates else 1, if maxRecords >= 1 then maxRecords else 1)
      ensures emitted == dropped == rejectedExporters == malformed == 0 && queue == []
    {
      this.allowed := allowed;
      limits := Limits(Max1(maxExporters), Max1(maxDomains), Max1(maxTemplates), Max1(maxRecords));
      templates := Empty();
      exporters := [];
      cacheEvictions, emitted, dropped, rejectedExporters, malformed := 0, 0, 0, 0, 0;
      queue := [];
      repr, history := {}, [];
      new;
      assert View().templates == NO_CACHE.templates;
    }

    /** Deletes the listed contexts, counting each. */
    method DeleteAll(stale: seq<Context>)
      requires Separate()
      modifies this`templates, this`cacheEvictions
      ensures Separate() && View() == DropAll(old(View()), stale)
    {
      var i := 0;
      while i < |stale|
        invariant 0 <= i <= |stale|
        invariant Separate() && DropAll(View(), stale[i..]) == DropAll(old(View()), stale)
      {
        ghost var before := View();
        ghost var rest := stale[i..];
        assert rest[1..] == stale[i + 1..];
        templates := templates.Remove(stale[i]);
        cacheEvictions := cacheEvictions + 1;
        assert View().templates.items == before.templates.items - {stale[i]};
        i := i + 1;
      }
    }

    /** Drops the oldest exporter with all its contexts. */
    method DeleteOldestExporter()
      requires Separate() && exporters != []
      modifies this`templates, this`exporters, this`cacheEvictions
      ensures Separate()
      ensures View() == WithoutOldest(old(View()))
    {
      ghost var s := View();
      var stale := exporters[0];
      var staleKeys := OfExporter(templates.order, stale);
      DropAllKeepsExporters(s, staleKeys);
      DeleteAll(staleKeys);
      exporters := exporters[1..];
      assert View() == WithoutOldest(s);
    }

    /** The exporter half of the lookup: lists the exporter as the most recent one. */
    method AdmitExporter(exporter: string)
      requires Separate() && limits.Valid()
      modifies this`templates, this`exporters, this`cacheEvictions
      ensures Separate()
      ensures View() == Admitted(old(View()), exporter, limits)
    {
      ghost var s := View();
      if exporter !in exporters {
        while |exporters| >= limits.maxExporters
          invariant Separate()
          invariant EvictExporters(View(), limits.maxExporters) == EvictExporters(s, limits.maxExporters)
          decreases |exporters|
        {
          EvictExportersStep(View(), limits.maxExporters);
          DeleteOldestExporter();
        }
        EvictExportersDone(View(), limits.maxExporters);
        exporters := exporters + [exporter];
      } else {
        exporters := Without(exporters, exporter) + [exporter];
      }
    }

    /** The domain half: drops the exporter's oldest contexts while it has its full share. */
    method EvictOldDomains(exporter: string)
      requires Separate() && limits.Valid()
      modifies this`templates, this`cacheEvictions
      ensures Separate()
      ensures View() == EvictDomains(old(View()), OfExporter(old(View()).templates.order, exporter), limits.maxDomains)
    {
      ghost var s := View();
      var exporterKeys := OfExporter(templates.order, exporter);
      while |exporterKeys| >= limits.maxDomains
        invariant Separate()
        invariant EvictDomains(View(), exporterKeys, limits.maxDomains)
                  == EvictDomains(s, OfExporter(s.templates.order, exporter), limits.maxDomains)
        decreases |exporterKeys|
      {
        var staleKey := exporterKeys[0];
        EvictDomainsStep(View(), exporterKeys, limits.maxDomains);
        exporterKeys := exporterKeys[1..];
        DeleteAll([staleKey]);
      }
    }

    method GetTemplateCache(c: Context) returns (table: TemplateTable)
      requires Separate() && limits.Valid()
      modifies this`templates, this`exporters, this`cacheEvictions, this`repr
      ensures Separate() && View() == Touch(old(View()), c, limits)
      ensures c in templates.items && templates.items[c] == table
      ensures fresh(repr - old(repr))
    {
      ghost var s := View();
      if c in templates.items {
        table := templates.items[c];
        templates := templates.MoveToEnd(c);
        exporters := Without(exporters, c.exporter) + [c.exporter];
        assert View().templates.items == s.templates.items;
        return;
      }
      AdmitExporter(c.exporter);
      EvictOldDomains(c.exporter);
      ghost var s2 := View();
      TouchUnknown(s, c, limits);
      table := InsertTable(c);
    }

    method InsertTable(c: Context) returns (table: TemplateTable)
      requires Separate()
      modifies this`templates, this`repr
      ensures fresh(table) && repr == old(repr) + {table}
      ensures Separate() && templates == old(templates).Put(c, table)
      ensures View() == old(View()).(templates := old(View()).templates.Put(c, Empty()))
    {
      ghost var s := View();
      table := new TemplateTable();
      repr := repr + {table};
      templates := templates.Put(c, table);
      assert View().templates.items == s.templates.items[c := Empty()];
    }

    method TrimTemplates(table: TemplateTable)
      requires table.dict.Valid()
      modifies table, this`cacheEvictions
      ensures table.dict == Trim(old(table.dict), limits.maxTemplates)
      ensures cacheEvictions == old(cacheEvictions) + Trimmed(old(table.dict), limits)
    {
      ghost var parsed := table.dict;
      while |table.dict.order| > limits.maxTemplates
        invariant table.dict.Valid() && |table.dict.order| <= |parsed.order|
        invariant |parsed.order| > limits.maxTemplates ==> |table.dict.order| >= limits.maxTemplates
        invariant Trim(table.dict, limits.maxTemplates) == Trim(parsed, limits.maxTemplates)
        invariant cacheEvictions == old(cacheEvictions) + |parsed.order| - |table.dict.order|
        decreases |table.dict.order|
      {
        RemoveOldest(table.dict);
        var oldest := table.dict.order[0];
        table.dict := table.dict.Remove(oldest);
        cacheEvictions := cacheEvictions + 1;
      }
    }

    /** Hands the flows to the queue; `accepts` says which of them it takes. */
    method EnqueueAll(flows: seq<FlowRecord>, accepts: nat -> bool) returns (count: nat)
      modifies this`queue, this`emitted, this`dropped
      ensures Counted(old(emitted), old(dropped), old(queue), count, flows, accepts)
    {
      count := 0;
      var i := 0;
      while i < |flows|
        invariant 0 <= i <= |flows|
        invariant Counted(old(emitted), old(dropped), old(queue), count, flows[..i], accepts)
      {
        assert flows[..i + 1][..i] == flows[..i];
        if accepts(i) {
          queue := queue + [flows[i]];
          count := count + 1;
          emitted := emitted + 1;
        } else {
          dropped := dropped + 1;
        }
        i := i + 1;
      }
      assert flows[..|flows|] == flows;
    }

    /** One datagram: the cache follows the model's run over everything received. */
    method HandleDatagram(data: seq<byte>, exporter: string, accepts: nat -> bool) returns (count: nat)
      requires Valid()
      modifies this, repr
      ensures Valid() && history == old(history) + [Datagram(data, exporter)]
      ensures fresh(repr - old(repr))
      ensures Counted(old(emitted), old(dropped), old(queue), count,
                      Step(old(View()), Datagram(data, exporter), allowed, limits).1, accepts)
      ensures rejectedExporters == old(rejectedExporters) + (if exporter in allowed then 0 else 1)
      ensures malformed == old(malformed)
              + (if exporter in allowed && TemplateContext(data, exporter).None? then 1 else 0)
    {
      hide Touch, ParseDatagram, Trim, Run;
      ghost var d := Datagram(data, exporter);
      RunSnoc(history, d, allowed, limits);
      history := history + [d];
      if exporter !in allowed {
        rejectedExporters := rejectedExporters + 1;
        return 0;
      }
      var context := TemplateContext(data, exporter);
      if context.None? {
        malformed := malformed + 1;
        return 0;
      }
      StepsTo(old(history), d, context.value, allowed, limits);
      hide Step;
      var flows := LearnFrom(data, context.value);
      count := EnqueueAll(flows, accepts);
    }

    /** The accepted flows were queued in order and the others counted as dropped. */
    ghost predicate Counted(emitted0: nat, dropped0: nat, queue0: seq<FlowRecord>, count: nat, flows: seq<FlowRecord>,
        accepts: nat -> bool)
      reads this
    {
      && queue == queue0 + Accepted(flows, accepts) && count == |Accepted(flows, accepts)|
      && emitted == emitted0 + count && dropped + count == dropped0 + |flows|
    }

    /** Parses into the table and trims it. */
    method ParseInto(data: seq<byte>, table: TemplateTable) returns (flows: seq<FlowRecord>)
      requires ParseDatagram(data, table.dict, limits.maxRecords).0.Valid()
      modifies table, this`cacheEvictions
      ensures var (parsed, f) := ParseDatagram(data, old(table.dict), limits.maxRecords);
              && flows == f && table.dict == Trim(parsed, limits.maxTemplates)
              && cacheEvictions == old(cacheEvictions) + Trimmed(parsed, limits)
    {
      flows := ParseNetflow(data, table, limits.maxRecords);
      TrimTemplates(table);
    }

    /** Looks the context up and learns from the datagram. */
    method LearnFrom(data: seq<byte>, c: Context) returns (flows: seq<FlowRecord>)
      requires Separate() && limits.Valid()
      requires ParseDatagram(data, TableOf(Touch(View(), c, limits), c), limits.maxRecords).0.Valid()
      modifies this`templates, this`exporters, this`cacheEvictions, this`repr, repr
      ensures Separate() && fresh(repr - old(repr))
      ensures (View(), flows) == Learned(Touch(old(View()), c, limits), data, c, limits)
    {
      hide Touch, ParseDatagram, Trim;
      var table := GetTemplateCache(c);
      ghost var s1 := View();
      assert table.dict == TableOf(s1, c);
      flows := ParseInto(data, table);
      assert View().templates.items == s1.templates.items[c := table.dict];
    }
  }

  /** The flows the queue takes. */
  function Accepted(flows: seq<FlowRecord>, accepts: nat -> bool): seq<FlowRecord> {
    if flows == [] then []
    else
      var last := |flows| - 1;
      Accepted(flows[..last], accepts) + if accepts(last) then [flows[last]] else []
  }

  /** The rest of a step once the context has been looked up. */
  ghost function Learned(s1: Cache, data: seq<byte>, c: Context, limits: Limits): (Cache, seq<FlowRecord>) {
    var (parsed, flows) := ParseDatagram(data, TableOf(s1, c), limits.maxRecords);
    (s1.(templates := s1.templates.Put(c, Trim(parsed, limits.maxTemplates)),
         evictions := s1.evictions + Trimmed(parsed, limits)), flows)
  }

  /** The cache after one round of exporter eviction. */
  ghost function WithoutOldest(s: Cache): Cache
    requires s.exporters != []
  {
    var dropped := DropAll(s, OfExporter(s.templates.order, s.exporters[0]));
    Cache(dropped.templates, s.exporters[1..], dropped.evictions)
  }

  ghost function Admitted(s: Cache, exporter: string, limits: Limits): Cache
    requires limits.Valid()
  {
    if exporter in s.exporters then s.(exporters := Without(s.exporters, exporter) + [exporter])
    else var e := EvictExporters(s, limits.maxExporters); e.(exporters := e.exporters + [exporter])
  }

  lemma EvictExportersStep(s: Cache, max: nat)
    requires max >= 1 && |s.exporters| >= max
    ensures EvictExporters(s, max) == EvictExporters(WithoutOldest(s), max)
  {
  }

  lemma EvictExportersDone(s: Cache, max: nat)
    requires max >= 1 && |s.exporters| < max
    ensures EvictExporters(s, max) == s
  {
  }

  lemma EvictDomainsStep(s: Cache, keys: seq<Context>, max: nat)
    requires max >= 1 && |keys| >= max
    ensures EvictDomains(s, keys, max) == EvictDomains(DropAll(s, [keys[0]]), keys[1..], max)
  {
  }

  lemma TouchUnknown(s: Cache, c: Context, limits: Limits)
    requires limits.Valid() && c !in s.templates.items
    ensures var s1 := Admitted(s, c.exporter, limits);
            var s2 := EvictDomains(s1, OfExporter(s1.templates.order, c.exporter), limits.maxDomains);
            Touch(s, c, limits) == s2.(templates := s2.templates.Put(c, Empty()))
  {
  }

  /** A step is a lookup followed by learning. */
  lemma StepIs(s: Cache, d: Datagram, c: Context, allowed: set<string>, limits: Limits)
    requires limits.Valid() && ContextOf(d, allowed) == Some(c)
    ensures Step(s, d, allowed, limits) == Learned(Touch(s, c, limits), d.data, c, limits)
  {
  }

  lemma RunSnoc(h: seq<Datagram>, d: Datagram, allowed: set<string>, limits: Limits)
    requires limits.Valid()
    ensures Run(h + [d], allowed, limits) == Step(Run(h, allowed, limits), d, allowed, limits).0
  {
    assert (h + [d])[..|h|] == h;
  }

  /** A step of a run is a lookup followed by learning on a well-formed table. */
  lemma StepsTo(h: seq<Datagram>, d: Datagram, c: Context, allowed: set<string>, limits: Limits)
    requires limits.Valid() && ContextOf(d, allowed) == Some(c)
    ensures var s1 := Touch(Run(h, allowed, limits), c, limits);
            && Step(Run(h, allowed, limits), d, allowed, limits) == Learned(s1, d.data, c, limits)
            && ParseDatagram(d.data, TableOf(s1, c), limits.maxRecords).0.Valid()
  {
    var s := Run(h, allowed, limits);
    StepIs(s, d, c, allowed, limits);
    RunInv(h, allowed, limits);
    LearnsValid(s, d.data, c, limits, Touch(s, c, limits));
  }

  lemma LearnsValid(s: Cache, data: seq<byte>, c: Context, limits: Limits, s1: Cache)
    requires limits.Valid() && Inv(s, limits) && s1 == Touch(s, c, limits)
    ensures ParseDatagram(data, TableOf(s1, c), limits.maxRecords).0.Valid()
  {
    TouchShape(s, c, limits);
    assert TableOf(s1, c) == TableOf(s, c);
    ParseKeepsValid(data, TableOf(s, c), limits.maxRecords);
  }

  function Max1(n: int): nat { if n < 1 then 1 else n }

  lemma DropAllKeepsExporters(s: Cache, stale: seq<Context>)
    ensures DropAll(s, stale).exporters == s.exporters
    decreases |stale|
  {
    if stale != [] {
      DropAllKeepsExporters(s.(templates := s.templates.Remove(stale[0]), evictions := s.evictions + 1), stale[1..]);
    }
  }
}
