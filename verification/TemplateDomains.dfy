/** Which bytes of a header decide where a datagram's templates belong, and that domains with different
    headers never meet (capture/flow_ingest.py:554-606). */
module TemplateDomains {
  import opened Basics
  import opened OrderedDict
  import opened FlowCodec
  import opened FlowWalker
  import opened FlowWire
  import opened TemplateCache
  import opened TemplateHistory

  /** The header names this observation domain: the source id in the bytes from 16 of a version 9 header
      of 20 bytes (section 5.1 of RFC 3954), the domain id in the bytes from 12 of an IPFIX header of 16
      (section 3.1 of RFC 7011), and always 0 in version 5. */
  predicate Names(data: seq<byte>, domain: nat) {
    |data| >= 2 && match FromBytes(data[..2])
      case 5 => domain == 0
      case 9 => |data| >= 20 && FromBytes(data[16..20]) == domain
      case 10 => |data| >= 16 && FromBytes(data[12..16]) == domain
      case _ => false
  }

  lemma ContextIsTheHeaders(data: seq<byte>, exporter: string, c: Context)
    ensures TemplateContext(data, exporter) == Some(c) <==> c.exporter == exporter && Names(data, c.domain)
  {
    if |data| >= 2 {
      TwoBytes(data[..2]);
      if |data| >= 16 {
        FourBytes(data[12..16]);
        assert U32(data[12..]) == U32(data[12..16]) by { Word32(data, 12); }
      }
      if |data| >= 20 {
        FourBytes(data[16..20]);
        assert U32(data[16..]) == U32(data[16..20]) by { Word32(data, 16); }
      }
    }
  }

  lemma Word32(data: seq<byte>, at: nat)
    requires at + 4 <= |data|
    ensures U32(data[at..]) == U32(data[at..at + 4])
  {
    assert data[at..][2..][..2] == data[at..at + 4][2..];
  }

  /** What an allowed exporter sent under headers that name a domain. */
  function Sent(h: seq<Datagram>, c: Context, allowed: set<string>): seq<Datagram> {
    if h == [] then []
    else
      var d := h[|h| - 1];
      Sent(h[..|h| - 1], c, allowed)
      + if d.exporter == c.exporter && d.exporter in allowed && Names(d.data, c.domain) then [d] else []
  }

  /** Without evictions, every context's table is the replay of what was sent under its own headers,
      from the start and whatever came between. */
  lemma {:induction false} TableIsWhatWasSent(h: seq<Datagram>, c: Context, allowed: set<string>, limits: Limits)
    requires limits.Valid() && Run(h, allowed, limits).evictions == 0
    ensures TableOf(Run(h, allowed, limits), c) == Replay(Sent(h, c, allowed), limits)
    decreases |h|
  {
    hide Step, Learn, Removed, Inv;
    if h != [] {
      var before, d := h[..|h| - 1], h[|h| - 1];
      var s := Run(before, allowed, limits);
      RunInv(before, allowed, limits);
      QuietStep(s, d, c, allowed, limits);
      TableIsWhatWasSent(before, c, allowed, limits);
      ContextIsTheHeaders(d.data, d.exporter, c);
      ReplaySnoc(Sent(before, c, allowed), d, limits);
      assert Sent(before, c, allowed) + [] == Sent(before, c, allowed);
    }
  }

  /** A step that evicts nothing changes the table of its own context only. */
  lemma QuietStep(s: Cache, d: Datagram, c: Context, allowed: set<string>, limits: Limits)
    requires limits.Valid() && Inv(s, limits) && Step(s, d, allowed, limits).0.evictions == 0
    ensures s.evictions == 0
    ensures TableOf(Step(s, d, allowed, limits).0, c)
            == if ContextOf(d, allowed) == Some(c) then Learn(TableOf(s, c), d.data, limits) else TableOf(s, c)
  {
    var context := ContextOf(d, allowed);
    if context.Some? {
      StepShape(s, d, context.value, allowed, limits);
      hide Step, ParseDatagram, Trim, Removed;
      assert |Removed(s, context.value, limits)| == 0;
    }
  }

  /** So, as long as nothing is evicted, a datagram's flows depend on its own bytes and on what its
      exporter sent before it under the same domain: two histories that agree on that give it the same
      flows, however they differ otherwise. */
  lemma DomainsNeverMix(h: seq<Datagram>, other: seq<Datagram>, d: Datagram, domain: nat, allowed: set<string>,
      limits: Limits)
    requires limits.Valid() && d.exporter in allowed && Names(d.data, domain)
    requires Run(h, allowed, limits).evictions == 0 == Run(other, allowed, limits).evictions
    requires Sent(h, Context(d.exporter, domain), allowed) == Sent(other, Context(d.exporter, domain), allowed)
    ensures Step(Run(h, allowed, limits), d, allowed, limits).1
        == Step(Run(other, allowed, limits), d, allowed, limits).1
  {
    FlowsOfATable(h, d, domain, allowed, limits);
    FlowsOfATable(other, d, domain, allowed, limits);
  }

  lemma FlowsOfATable(h: seq<Datagram>, d: Datagram, domain: nat, allowed: set<string>, limits: Limits)
    requires limits.Valid() && d.exporter in allowed && Names(d.data, domain)
    requires Run(h, allowed, limits).evictions == 0
    ensures Step(Run(h, allowed, limits), d, allowed, limits).1
            == ParseDatagram(d.data, Replay(Sent(h, Context(d.exporter, domain), allowed), limits), limits.maxRecords).1
  {
    var c, s := Context(d.exporter, domain), Run(h, allowed, limits);
    ContextIsTheHeaders(d.data, d.exporter, c);
    RunInv(h, allowed, limits);
    TableIsWhatWasSent(h, c, allowed, limits);
    TouchShape(s, c, limits);
    hide ParseDatagram, Trim, Run;
    assert TableOf(Touch(s, c, limits), c) == TableOf(s, c);
  }

  /** One datagram between: as long as the context itself is not evicted, a datagram of another domain
      leaves a domain's table as it is. */
  lemma OtherDomainsAreLeftAlone(h: seq<Datagram>, d: Datagram, c: Context, allowed: set<string>, limits: Limits)
    requires limits.Valid() && !Names(d.data, c.domain)
    requires var s := Run(h, allowed, limits);
             c in s.templates.items ==> c in Step(s, d, allowed, limits).0.templates.items
    ensures TableOf(Step(Run(h, allowed, limits), d, allowed, limits).0, c) == TableOf(Run(h, allowed, limits), c)
  {
    var s := Run(h, allowed, limits);
    RunInv(h, allowed, limits);
    ContextIsTheHeaders(d.data, d.exporter, c);
    if c in Step(s, d, allowed, limits).0.templates.items {
      StepTable(s, d, c, allowed, limits);
    }
  }
}
