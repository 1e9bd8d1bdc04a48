/** The template parser and the v9 / IPFIX set walker (capture/flow_ingest.py:339-468):
    what they compute, as functions on the bytes still ahead of the cursor, and the
    loops that compute it, which update the caller's template table in place. */
module FlowWalker {
  import opened Basics
  import opened OrderedDict
  import opened FlowCodec

  /** The caller's `templates` dict, mutated in place by the walker. */
  class TemplateTable {
    var dict: Templates

    constructor ()
      ensures dict == Empty()
    {
      dict := Empty();
    }
  }

  // ----------------------------------------------------------------- templates

  /** Outcome of reading one template's field list: `ok` is false when it was cut short. */
  datatype FieldList = FieldList(fields: Template, rest: seq<byte>, ok: bool)

  function Prepend(fields: Template, list: FieldList): FieldList {
    list.(fields := fields + list.fields)
  }

  /** Steps over a 4-byte enterprise number, which may be cut off by the end of the body. */
  function Skip4(rest: seq<byte>): seq<byte> {
    if |rest| < 4 then [] else rest[4..]
  }

  function ReadField(rest: seq<byte>, ipfix: bool): (r: (Field, seq<byte>))
    requires |rest| >= 4
    ensures |r.1| <= |rest| - 4
  {
    var ftype, flen := U16(rest), U16(rest[2..]);
    if ipfix && ftype >= 0x8000 then (Field(ftype - 0x8000, flen), Skip4(rest[4..]))
    else (Field(ftype, flen), rest[4..])
  }

  function ReadFields(rest: seq<byte>, count: nat, ipfix: bool): (r: FieldList)
    ensures |r.rest| <= |rest|
    ensures r.ok <==> |r.fields| == count
    ensures !r.ok ==> |r.rest| < 4
    decreases count
  {
    if count == 0 then FieldList([], rest, true)
    else if |rest| < 4 then FieldList([], rest, false)
    else
      var (f, after) := ReadField(rest, ipfix);
      var tail := ReadFields(after, count - 1, ipfix);
      FieldList([f] + tail.fields, tail.rest, tail.ok)
  }

  /** All templates of one template set body, added to `acc`. */
  function ReadTemplates(rest: seq<byte>, ipfix: bool, acc: Templates): Templates
    decreases |rest|
  {
    if |rest| < 4 then acc
    else
      var count := U16(rest[2..]);
      var list := ReadFields(rest[4..], count, ipfix);
      ReadTemplates(list.rest, ipfix, if list.ok && count > 0 then acc.Put(U16(rest), list.fields) else acc)
  }

  /** `d.update(news)`. */
  function Update(d: Templates, news: Templates): Templates
    requires news.Valid()
    decreases |news.order|
  {
    UpdateFrom(d, news.order, news.items)
  }

  function UpdateFrom(d: Templates, order: seq<nat>, items: map<nat, Template>): Templates
    requires forall k :: k in order ==> k in items
    decreases |order|
  {
    if order == [] then d
    else
      var k := order[|order| - 1];
      UpdateFrom(d, order[..|order| - 1], items).Put(k, items[k])
  }

  /** One iteration of the loop below, told on the bytes ahead. */
  lemma FieldListStep(body: seq<byte>, off: nat, count: nat, ipfix: bool, f: Field, end: nat, done: Template)
    requires off + 4 <= |body| && count > 0
    requires var ftype, flen := U16(body[off..]), U16(body[off + 2..]);
             if ipfix && ftype >= 0x8000 then f == Field(ftype - 0x8000, flen) && end == off + 8
             else f == Field(ftype, flen) && end == off + 4
    ensures Prepend(done, ReadFields(Ahead(body, off), count, ipfix))
            == Prepend(done + [f], ReadFields(Ahead(body, end), count - 1, ipfix))
  {
    var here, tail := body[off..], ReadFields(Ahead(body, end), count - 1, ipfix);
    assert here[2..] == body[off + 2..] && here[4..] == body[off + 4..];
    assert ReadField(here, ipfix) == (f, Ahead(body, end));
    assert ReadFields(here, count, ipfix) == FieldList([f] + tail.fields, tail.rest, tail.ok);
    assert done + ([f] + tail.fields) == done + [f] + tail.fields;
  }

  /** The inner loop: the field list of one template, its cursor starting at `start`. */
  method ParseFieldList(body: seq<byte>, start: nat, fieldCount: nat, ipfix: bool)
    returns (fields: Template, off: nat, ok: bool)
    requires start <= |body|
    ensures start <= off <= |body| + 4 && (off > |body| ==> ipfix)
    ensures var list := ReadFields(body[start..], fieldCount, ipfix);
            ok == list.ok && Ahead(body, off) == list.rest && fields == list.fields
  {
    hide U16, ReadFields, Prepend, Ahead;
    fields, off, ok := [], start, true;
    ghost var whole := ReadFields(body[start..], fieldCount, ipfix);
    FieldListStart(body, start, fieldCount, ipfix);
    var i := 0;
    while i < fieldCount
      invariant 0 <= i <= fieldCount
      invariant start <= off <= |body| + 4 && (off > |body| ==> ipfix)
      invariant whole == Prepend(fields, ReadFields(Ahead(body, off), fieldCount - i, ipfix))
    {
      if off + 4 > |body| {
        ok := false;
        FieldListEnd(body, off, fieldCount - i, ipfix, fields);
        return;
      }
      ghost var from := off;
      var ftype, flen := U16(body[off..]), U16(body[off + 2..]);
      off := off + 4;
      if ipfix && ftype >= 0x8000 {
        ftype := ftype - 0x8000;
        off := off + 4;
      }
      FieldListStep(body, from, fieldCount - i, ipfix, Field(ftype, flen), off, fields);
      fields := fields + [Field(ftype, flen)];
      i := i + 1;
    }
    FieldListEnd(body, off, 0, ipfix, fields);
  }

  lemma FieldListStart(body: seq<byte>, off: nat, count: nat, ipfix: bool)
    requires off <= |body|
    ensures ReadFields(body[off..], count, ipfix) == Prepend([], ReadFields(Ahead(body, off), count, ipfix))
  {
    hide ReadFields;
    var list := ReadFields(body[off..], count, ipfix);
    assert [] + list.fields == list.fields;
  }

  /** The list ends when it is complete or the bytes run out. */
  lemma FieldListEnd(body: seq<byte>, off: nat, count: nat, ipfix: bool, done: Template)
    requires count == 0 || off + 4 > |body|
    ensures Prepend(done, ReadFields(Ahead(body, off), count, ipfix)) == FieldList(done, Ahead(body, off), count == 0)
  {
    assert done + [] == done;
  }

  /** One template at the cursor. */
  lemma TemplateStep(body: seq<byte>, off: nat, ipfix: bool, acc: Templates)
    requires off + 4 <= |body|
    ensures var count := U16(body[off + 2..]);
            var list := ReadFields(body[off + 4..], count, ipfix);
            ReadTemplates(Ahead(body, off), ipfix, acc)
            == ReadTemplates(list.rest, ipfix, if list.ok && count > 0 then acc.Put(U16(body[off..]), list.fields)
              else acc)
  {
    hide U16, ReadFields;
    var start := body[off..];
    assert start[2..] == body[off + 2..] && start[4..] == body[off + 4..];
  }

  /** The parser's cursor passes the end of the body by at most the 4 bytes of a
      truncated enterprise number, and only in IPFIX. */
  method ParseTemplateFields(body: seq<byte>, ipfix: bool) returns (templates: Templates, consumed: nat)
    ensures templates == ReadTemplates(body, ipfix, Empty())
    ensures templates.Valid()
    ensures consumed <= |body| + 4 && (consumed > |body| ==> ipfix)
  {
    hide U16, ReadFields, ReadTemplates, Ahead;
    templates := Empty();
    var off: nat := 0;
    TemplatesStart(body);
    while off + 4 <= |body|
      invariant off <= |body| + 4 && (off > |body| ==> ipfix)
      invariant templates.Valid()
      invariant ReadTemplates(body, ipfix, Empty()) == ReadTemplates(Ahead(body, off), ipfix, templates)
      decreases |body| - off
    {
      var templateId, fieldCount := U16(body[off..]), U16(body[off + 2..]);
      TemplateStep(body, off, ipfix, templates);
      var fields, end, ok := ParseFieldList(body, off + 4, fieldCount, ipfix);
      off := end;
      if ok && fieldCount > 0 {
        PutValid(templates, templateId, fields);
        templates := templates.Put(templateId, fields);
      }
    }
    TemplatesEnd(body, off, ipfix, templates);
    consumed := off;
  }

  lemma TemplatesStart(body: seq<byte>)
    ensures Ahead(body, 0) == body
  {
  }

  lemma TemplatesEnd(body: seq<byte>, off: nat, ipfix: bool, acc: Templates)
    requires off + 4 > |body|
    ensures ReadTemplates(Ahead(body, off), ipfix, acc) == acc
  {
  }

  /** The bytes from offset `off` on; none once the offset has passed the end. */
  ghost function Ahead(body: seq<byte>, off: nat): seq<byte> {
    if off <= |body| then body[off..] else []
  }

  // -------------------------------------------------------------------- walker

  /** What distinguishes the two template-based formats. */
  datatype Dialect = Dialect(headerLen: nat, templateSetId: nat, optionsSetId: nat) {
    predicate Ipfix() { templateSetId == 2 }
  }

  const V9 := Dialect(20, 0, 1)
  const IPFIX := Dialect(16, 2, 3)

  /** The walker's variables: the template table, the flows so far and the records counted. */
  datatype Walk = Walk(templates: Templates, flows: seq<FlowRecord>, seen: nat)

  /** At most one flow per data record. */
  function AsFlows(r: Option<FlowRecord>): seq<FlowRecord> {
    match r case None => [] case Some(flow) => [flow]
  }

  /** The first `count` records of a data set body, `size` bytes each. */
  function DecodeRecords(fields: Template, size: nat, body: seq<byte>, count: nat): seq<FlowRecord> {
    if count == 0 || |body| < size then []
    else AsFlows(Decode(fields, body[..size])) + DecodeRecords(fields, size, body[size..], count - 1)
  }

  function Min(a: int, b: int): (m: int)
    ensures m <= a && m <= b && (m == a || m == b)
  {
    if a < b then a else b
  }

  /** One data set under a known template. */
  function WalkData(body: seq<byte>, fields: Template, size: nat, max: nat, w: Walk): (r: Walk)
    requires size > 0 && w.seen <= max
    ensures r.seen <= max && r.templates == w.templates
  {
    var count := Min(|body| / size, max - w.seen);
    w.(flows := w.flows + DecodeRecords(fields, size, body, count), seen := w.seen + count)
  }

  lemma WalkDataCount(body: seq<byte>, fields: Template, size: nat, max: nat, w: Walk, count: nat)
    requires size > 0 && w.seen <= max && count == Min(|body| / size, max - w.seen)
    ensures WalkData(body, fields, size, max, w)
            == w.(flows := w.flows + DecodeRecords(fields, size, body, count), seen := w.seen + count)
  {
  }

  lemma CountFits(len: nat, size: nat, count: nat)
    requires size > 0 && count <= len / size
    ensures count * size <= len
  {
    assert (len / size) * size <= len;
    assert (len / size - count) * size >= 0;
  }

  /** One set; the walk stops after a data set that reaches the record limit. */
  function WalkSet(setId: nat, body: seq<byte>, d: Dialect, max: nat, w: Walk): (r: (Walk, bool))
    requires w.seen <= max
    ensures r.0.seen <= max
  {
    if setId == d.templateSetId then
      (w.(templates := UpdateWith(w.templates, body, d.Ipfix())), false)
    else if setId == d.optionsSetId then (w, false)
    else if setId >= 256 && setId in w.templates.items && RecordLength(w.templates.items[setId]) > 0 then
      var fields := w.templates.items[setId];
      var w' := WalkData(body, fields, RecordLength(fields), max, w);
      (w', w'.seen >= max)
    else (w, false)
  }

  /** Walks the sets in `rest`, the part of the datagram still ahead. */
  function WalkSets(rest: seq<byte>, d: Dialect, max: nat, w: Walk): (r: Walk)
    requires w.seen <= max
    ensures r.seen <= max
    decreases |rest|
  {
    if |rest| < 4 || U16(rest[2..]) < 4 || U16(rest[2..]) > |rest| then w
    else
      var setLen := U16(rest[2..]);
      var (w', stop) := WalkSet(U16(rest), rest[4..setLen], d, max, w);
      if stop then w' else WalkSets(rest[setLen..], d, max, w')
  }

  /** The table after a template set. */
  function UpdateWith(table: Templates, body: seq<byte>, ipfix: bool): Templates {
    ReadTemplatesValid(body, ipfix, Empty());
    Update(table, ReadTemplates(body, ipfix, Empty()))
  }

  lemma ReadTemplatesValid(rest: seq<byte>, ipfix: bool, acc: Templates)
    requires acc.Valid()
    ensures ReadTemplates(rest, ipfix, acc).Valid()
    decreases |rest|
  {
    if |rest| >= 4 {
      var count := U16(rest[2..]);
      var list := ReadFields(rest[4..], count, ipfix);
      var acc' := if list.ok && count > 0 then acc.Put(U16(rest), list.fields) else acc;
      ReadTemplatesValid(list.rest, ipfix, acc');
    }
  }

  method SumLengths(fields: Template) returns (total: nat)
    ensures total == RecordLength(fields)
  {
    total := 0;
    var i := 0;
    while i < |fields|
      invariant 0 <= i <= |fields|
      invariant RecordLength(fields) == total + RecordLength(fields[i..])
    {
      assert fields[i..][1..] == fields[i + 1..];
      total := total + fields[i].flen;
      i := i + 1;
    }
  }

  /** The record loop of a data set. */
  method DecodeDataSet(body: seq<byte>, fields: Template, size: nat, count: nat) returns (flows: seq<FlowRecord>)
    requires count * size <= |body|
    ensures flows == DecodeRecords(fields, size, body, count)
  {
    flows := [];
    var i := 0;
    while i < count
      invariant 0 <= i <= count && i * size <= |body|
      invariant DecodeRecords(fields, size, body, count)
                == flows + DecodeRecords(fields, size, body[i * size..], count - i)
    {
      RecordInside(i, count, size);
      var start, end := i * size, (i + 1) * size;
      Slices(body, start, end, size);
      hide Decode;
      var record := DecodeRecord(fields, body[start..end]);
      flows := flows + AsFlows(record);
      i := i + 1;
    }
  }

  /** The body of the set loop: one set, updating the table in place. */
  method ParseSet(setId: nat, body: seq<byte>, table: TemplateTable, d: Dialect, maxRecords: nat,
      had: seq<FlowRecord>, counted: nat)
    returns (flows: seq<FlowRecord>, seen: nat, stop: bool)
    requires counted <= maxRecords
    modifies table
    ensures seen <= maxRecords
    ensures (Walk(table.dict, flows, seen), stop)
            == WalkSet(setId, body, d, maxRecords, Walk(old(table.dict), had, counted))
  {
    flows, seen, stop := had, counted, false;
    if setId == d.templateSetId {
      var news, _ := ParseTemplateFields(body, d.templateSetId == 2);
      table.dict := Update(table.dict, news);
    } else if setId == d.optionsSetId {
    } else if setId >= 256 && setId in table.dict.items && table.dict.items[setId] != [] {
      var fields := table.dict.items[setId];
      var size := SumLengths(fields);
      if size > 0 {
        var count := Min(|body| / size, maxRecords - seen);
        CountFits(|body|, size, count);
        var records := DecodeDataSet(body, fields, size, count);
        flows := flows + records;
        seen := seen + count;
        stop := seen >= maxRecords;
      }
    }
  }

  method ParseV9Like(data: seq<byte>, table: TemplateTable, d: Dialect, maxRecords: nat)
    returns (flows: seq<FlowRecord>)
    requires d.headerLen <= |data|
    modifies table
    ensures var w := WalkSets(data[d.headerLen..], d, maxRecords, Walk(old(table.dict), [], 0));
            table.dict == w.templates && flows == w.flows
  {
    hide U16, WalkSet, WalkSets;
    flows := [];
    var seen: nat, off: nat, n := 0, d.headerLen, |data|;
    ghost var result := WalkSets(data[off..], d, maxRecords, Walk(table.dict, [], 0));
    while off + 4 <= n
      invariant off <= n && seen <= maxRecords
      invariant result == WalkSets(data[off..], d, maxRecords, Walk(table.dict, flows, seen))
      decreases n - off
    {
      var setId, setLen := U16(data[off..]), U16(data[off + 2..]);
      SetStep(data, off, d, maxRecords, Walk(table.dict, flows, seen));
      if setLen < 4 || off + setLen > n {
        return;
      }
      var body := data[off + 4..off + setLen];
      var stop: bool;
      flows, seen, stop := ParseSet(setId, body, table, d, maxRecords, flows, seen);
      if stop {
        return;
      }
      off := off + setLen;
    }
    SetsEnd(data, off, d, maxRecords, Walk(table.dict, flows, seen));
  }

  /** One set at the cursor. */
  lemma SetStep(data: seq<byte>, off: nat, d: Dialect, max: nat, w: Walk)
    requires off + 4 <= |data| && w.seen <= max
    ensures var setLen := U16(data[off + 2..]);
            if setLen < 4 || off + setLen > |data| then WalkSets(data[off..], d, max, w) == w
            else var (w', stop) := WalkSet(U16(data[off..]), data[off + 4..off + setLen], d, max, w);
                 WalkSets(data[off..], d, max, w) == if stop then w' else WalkSets(data[off + setLen..], d, max, w')
  {
    hide U16, WalkSet;
    var rest, setLen := data[off..], U16(data[off + 2..]);
    assert rest[2..] == data[off + 2..];
    if 4 <= setLen && off + setLen <= |data| {
      assert rest[4..setLen] == data[off + 4..off + setLen] && rest[setLen..] == data[off + setLen..];
    }
  }

  lemma SetsEnd(data: seq<byte>, off: nat, d: Dialect, max: nat, w: Walk)
    requires |data| < off + 4 && off <= |data| && w.seen <= max
    ensures WalkSets(data[off..], d, max, w) == w
  {
    hide U16, WalkSet;
  }

  lemma Slices(body: seq<byte>, start: nat, end: nat, size: nat)
    requires start + size == end <= |body|
    ensures body[start..][..size] == body[start..end] && body[start..][size..] == body[end..]
  {
  }

  lemma RecordInside(i: nat, count: nat, size: nat)
    requires i < count
    ensures i * size + size == (i + 1) * size <= count * size
  {
    assert (count - i - 1) * size >= 0;
  }

  // ------------------------------------------------------------- NetFlow v5

  const V5_HEADER := 24
  const V5_RECORD := 48

  function V5Record(r: seq<byte>): FlowRecord
    requires |r| == V5_RECORD
  {
    FlowRecord(V4(r[0..4]), U16(r[32..]), V4(r[4..8]), U16(r[34..]), ProtoName(r[38]), U32(r[20..]))
  }

  function V5Records(rest: seq<byte>, count: nat): seq<FlowRecord> {
    if count == 0 || |rest| < V5_RECORD then []
    else [V5Record(rest[..V5_RECORD])] + V5Records(rest[V5_RECORD..], count - 1)
  }

  function ParseV5(data: seq<byte>, max: nat): seq<FlowRecord> {
    if |data| < V5_HEADER || U16(data) != 5 then []
    else V5Records(data[V5_HEADER..], Min(U16(data[2..]), max))
  }

  method ParseNetflowV5(data: seq<byte>, maxRecords: nat) returns (flows: seq<FlowRecord>)
    ensures flows == ParseV5(data, maxRecords)
  {
    flows := [];
    if |data| < V5_HEADER {
      return;
    }
    var version, count := U16(data), U16(data[2..]);
    if version != 5 {
      return;
    }
    var offset := V5_HEADER;
    var limit := Min(count, maxRecords);
    var i := 0;
    while i < limit
      invariant 0 <= i <= limit && V5_HEADER <= offset <= |data|
      invariant ParseV5(data, maxRecords) == flows + V5Records(data[offset..], limit - i)
    {
      var end := offset + V5_RECORD;
      if end > |data| {
        break;
      }
      var r := data[offset..end];
      assert data[offset..][..V5_RECORD] == r && data[offset..][V5_RECORD..] == data[end..];
      flows := flows + [V5Record(r)];
      offset := end;
      i := i + 1;
    }
  }

  // ------------------------------------------------------------------ dispatch

  /** Flows and new table for a whole datagram. */
  function ParseDatagram(data: seq<byte>, table: Templates, max: nat): (r: (Templates, seq<FlowRecord>)) {
    if |data| < 2 then (table, [])
    else if U16(data) == 5 then (table, ParseV5(data, max))
    else if U16(data) == 9 then ParseDialect(data, V9, table, max)
    else if U16(data) == 10 then ParseDialect(data, IPFIX, table, max)
    else (table, [])
  }

  function ParseDialect(data: seq<byte>, d: Dialect, table: Templates, max: nat): (Templates, seq<FlowRecord>) {
    if |data| < d.headerLen then (table, [])
    else
      var w := WalkSets(data[d.headerLen..], d, max, Walk(table, [], 0));
      (w.templates, w.flows)
  }

  method ParseNetflow(data: seq<byte>, table: TemplateTable, maxRecords: nat) returns (flows: seq<FlowRecord>)
    modifies table
    ensures (table.dict, flows) == ParseDatagram(data, old(table.dict), maxRecords)
  {
    flows := [];
    if |data| < 2 {
      return;
    }
    var version := U16(data);
    if version == 5 {
      flows := ParseNetflowV5(data, maxRecords);
    } else if version == 9 {
      if |data| >= V9.headerLen {
        flows := ParseV9Like(data, table, V9, maxRecords);
      }
    } else if version == 10 {
      if |data| >= IPFIX.headerLen {
        flows := ParseV9Like(data, table, IPFIX, maxRecords);
      }
    }
  }

  // ------------------------------------------------- bounds on every byte string

  lemma {:induction false} DecodeRecordsBound(fields: Template, size: nat, body: seq<byte>, count: nat)
    ensures |DecodeRecords(fields, size, body, count)| <= count
  {
    if count > 0 && |body| >= size {
      DecodeRecordsBound(fields, size, body[size..], count - 1);
    }
  }

  lemma WalkSetBound(setId: nat, body: seq<byte>, d: Dialect, max: nat, w: Walk)
    requires |w.flows| <= w.seen <= max
    ensures var r := WalkSet(setId, body, d, max, w).0; |r.flows| <= r.seen && w.flows <= r.flows
  {
    if setId >= 256 && setId in w.templates.items && RecordLength(w.templates.items[setId]) > 0 {
      var fields := w.templates.items[setId];
      var count := Min(|body| / RecordLength(fields), max - w.seen);
      DecodeRecordsBound(fields, RecordLength(fields), body, count);
    }
  }

  lemma {:induction false} WalkBound(rest: seq<byte>, d: Dialect, max: nat, w: Walk)
    requires |w.flows| <= w.seen <= max
    ensures var r := WalkSets(rest, d, max, w); |r.flows| <= r.seen && w.flows <= r.flows
    decreases |rest|
  {
    if |rest| >= 4 && 4 <= U16(rest[2..]) <= |rest| {
      var setLen := U16(rest[2..]);
      WalkSetBound(U16(rest), rest[4..setLen], d, max, w);
      var (w', stop) := WalkSet(U16(rest), rest[4..setLen], d, max, w);
      if !stop {
        WalkBound(rest[setLen..], d, max, w');
      }
    }
  }

  lemma {:induction false} V5Bound(rest: seq<byte>, count: nat)
    ensures |V5Records(rest, count)| <= count
  {
    if count > 0 && |rest| >= V5_RECORD {
      V5Bound(rest[V5_RECORD..], count - 1);
    }
  }

  /** Whatever the bytes and the table, at most `max` records come out. */
  lemma DatagramBound(data: seq<byte>, table: Templates, max: nat)
    ensures |ParseDatagram(data, table, max).1| <= max
  {
    if |data| >= 2 {
      if U16(data) == 5 && |data| >= V5_HEADER {
        V5Bound(data[V5_HEADER..], Min(U16(data[2..]), max));
      } else if U16(data) == 9 && |data| >= V9.headerLen {
        WalkBound(data[V9.headerLen..], V9, max, Walk(table, [], 0));
      } else if U16(data) == 10 && |data| >= IPFIX.headerLen {
        WalkBound(data[IPFIX.headerLen..], IPFIX, max, Walk(table, [], 0));
      }
    }
  }
}
