/** Encoders for NetFlow v9 (section 5 of RFC 3954) and IPFIX (section 3 of RFC 7011)
    and the theorem that the set walker undoes them. */
module FlowEncoder {
  import opened Basics
  import opened OrderedDict
  import opened FlowCodec
  import opened FlowWalker

  // -------------------------------------------------------- abstract messages

  /** A field specifier; an enterprise-specific one carries its enterprise number. */
  datatype TemplateField = TemplateField(id: nat, len: nat, enterprise: Option<nat>)

  datatype TemplateRecord = TemplateRecord(id: nat, fields: seq<TemplateField>)

  datatype FlowSet =
    | TemplateSet(templates: seq<TemplateRecord>, padding: seq<byte>)
    | DataSet(templateId: nat, records: seq<seq<seq<byte>>>, padding: seq<byte>)
    | OtherSet(id: nat, content: seq<byte>)

  ghost predicate ValidField(f: TemplateField, ipfix: bool) {
    && f.len < 0x1_0000
    && (if ipfix then f.id < 0x8000 && (f.enterprise.Some? ==> f.enterprise.value < 0x1_0000_0000)
        else f.id < 0x1_0000 && f.enterprise.None?)
  }

  ghost predicate ValidTemplate(t: TemplateRecord, ipfix: bool) {
    && t.id < 0x1_0000 && |t.fields| < 0x1_0000
    && forall f :: f in t.fields ==> ValidField(f, ipfix)
  }

  /** The entry the parser keeps of a field specifier. */
  function Strip(f: TemplateField): Field { Field(f.id, f.len) }

  function StripAll(fields: seq<TemplateField>): Template {
    seq(|fields|, i requires 0 <= i < |fields| => Strip(fields[i]))
  }

  /** A set that may be sent while the receiver's table is `table`. */
  ghost predicate ValidSet(s: FlowSet, d: Dialect, table: Templates) {
    match s
    case TemplateSet(ts, padding) =>
      && (forall t :: t in ts ==> ValidTemplate(t, d.Ipfix()))
      && |padding| < 4 && |EncodeTemplates(ts, d.Ipfix())| + |padding| + 4 < 0x1_0000
    case DataSet(tid, records, padding) =>
      && 256 <= tid < 0x1_0000 && |EncodeRecords(records)| + |padding| + 4 < 0x1_0000
      && (tid in table.items ==>
            && |padding| < RecordLength(table.items[tid])
            && forall r :: r in records ==> Conforms(table.items[tid], r))
    case OtherSet(id, content) =>
      && (id == d.optionsSetId || id < 256) && id != d.templateSetId
      && |content| + 4 < 0x1_0000
  }

  // ------------------------------------------------------------------ encoders

  function EncodeField(f: TemplateField, ipfix: bool): seq<byte>
    requires ValidField(f, ipfix)
  {
    match f.enterprise
    case None => Put16(f.id) + Put16(f.len)
    case Some(number) => Put16(f.id + 0x8000) + Put16(f.len) + Put32(number)
  }

  ghost function EncodeFields(fields: seq<TemplateField>, ipfix: bool): seq<byte>
    requires forall f :: f in fields ==> ValidField(f, ipfix)
  {
    if fields == [] then [] else EncodeField(fields[0], ipfix) + EncodeFields(fields[1..], ipfix)
  }

  ghost function EncodeTemplate(t: TemplateRecord, ipfix: bool): seq<byte>
    requires ValidTemplate(t, ipfix)
  {
    Put16(t.id) + Put16(|t.fields|) + EncodeFields(t.fields, ipfix)
  }

  ghost function EncodeTemplates(ts: seq<TemplateRecord>, ipfix: bool): seq<byte>
    requires forall t :: t in ts ==> ValidTemplate(t, ipfix)
  {
    if ts == [] then [] else EncodeTemplate(ts[0], ipfix) + EncodeTemplates(ts[1..], ipfix)
  }

  function EncodeRecords(records: seq<seq<seq<byte>>>): seq<byte> {
    if records == [] then [] else EncodeValues(records[0]) + EncodeRecords(records[1..])
  }

  ghost function SetId(s: FlowSet, d: Dialect): nat {
    match s
    case TemplateSet(_, _) => d.templateSetId
    case DataSet(tid, _, _) => tid
    case OtherSet(id, _) => id
  }

  ghost function SetBody(s: FlowSet, d: Dialect, table: Templates): seq<byte>
    requires ValidSet(s, d, table)
  {
    match s
    case TemplateSet(ts, padding) => EncodeTemplates(ts, d.Ipfix()) + padding
    case DataSet(_, records, padding) => EncodeRecords(records) + padding
    case OtherSet(_, content) => content
  }

  ghost function EncodeSet(s: FlowSet, d: Dialect, table: Templates): seq<byte>
    requires ValidSet(s, d, table) && d.templateSetId < 0x1_0000 && d.optionsSetId < 0x1_0000
  {
    var body := SetBody(s, d, table);
    Put16(SetId(s, d)) + Put16(4 + |body|) + body
  }

  // ------------------------------------------------------------ interpretation

  /** What a receiver should make of one set, without any bytes. */
  function Register(table: Templates, ts: seq<TemplateRecord>): Templates
    decreases |ts|
  {
    if ts == [] then table
    else Register(RegisterOne(table, ts[0]), ts[1..])
  }

  /** The flows meant by the first `count` records. */
  ghost function Meanings(fields: Template, records: seq<seq<seq<byte>>>, count: nat): seq<FlowRecord>
    requires forall r :: r in records ==> Conforms(fields, r)
    requires count <= |records|
  {
    if count == 0 then []
    else
      assert Conforms(fields, records[0]);
      AsFlows(Meaning(fields, records[0])) + Meanings(fields, records[1..], count - 1)
  }

  ghost function InterpretSet(s: FlowSet, d: Dialect, max: nat, w: Walk): (r: (Walk, bool))
    requires ValidSet(s, d, w.templates) && w.seen <= max
    ensures r.0.seen <= max
  {
    match s
    case TemplateSet(ts, _) => (w.(templates := Register(w.templates, ts)), false)
    case OtherSet(_, _) => (w, false)
    case DataSet(tid, records, _) =>
      if tid !in w.templates.items then (w, false)
      else
        var count := Min(|records|, max - w.seen);
        var flows := Meanings(w.templates.items[tid], records, count);
        (w.(flows := w.flows + flows, seen := w.seen + count), w.seen + count >= max)
  }

  /** A message every set of which is valid for the table its predecessors leave. */
  ghost predicate ValidMessage(sets: seq<FlowSet>, d: Dialect, max: nat, w: Walk)
    requires w.seen <= max
    decreases |sets|
  {
    sets != [] ==>
      && ValidSet(sets[0], d, w.templates)
      && var (w', stop) := InterpretSet(sets[0], d, max, w);
         ValidMessage(sets[1..], d, max, w')
  }

  ghost function EncodeSets(sets: seq<FlowSet>, d: Dialect, max: nat, w: Walk): seq<byte>
    requires w.seen <= max && ValidMessage(sets, d, max, w)
    requires d.templateSetId < 0x1_0000 && d.optionsSetId < 0x1_0000
    decreases |sets|
  {
    if sets == [] then []
    else
      var (w', stop) := InterpretSet(sets[0], d, max, w);
      EncodeSet(sets[0], d, w.templates) + EncodeSets(sets[1..], d, max, w')
  }

  ghost function Interpret(sets: seq<FlowSet>, d: Dialect, max: nat, w: Walk): (r: Walk)
    requires w.seen <= max && ValidMessage(sets, d, max, w)
    ensures r.seen <= max
    decreases |sets|
  {
    if sets == [] then w
    else
      var (w', stop) := InterpretSet(sets[0], d, max, w);
      if stop then w' else Interpret(sets[1..], d, max, w')
  }

  // ---------------------------------------------------------- template sets

  lemma ReadFieldUndoesEncode(f: TemplateField, tail: seq<byte>, ipfix: bool)
    requires ValidField(f, ipfix)
    ensures ReadField(EncodeField(f, ipfix) + tail, ipfix) == (Strip(f), tail)
  {
    var b := EncodeField(f, ipfix) + tail;
    match f.enterprise
    case None =>
      assert b[2..] == Put16(f.len) + tail;
      assert b[4..] == tail;
      assert U16(b) == f.id;
    case Some(number) =>
      assert b[2..] == Put16(f.len) + Put32(number) + tail;
      assert b[4..] == Put32(number) + tail;
      assert U16(b) == f.id + 0x8000;
      assert Skip4(b[4..]) == tail;
  }

  lemma {:induction false} ReadFieldsUndoesEncode(fields: seq<TemplateField>, tail: seq<byte>, ipfix: bool)
    requires forall f :: f in fields ==> ValidField(f, ipfix)
    ensures ReadFields(EncodeFields(fields, ipfix) + tail, |fields|, ipfix) == FieldList(StripAll(fields), tail, true)
  {
    if fields == [] {
      assert EncodeFields(fields, ipfix) + tail == tail;
    } else {
      var after := EncodeFields(fields[1..], ipfix) + tail;
      assert EncodeFields(fields, ipfix) + tail == EncodeField(fields[0], ipfix) + after;
      ReadFieldUndoesEncode(fields[0], after, ipfix);
      ReadFieldsUndoesEncode(fields[1..], tail, ipfix);
      assert StripAll(fields) == [Strip(fields[0])] + StripAll(fields[1..]);
    }
  }

  lemma TwoWords(first: nat, second: nat, rest: seq<byte>)
    requires first < 0x1_0000 && second < 0x1_0000
    ensures var b := Put16(first) + Put16(second) + rest;
            |b| == 4 + |rest| && U16(b) == first && U16(b[2..]) == second && b[4..] == rest
  {
    var b := Put16(first) + Put16(second) + rest;
    assert b[2..] == Put16(second) + rest;
  }

  function RegisterOne(table: Templates, t: TemplateRecord): Templates {
    if t.fields == [] then table else table.Put(t.id, StripAll(t.fields))
  }

  lemma ReadTemplateUndoesEncode(t: TemplateRecord, after: seq<byte>, ipfix: bool, acc: Templates)
    requires ValidTemplate(t, ipfix)
    ensures ReadTemplates(EncodeTemplate(t, ipfix) + after, ipfix, acc)
            == ReadTemplates(after, ipfix, RegisterOne(acc, t))
  {
    var fields := EncodeFields(t.fields, ipfix) + after;
    assert EncodeTemplate(t, ipfix) + after == Put16(t.id) + Put16(|t.fields|) + fields;
    TwoWords(t.id, |t.fields|, fields);
    ReadFieldsUndoesEncode(t.fields, after, ipfix);
  }

  lemma {:induction false} ReadTemplatesUndoesEncode(ts: seq<TemplateRecord>, padding: seq<byte>, ipfix: bool,
      acc: Templates)
    requires forall t :: t in ts ==> ValidTemplate(t, ipfix)
    requires |padding| < 4
    ensures ReadTemplates(EncodeTemplates(ts, ipfix) + padding, ipfix, acc) == Register(acc, ts)
    decreases |ts|
  {
    if ts == [] {
      assert EncodeTemplates(ts, ipfix) + padding == padding;
    } else {
      var after := EncodeTemplates(ts[1..], ipfix) + padding;
      assert EncodeTemplates(ts, ipfix) + padding == EncodeTemplate(ts[0], ipfix) + after;
      ReadTemplateUndoesEncode(ts[0], after, ipfix, acc);
      ReadTemplatesUndoesEncode(ts[1..], padding, ipfix, RegisterOne(acc, ts[0]));
    }
  }

  lemma {:induction false} UpdateCongruent(d: Templates, order: seq<nat>, items: map<nat, Template>,
      items': map<nat, Template>)
    requires forall k :: k in order ==> k in items && k in items' && items[k] == items'[k]
    ensures UpdateFrom(d, order, items) == UpdateFrom(d, order, items')
    ensures forall k :: k in order ==> k in UpdateFrom(d, order, items).items
    decreases |order|
  {
    if order != [] {
      var rest := order[..|order| - 1];
      assert forall k :: k in order <==> k in rest || k == order[|order| - 1];
      UpdateCongruent(d, rest, items, items');
    }
  }

  /** Replacing the value of one key in the source replaces it in the result. */
  lemma {:induction false} UpdateReplace(d: Templates, order: seq<nat>, items: map<nat, Template>, k: nat, v: Template)
    requires Distinct(order) && k in order && forall x :: x in order ==> x in items
    ensures UpdateFrom(d, order, items[k := v]) == UpdateFrom(d, order, items).Put(k, v)
    decreases |order|
  {
    var last := order[|order| - 1];
    var rest := order[..|order| - 1];
    var inner := UpdateFrom(d, rest, items);
    assert order == rest + [last];
    if last == k {
      assert k !in rest;
      UpdateCongruent(d, rest, items, items[k := v]);
      assert inner.items[k := items[k]][k := v] == inner.items[k := v];
    } else {
      UpdateReplace(d, rest, items, k, v);
      UpdateCongruent(d, rest, items, items);
      assert inner.items[k := v][last := items[last]] == inner.items[last := items[last]][k := v];
    }
  }

  /** Updating from a dictionary that received one more template is updating, then putting it. */
  lemma UpdatePut(d: Templates, acc: Templates, k: nat, v: Template)
    requires acc.Valid()
    ensures Update(d, acc.Put(k, v)) == Update(d, acc).Put(k, v)
  {
    if k in acc.items {
      UpdateReplace(d, acc.order, acc.items, k, v);
    } else {
      UpdateCongruent(d, acc.order, acc.items, acc.items[k := v]);
      assert (acc.order + [k])[..|acc.order|] == acc.order;
    }
  }

  lemma UpdateRegisterOne(d: Templates, t: TemplateRecord, acc: Templates)
    requires acc.Valid()
    ensures RegisterOne(acc, t).Valid()
    ensures Update(d, RegisterOne(acc, t)) == RegisterOne(Update(d, acc), t)
  {
    if t.fields != [] {
      PutValid(acc, t.id, StripAll(t.fields));
      UpdatePut(d, acc, t.id, StripAll(t.fields));
    }
  }

  lemma {:induction false} UpdateRegister(d: Templates, ts: seq<TemplateRecord>, acc: Templates)
    requires acc.Valid()
    ensures Register(acc, ts).Valid()
    ensures Update(d, Register(acc, ts)) == Register(Update(d, acc), ts)
    decreases |ts|
  {
    if ts != [] {
      UpdateRegisterOne(d, ts[0], acc);
      UpdateRegister(d, ts[1..], RegisterOne(acc, ts[0]));
    }
  }

  // --------------------------------------------------------------- data sets

  lemma {:induction false} EncodeRecordsLength(fields: Template, records: seq<seq<seq<byte>>>)
    requires forall r :: r in records ==> Conforms(fields, r)
    ensures |EncodeRecords(records)| == |records| * RecordLength(fields)
  {
    if records != [] {
      EncodeRecordsLength(fields, records[1..]);
      EncodeValuesLength(fields, records[0]);
      RecordInside(|records| - 1, |records|, RecordLength(fields));
    }
  }

  /** The first `count` records of the body decode to their meanings. */
  lemma {:induction false} DecodeRecordsUndoesEncode(
    fields: Template, records: seq<seq<seq<byte>>>, padding: seq<byte>, count: nat)
    requires forall r :: r in records ==> Conforms(fields, r)
    requires count <= |records|
    ensures DecodeRecords(fields, RecordLength(fields), EncodeRecords(records) + padding, count)
            == Meanings(fields, records, count)
  {
    if count > 0 {
      var body, after := EncodeRecords(records) + padding, EncodeRecords(records[1..]) + padding;
      EncodeValuesLength(fields, records[0]);
      assert body == EncodeValues(records[0]) + after;
      DecodeUndoesEncode(fields, records[0]);
      DecodeRecordsUndoesEncode(fields, records[1..], padding, count - 1);
    }
  }

  lemma CountOfBody(records: nat, size: nat, padding: nat)
    requires padding < size
    ensures (records * size + padding) / size == records
  {
    var n := records * size + padding;
    var q := n / size;
    assert q * size <= n < q * size + size;
    if q > records {
      RecordInside(records, q, size);
    } else if q < records {
      RecordInside(q, records, size);
    }
  }

  // ------------------------------------------------------------- whole messages

  /** The division by the record length recovers the number of records. */
  lemma DataCount(fields: Template, records: seq<seq<seq<byte>>>, padding: seq<byte>)
    requires forall r :: r in records ==> Conforms(fields, r)
    requires |padding| < RecordLength(fields)
    ensures |EncodeRecords(records) + padding| / RecordLength(fields) == |records|
  {
    EncodeRecordsLength(fields, records);
    CountOfBody(|records|, RecordLength(fields), |padding|);
  }

  lemma WalkDataUndoesEncode(fields: Template, records: seq<seq<seq<byte>>>, padding: seq<byte>, max: nat, w: Walk)
    requires w.seen <= max && |padding| < RecordLength(fields)
    requires forall r :: r in records ==> Conforms(fields, r)
    ensures var count := Min(|records|, max - w.seen);
            WalkData(EncodeRecords(records) + padding, fields, RecordLength(fields), max, w)
            == w.(flows := w.flows + Meanings(fields, records, count), seen := w.seen + count)
  {
    DataCount(fields, records, padding);
    var count := Min(|records|, max - w.seen);
    DecodeRecordsUndoesEncode(fields, records, padding, count);
    WalkDataCount(EncodeRecords(records) + padding, fields, RecordLength(fields), max, w, count);
  }

  lemma WalkTemplatesUndoesEncode(ts: seq<TemplateRecord>, padding: seq<byte>, ipfix: bool, table: Templates)
    requires forall t :: t in ts ==> ValidTemplate(t, ipfix)
    requires |padding| < 4
    ensures UpdateWith(table, EncodeTemplates(ts, ipfix) + padding, ipfix) == Register(table, ts)
  {
    ReadTemplatesUndoesEncode(ts, padding, ipfix, Empty());
    UpdateRegister(table, ts, Empty());
    assert Update(table, Empty()) == table;
  }

  /** One encoded set is walked exactly as it is interpreted. */
  lemma WalkSetUndoesEncode(s: FlowSet, d: Dialect, max: nat, w: Walk)
    requires w.seen <= max && ValidSet(s, d, w.templates)
    requires d == V9 || d == IPFIX
    ensures WalkSet(SetId(s, d), SetBody(s, d, w.templates), d, max, w) == InterpretSet(s, d, max, w)
  {
    match s
    case TemplateSet(ts, padding) =>
      WalkTemplatesUndoesEncode(ts, padding, d.Ipfix(), w.templates);
    case OtherSet(_, _) =>
    case DataSet(tid, records, padding) =>
      if tid in w.templates.items {
        var fields := w.templates.items[tid];
        var body, size := EncodeRecords(records) + padding, RecordLength(fields);
        WalkDataUndoesEncode(fields, records, padding, max, w);
        var w' := WalkData(body, fields, size, max, w);
        assert WalkSet(tid, body, d, max, w) == (w', w'.seen >= max);
      }
  }

  lemma SetHeader(s: FlowSet, d: Dialect, table: Templates, tail: seq<byte>)
    requires ValidSet(s, d, table)
    requires d == V9 || d == IPFIX
    ensures var b, len := EncodeSet(s, d, table) + tail, 4 + |SetBody(s, d, table)|;
            && len <= |b| && U16(b) == SetId(s, d) && U16(b[2..]) == len
            && b[4..len] == SetBody(s, d, table) && b[len..] == tail
  {
    var body := SetBody(s, d, table);
    var b := EncodeSet(s, d, table) + tail;
    assert b == Put16(SetId(s, d)) + Put16(4 + |body|) + (body + tail);
    TwoWords(SetId(s, d), 4 + |body|, body + tail);
    assert b[4..4 + |body|] == b[4..][..|body|] == body;
    assert b[4 + |body|..] == b[4..][|body|..];
  }

  /** The parser undoes the encoder: over any message of template, data and other sets,
      whatever the padding and the table it starts from. */
  lemma {:induction false} WalkUndoesEncode(sets: seq<FlowSet>, d: Dialect, max: nat, w: Walk)
    requires w.seen <= max && ValidMessage(sets, d, max, w)
    requires d == V9 || d == IPFIX
    ensures WalkSets(EncodeSets(sets, d, max, w), d, max, w) == Interpret(sets, d, max, w)
    decreases |sets|
  {
    if sets != [] {
      var (w', stop) := InterpretSet(sets[0], d, max, w);
      var tail := EncodeSets(sets[1..], d, max, w');
      SetHeader(sets[0], d, w.templates, tail);
      WalkSetUndoesEncode(sets[0], d, max, w);
      if !stop {
        WalkUndoesEncode(sets[1..], d, max, w');
      }
    }
  }

  ghost predicate IsHeader(header: seq<byte>, d: Dialect) {
    |header| == d.headerLen && |header| >= 2 && U16(header) == (if d == V9 then 9 else 10)
  }

  /** The same for a whole datagram and the dispatcher. */
  lemma DatagramUndoesEncode(header: seq<byte>, sets: seq<FlowSet>, d: Dialect, max: nat, table: Templates)
    requires d == V9 || d == IPFIX
    requires IsHeader(header, d)
    requires ValidMessage(sets, d, max, Walk(table, [], 0))
    ensures var w := Walk(table, [], 0);
            var r := Interpret(sets, d, max, w);
            ParseDatagram(header + EncodeSets(sets, d, max, w), table, max) == (r.templates, r.flows)
  {
    var w := Walk(table, [], 0);
    var data := header + EncodeSets(sets, d, max, w);
    assert data[d.headerLen..] == EncodeSets(sets, d, max, w);
    assert U16(data) == U16(header);
    WalkUndoesEncode(sets, d, max, w);
  }

  lemma OneSet(header: seq<byte>, s: FlowSet, d: Dialect, max: nat, table: Templates)
    requires d == V9 || d == IPFIX
    requires IsHeader(header, d) && ValidSet(s, d, table)
    ensures var w := InterpretSet(s, d, max, Walk(table, [], 0)).0;
            ParseDatagram(header + EncodeSet(s, d, table), table, max) == (w.templates, w.flows)
  {
    var w, sets := Walk(table, [], 0), [s];
    assert sets[1..] == [];
    assert EncodeSets(sets, d, max, w) == EncodeSet(s, d, table) + [] == EncodeSet(s, d, table);
    DatagramUndoesEncode(header, sets, d, max, table);
  }

  lemma AnnounceTemplate(header: seq<byte>, t: TemplateRecord, d: Dialect, max: nat, table: Templates)
    requires d == V9 || d == IPFIX
    requires IsHeader(header, d) && ValidSet(TemplateSet([t], []), d, table)
    ensures ParseDatagram(header + EncodeSet(TemplateSet([t], []), d, table), table, max).0 == RegisterOne(table, t)
  {
    OneSet(header, TemplateSet([t], []), d, max, table);
    assert [t][1..] == [];
    assert Register(table, [t]) == RegisterOne(table, t);
  }

  lemma DataUnderTemplate(
    header: seq<byte>, tid: nat, records: seq<seq<seq<byte>>>, padding: seq<byte>, d: Dialect, max: nat,
    table: Templates)
    requires d == V9 || d == IPFIX
    requires IsHeader(header, d) && ValidSet(DataSet(tid, records, padding), d, table) && tid in table.items
    ensures ParseDatagram(header + EncodeSet(DataSet(tid, records, padding), d, table), table, max).1
            == Meanings(table.items[tid], records, Min(|records|, max))
  {
    OneSet(header, DataSet(tid, records, padding), d, max, table);
  }

  /** A template announced in one datagram decodes the records of a later one: exactly the
      meanings of its first `max` records come back. */
  lemma TemplateThenData(
    header: seq<byte>, t: TemplateRecord, later: seq<byte>, records: seq<seq<seq<byte>>>,
    padding: seq<byte>, d: Dialect, max: nat, table: Templates)
    requires d == V9 || d == IPFIX
    requires IsHeader(header, d) && IsHeader(later, d)
    requires t.fields != [] && ValidSet(TemplateSet([t], []), d, table)
    requires ValidSet(DataSet(t.id, records, padding), d, RegisterOne(table, t))
    ensures forall r :: r in records ==> Conforms(StripAll(t.fields), r)
    ensures var announce := header + EncodeSet(TemplateSet([t], []), d, table);
            var data := later + EncodeSet(DataSet(t.id, records, padding), d, RegisterOne(table, t));
            var learned := ParseDatagram(announce, table, max).0;
            ParseDatagram(data, learned, max).1 == Meanings(StripAll(t.fields), records, Min(|records|, max))
  {
    AnnounceTemplate(header, t, d, max, table);
    var learned := RegisterOne(table, t);
    assert t.id in learned.items && learned.items[t.id] == StripAll(t.fields);
    DataUnderTemplate(later, t.id, records, padding, d, max, learned);
  }

  // ------------------------------------------------------------------- NetFlow v5

  /** The fields of a v5 record that the parser keeps, and the bytes it skips. */
  datatype V5Entry = V5Entry(src: seq<byte>, dst: seq<byte>, octets: nat, srcPort: nat, dstPort: nat,
                             protocol: byte, skipped: seq<byte>)

  ghost predicate ValidEntry(e: V5Entry) {
    && |e.src| == 4 && |e.dst| == 4 && |e.skipped| == 31
    && e.octets < 0x1_0000_0000 && e.srcPort < 0x1_0000 && e.dstPort < 0x1_0000
  }

  function EncodeV5Entry(e: V5Entry): seq<byte>
    requires ValidEntry(e)
  {
    e.src + e.dst + e.skipped[..12] + Put32(e.octets) + e.skipped[12..20]
    + Put16(e.srcPort) + Put16(e.dstPort) + e.skipped[20..22] + [e.protocol] + e.skipped[22..]
  }

  ghost function EncodeV5Entries(es: seq<V5Entry>): seq<byte>
    requires forall e :: e in es ==> ValidEntry(e)
  {
    if es == [] then [] else EncodeV5Entry(es[0]) + EncodeV5Entries(es[1..])
  }

  function V5Flow(e: V5Entry): FlowRecord {
    FlowRecord(V4(e.src), e.srcPort, V4(e.dst), e.dstPort, ProtoName(e.protocol), e.octets)
  }

  lemma V5EntryUndoesEncode(e: V5Entry)
    requires ValidEntry(e)
    ensures |EncodeV5Entry(e)| == V5_RECORD && V5Record(EncodeV5Entry(e)) == V5Flow(e)
  {
    var b := EncodeV5Entry(e);
    assert b[0..4] == e.src && b[4..8] == e.dst;
    assert b[20..24] == Put32(e.octets);
    assert U32(b[20..]) == U32(b[20..24]) by {
      assert b[20..][2..][..2] == b[20..24][2..];
    }
    assert b[32..34] == Put16(e.srcPort) && b[34..36] == Put16(e.dstPort);
    assert U16(b[32..]) == U16(b[32..34]) && U16(b[34..]) == U16(b[34..36]);
  }

  lemma {:induction false} V5EntriesUndoEncode(es: seq<V5Entry>, count: nat)
    requires forall e :: e in es ==> ValidEntry(e)
    requires count <= |es|
    ensures V5Records(EncodeV5Entries(es), count) == seq(count, i requires 0 <= i < count => V5Flow(es[i]))
    decreases count
  {
    if count > 0 {
      V5EntryUndoesEncode(es[0]);
      var b := EncodeV5Entries(es);
      assert b[..V5_RECORD] == EncodeV5Entry(es[0]) && b[V5_RECORD..] == EncodeV5Entries(es[1..]);
      V5EntriesUndoEncode(es[1..], count - 1);
    }
  }

  /** A v5 packet gives back its records, the first `max` of them. */
  lemma V5UndoesEncode(header: seq<byte>, es: seq<V5Entry>, max: nat, table: Templates)
    requires |header| == V5_HEADER && U16(header) == 5 && U16(header[2..]) == |es|
    requires forall e :: e in es ==> ValidEntry(e)
    ensures var count := Min(|es|, max);
            ParseDatagram(header + EncodeV5Entries(es), table, max)
            == (table, seq(count, i requires 0 <= i < count => V5Flow(es[i])))
  {
    var data := header + EncodeV5Entries(es);
    assert data[V5_HEADER..] == EncodeV5Entries(es);
    assert U16(data) == U16(header) && U16(data[2..]) == U16(header[2..]);
    V5EntriesUndoEncode(es, Min(|es|, max));
  }
}
