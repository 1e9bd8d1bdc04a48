/** Export packets in numbers: which bytes carry which value, most significant byte first, and which
    element is which attribute.  Nothing here is phrased through the decoder's own vocabulary. */
module FlowWire {
  import opened Basics
  import opened OrderedDict
  import opened FlowCodec
  import opened FlowWalker
  import opened FlowEncoder

  // ------------------------------------------------------------------ network order

  function Power(n: nat): (p: nat)
    ensures p > 0
  {
    if n == 0 then 1 else 256 * Power(n - 1)
  }

  /** `n` bytes that carry `v`, most significant first (RFC 1700). */
  function NetworkOrder(v: nat, n: nat): (b: seq<byte>)
    requires v < Power(n)
    ensures |b| == n
    decreases n
  {
    if n == 0 then []
    else
      var unit := Power(n - 1);
      Leading(v, unit);
      [v / unit] + NetworkOrder(v % unit, n - 1)
  }

  lemma Leading(v: nat, unit: nat)
    requires unit > 0 && v < 256 * unit
    ensures 0 <= v / unit < 256 && v == (v / unit) * unit + v % unit
  {
    AtMost(v / unit, 256, unit);
  }

  lemma AtMost(q: nat, bound: nat, unit: nat)
    ensures q >= bound ==> q * unit >= bound * unit
  {
    if q >= bound {
      assert (q - bound) * unit >= 0;
    }
  }

  /** The first byte counts 256 to the power of the bytes after it. */
  lemma {:induction false} MostSignificantFirst(first: byte, rest: seq<byte>)
    ensures FromBytes([first] + rest) == first * Power(|rest|) + FromBytes(rest)
  {
    var b := [first] + rest;
    if rest == [] {
      assert FromBytes(b[..0]) == 0;
    } else {
      var front := rest[..|rest| - 1];
      MostSignificantFirst(first, front);
      assert b[..|b| - 1] == [first] + front;
      assert (first * Power(|front|) + FromBytes(front)) * 256 == first * Power(|rest|) + FromBytes(front) * 256;
    }
  }

  lemma {:induction false} NumberIsRead(v: nat, n: nat)
    requires v < Power(n)
    ensures FromBytes(NetworkOrder(v, n)) == v
    decreases n
  {
    if n > 0 {
      var unit := Power(n - 1);
      Leading(v, unit);
      NumberIsRead(v % unit, n - 1);
      MostSignificantFirst(v / unit, NetworkOrder(v % unit, n - 1));
    }
  }

  /** The words of headers and sets are in network order too. */
  lemma WordsAreRead(n: nat)
    ensures n < 0x1_0000 ==> FromBytes(Put16(n)) == n && Put16(n) == NetworkOrder(n, 2)
    ensures n < 0x1_0000_0000 ==> FromBytes(Put32(n)) == n
  {
    assert Power(0) == 1 && Power(1) == 256 && Power(2) == 0x1_0000;
    if n < 0x1_0000 {
      TwoBytes(Put16(n));
      assert NetworkOrder(n, 2) == [n / 256] + NetworkOrder(n % 256, 1);
      assert NetworkOrder(n % 256, 1) == [n % 256] + NetworkOrder(0, 0);
    }
    if n < 0x1_0000_0000 {
      FourBytes(Put32(n));
    }
  }

  lemma TwoBytes(b: seq<byte>)
    requires |b| == 2
    ensures FromBytes(b) == b[0] as nat * 256 + b[1] as nat == U16(b)
  {
    assert b[..1] == [b[0]] && b[..1][..0] == [];
    assert FromBytes([]) == 0;
    assert FromBytes(b[..1]) == b[0] as nat;
  }

  lemma FourBytes(b: seq<byte>)
    requires |b| == 4
    ensures FromBytes(b) == U32(b)
  {
    assert b[..3][..2] == b[..2];
    TwoBytes(b[..2]);
  }

  // -------------------------------------------------------------- one data record

  predicate IsSource(f: Field) { (f.ftype == 8 && f.flen == 4) || (f.ftype == 27 && f.flen == 16) }
  predicate IsDestination(f: Field) { (f.ftype == 12 && f.flen == 4) || (f.ftype == 28 && f.flen == 16) }

  /** The last field for which `such` holds. */
  ghost predicate LastOf(fields: Template, i: nat, such: Field -> bool) {
    i < |fields| && such(fields[i]) && forall j :: i < j < |fields| ==> !such(fields[j])
  }

  lemma {:induction false} LastIsValue(fields: Template, values: seq<seq<byte>>, i: nat, a: Attribute)
    requires |values| == |fields| && LastOf(fields, i, (f: Field) => Carries(f, a))
    ensures LastValue(fields, values, a) == Some(values[i])
  {
    var last := |fields| - 1;
    if i < last {
      LastIsValue(fields[..last], values[..last], i, a);
    }
  }

  lemma {:induction false} NoneIsNothing(fields: Template, values: seq<seq<byte>>, a: Attribute)
    requires |values| == |fields| && forall f :: f in fields ==> !Carries(f, a)
    ensures LastValue(fields, values, a) == None
  {
    if fields != [] {
      var last := |fields| - 1;
      assert fields[last] in fields;
      NoneIsNothing(fields[..last], values[..last], a);
    }
  }

  /** The protocol numbers with names. */
  predicate Names(p: Protocol, number: nat) {
    match p
    case Icmp => number == 1
    case Tcp => number == 6
    case Udp => number == 17
    case Numbered(n) => n == number && number != 1 && number != 6 && number != 17
  }

  /** A record that is decoded reports, for each number, what the last field of that element holds in
      network order, whatever its length: 7 is the source port, 11 the destination port, 4 the protocol
      and 1 the octets. */
  lemma NumbersAreRead(fields: Template, values: seq<seq<byte>>, i: nat, v: nat)
    requires Conforms(fields, values) && Decode(fields, EncodeValues(values)).Some?
    requires i < |fields| && LastOf(fields, i, (f: Field) => f.ftype == fields[i].ftype)
    requires v < Power(fields[i].flen) && values[i] == NetworkOrder(v, fields[i].flen)
    ensures var r := Decode(fields, EncodeValues(values)).value;
            match fields[i].ftype
            case 7 => r.srcPort == v
            case 11 => r.dstPort == v
            case 1 => r.size == v
            case 4 => Names(r.protocol, v)
            case _ => true
  {
    DecodeUndoesEncode(fields, values);
    NumberIsRead(v, fields[i].flen);
    match fields[i].ftype
    case 7 => LastIsValue(fields, values, i, SrcPort);
    case 11 => LastIsValue(fields, values, i, DstPort);
    case 1 => LastIsValue(fields, values, i, Octets);
    case 4 => LastIsValue(fields, values, i, Proto);
    case _ =>
  }

  /** The addresses are the bytes of the last source field (8 or 27) and the last destination field (12
      or 28) of the right length, and a record is decoded exactly when it has both. */
  lemma AddressesAreRead(fields: Template, values: seq<seq<byte>>, i: nat, j: nat)
    requires Conforms(fields, values) && LastOf(fields, i, IsSource) && LastOf(fields, j, IsDestination)
    ensures Decode(fields, EncodeValues(values)).Some?
    ensures var r := Decode(fields, EncodeValues(values)).value;
            && r.src == (if fields[i].flen == 4 then V4(values[i]) else V6(values[i]))
            && r.dst == (if fields[j].flen == 4 then V4(values[j]) else V6(values[j]))
  {
    DecodeUndoesEncode(fields, values);
    LastIsValue(fields, values, i, SrcAddress);
    LastIsValue(fields, values, j, DstAddress);
  }

  lemma MissingIsRefused(fields: Template, values: seq<seq<byte>>)
    requires Conforms(fields, values)
    requires (forall f :: f in fields ==> !IsSource(f)) || (forall f :: f in fields ==> !IsDestination(f))
    ensures Decode(fields, EncodeValues(values)) == None
  {
    DecodeUndoesEncode(fields, values);
    if forall f :: f in fields ==> !IsSource(f) {
      NoneIsNothing(fields, values, SrcAddress);
    } else {
      NoneIsNothing(fields, values, DstAddress);
    }
  }

  /** A number the template does not carry is 0. */
  lemma MissingIsZero(fields: Template, values: seq<seq<byte>>)
    requires Conforms(fields, values) && Decode(fields, EncodeValues(values)).Some?
    ensures var r := Decode(fields, EncodeValues(values)).value;
            && ((forall f :: f in fields ==> f.ftype != 7) ==> r.srcPort == 0)
            && ((forall f :: f in fields ==> f.ftype != 11) ==> r.dstPort == 0)
            && ((forall f :: f in fields ==> f.ftype != 1) ==> r.size == 0)
            && ((forall f :: f in fields ==> f.ftype != 4) ==> r.protocol == Numbered(0))
  {
    DecodeUndoesEncode(fields, values);
    if forall f :: f in fields ==> f.ftype != 7 { NoneIsNothing(fields, values, SrcPort); }
    if forall f :: f in fields ==> f.ftype != 11 { NoneIsNothing(fields, values, DstPort); }
    if forall f :: f in fields ==> f.ftype != 1 { NoneIsNothing(fields, values, Octets); }
    if forall f :: f in fields ==> f.ftype != 4 { NoneIsNothing(fields, values, Proto); }
  }

  // ------------------------------------------------------------ whole datagrams

  type word = n: nat | n < 0x1_0000

  /** The words of a datagram or a set. */
  function Words(ns: seq<word>): seq<byte> {
    if ns == [] then [] else Put16(ns[0]) + Words(ns[1..])
  }

  lemma TwoMoreWords(a: word, b: word, rest: seq<word>)
    ensures Words([a, b] + rest) == Put16(a) + Put16(b) + Words(rest)
  {
    WordFirst(b, rest);
    WordFirst(a, [b] + rest);
    hide Words, Put16, U16;
    assert [a, b] + rest == [a] + ([b] + rest);
  }

  lemma WordFirst(a: word, rest: seq<word>)
    ensures Words([a] + rest) == Put16(a) + Words(rest)
  {
    hide Put16, U16;
    var ns := [a] + rest;
    assert ns[1..] == rest;
  }

  /** Element and length of each field, in the order of the template. */
  function Specifiers(fields: seq<TemplateField>): seq<word>
    requires forall i :: 0 <= i < |fields| ==> fields[i].id < 0x1_0000 && fields[i].len < 0x1_0000
  {
    if fields == [] then [] else [fields[0].id, fields[0].len] + Specifiers(fields[1..])
  }

  lemma {:induction false} FieldsAreWords(fields: seq<TemplateField>, ipfix: bool)
    requires forall f :: f in fields ==> f.id < 0x8000 && f.len < 0x1_0000 && f.enterprise == None
    ensures EncodeFields(fields, ipfix) == Words(Specifiers(fields))
  {
    if fields != [] {
      FieldsAreWords(fields[1..], ipfix);
      TwoMoreWords(fields[0].id, fields[0].len, Specifiers(fields[1..]));
    }
  }

  /** Version 9 has 20 bytes of header and announces templates in set 0; IPFIX has 16 and uses set 2.
      `head` is the header after the version. */
  function Header(ipfix: bool, head: seq<byte>): seq<byte> { Put16(if ipfix then 10 else 9) + head }

  function Announcement(ipfix: bool): seq<byte> {
    Words([if ipfix then 2 else 0, 32, 256, 6, 8, 4, 12, 4, 7, 2, 11, 2, 4, 1, 1, 4])
  }

  datatype Wire = Wire(src: seq<byte>, dst: seq<byte>, srcPort: nat, dstPort: nat, protocol: byte, octets: nat)

  ghost predicate ValidWire(w: Wire) {
    |w.src| == 4 && |w.dst| == 4 && w.srcPort < 0x1_0000 && w.dstPort < 0x1_0000 && w.octets < 0x1_0000_0000
  }

  function RecordOf(w: Wire): seq<byte>
    requires ValidWire(w)
  {
    w.src + w.dst + Put16(w.srcPort) + Put16(w.dstPort) + [w.protocol] + Put32(w.octets)
  }

  ghost function ValuesOf(w: Wire): seq<seq<byte>>
    requires ValidWire(w)
  {
    [w.src, w.dst, Put16(w.srcPort), Put16(w.dstPort), [w.protocol], Put32(w.octets)]
  }

  function Announced(): TemplateRecord {
    TemplateRecord(256, [TemplateField(8, 4, None), TemplateField(12, 4, None), TemplateField(7, 2, None),
                         TemplateField(11, 2, None), TemplateField(4, 1, None), TemplateField(1, 4, None)])
  }

  function DialectOf(ipfix: bool): Dialect { if ipfix then IPFIX else V9 }

  lemma AnnouncementIs(ipfix: bool, table: Templates)
    ensures ValidSet(TemplateSet([Announced()], []), DialectOf(ipfix), table)
    ensures EncodeSet(TemplateSet([Announced()], []), DialectOf(ipfix), table) == Announcement(ipfix)
  {
    BodyIs(ipfix);
    hide EncodeTemplates, Words, Put16;
    var body, set0 := EncodeTemplates([Announced()], ipfix), TemplateSet([Announced()], []);
    assert body + [] == body;
    assert SetBody(set0, DialectOf(ipfix), table) == body;
  }

  lemma BodyIs(ipfix: bool)
    ensures ValidTemplate(Announced(), ipfix) && |EncodeTemplates([Announced()], ipfix)| == 28
    ensures Put16(if ipfix then 2 else 0) + Put16(32) + EncodeTemplates([Announced()], ipfix) == Announcement(ipfix)
  {
    hide EncodeTemplates, Words, Put16, U16;
    TemplatesAre(ipfix);
    var words: seq<word> := [256, 6] + [8, 4, 12, 4, 7, 2, 11, 2, 4, 1, 1, 4];
    assert words == [256, 6, 8, 4, 12, 4, 7, 2, 11, 2, 4, 1, 1, 4];
    WordsLength(words);
    var id: word := if ipfix then 2 else 0;
    TwoMoreWords(id, 32, words);
    assert [id, 32] + words == [id, 32, 256, 6, 8, 4, 12, 4, 7, 2, 11, 2, 4, 1, 1, 4];
  }

  lemma TemplatesAre(ipfix: bool)
    ensures ValidTemplate(Announced(), ipfix)
    ensures EncodeTemplates([Announced()], ipfix) == Words([256, 6] + [8, 4, 12, 4, 7, 2, 11, 2, 4, 1, 1, 4])
  {
    SpecifiersAre();
    var t := Announced();
    hide Announced, Words, Specifiers, Put16;
    OneTemplate(t, ipfix);
    TwoMoreWords(256, 6, Specifiers(t.fields));
  }

  /** A template of plain fields as words. */
  lemma OneTemplate(t: TemplateRecord, ipfix: bool)
    requires t.id < 0x1_0000 && |t.fields| < 0x1_0000
    requires forall f :: f in t.fields ==> f.id < 0x8000 && f.len < 0x1_0000 && f.enterprise == None
    ensures ValidTemplate(t, ipfix)
    ensures EncodeTemplates([t], ipfix) == Put16(t.id) + Put16(|t.fields|) + Words(Specifiers(t.fields))
  {
    FieldsAreWords(t.fields, ipfix);
    hide EncodeFields, Words, Specifiers, Put16;
    var templates := [t];
    assert templates[1..] == [];
    assert EncodeTemplates(templates, ipfix) == EncodeTemplate(t, ipfix) + EncodeTemplates([], ipfix);
  }

  lemma SpecifiersAre()
    ensures Announced().id == 256 && |Announced().fields| == 6
    ensures forall f :: f in Announced().fields ==> f.id < 0x8000 && f.len < 0x1_0000 && f.enterprise == None
    ensures Specifiers(Announced().fields) == [8, 4, 12, 4, 7, 2, 11, 2, 4, 1, 1, 4]
  {
    var fields := Announced().fields;
    assert fields[1..][1..] == fields[2..] && fields[2..][1..] == fields[3..] && fields[3..][1..] == fields[4..];
    assert fields[4..][1..] == fields[5..] && fields[5..][1..] == [];
  }

  lemma {:induction false} WordsLength(ns: seq<word>)
    ensures |Words(ns)| == 2 * |ns|
  {
    if ns != [] {
      WordsLength(ns[1..]);
    }
  }

  lemma ValuesCons(v: seq<byte>, rest: seq<seq<byte>>)
    ensures EncodeValues([v] + rest) == v + EncodeValues(rest)
  {
    assert ([v] + rest)[1..] == rest;
  }

  lemma DataIs(ipfix: bool, w: Wire, table: Templates)
    requires ValidWire(w) && 256 in table.items && table.items[256] == StripAll(Announced().fields)
    ensures ValidSet(DataSet(256, [ValuesOf(w)], []), DialectOf(ipfix), table)
    ensures EncodeSet(DataSet(256, [ValuesOf(w)], []), DialectOf(ipfix), table) == Words([256, 21]) + RecordOf(w)
  {
    var vs := ValuesOf(w);
    var records := [vs];
    assert records[1..] == [];
    var octets, protocol := [Put32(w.octets)], [[w.protocol], Put32(w.octets)];
    var dstPort := [Put16(w.dstPort), [w.protocol], Put32(w.octets)];
    var srcPort := [Put16(w.srcPort), Put16(w.dstPort), [w.protocol], Put32(w.octets)];
    assert octets == [Put32(w.octets)] + [] && protocol == [[w.protocol]] + octets;
    assert dstPort == [Put16(w.dstPort)] + protocol && srcPort == [Put16(w.srcPort)] + dstPort;
    assert vs == [w.src] + ([w.dst] + srcPort);
    ValuesCons(Put32(w.octets), []);
    ValuesCons([w.protocol], octets);
    ValuesCons(Put16(w.dstPort), protocol);
    ValuesCons(Put16(w.srcPort), dstPort);
    ValuesCons(w.dst, srcPort);
    ValuesCons(w.src, [w.dst] + srcPort);
    assert EncodeValues([]) == [];
    hide EncodeValues, Put16, Put32;
    assert EncodeValues(vs) == RecordOf(w);
    assert EncodeRecords(records) == EncodeValues(vs) + EncodeRecords([]);
    assert EncodeRecords(records) == RecordOf(w);
  }

  /** A datagram that announces six elements, and a later one that sends a record of them, whose bytes
      are listed here, give back exactly that record, whatever table they meet. */
  lemma DatagramsAreRead(ipfix: bool, head: seq<byte>, later: seq<byte>, w: Wire, table: Templates, max: nat)
    requires |head| == |later| == (if ipfix then 14 else 18) && ValidWire(w) && max >= 1
    ensures var learned := ParseDatagram(Header(ipfix, head) + Announcement(ipfix), table, max).0;
            var flows := ParseDatagram(Header(ipfix, later) + (Words([256, 21]) + RecordOf(w)), learned, max).1;
            && |flows| == 1
            && flows[0].src == V4(w.src) && flows[0].dst == V4(w.dst)
            && flows[0].srcPort == w.srcPort && flows[0].dstPort == w.dstPort
            && Names(flows[0].protocol, w.protocol) && flows[0].size == w.octets
  {
    var d, t := DialectOf(ipfix), Announced();
    AnnouncementIs(ipfix, table);
    AnnounceTemplate(Header(ipfix, head), t, d, max, table);
    var learned := RegisterOne(table, t);
    DataIs(ipfix, w, learned);
    DataUnderTemplate(Header(ipfix, later), 256, [ValuesOf(w)], [], d, max, learned);
    MeaningIs(w);
    var records := [ValuesOf(w)];
    assert records[1..] == [];
  }

  lemma MeaningIs(w: Wire)
    requires ValidWire(w)
    ensures Conforms(StripAll(Announced().fields), ValuesOf(w))
    ensures var m := Meaning(StripAll(Announced().fields), ValuesOf(w));
            && m.Some? && m.value.src == V4(w.src) && m.value.dst == V4(w.dst)
            && m.value.srcPort == w.srcPort && m.value.dstPort == w.dstPort
            && Names(m.value.protocol, w.protocol) && m.value.size == w.octets
  {
    var fields, values := StripAll(Announced().fields), ValuesOf(w);
    WordsAreRead(w.srcPort);
    WordsAreRead(w.dstPort);
    WordsAreRead(w.octets);
    assert [w.protocol][..0] == [] && FromBytes([]) == 0;
    assert FromBytes([w.protocol]) == w.protocol;
    LastIsValue(fields, values, 0, SrcAddress);
    LastIsValue(fields, values, 1, DstAddress);
    LastIsValue(fields, values, 2, SrcPort);
    LastIsValue(fields, values, 3, DstPort);
    LastIsValue(fields, values, 4, Proto);
    LastIsValue(fields, values, 5, Octets);
  }

  /** A version 5 packet has 24 bytes of header, the number of records in its second word, and 48 bytes
      for each: source and destination at 0 and 4, octets at 20, ports at 32 and 34, protocol at 38. */
  lemma Version5IsRead(header: seq<byte>, records: seq<seq<byte>>, max: nat, table: Templates, k: nat)
    requires |header| == 24 && FromBytes(header[..2]) == 5 && FromBytes(header[2..4]) == |records|
    requires (forall r :: r in records ==> |r| == 48) && k < |records| && k < max
    ensures var flows := ParseDatagram(header + EncodeValues(records), table, max).1;
            && |flows| == (if |records| < max then |records| else max)
            && flows[k].src == V4(records[k][0..4]) && flows[k].dst == V4(records[k][4..8])
            && flows[k].srcPort == FromBytes(records[k][32..34]) && flows[k].dstPort == FromBytes(records[k][34..36])
            && flows[k].size == FromBytes(records[k][20..24]) && Names(flows[k].protocol, records[k][38])
  {
    TwoBytes(header[..2]);
    TwoBytes(header[2..4]);
    var data := header + EncodeValues(records);
    assert data[24..] == EncodeValues(records);
    assert U16(data) == U16(header[..2]) && U16(data[2..]) == U16(header[2..4]);
    RecordsAreRead(records, if |records| < max then |records| else max, k);
  }

  lemma {:induction false} RecordsAreRead(records: seq<seq<byte>>, count: nat, k: nat)
    requires (forall r :: r in records ==> |r| == 48) && k < count <= |records|
    ensures var flows := V5Records(EncodeValues(records), count);
            && |flows| == count
            && flows[k].src == V4(records[k][0..4]) && flows[k].dst == V4(records[k][4..8])
            && flows[k].srcPort == FromBytes(records[k][32..34]) && flows[k].dstPort == FromBytes(records[k][34..36])
            && flows[k].size == FromBytes(records[k][20..24]) && Names(flows[k].protocol, records[k][38])
    decreases count
  {
    var first, b := records[0], EncodeValues(records);
    assert b[..48] == first && b[48..] == EncodeValues(records[1..]);
    RecordIsRead(first);
    hide V5Record;
    if count > 1 {
      RecordsAreRead(records[1..], count - 1, if k == 0 then 0 else k - 1);
    } else {
      assert V5Records(b[48..], 0) == [];
    }
  }

  lemma RecordIsRead(r: seq<byte>)
    requires |r| == 48
    ensures var flow := V5Record(r);
            && flow.src == V4(r[0..4]) && flow.dst == V4(r[4..8])
            && flow.srcPort == FromBytes(r[32..34]) && flow.dstPort == FromBytes(r[34..36])
            && flow.size == FromBytes(r[20..24]) && Names(flow.protocol, r[38])
  {
    TwoBytes(r[32..34]);
    TwoBytes(r[34..36]);
    FourBytes(r[20..24]);
  }
}
