/** NetFlow v5 / v9 / IPFIX export packets: byte layout, record decoding and the
    set walker (capture/flow_ingest.py), with the encoders of the two RFCs as the
    parser's partner. */
module FlowCodec {
  import opened Basics
  import opened OrderedDict

  type byte = b: int | 0 <= b < 256

  // ------------------------------------------------------------------ integers

  /** `struct.unpack("!H", ...)` at the front of `b`. */
  function U16(b: seq<byte>): (n: nat)
    requires |b| >= 2
    ensures n < 0x1_0000
  {
    b[0] as nat * 256 + b[1] as nat
  }

  function U32(b: seq<byte>): (n: nat)
    requires |b| >= 4
    ensures n < 0x1_0000_0000
  {
    U16(b) * 0x1_0000 + U16(b[2..])
  }

  function Put16(n: nat): (b: seq<byte>)
    requires n < 0x1_0000
    ensures |b| == 2 && U16(b) == n
  {
    [n / 256, n % 256]
  }

  function Put32(n: nat): (b: seq<byte>)
    requires n < 0x1_0000_0000
    ensures |b| == 4 && U32(b) == n
  {
    var b := Put16(n / 0x1_0000) + Put16(n % 0x1_0000);
    assert b[2..] == Put16(n % 0x1_0000);
    b
  }

  /** `int.from_bytes(b, "big")`. */
  function FromBytes(b: seq<byte>): nat {
    if b == [] then 0 else FromBytes(b[..|b| - 1]) * 256 + b[|b| - 1]
  }

  // -------------------------------------------------------------- flow records

  /** An IP address; its text form is left abstract, `NoAddress` is the empty string. */
  datatype Address = NoAddress | V4(bytes: seq<byte>) | V6(bytes: seq<byte>)

  datatype Protocol = Icmp | Tcp | Udp | Numbered(number: nat)

  datatype FlowRecord = FlowRecord(
    src: Address, srcPort: nat, dst: Address, dstPort: nat, protocol: Protocol, size: nat)

  function ProtoName(num: nat): Protocol {
    if num == 1 then Icmp else if num == 6 then Tcp else if num == 17 then Udp else Numbered(num)
  }

  const IE_OCTETS := 1
  const IE_PROTOCOL := 4
  const IE_SRC_PORT := 7
  const IE_SRC_IPV4 := 8
  const IE_DST_PORT := 11
  const IE_DST_IPV4 := 12
  const IE_SRC_IPV6 := 27
  const IE_DST_IPV6 := 28

  /** One template entry as the parser stores it. */
  datatype Field = Field(ftype: nat, flen: nat)

  type Template = seq<Field>
  type Templates = Dict<nat, Template>

  function RecordLength(fields: Template): nat {
    if fields == [] then 0 else fields[0].flen + RecordLength(fields[1..])
  }

  // ------------------------------------------------ decoding one data record

  /** The local variables of the decoding loop. */
  datatype Slots = Slots(src: Address, dst: Address, srcPort: nat, dstPort: nat, proto: nat, size: nat)

  const NO_SLOTS := Slots(NoAddress, NoAddress, 0, 0, 0, 0)

  /** One iteration's assignment. */
  function Store(s: Slots, f: Field, chunk: seq<byte>): Slots {
    if f.ftype == IE_SRC_IPV4 && f.flen == 4 then s.(src := V4(chunk))
    else if f.ftype == IE_DST_IPV4 && f.flen == 4 then s.(dst := V4(chunk))
    else if f.ftype == IE_SRC_IPV6 && f.flen == 16 then s.(src := V6(chunk))
    else if f.ftype == IE_DST_IPV6 && f.flen == 16 then s.(dst := V6(chunk))
    else if f.ftype == IE_SRC_PORT then s.(srcPort := FromBytes(chunk))
    else if f.ftype == IE_DST_PORT then s.(dstPort := FromBytes(chunk))
    else if f.ftype == IE_PROTOCOL then s.(proto := FromBytes(chunk))
    else if f.ftype == IE_OCTETS then s.(size := FromBytes(chunk))
    else s
  }

  function StoreAll(s: Slots, fields: Template, raw: seq<byte>): Option<Slots>
    decreases fields
  {
    if fields == [] then Some(s)
    else if |raw| < fields[0].flen then None
    else StoreAll(Store(s, fields[0], raw[..fields[0].flen]), fields[1..], raw[fields[0].flen..])
  }

  function Finish(s: Slots): Option<FlowRecord> {
    if s.src == NoAddress || s.dst == NoAddress then None
    else Some(FlowRecord(s.src, s.srcPort, s.dst, s.dstPort, ProtoName(s.proto), s.size))
  }

  function Decode(fields: Template, raw: seq<byte>): Option<FlowRecord> {
    match StoreAll(NO_SLOTS, fields, raw)
    case None => None
    case Some(s) => Finish(s)
  }

  method DecodeRecord(fields: Template, raw: seq<byte>) returns (r: Option<FlowRecord>)
    ensures r == Decode(fields, raw)
  {
    var slots := NO_SLOTS;
    var rest := raw;
    var i := 0;
    while i < |fields|
      invariant 0 <= i <= |fields|
      invariant StoreAll(NO_SLOTS, fields, raw) == StoreAll(slots, fields[i..], rest)
    {
      var f := fields[i];
      assert fields[i..][1..] == fields[i + 1..];
      if |rest| < f.flen {
        return None;
      }
      slots := Store(slots, f, rest[..f.flen]);
      rest := rest[f.flen..];
      i := i + 1;
    }
    r := Finish(slots);
  }

  /** What a record means, told without the loop: each attribute is the value of the
      last field that carries it. */
  datatype Attribute = SrcAddress | DstAddress | SrcPort | DstPort | Proto | Octets

  predicate Carries(f: Field, a: Attribute) {
    match a
    case SrcAddress => (f.ftype == IE_SRC_IPV4 && f.flen == 4) || (f.ftype == IE_SRC_IPV6 && f.flen == 16)
    case DstAddress => (f.ftype == IE_DST_IPV4 && f.flen == 4) || (f.ftype == IE_DST_IPV6 && f.flen == 16)
    case SrcPort => f.ftype == IE_SRC_PORT
    case DstPort => f.ftype == IE_DST_PORT
    case Proto => f.ftype == IE_PROTOCOL
    case Octets => f.ftype == IE_OCTETS
  }

  /** The field values of one record agree in length with its template. */
  ghost predicate Conforms(fields: Template, values: seq<seq<byte>>) {
    |values| == |fields| && forall i :: 0 <= i < |fields| ==> |values[i]| == fields[i].flen
  }

  /** The value of the last field carrying `a`, if any. */
  ghost function LastValue(fields: Template, values: seq<seq<byte>>, a: Attribute): Option<seq<byte>>
    requires |values| == |fields|
  {
    if fields == [] then None
    else
      var last := |fields| - 1;
      if Carries(fields[last], a) then Some(values[last]) else LastValue(fields[..last], values[..last], a)
  }

  function AsAddress(v: Option<seq<byte>>): Address {
    match v
    case None => NoAddress
    case Some(b) => if |b| == 4 then V4(b) else V6(b)
  }

  function AsNumber(v: Option<seq<byte>>): nat {
    match v case None => 0 case Some(b) => FromBytes(b)
  }

  ghost function Meaning(fields: Template, values: seq<seq<byte>>): Option<FlowRecord>
    requires |values| == |fields|
  {
    var v := (a: Attribute) => LastValue(fields, values, a);
    if v(SrcAddress).None? || v(DstAddress).None? then None
    else Some(FlowRecord(AsAddress(v(SrcAddress)), AsNumber(v(SrcPort)), AsAddress(v(DstAddress)),
                         AsNumber(v(DstPort)), ProtoName(AsNumber(v(Proto))), AsNumber(v(Octets))))
  }

  function EncodeValues(values: seq<seq<byte>>): seq<byte> {
    if values == [] then [] else values[0] + EncodeValues(values[1..])
  }

  ghost function SlotsOf(fields: Template, values: seq<seq<byte>>): Slots
    requires |values| == |fields|
  {
    var v := (a: Attribute) => LastValue(fields, values, a);
    Slots(AsAddress(v(SrcAddress)), AsAddress(v(DstAddress)), AsNumber(v(SrcPort)),
          AsNumber(v(DstPort)), AsNumber(v(Proto)), AsNumber(v(Octets)))
  }

  lemma EncodeValuesLength(fields: Template, values: seq<seq<byte>>)
    requires Conforms(fields, values)
    ensures |EncodeValues(values)| == RecordLength(fields)
  {
    if fields != [] {
      EncodeValuesLength(fields[1..], values[1..]);
    }
  }

  /** Storing the fields after the first `k` brings the slots of the first `k` fields
      to those of the whole record. */
  lemma {:induction false} StoreAllUndoesEncode(fields: Template, values: seq<seq<byte>>, k: nat)
    requires Conforms(fields, values) && k <= |fields|
    ensures StoreAll(SlotsOf(fields[..k], values[..k]), fields[k..], EncodeValues(values[k..]))
            == Some(SlotsOf(fields, values))
    decreases |fields| - k
  {
    if k == |fields| {
      assert fields[..k] == fields && values[..k] == values;
    } else {
      var rest := EncodeValues(values[k..]);
      assert values[k..][1..] == values[k + 1..];
      assert rest == values[k] + EncodeValues(values[k + 1..]);
      assert rest[..fields[k].flen] == values[k];
      assert rest[fields[k].flen..] == EncodeValues(values[k + 1..]);
      assert fields[..k + 1][..k] == fields[..k] && values[..k + 1][..k] == values[..k];
      assert fields[k..][1..] == fields[k + 1..];
      assert Store(SlotsOf(fields[..k], values[..k]), fields[k], values[k])
          == SlotsOf(fields[..k + 1], values[..k + 1]);
      StoreAllUndoesEncode(fields, values, k + 1);
    }
  }

  /** An address attribute is present exactly when its slot was filled. */
  lemma AddressPresent(fields: Template, values: seq<seq<byte>>, a: Attribute)
    requires |values| == |fields|
    ensures AsAddress(LastValue(fields, values, a)) == NoAddress <==> LastValue(fields, values, a).None?
  {
  }

  /** Decoding undoes encoding: the loop recovers the meaning of every record. */
  lemma DecodeUndoesEncode(fields: Template, values: seq<seq<byte>>)
    requires Conforms(fields, values)
    ensures Decode(fields, EncodeValues(values)) == Meaning(fields, values)
  {
    StoreAllUndoesEncode(fields, values, 0);
    assert fields[..0] == [] && values[..0] == [] && fields[0..] == fields && values[0..] == values;
    assert SlotsOf([], []) == NO_SLOTS;
    AddressPresent(fields, values, SrcAddress);
    AddressPresent(fields, values, DstAddress);
  }
}
