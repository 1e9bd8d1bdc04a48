/** What the parser loses by dropping the enterprise bit (capture/flow_ingest.py:359-363).
    An enterprise-specific element of RFC 7011 (section 3.2) has nothing to do with the
    standard element of the same number, but the parser stores only the low 15 bits.
    The records of a template are read right for every content exactly when no
    enterprise-specific element is the last to carry an attribute. */
module FlowEnterprise {
  import opened Basics
  import opened FlowCodec
  import opened FlowEncoder

  /** The template as the standard reads it: enterprise-specific elements carry nothing. */
  function StandardFields(fields: seq<TemplateField>): Template {
    seq(|fields|, i requires 0 <= i < |fields| =>
      if fields[i].enterprise.Some? then Field(0x1_0000 + fields[i].id, fields[i].len) else Strip(fields[i]))
  }

  ghost function StandardMeaning(fields: seq<TemplateField>, values: seq<seq<byte>>): Option<FlowRecord>
    requires |values| == |fields|
  {
    Meaning(StandardFields(fields), values)
  }

  /** Index of the last field carrying `a`, -1 if there is none. */
  function LastCarrier(fields: Template, a: Attribute): (i: int)
    ensures -1 <= i < |fields|
    ensures i >= 0 ==> Carries(fields[i], a)
    ensures forall k :: i < k < |fields| ==> !Carries(fields[k], a)
  {
    if fields == [] then -1
    else if Carries(fields[|fields| - 1], a) then |fields| - 1
    else LastCarrier(fields[..|fields| - 1], a)
  }

  lemma LastValueIs(fields: Template, values: seq<seq<byte>>, a: Attribute)
    requires |values| == |fields|
    ensures LastValue(fields, values, a)
            == var i := LastCarrier(fields, a); if i < 0 then None else Some(values[i])
  {
  }

  /** An enterprise-specific element hides attribute `a`, and some content shows it. */
  predicate Misread(fields: seq<TemplateField>, a: Attribute) {
    var i, j := LastCarrier(StripAll(fields), a), LastCarrier(StandardFields(fields), a);
    i >= 0 && fields[i].enterprise.Some? && (fields[i].len > 0 || (j >= 0 && fields[j].len > 0))
  }

  /** Either every record is dropped, or no attribute is misread. */
  ghost predicate EnterpriseSafe(fields: seq<TemplateField>) {
    || LastCarrier(StripAll(fields), SrcAddress) < 0
    || LastCarrier(StripAll(fields), DstAddress) < 0
    || forall a: Attribute :: !Misread(fields, a)
  }

  lemma CarrierOrder(fields: seq<TemplateField>, a: Attribute)
    ensures var i, j := LastCarrier(StripAll(fields), a), LastCarrier(StandardFields(fields), a);
            j <= i && (i >= 0 && fields[i].enterprise.None? ==> j == i) && (j == i >= 0 ==> fields[i].enterprise.None?)
  {
    var i, j := LastCarrier(StripAll(fields), a), LastCarrier(StandardFields(fields), a);
    if j >= 0 {
      assert Carries(StandardFields(fields)[j], a);
      assert Carries(StripAll(fields)[j], a);
    }
    if i >= 0 && fields[i].enterprise.None? {
      assert Carries(StandardFields(fields)[i], a);
    }
  }

  lemma SafeAttribute(fields: seq<TemplateField>, values: seq<seq<byte>>, a: Attribute)
    requires Conforms(StripAll(fields), values) && !Misread(fields, a)
    ensures var v, s := LastValue(StripAll(fields), values, a), LastValue(StandardFields(fields), values, a);
            AsNumber(v) == AsNumber(s) && (a == SrcAddress || a == DstAddress ==> v == s)
  {
    CarrierOrder(fields, a);
    LastValueIs(StripAll(fields), values, a);
    LastValueIs(StandardFields(fields), values, a);
    var i, j := LastCarrier(StripAll(fields), a), LastCarrier(StandardFields(fields), a);
    if i >= 0 && fields[i].enterprise.Some? {
      assert StripAll(fields)[i].flen == 0;
      assert values[i] == [];
      if j >= 0 {
        assert StripAll(fields)[j].flen == 0;
        assert values[j] == [];
      }
    }
  }

  /** Sufficiency: a safe template is read as the standard reads it. */
  lemma SafeIsRead(fields: seq<TemplateField>, values: seq<seq<byte>>)
    requires Conforms(StripAll(fields), values) && EnterpriseSafe(fields)
    ensures Meaning(StripAll(fields), values) == StandardMeaning(fields, values)
  {
    LastValueIs(StripAll(fields), values, SrcAddress);
    LastValueIs(StripAll(fields), values, DstAddress);
    LastValueIs(StandardFields(fields), values, SrcAddress);
    LastValueIs(StandardFields(fields), values, DstAddress);
    CarrierOrder(fields, SrcAddress);
    CarrierOrder(fields, DstAddress);
    if forall a: Attribute :: !Misread(fields, a) {
      forall a: Attribute
        ensures var v, s := LastValue(StripAll(fields), values, a), LastValue(StandardFields(fields), values, a);
                AsNumber(v) == AsNumber(s) && (a == SrcAddress || a == DstAddress ==> v == s)
      {
        SafeAttribute(fields, values, a);
      }
    }
  }

  function Filled(n: nat, b: byte): seq<byte> { seq(n, i => b) }

  lemma FilledNumber(n: nat)
    ensures FromBytes(Filled(n, 0)) == 0
    ensures n > 0 ==> FromBytes(Filled(n, 1)) > 0
  {
    if n > 0 {
      assert Filled(n, 0)[..n - 1] == Filled(n - 1, 0);
      FilledNumber(n - 1);
    }
  }

  /** A record that is zero but for the field at `p`. */
  function Probe(fields: seq<TemplateField>, p: int): seq<seq<byte>> {
    seq(|fields|, i requires 0 <= i < |fields| => Filled(fields[i].len, if i == p then 1 else 0))
  }

  lemma ProbeDiffers(fields: seq<TemplateField>, a: Attribute, p: int)
    requires Misread(fields, a)
    requires p == var i := LastCarrier(StripAll(fields), a);
                  if fields[i].len > 0 then i else LastCarrier(StandardFields(fields), a)
    ensures var v, s := LastValue(StripAll(fields), Probe(fields, p), a),
                        LastValue(StandardFields(fields), Probe(fields, p), a);
            && (AsNumber(v) == 0 <==> AsNumber(s) != 0)
            && (a == SrcAddress || a == DstAddress ==> AsAddress(v) != AsAddress(s))
  {
    var values := Probe(fields, p);
    var i, j := LastCarrier(StripAll(fields), a), LastCarrier(StandardFields(fields), a);
    CarrierOrder(fields, a);
    LastValueIs(StripAll(fields), values, a);
    LastValueIs(StandardFields(fields), values, a);
    FilledNumber(fields[i].len);
    assert values[i] == Filled(fields[i].len, if i == p then 1 else 0);
    if j >= 0 {
      FilledNumber(fields[j].len);
      assert values[j] == Filled(fields[j].len, if j == p then 1 else 0);
    }
    if a == SrcAddress || a == DstAddress {
      assert Carries(StripAll(fields)[i], a);
      assert values[i][0] == 1;
      if j >= 0 {
        assert Carries(StandardFields(fields)[j], a);
        assert values[j][0] == 0;
      }
    }
  }

  lemma MeaningParts(fields: Template, values: seq<seq<byte>>)
    requires |values| == |fields|
    ensures Meaning(fields, values).Some?
            <==> LastValue(fields, values, SrcAddress).Some? && LastValue(fields, values, DstAddress).Some?
    ensures Meaning(fields, values).Some? ==>
      var r := Meaning(fields, values).value;
      && r.src == AsAddress(LastValue(fields, values, SrcAddress))
      && r.dst == AsAddress(LastValue(fields, values, DstAddress))
      && r.srcPort == AsNumber(LastValue(fields, values, SrcPort))
      && r.dstPort == AsNumber(LastValue(fields, values, DstPort))
      && r.size == AsNumber(LastValue(fields, values, Octets))
      && r.protocol == ProtoName(AsNumber(LastValue(fields, values, Proto)))
  {
  }

  /** Records that differ in one attribute differ. */
  lemma AttributeDecides(left: Template, right: Template, values: seq<seq<byte>>, a: Attribute)
    requires |values| == |left| == |right| && Meaning(left, values).Some?
    requires var v, s := LastValue(left, values, a), LastValue(right, values, a);
             if a == SrcAddress || a == DstAddress then AsAddress(v) != AsAddress(s)
             else AsNumber(v) == 0 <==> AsNumber(s) != 0
    ensures Meaning(left, values) != Meaning(right, values)
  {
    MeaningParts(left, values);
    if Meaning(right, values).Some? {
      MeaningParts(right, values);
    }
  }

  /** Necessity: an unsafe template has a record that is read wrong. */
  lemma UnsafeIsMisread(fields: seq<TemplateField>) returns (values: seq<seq<byte>>)
    requires !EnterpriseSafe(fields)
    ensures Conforms(StripAll(fields), values)
    ensures Meaning(StripAll(fields), values) != StandardMeaning(fields, values)
  {
    var a: Attribute :| Misread(fields, a);
    var i := LastCarrier(StripAll(fields), a);
    var p := if fields[i].len > 0 then i else LastCarrier(StandardFields(fields), a);
    values := Probe(fields, p);
    ProbeDiffers(fields, a, p);
    LastValueIs(StripAll(fields), values, SrcAddress);
    LastValueIs(StripAll(fields), values, DstAddress);
    AttributeDecides(StripAll(fields), StandardFields(fields), values, a);
  }

  /** The parser reads the records of a template as the standard does, whatever their
      content, if and only if the template is safe. */
  lemma ReadRightIffSafe(fields: seq<TemplateField>)
    ensures (forall values :: Conforms(StripAll(fields), values) ==>
               Decode(StripAll(fields), EncodeValues(values)) == StandardMeaning(fields, values))
            <==> EnterpriseSafe(fields)
  {
    if EnterpriseSafe(fields) {
      forall values | Conforms(StripAll(fields), values)
        ensures Decode(StripAll(fields), EncodeValues(values)) == StandardMeaning(fields, values)
      {
        DecodeUndoesEncode(StripAll(fields), values);
        SafeIsRead(fields, values);
      }
    } else {
      var values := UnsafeIsMisread(fields);
      DecodeUndoesEncode(StripAll(fields), values);
    }
  }

  /** An input that shows it: an enterprise element numbered 7 after a real source port. */
  lemma EnterprisePortIsMisread()
    ensures !EnterpriseSafe([TemplateField(8, 4, None), TemplateField(12, 4, None),
                             TemplateField(7, 2, None), TemplateField(7, 2, Some(9))])
  {
    var fields := [TemplateField(8, 4, None), TemplateField(12, 4, None),
                   TemplateField(7, 2, None), TemplateField(7, 2, Some(9))];
    var stripped := StripAll(fields);
    assert stripped[0] == Field(8, 4) && stripped[1] == Field(12, 4) && stripped[3] == Field(7, 2);
    assert Carries(stripped[3], SrcPort);
    assert Carries(stripped[0], SrcAddress) && Carries(stripped[1], DstAddress);
    assert Misread(fields, SrcPort);
  }
}
