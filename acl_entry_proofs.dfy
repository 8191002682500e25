/**
 * What the encoder and the decoder of AclEntry promise together: the TTL
 * round trip, the rule round trip (up to the integer narrowing the encoder
 * does), the address family rule, and which keys a decoded rule sets.
 */
module AclEntryProofs {
  import opened Wrappers
  import opened FollyDynamic
  import opened Collaborators
  import Cfg
  import opened AclEntry

  // ---------------------------------------------------------------------
  // Narrowing

  /** An optional integer as the encoder writes it: reduced to 8 bits. */
  function Narrow8(x: Option<int>): (r: Option<int>)
    ensures r.Some? <==> x.Some?
    ensures x.Some? && 0 <= x.value < 0x100 ==> r == x
  {
    if x.Some? then Some(Uint8(x.value)) else None
  }

  /** An optional integer as the encoder writes it: reduced to 16 bits. */
  function Narrow16(x: Option<int>): (r: Option<int>)
    ensures r.Some? <==> x.Some?
    ensures x.Some? && 0 <= x.value < 0x1_0000 ==> r == x
  {
    if x.Some? then Some(Uint16(x.value)) else None
  }

  /** An optional TTL as the encoder writes it: value and mask reduced to 16 bits. */
  function NarrowTtl(t: Option<AclTtl>): Option<AclTtl> {
    if t.Some? then Some(AclTtl(Uint16(t.value.value), Uint16(t.value.mask))) else None
  }

  /** The rule a document written by the encoder describes: each integer field narrowed to its encoded width. */
  function Narrowed(e: AclEntryFields): AclEntryFields {
    e.(proto := Narrow8(e.proto), tcpFlagsBitMap := Narrow8(e.tcpFlagsBitMap),
       srcPort := Narrow16(e.srcPort), dstPort := Narrow16(e.dstPort),
       icmpType := Narrow8(e.icmpType), icmpCode := Narrow8(e.icmpCode),
       dscp := Narrow8(e.dscp), ipType := Narrow16(e.ipType), ttl := NarrowTtl(e.ttl))
  }

  predicate InRange(x: Option<int>, bound: int) {
    x.Some? ==> 0 <= x.value < bound
  }

  /**
   * Every integer field fits the width the encoder writes it with: the
   * widths of the C++ fields (uint8_t protocol, flags, ICMP and DSCP;
   * uint16_t ports, IP type and TTL).
   */
  predicate FitsWidths(e: AclEntryFields) {
    && InRange(e.proto, 0x100) && InRange(e.tcpFlagsBitMap, 0x100)
    && InRange(e.srcPort, 0x1_0000) && InRange(e.dstPort, 0x1_0000)
    && InRange(e.icmpType, 0x100) && InRange(e.icmpCode, 0x100)
    && InRange(e.dscp, 0x100) && InRange(e.ipType, 0x1_0000)
    && (e.ttl.Some? ==> 0 <= e.ttl.value.value < 0x1_0000 && 0 <= e.ttl.value.mask < 0x1_0000)
  }

  /** Narrowing leaves a rule whose fields fit their widths unchanged. */
  lemma NarrowedFits(e: AclEntryFields)
    requires FitsWidths(e)
    ensures Narrowed(e) == e
  {
  }

  // ---------------------------------------------------------------------
  // AclTtl

  /** Decoding an encoded TTL gives back its value and mask, each reduced to 16 bits. */
  lemma TtlRoundTrip(t: AclTtl)
    ensures TtlFromFollyDynamic(TtlToFollyDynamic(t)) == Success(AclTtl(Uint16(t.value), Uint16(t.mask)))
    ensures 0 <= t.value < 0x1_0000 && 0 <= t.mask < 0x1_0000 ==>
      TtlFromFollyDynamic(TtlToFollyDynamic(t)) == Success(t)
  {
    var d := TtlToFollyDynamic(t);
    assert d.fields[kTtlValue] == DInt(Uint16(t.value));
    assert d.fields[kTtlMask] == DInt(Uint16(t.mask));
  }

  /** A TTL object missing either key does not decode; the value is looked for first. */
  lemma TtlMissingKeys(value: int, mask: int)
    ensures TtlFromFollyDynamic(DObj(map[kTtlMask := DInt(mask)])) == Failure(TtlValueMissing)
    ensures TtlFromFollyDynamic(DObj(map[kTtlValue := DInt(value)])) == Failure(TtlMaskMissing)
    ensures TtlFromFollyDynamic(DObj(map[])) == Failure(TtlValueMissing)
  {
    assert kTtlValue != kTtlMask;
  }

  // ---------------------------------------------------------------------
  // Reading back what the encoder wrote

  /** The rule's addresses are networks the prefix parser produces, as every decoded address is. */
  ghost predicate AddressesParsed(e: AclEntryFields, c: Codecs) {
    && (e.srcIp.Some? ==> Parsed(c, e.srcIp.value))
    && (e.dstIp.Some? ==> Parsed(c, e.dstIp.value))
  }

  /** The required fields read back from an encoded rule. */
  lemma EncodedIdentity(e: AclEntryFields, c: Codecs)
    requires Encodable(e)
    ensures var m := ToFollyDynamic(e, c).fields;
      && Get(m, kPriority) == Success(DInt(e.priority))
      && Get(m, kName) == Success(DStr(e.name))
      && Get(m, kActionType) == Success(DStr(Cfg.NameOf(Cfg.AclActionType, e.actionType).value))
      && ReadEnumName(m[kActionType], kActionType, Cfg.AclActionType) == Success(e.actionType)
  {
    var m := ToFollyDynamic(e, c).fields;
    assert KeyOf(Priority) in m && KeyOf(Name) in m && KeyOf(ActionType) in m;
    Cfg.ValueOfNameOf(Cfg.AclActionType, e.actionType);
  }

  /** The addresses read back from an encoded rule, given that the prefix parser inverts its printer. */
  lemma EncodedAddresses(e: AclEntryFields, c: Codecs)
    requires Encodable(e) && NetworkLawful(c) && AddressesParsed(e, c)
    ensures var m := ToFollyDynamic(e, c).fields;
      && OptNetwork(m, kSrcIp, c) == Success(e.srcIp)
      && OptNetwork(m, kDstIp, c) == Success(e.dstIp)
  {
    var m := ToFollyDynamic(e, c).fields;
    assert KeyOf(SrcIp) in m <==> e.srcIp.Some?;
    assert KeyOf(DstIp) in m <==> e.dstIp.Some?;
  }

  /** The destination MAC read back from an encoded rule, given that the MAC parser inverts its printer. */
  lemma EncodedMac(e: AclEntryFields, c: Codecs)
    requires Encodable(e) && MacLawful(c)
    ensures OptMac(ToFollyDynamic(e, c).fields, kDstMac, c) == Success(e.dstMac)
  {
    var m := ToFollyDynamic(e, c).fields;
    assert KeyOf(DstMac) in m <==> e.dstMac.Some?;
  }

  /** The protocol, TCP flags and IP type read back from an encoded rule, narrowed to their encoded widths. */
  lemma EncodedProtocol(e: AclEntryFields, c: Codecs)
    requires Encodable(e)
    ensures var m := ToFollyDynamic(e, c).fields;
      && OptInt(m, kProto) == Success(Narrow8(e.proto))
      && OptInt(m, kTcpFlagsBitMap) == Success(Narrow8(e.tcpFlagsBitMap))
      && OptInt(m, kIpType) == Success(Narrow16(e.ipType))
  {
    var m := ToFollyDynamic(e, c).fields;
    assert KeyOf(Proto) in m <==> e.proto.Some?;
    assert KeyOf(TcpFlagsBitMap) in m <==> e.tcpFlagsBitMap.Some?;
    assert KeyOf(IpType) in m <==> e.ipType.Some?;
  }

  /** The ports and DSCP read back from an encoded rule, narrowed to their encoded widths. */
  lemma EncodedPorts(e: AclEntryFields, c: Codecs)
    requires Encodable(e)
    ensures var m := ToFollyDynamic(e, c).fields;
      && OptInt(m, kSrcPort) == Success(Narrow16(e.srcPort))
      && OptInt(m, kDstPort) == Success(Narrow16(e.dstPort))
      && OptInt(m, kDscp) == Success(Narrow8(e.dscp))
  {
    var m := ToFollyDynamic(e, c).fields;
    assert KeyOf(SrcPort) in m <==> e.srcPort.Some?;
    assert KeyOf(DstPort) in m <==> e.dstPort.Some?;
    assert KeyOf(Dscp) in m <==> e.dscp.Some?;
  }

  /** The ICMP type and code read back from an encoded rule, narrowed to 8 bits. */
  lemma EncodedIcmp(e: AclEntryFields, c: Codecs)
    requires Encodable(e)
    ensures var m := ToFollyDynamic(e, c).fields;
      && OptInt(m, kIcmpType) == Success(Narrow8(e.icmpType))
      && OptInt(m, kIcmpCode) == Success(Narrow8(e.icmpCode))
  {
    var m := ToFollyDynamic(e, c).fields;
    assert KeyOf(IcmpType) in m <==> e.icmpType.Some?;
    assert KeyOf(IcmpCode) in m <==> e.icmpCode.Some?;
  }

  /** The port and packet length ranges read back from an encoded rule, given that their codecs invert each other. */
  lemma EncodedRanges(e: AclEntryFields, c: Codecs)
    requires Encodable(e) && RangesLawful(c)
    ensures var m := ToFollyDynamic(e, c).fields;
      && OptNested(m, kSrcL4PortRange, c.portRangeFromDynamic) == Success(e.srcL4PortRange)
      && OptNested(m, kDstL4PortRange, c.portRangeFromDynamic) == Success(e.dstL4PortRange)
      && OptNested(m, kPktLenRange, c.pktLenRangeFromDynamic) == Success(e.pktLenRange)
  {
    var m := ToFollyDynamic(e, c).fields;
    assert KeyOf(SrcL4PortRange) in m <==> e.srcL4PortRange.Some?;
    assert KeyOf(DstL4PortRange) in m <==> e.dstL4PortRange.Some?;
    assert KeyOf(PktLenRange) in m <==> e.pktLenRange.Some?;
  }

  /** The action and the fragment match read back from an encoded rule. */
  lemma EncodedAction(e: AclEntryFields, c: Codecs)
    requires Encodable(e) && ActionLawful(c)
    ensures var m := ToFollyDynamic(e, c).fields;
      && OptNested(m, kAclAction, c.matchActionFromDynamic) == Success(e.aclAction)
      && OptEnum(m, kIpFrag, Cfg.IpFragMatch) == Success(e.ipFrag)
  {
    var m := ToFollyDynamic(e, c).fields;
    assert KeyOf(AclAction) in m <==> e.aclAction.Some?;
    assert KeyOf(IpFrag) in m <==> e.ipFrag.Some?;
    if e.ipFrag.Some? {
      Cfg.ValueOfNameOf(Cfg.IpFragMatch, e.ipFrag.value);
    }
  }

  /** The TTL read back from an encoded rule, value and mask narrowed to 16 bits. */
  lemma EncodedTtl(e: AclEntryFields, c: Codecs)
    requires Encodable(e)
    ensures OptTtl(ToFollyDynamic(e, c).fields, kTtl) == Success(NarrowTtl(e.ttl))
  {
    var m := ToFollyDynamic(e, c).fields;
    assert KeyOf(Ttl) in m <==> e.ttl.Some?;
    if e.ttl.Some? {
      assert m[kTtl] == TtlToFollyDynamic(e.ttl.value);
      TtlRoundTrip(e.ttl.value);
    }
  }

  /** The local destination flag read back from an encoded rule. */
  lemma EncodedDstIpLocal(e: AclEntryFields, c: Codecs)
    requires Encodable(e)
    ensures OptBool(ToFollyDynamic(e, c).fields, kDstIpLocal) == Success(e.dstIpLocal)
  {
    var m := ToFollyDynamic(e, c).fields;
    assert KeyOf(DstIpLocal) in m <==> e.dstIpLocal.Some?;
  }

  // ---------------------------------------------------------------------
  // Round trip

  /**
   * Decoding the document of a rule whose enumeration values have names and
   * whose addresses are networks the parser produces, of one family, gives
   * back the rule, with each integer field narrowed to the width the
   * encoder writes it with.
   */
  lemma RoundTrip(e: AclEntryFields, c: Codecs)
    requires Lawful(c) && Encodable(e) && AddressesParsed(e, c) && !FamiliesDiffer(e.srcIp, e.dstIp)
    ensures Decode(ToFollyDynamic(e, c), c) == Success(Narrowed(e))
  {
    EncodedIdentity(e, c);
    EncodedAddresses(e, c);
    EncodedMac(e, c);
    EncodedProtocol(e, c);
    EncodedPorts(e, c);
    EncodedIcmp(e, c);
    EncodedRanges(e, c);
    EncodedAction(e, c);
    EncodedTtl(e, c);
    EncodedDstIpLocal(e, c);
  }

  /** For a rule whose integers fit their widths, the round trip is exact. */
  lemma RoundTripExact(e: AclEntryFields, c: Codecs)
    requires Lawful(c) && Encodable(e) && AddressesParsed(e, c) && !FamiliesDiffer(e.srcIp, e.dstIp)
    requires FitsWidths(e)
    ensures Decode(ToFollyDynamic(e, c), c) == Success(e)
  {
    RoundTrip(e, c);
    NarrowedFits(e);
  }

  /**
   * The encoder writes a rule whose addresses are of different families,
   * and the decoder rejects what it wrote.
   */
  lemma MismatchedFamiliesRejected(e: AclEntryFields, c: Codecs)
    requires NetworkLawful(c) && Encodable(e) && AddressesParsed(e, c) && FamiliesDiffer(e.srcIp, e.dstIp)
    ensures Decode(ToFollyDynamic(e, c), c) == Failure(UnmatchedIpVersions)
  {
    EncodedIdentity(e, c);
    EncodedAddresses(e, c);
  }

  // ---------------------------------------------------------------------
  // What a decoded rule holds

  /** Each optional field of a decoded rule is set exactly when the document holds its key. */
  lemma DecodedPresence(d: Dynamic, c: Codecs)
    requires Decode(d, c).Success?
    ensures var e := Decode(d, c).value;
      && (e.srcIp.Some? <==> kSrcIp in d.fields)
      && (e.dstIp.Some? <==> kDstIp in d.fields)
      && (e.dstMac.Some? <==> kDstMac in d.fields)
      && (e.proto.Some? <==> kProto in d.fields)
      && (e.tcpFlagsBitMap.Some? <==> kTcpFlagsBitMap in d.fields)
      && (e.srcPort.Some? <==> kSrcPort in d.fields)
      && (e.dstPort.Some? <==> kDstPort in d.fields)
      && (e.srcL4PortRange.Some? <==> kSrcL4PortRange in d.fields)
      && (e.dstL4PortRange.Some? <==> kDstL4PortRange in d.fields)
      && (e.pktLenRange.Some? <==> kPktLenRange in d.fields)
      && (e.ipFrag.Some? <==> kIpFrag in d.fields)
      && (e.icmpType.Some? <==> kIcmpType in d.fields)
      && (e.icmpCode.Some? <==> kIcmpCode in d.fields)
      && (e.dscp.Some? <==> kDscp in d.fields)
      && (e.ipType.Some? <==> kIpType in d.fields)
      && (e.ttl.Some? <==> kTtl in d.fields)
      && (e.dstIpLocal.Some? <==> kDstIpLocal in d.fields)
      && (e.aclAction.Some? <==> kAclAction in d.fields)
  {
  }

  /** A decoded rule sets exactly the fields whose keys the document holds. */
  lemma DecodedKeys(d: Dynamic, c: Codecs)
    requires Decode(d, c).Success?
    ensures forall f :: IsSet(Decode(d, c).value, f) <==> KeyOf(f) in d.fields
  {
    var e := Decode(d, c).value;
    DecodedPresence(d, c);
    forall f ensures IsSet(e, f) <==> KeyOf(f) in d.fields {
      match f
      case Priority =>
      case Name =>
      case ActionType =>
      case _ =>
    }
  }

  /**
   * Re-encoding a decoded rule writes back the keys of the document that
   * belong to a rule, and drops any other key.
   */
  lemma ReencodedKeys(d: Dynamic, c: Codecs)
    requires Decode(d, c).Success?
    ensures ToFollyDynamic(Decode(d, c).value, c).fields.Keys == d.fields.Keys * EntryKeys
  {
    var e := Decode(d, c).value;
    var keys := ToFollyDynamic(e, c).fields.Keys;
    DecodedKeys(d, c);
    forall k | k in d.fields.Keys * EntryKeys ensures k in keys {
      var f :| KeyOf(f) == k;
    }
  }

  /** The protocol and ICMP fields of a decoded rule are the integers the document holds. */
  lemma DecodedIcmpValues(d: Dynamic, c: Codecs)
    requires Decode(d, c).Success?
    ensures var e := Decode(d, c).value;
      && (e.proto.Some? ==> d.fields[kProto] == DInt(e.proto.value))
      && (e.icmpType.Some? ==> d.fields[kIcmpType] == DInt(e.icmpType.value))
      && (e.icmpCode.Some? ==> d.fields[kIcmpCode] == DInt(e.icmpCode.value))
  {
  }

  /** The addresses of a decoded rule are networks the prefix parser produced. */
  lemma DecodedAddressesParsed(d: Dynamic, c: Codecs)
    requires Decode(d, c).Success?
    ensures AddressesParsed(Decode(d, c).value, c)
  {
    var e := Decode(d, c).value;
    var m := d.fields;
    assert DecodeBeforeAction(d, c).Success?;
    assert e.srcIp == DecodeBeforeAction(d, c).value.srcIp;
    assert e.dstIp == DecodeBeforeAction(d, c).value.dstIp;
    if e.srcIp.Some? {
      assert c.createNetwork(m[kSrcIp].s) == Some(e.srcIp.value);
    }
    if e.dstIp.Some? {
      assert c.createNetwork(m[kDstIp].s) == Some(e.dstIp.value);
    }
  }

  /**
   * Re-encoding a decoded rule and decoding the result gives the decoded
   * rule back, with each integer narrowed to its encoded width.
   */
  lemma DecodeEncodeDecode(d: Dynamic, c: Codecs)
    requires Lawful(c) && Decode(d, c).Success?
    ensures Decode(ToFollyDynamic(Decode(d, c).value, c), c) == Success(Narrowed(Decode(d, c).value))
  {
    DecodedAddressesParsed(d, c);
    RoundTrip(Decode(d, c).value, c);
  }

  // ---------------------------------------------------------------------
  // The address family rule of the decoder

  /**
   * Once the identity and both addresses read, decoding fails with
   * UnmatchedIpVersions exactly when both addresses are present and of
   * different families; no other address check is made.
   */
  lemma DecodeFamilyRule(d: Dynamic, c: Codecs)
    requires d.DObj?
    requires kPriority in d.fields && d.fields[kPriority].DInt?
    requires kName in d.fields && d.fields[kName].DStr?
    requires OptNetwork(d.fields, kSrcIp, c).Success? && OptNetwork(d.fields, kDstIp, c).Success?
    ensures Decode(d, c) == Failure(UnmatchedIpVersions) <==>
      FamiliesDiffer(OptNetwork(d.fields, kSrcIp, c).value, OptNetwork(d.fields, kDstIp, c).value)
  {
  }
}
