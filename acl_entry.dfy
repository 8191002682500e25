/**
 * One access-control rule (AclEntryFields) and its conversion to and from a
 * folly::dynamic document: the TTL sub-codec, the encoder and the decoder.
 */
module AclEntry {
  import opened Wrappers
  import opened FollyDynamic
  import opened Collaborators
  import Cfg

  // Document keys.
  const kPriority := "priority"
  const kName := "name"
  const kActionType := "actionType"
  const kSrcIp := "srcIp"
  const kDstIp := "dstIp"
  const kProto := "proto"
  const kTcpFlagsBitMap := "tcpFlagsBitMap"
  const kSrcPort := "srcPort"
  const kDstPort := "dstPort"
  const kSrcL4PortRange := "srcL4PortRange"
  const kDstL4PortRange := "dstL4PortRange"
  const kPktLenRange := "pktLenRange"
  const kIpFrag := "ipFrag"
  const kIcmpCode := "icmpCode"
  const kIcmpType := "icmpType"
  const kDscp := "dscp"
  const kDstMac := "dstMac"
  const kIpType := "IpType"
  const kTtl := "ttl"
  const kTtlValue := "value"
  const kTtlMask := "mask"
  const kAclAction := "aclAction"
  const kDstIpLocal := "dstIpLocal"

  // Protocol numbers and ICMP bounds the validator uses (IANA protocol numbers 1 and 58).
  const kProtoIcmp := 1
  const kProtoIcmpv6 := 58
  const kMaxIcmpType := 255
  const kMaxIcmpCode := 255

  /** static_cast<uint8_t>: reduction modulo 2^8. */
  function Uint8(x: int): (r: int)
    ensures 0 <= r < 0x100
    ensures (x - r) % 0x100 == 0
    ensures 0 <= x < 0x100 ==> r == x
  {
    x % 0x100
  }

  /** static_cast<uint16_t>: reduction modulo 2^16. */
  function Uint16(x: int): (r: int)
    ensures 0 <= r < 0x1_0000
    ensures (x - r) % 0x1_0000 == 0
    ensures 0 <= x < 0x1_0000 ==> r == x
  {
    x % 0x1_0000
  }

  /** A TTL match: a value and a mask. */
  datatype AclTtl = AclTtl(value: int, mask: int)

  /** The fields of one ACL rule; every match field is optional. */
  datatype AclEntryFields = AclEntryFields(
    priority: int,
    name: string,
    srcIp: Option<CIDRNetwork>,
    dstIp: Option<CIDRNetwork>,
    dstMac: Option<MacAddress>,
    proto: Option<int>,
    tcpFlagsBitMap: Option<int>,
    srcPort: Option<int>,
    dstPort: Option<int>,
    srcL4PortRange: Option<AclL4PortRange>,
    dstL4PortRange: Option<AclL4PortRange>,
    pktLenRange: Option<AclPktLenRange>,
    ipFrag: Option<int>,          // a cfg::IpFragMatch value
    icmpType: Option<int>,
    icmpCode: Option<int>,
    dscp: Option<int>,
    ipType: Option<int>,          // a cfg::IpType value
    ttl: Option<AclTtl>,
    dstIpLocal: Option<bool>,
    actionType: int,              // a cfg::AclActionType value
    aclAction: Option<MatchAction>)

  /** The rule the decoder starts from: identity set, nothing else. */
  function NewFields(priority: int, name: string): (e: AclEntryFields)
    ensures e.priority == priority && e.name == name && e.actionType == Cfg.PERMIT
    ensures forall f :: IsSet(e, f) <==> f == Priority || f == Name || f == ActionType
  {
    AclEntryFields(priority, name, None, None, None, None, None, None, None, None, None,
                   None, None, None, None, None, None, None, None, Cfg.PERMIT, None)
  }

  /** The failures of the codec and of the validator. */
  datatype AclError =
    | NotAnObject                          // find() or operator[] on a document that is not an object
    | MissingKey(key: string)              // operator[] on an absent key
    | WrongKind(key: string)               // asInt()/asString()/asBool() on a value of another kind
    | MalformedText(key: string)           // the address or MAC parser rejects the text
    | MalformedNested(key: string)         // a nested value type's decoder rejects the document
    | TtlValueMissing                      // "ttl should have a value set"
    | TtlMaskMissing                       // "ttl should have a mask set"
    | UnmatchedIpVersions                  // source and destination of different families
    | UnsupportedName(key: string, name: string)  // an enumeration name outside its table
    | IcmpTypeRequired                     // icmpCode without icmpType
    | IcmpTypeOutOfRange
    | IcmpCodeOutOfRange
    | ProtoNotIcmp                         // icmpType without proto ICMP or ICMPv6

  // ---------------------------------------------------------------------
  // Field readers shared by the decoder and the validator

  /** `v.asInt()`: the integer an integer value holds; any other kind is a type error. */
  function ReadInt(v: Dynamic, key: string): (r: Result<int, AclError>)
    ensures r.Success? <==> v.DInt?
    ensures r.Success? ==> v == DInt(r.value)
    ensures r.Failure? ==> r.error == WrongKind(key)
  {
    if v.DInt? then Success(v.i) else Failure(WrongKind(key))
  }

  /** `v.asString()`: the text a string value holds; any other kind is a type error. */
  function ReadString(v: Dynamic, key: string): (r: Result<string, AclError>)
    ensures r.Success? <==> v.DStr?
    ensures r.Success? ==> v == DStr(r.value)
    ensures r.Failure? ==> r.error == WrongKind(key)
  {
    if v.DStr? then Success(v.s) else Failure(WrongKind(key))
  }

  /** `v.asBool()`: the flag a boolean value holds; any other kind is a type error. */
  function ReadBool(v: Dynamic, key: string): (r: Result<bool, AclError>)
    ensures r.Success? <==> v.DBool?
    ensures r.Success? ==> v == DBool(r.value)
    ensures r.Failure? ==> r.error == WrongKind(key)
  {
    if v.DBool? then Success(v.b) else Failure(WrongKind(key))
  }

  /** IPAddress::createNetwork(v.asString()). */
  function ReadNetwork(v: Dynamic, key: string, c: Codecs): (r: Result<CIDRNetwork, AclError>)
    ensures r.Success? <==> v.DStr? && c.createNetwork(v.s).Some?
    ensures r.Success? ==> c.createNetwork(v.s) == Some(r.value)
  {
    var text :- ReadString(v, key);
    match c.createNetwork(text)
    case Some(n) => Success(n)
    case None => Failure(MalformedText(key))
  }

  /** folly::MacAddress(v.asString()). */
  function ReadMac(v: Dynamic, key: string, c: Codecs): (r: Result<MacAddress, AclError>)
    ensures r.Success? <==> v.DStr? && c.createMac(v.s).Some?
    ensures r.Success? ==> c.createMac(v.s) == Some(r.value)
  {
    var text :- ReadString(v, key);
    match c.createMac(text)
    case Some(a) => Success(a)
    case None => Failure(MalformedText(key))
  }

  /** An enumeration name read from a string value and looked up in its NAMES_TO_VALUES table. */
  function ReadEnumName(v: Dynamic, key: string, t: Cfg.Enumeration): (r: Result<int, AclError>)
    ensures r.Success? <==> v.DStr? && Cfg.ValueOf(t, v.s).Some?
    ensures r.Success? ==> Cfg.ValueOf(t, v.s) == Some(r.value)
    ensures v.DStr? && Cfg.ValueOf(t, v.s).None? ==> r == Failure(UnsupportedName(key, v.s))
  {
    var name :- ReadString(v, key);
    match Cfg.ValueOf(t, name)
    case Some(value) => Success(value)
    case None => Failure(UnsupportedName(key, name))
  }

  /**
   * The enumeration lookup as fromFollyDynamic writes it:
   * `NAMES_TO_VALUES.find(name)->second`, with no comparison against
   * `end()`. Dereferencing `end()` is undefined, so the lookup is only
   * defined for names the table holds; that is its precondition here.
   * ReadEnumName is the corrected lookup the decoder uses.
   */
  function LookupNameAsWritten(t: Cfg.Enumeration, name: string): (r: int)
    requires Cfg.ValueOf(t, name).Some?
    ensures 0 <= r < Cfg.Size(t)
    ensures Cfg.NameOf(t, r) == Some(name)
  {
    Cfg.NameOfValueOf(t, name);
    Cfg.ValueOf(t, name).value
  }

  /** A nested value type decoded by its own codec. */
  function ReadNested<T>(v: Dynamic, key: string, decode: Dynamic -> Option<T>): (r: Result<T, AclError>)
    ensures r.Success? <==> decode(v).Some?
    ensures r.Success? ==> decode(v) == Some(r.value)
  {
    match decode(v)
    case Some(x) => Success(x)
    case None => Failure(MalformedNested(key))
  }

  /** Both addresses set and of different families: the one cross-field rule of the decoder. */
  predicate FamiliesDiffer(src: Option<CIDRNetwork>, dst: Option<CIDRNetwork>) {
    src.Some? && dst.Some? && src.value.address.IsV4() != dst.value.address.IsV4()
  }

  // ---------------------------------------------------------------------
  // AclTtl

  /** AclTtl::toFollyDynamic: an object holding the value and the mask, each narrowed to 16 bits. */
  function TtlToFollyDynamic(ttl: AclTtl): (r: Dynamic)
    ensures r.DObj? && r.fields.Keys == {kTtlValue, kTtlMask}
    ensures forall k :: k in r.fields ==> r.fields[k].DInt? && 0 <= r.fields[k].i < 0x1_0000
  {
    DObj(map[kTtlValue := DInt(Uint16(ttl.value)), kTtlMask := DInt(Uint16(ttl.mask))])
  }

  /** AclTtl::fromFollyDynamic: both "value" and "mask" are required. */
  function TtlFromFollyDynamic(d: Dynamic): (r: Result<AclTtl, AclError>)
    ensures d.DObj? && kTtlValue !in d.fields ==> r == Failure(TtlValueMissing)
    ensures d.DObj? && kTtlValue in d.fields && kTtlMask !in d.fields ==> r == Failure(TtlMaskMissing)
    ensures r.Success? <==>
      d.DObj? && kTtlValue in d.fields && kTtlMask in d.fields
      && d.fields[kTtlValue].DInt? && d.fields[kTtlMask].DInt?
    ensures r.Success? ==>
      d.fields[kTtlValue] == DInt(r.value.value) && d.fields[kTtlMask] == DInt(r.value.mask)
  {
    if !d.DObj? then Failure(NotAnObject)
    else if kTtlValue !in d.fields then Failure(TtlValueMissing)
    else if kTtlMask !in d.fields then Failure(TtlMaskMissing)
    else
      var value :- ReadInt(d.fields[kTtlValue], kTtlValue);
      var mask :- ReadInt(d.fields[kTtlMask], kTtlMask);
      Success(AclTtl(value, mask))
  }

  // ---------------------------------------------------------------------
  // Encoder

  /** The fields of a rule, each written under its own key. */
  datatype Field =
    | Priority | Name | ActionType | SrcIp | DstIp | DstMac | Proto | TcpFlagsBitMap
    | SrcPort | DstPort | SrcL4PortRange | DstL4PortRange | PktLenRange | IpFrag
    | IcmpCode | IcmpType | Dscp | IpType | Ttl | DstIpLocal | AclAction

  /** The key a field is written under. */
  function KeyOf(f: Field): string {
    match f
    case Priority => kPriority
    case Name => kName
    case ActionType => kActionType
    case SrcIp => kSrcIp
    case DstIp => kDstIp
    case DstMac => kDstMac
    case Proto => kProto
    case TcpFlagsBitMap => kTcpFlagsBitMap
    case SrcPort => kSrcPort
    case DstPort => kDstPort
    case SrcL4PortRange => kSrcL4PortRange
    case DstL4PortRange => kDstL4PortRange
    case PktLenRange => kPktLenRange
    case IpFrag => kIpFrag
    case IcmpCode => kIcmpCode
    case IcmpType => kIcmpType
    case Dscp => kDscp
    case IpType => kIpType
    case Ttl => kTtl
    case DstIpLocal => kDstIpLocal
    case AclAction => kAclAction
  }

  /** The field a key belongs to, if any. */
  function FieldOf(key: string): Option<Field> {
    if key == kPriority then Some(Priority)
    else if key == kName then Some(Name)
    else if key == kActionType then Some(ActionType)
    else if key == kSrcIp then Some(SrcIp)
    else if key == kDstIp then Some(DstIp)
    else if key == kDstMac then Some(DstMac)
    else if key == kProto then Some(Proto)
    else if key == kTcpFlagsBitMap then Some(TcpFlagsBitMap)
    else if key == kSrcPort then Some(SrcPort)
    else if key == kDstPort then Some(DstPort)
    else if key == kSrcL4PortRange then Some(SrcL4PortRange)
    else if key == kDstL4PortRange then Some(DstL4PortRange)
    else if key == kPktLenRange then Some(PktLenRange)
    else if key == kIpFrag then Some(IpFrag)
    else if key == kIcmpCode then Some(IcmpCode)
    else if key == kIcmpType then Some(IcmpType)
    else if key == kDscp then Some(Dscp)
    else if key == kIpType then Some(IpType)
    else if key == kTtl then Some(Ttl)
    else if key == kDstIpLocal then Some(DstIpLocal)
    else if key == kAclAction then Some(AclAction)
    else None
  }

  /** No two fields share a key: FieldOf undoes KeyOf. */
  lemma FieldOfKeyOf(f: Field)
    ensures FieldOf(KeyOf(f)) == Some(f)
  {
  }

  /** Every key the encoder may write at the top level of a rule's document. */
  const EntryKeys: set<string> := set f: Field :: KeyOf(f)

  /** Whether a field of the rule is set; priority, name and actionType always are. */
  predicate IsSet(e: AclEntryFields, f: Field) {
    match f
    case Priority => true
    case Name => true
    case ActionType => true
    case SrcIp => e.srcIp.Some?
    case DstIp => e.dstIp.Some?
    case DstMac => e.dstMac.Some?
    case Proto => e.proto.Some?
    case TcpFlagsBitMap => e.tcpFlagsBitMap.Some?
    case SrcPort => e.srcPort.Some?
    case DstPort => e.dstPort.Some?
    case SrcL4PortRange => e.srcL4PortRange.Some?
    case DstL4PortRange => e.dstL4PortRange.Some?
    case PktLenRange => e.pktLenRange.Some?
    case IpFrag => e.ipFrag.Some?
    case IcmpCode => e.icmpCode.Some?
    case IcmpType => e.icmpType.Some?
    case Dscp => e.dscp.Some?
    case IpType => e.ipType.Some?
    case Ttl => e.ttl.Some?
    case DstIpLocal => e.dstIpLocal.Some?
    case AclAction => e.aclAction.Some?
  }

  /** The encoder's CHECKs: the enumeration values have names in their tables. */
  predicate Encodable(e: AclEntryFields) {
    && Cfg.NameOf(Cfg.AclActionType, e.actionType).Some?
    && (e.ipFrag.Some? ==> Cfg.NameOf(Cfg.IpFragMatch, e.ipFrag.value).Some?)
  }

  /** The encoder's CHECKs hold exactly for an action in 0 .. 1 and a fragment match, if any, in 0 .. 4. */
  lemma EncodableRanges(e: AclEntryFields)
    ensures Encodable(e) <==>
      0 <= e.actionType < 2 && (e.ipFrag.Some? ==> 0 <= e.ipFrag.value < 5)
  {
  }

  /**
   * The value written for a set field: addresses as text, protocol, TCP flags,
   * ICMP and DSCP numbers narrowed to 8 bits, ports and IpType to 16 bits,
   * IpFrag and actionType by name, nested values by their own codecs.
   */
  function FieldValue(e: AclEntryFields, c: Codecs, f: Field): (v: Dynamic)
    requires Encodable(e) && IsSet(e, f)
    ensures f == ActionType ==> v.DStr? && Cfg.ValueOf(Cfg.AclActionType, v.s) == Some(e.actionType)
    ensures f == IpFrag ==> v.DStr? && Cfg.ValueOf(Cfg.IpFragMatch, v.s) == e.ipFrag
    ensures f in {Proto, TcpFlagsBitMap, IcmpCode, IcmpType, Dscp} ==> v.DInt? && 0 <= v.i < 0x100
    ensures f in {SrcPort, DstPort, IpType} ==> v.DInt? && 0 <= v.i < 0x1_0000
    ensures f in {SrcIp, DstIp, DstMac} ==> v.DStr?
  {
    match f
    case Priority => DInt(e.priority)
    case Name => DStr(e.name)
    case ActionType =>
      Cfg.ValueOfNameOf(Cfg.AclActionType, e.actionType);
      DStr(Cfg.NameOf(Cfg.AclActionType, e.actionType).value)
    case SrcIp => DStr(c.networkToString(e.srcIp.value))
    case DstIp => DStr(c.networkToString(e.dstIp.value))
    case DstMac => DStr(c.macToString(e.dstMac.value))
    case Proto => DInt(Uint8(e.proto.value))
    case TcpFlagsBitMap => DInt(Uint8(e.tcpFlagsBitMap.value))
    case SrcPort => DInt(Uint16(e.srcPort.value))
    case DstPort => DInt(Uint16(e.dstPort.value))
    case SrcL4PortRange => c.portRangeToDynamic(e.srcL4PortRange.value)
    case DstL4PortRange => c.portRangeToDynamic(e.dstL4PortRange.value)
    case PktLenRange => c.pktLenRangeToDynamic(e.pktLenRange.value)
    case IpFrag =>
      Cfg.ValueOfNameOf(Cfg.IpFragMatch, e.ipFrag.value);
      DStr(Cfg.NameOf(Cfg.IpFragMatch, e.ipFrag.value).value)
    case IcmpCode => DInt(Uint8(e.icmpCode.value))
    case IcmpType => DInt(Uint8(e.icmpType.value))
    case Dscp => DInt(Uint8(e.dscp.value))
    case IpType => DInt(Uint16(e.ipType.value))
    case Ttl => TtlToFollyDynamic(e.ttl.value)
    case DstIpLocal => DBool(e.dstIpLocal.value)
    case AclAction => c.matchActionToDynamic(e.aclAction.value)
  }

  /** `aclEntry[key] = value` when the field is set; nothing otherwise. */
  function Put(m: map<string, Dynamic>, e: AclEntryFields, c: Codecs, f: Field): map<string, Dynamic>
    requires Encodable(e)
  {
    if IsSet(e, f) then m[KeyOf(f) := FieldValue(e, c, f)] else m
  }

  /** The number of fields the encoder writes. */
  const FieldCount := 21

  /** The i-th field the encoder writes. */
  function WriteOrder(i: nat): Field
    requires i < FieldCount
  {
    if i == 0 then SrcIp
    else if i == 1 then DstIp
    else if i == 2 then DstMac
    else if i == 3 then Proto
    else if i == 4 then TcpFlagsBitMap
    else if i == 5 then SrcPort
    else if i == 6 then DstPort
    else if i == 7 then SrcL4PortRange
    else if i == 8 then DstL4PortRange
    else if i == 9 then PktLenRange
    else if i == 10 then IpFrag
    else if i == 11 then IcmpCode
    else if i == 12 then IcmpType
    else if i == 13 then Dscp
    else if i == 14 then IpType
    else if i == 15 then Ttl
    else if i == 16 then DstIpLocal
    else if i == 17 then ActionType
    else if i == 18 then AclAction
    else if i == 19 then Priority
    else Name
  }

  /** The position at which the encoder writes a field. */
  function WritePosition(f: Field): (i: nat)
    ensures i < FieldCount && WriteOrder(i) == f
  {
    match f
    case SrcIp => 0
    case DstIp => 1
    case DstMac => 2
    case Proto => 3
    case TcpFlagsBitMap => 4
    case SrcPort => 5
    case DstPort => 6
    case SrcL4PortRange => 7
    case DstL4PortRange => 8
    case PktLenRange => 9
    case IpFrag => 10
    case IcmpCode => 11
    case IcmpType => 12
    case Dscp => 13
    case IpType => 14
    case Ttl => 15
    case DstIpLocal => 16
    case ActionType => 17
    case AclAction => 18
    case Priority => 19
    case Name => 20
  }

  /** The object after writing the first `n` fields, starting from an empty one. */
  function EncodeFirst(e: AclEntryFields, c: Codecs, n: nat): map<string, Dynamic>
    requires Encodable(e) && n <= FieldCount
  {
    if n == 0 then map[] else Put(EncodeFirst(e, c, n - 1), e, c, WriteOrder(n - 1))
  }

  /** Writing the first `n` fields gives one key per set field among them, and no other key. */
  lemma {:induction false} EncodeFirstKeys(e: AclEntryFields, c: Codecs, n: nat)
    requires Encodable(e) && n <= FieldCount
    ensures forall f :: KeyOf(f) in EncodeFirst(e, c, n) <==> WritePosition(f) < n && IsSet(e, f)
    ensures forall f :: KeyOf(f) in EncodeFirst(e, c, n) ==>
      EncodeFirst(e, c, n)[KeyOf(f)] == FieldValue(e, c, f)
  {
    if n > 0 {
      var last := WriteOrder(n - 1);
      var before := EncodeFirst(e, c, n - 1);
      var after := EncodeFirst(e, c, n);
      assert after == Put(before, e, c, last);
      EncodeFirstKeys(e, c, n - 1);
      forall f
        ensures KeyOf(f) in after <==> WritePosition(f) < n && IsSet(e, f)
        ensures KeyOf(f) in after ==> after[KeyOf(f)] == FieldValue(e, c, f)
      {
        if f != last {
          FieldOfKeyOf(f);
          FieldOfKeyOf(last);
          assert KeyOf(f) != KeyOf(last);
          assert WritePosition(f) != n - 1;
        }
      }
    }
  }

  /** Every key written so far is one of the rule's keys. */
  lemma {:induction false} EncodeFirstDomain(e: AclEntryFields, c: Codecs, n: nat)
    requires Encodable(e) && n <= FieldCount
    ensures EncodeFirst(e, c, n).Keys <= EntryKeys
  {
    if n > 0 {
      EncodeFirstDomain(e, c, n - 1);
    }
  }

  /**
   * AclEntryFields::toFollyDynamic: a fresh object into which the fields are
   * written one at a time in WriteOrder. The document holds exactly one key
   * for each set field and none for an unset one; priority, name and
   * actionType are always written.
   */
  function ToFollyDynamic(e: AclEntryFields, c: Codecs): (r: Dynamic)
    requires Encodable(e)
    ensures r.DObj? && r.fields.Keys <= EntryKeys
    ensures forall f :: KeyOf(f) in r.fields <==> IsSet(e, f)
    ensures forall f :: KeyOf(f) in r.fields ==> r.fields[KeyOf(f)] == FieldValue(e, c, f)
  {
    EncodeFirstKeys(e, c, FieldCount);
    EncodeFirstDomain(e, c, FieldCount);
    DObj(EncodeFirst(e, c, FieldCount))
  }

  // ---------------------------------------------------------------------
  // Decoder

  /** `json[key]` on an object: an absent key is an error. */
  function Get(m: map<string, Dynamic>, key: string): (r: Result<Dynamic, AclError>)
    ensures r.Success? <==> key in m
    ensures r.Success? ==> r.value == m[key]
    ensures r.Failure? ==> r.error == MissingKey(key)
  {
    if key in m then Success(m[key]) else Failure(MissingKey(key))
  }

  /** An optional integer field: read with asInt() when its key is present. */
  function OptInt(m: map<string, Dynamic>, key: string): (r: Result<Option<int>, AclError>)
    ensures r.Success? <==> key !in m || m[key].DInt?
    ensures r.Success? ==> (r.value.Some? <==> key in m)
    ensures r.Success? && r.value.Some? ==> m[key] == DInt(r.value.value)
  {
    if key in m then (var i :- ReadInt(m[key], key); Success(Some(i))) else Success(None)
  }

  /** An optional boolean field: read with asBool() when its key is present. */
  function OptBool(m: map<string, Dynamic>, key: string): (r: Result<Option<bool>, AclError>)
    ensures r.Success? <==> key !in m || m[key].DBool?
    ensures r.Success? ==> (r.value.Some? <==> key in m)
    ensures r.Success? && r.value.Some? ==> m[key] == DBool(r.value.value)
  {
    if key in m then (var b :- ReadBool(m[key], key); Success(Some(b))) else Success(None)
  }

  /** An optional address field, parsed from its text when its key is present. */
  function OptNetwork(m: map<string, Dynamic>, key: string, c: Codecs): (r: Result<Option<CIDRNetwork>, AclError>)
    ensures r.Success? <==> key !in m || (m[key].DStr? && c.createNetwork(m[key].s).Some?)
    ensures r.Success? ==> (r.value.Some? <==> key in m)
    ensures r.Success? && r.value.Some? ==> c.createNetwork(m[key].s) == Some(r.value.value)
  {
    if key in m then (var n :- ReadNetwork(m[key], key, c); Success(Some(n))) else Success(None)
  }

  /** An optional MAC address field, parsed from its text when its key is present. */
  function OptMac(m: map<string, Dynamic>, key: string, c: Codecs): (r: Result<Option<MacAddress>, AclError>)
    ensures r.Success? <==> key !in m || (m[key].DStr? && c.createMac(m[key].s).Some?)
    ensures r.Success? ==> (r.value.Some? <==> key in m)
    ensures r.Success? && r.value.Some? ==> c.createMac(m[key].s) == Some(r.value.value)
  {
    if key in m then (var a :- ReadMac(m[key], key, c); Success(Some(a))) else Success(None)
  }

  /** An optional nested value, decoded by its own codec when its key is present. */
  function OptNested<T>(m: map<string, Dynamic>, key: string, decode: Dynamic -> Option<T>): (r: Result<Option<T>, AclError>)
    ensures r.Success? <==> key !in m || decode(m[key]).Some?
    ensures r.Success? ==> (r.value.Some? <==> key in m)
    ensures r.Success? && r.value.Some? ==> decode(m[key]) == Some(r.value.value)
  {
    if key in m then (var x :- ReadNested(m[key], key, decode); Success(Some(x))) else Success(None)
  }

  /** An optional enumeration field, looked up by name when its key is present. */
  function OptEnum(m: map<string, Dynamic>, key: string, t: Cfg.Enumeration): (r: Result<Option<int>, AclError>)
    ensures r.Success? <==> key !in m || (m[key].DStr? && Cfg.ValueOf(t, m[key].s).Some?)
    ensures r.Success? ==> (r.value.Some? <==> key in m)
    ensures r.Success? && r.value.Some? ==> Cfg.ValueOf(t, m[key].s) == Some(r.value.value)
  {
    if key in m then (var v :- ReadEnumName(m[key], key, t); Success(Some(v))) else Success(None)
  }

  /** An optional TTL, decoded by AclTtl::fromFollyDynamic when its key is present. */
  function OptTtl(m: map<string, Dynamic>, key: string): (r: Result<Option<AclTtl>, AclError>)
    ensures r.Success? <==> key !in m || TtlFromFollyDynamic(m[key]).Success?
    ensures r.Success? ==> (r.value.Some? <==> key in m)
    ensures r.Success? && r.value.Some? ==> TtlFromFollyDynamic(m[key]) == Success(r.value.value)
  {
    if key in m then (var t :- TtlFromFollyDynamic(m[key]); Success(Some(t))) else Success(None)
  }

  /**
   * The part of AclEntryFields::fromFollyDynamic before the actionType
   * lookup: the identity, then every optional field up to the TTL in source
   * order, with the address family check right after both addresses. The
   * rule it gives still holds the default action and no match action.
   */
  function DecodeBeforeAction(d: Dynamic, c: Codecs): (r: Result<AclEntryFields, AclError>)
    ensures !d.DObj? ==> r == Failure(NotAnObject)
    ensures r.Success? ==>
      && d.DObj? && kPriority in d.fields && kName in d.fields
      && d.fields[kPriority] == DInt(r.value.priority)
      && d.fields[kName] == DStr(r.value.name)
    ensures r.Success? ==>
      && r.value.actionType == Cfg.PERMIT && r.value.aclAction.None?
      && (r.value.ipFrag.Some? ==> Cfg.NameOf(Cfg.IpFragMatch, r.value.ipFrag.value).Some?)
      && !FamiliesDiffer(r.value.srcIp, r.value.dstIp)
  {
    if !d.DObj? then Failure(NotAnObject)
    else
      var m := d.fields;
      var priorityValue :- Get(m, kPriority);
      var priority :- ReadInt(priorityValue, kPriority);
      var nameValue :- Get(m, kName);
      var name :- ReadString(nameValue, kName);
      var srcIp :- OptNetwork(m, kSrcIp, c);
      var dstIp :- OptNetwork(m, kDstIp, c);
      if FamiliesDiffer(srcIp, dstIp) then Failure(UnmatchedIpVersions)
      else
        var dstMac :- OptMac(m, kDstMac, c);
        var proto :- OptInt(m, kProto);
        var tcpFlagsBitMap :- OptInt(m, kTcpFlagsBitMap);
        var srcPort :- OptInt(m, kSrcPort);
        var dstPort :- OptInt(m, kDstPort);
        var srcL4PortRange :- OptNested(m, kSrcL4PortRange, c.portRangeFromDynamic);
        var dstL4PortRange :- OptNested(m, kDstL4PortRange, c.portRangeFromDynamic);
        var pktLenRange :- OptNested(m, kPktLenRange, c.pktLenRangeFromDynamic);
        var ipFrag :- OptEnum(m, kIpFrag, Cfg.IpFragMatch);
        var icmpType :- OptInt(m, kIcmpType);
        var icmpCode :- OptInt(m, kIcmpCode);
        var dscp :- OptInt(m, kDscp);
        var ipType :- OptInt(m, kIpType);
        var dstIpLocal :- OptBool(m, kDstIpLocal);
        var ttl :- OptTtl(m, kTtl);
        Success(AclEntryFields(priority, name, srcIp, dstIp, dstMac, proto, tcpFlagsBitMap,
                               srcPort, dstPort, srcL4PortRange, dstL4PortRange, pktLenRange,
                               ipFrag, icmpType, icmpCode, dscp, ipType, ttl, dstIpLocal,
                               Cfg.PERMIT, None))
  }

  /**
   * AclEntryFields::fromFollyDynamic, as a value: the rule a document
   * decodes to, or the first error met reading it in source order.
   * Priority, name and actionType are required; every other field is read
   * only when its key is present. The one cross-field rule enforced here
   * is that source and destination addresses are of the same family,
   * checked right after both are read.
   */
  function Decode(d: Dynamic, c: Codecs): (r: Result<AclEntryFields, AclError>)
    ensures !d.DObj? ==> r == Failure(NotAnObject)
    ensures r.Success? ==>
      && d.DObj? && kPriority in d.fields && kName in d.fields && kActionType in d.fields
      && d.fields[kPriority] == DInt(r.value.priority)
      && d.fields[kName] == DStr(r.value.name)
      && d.fields[kActionType].DStr?
      && Cfg.ValueOf(Cfg.AclActionType, d.fields[kActionType].s) == Some(r.value.actionType)
    ensures r.Success? ==> Encodable(r.value) && !FamiliesDiffer(r.value.srcIp, r.value.dstIp)
  {
    var e :- DecodeBeforeAction(d, c);
    var actionValue :- Get(d.fields, kActionType);
    var actionType :- ReadEnumName(actionValue, kActionType, Cfg.AclActionType);
    var aclAction :- OptNested(d.fields, kAclAction, c.matchActionFromDynamic);
    Success(e.(actionType := actionType, aclAction := aclAction))
  }

  /**
   * AclEntryFields::fromFollyDynamic: starts from a rule holding the
   * priority and the name, then assigns each optional field in source
   * order: the value read when the document holds its key, None (the value
   * it already has) otherwise. The first error ends the decoding.
   */
  method FromFollyDynamic(aclEntryJson: Dynamic, c: Codecs) returns (r: Result<AclEntryFields, AclError>)
    ensures r == Decode(aclEntryJson, c)
  {
    if !aclEntryJson.DObj? {
      return Failure(NotAnObject);
    }
    var json := aclEntryJson.fields;
    var priorityValue :- Get(json, kPriority);
    var priority :- ReadInt(priorityValue, kPriority);
    var nameValue :- Get(json, kName);
    var name :- ReadString(nameValue, kName);
    var aclEntry := NewFields(priority, name);
    var srcIp :- OptNetwork(json, kSrcIp, c);
    aclEntry := aclEntry.(srcIp := srcIp);
    var dstIp :- OptNetwork(json, kDstIp, c);
    aclEntry := aclEntry.(dstIp := dstIp);
    if FamiliesDiffer(aclEntry.srcIp, aclEntry.dstIp) {
      return Failure(UnmatchedIpVersions);
    }
    var dstMac :- OptMac(json, kDstMac, c);
    aclEntry := aclEntry.(dstMac := dstMac);
    var proto :- OptInt(json, kProto);
    aclEntry := aclEntry.(proto := proto);
    var tcpFlagsBitMap :- OptInt(json, kTcpFlagsBitMap);
    aclEntry := aclEntry.(tcpFlagsBitMap := tcpFlagsBitMap);
    var srcPort :- OptInt(json, kSrcPort);
    aclEntry := aclEntry.(srcPort := srcPort);
    var dstPort :- OptInt(json, kDstPort);
    aclEntry := aclEntry.(dstPort := dstPort);
    var srcL4PortRange :- OptNested(json, kSrcL4PortRange, c.portRangeFromDynamic);
    aclEntry := aclEntry.(srcL4PortRange := srcL4PortRange);
    var dstL4PortRange :- OptNested(json, kDstL4PortRange, c.portRangeFromDynamic);
    aclEntry := aclEntry.(dstL4PortRange := dstL4PortRange);
    var pktLenRange :- OptNested(json, kPktLenRange, c.pktLenRangeFromDynamic);
    aclEntry := aclEntry.(pktLenRange := pktLenRange);
    var ipFrag :- OptEnum(json, kIpFrag, Cfg.IpFragMatch);
    aclEntry := aclEntry.(ipFrag := ipFrag);
    var icmpType :- OptInt(json, kIcmpType);
    aclEntry := aclEntry.(icmpType := icmpType);
    var icmpCode :- OptInt(json, kIcmpCode);
    aclEntry := aclEntry.(icmpCode := icmpCode);
    var dscp :- OptInt(json, kDscp);
    aclEntry := aclEntry.(dscp := dscp);
    var ipType :- OptInt(json, kIpType);
    aclEntry := aclEntry.(ipType := ipType);
    var dstIpLocal :- OptBool(json, kDstIpLocal);
    aclEntry := aclEntry.(dstIpLocal := dstIpLocal);
    var ttl :- OptTtl(json, kTtl);
    aclEntry := aclEntry.(ttl := ttl);
    var actionValue :- Get(json, kActionType);
    var actionType :- ReadEnumName(actionValue, kActionType, Cfg.AclActionType);
    aclEntry := aclEntry.(actionType := actionType);
    var aclAction :- OptNested(json, kAclAction, c.matchActionFromDynamic);
    aclEntry := aclEntry.(aclAction := aclAction);
    return Success(aclEntry);
  }
}
