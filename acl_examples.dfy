/**
 * Concrete rule documents that pin down how the decoder and the validator
 * treat the ICMP range limits, the order in which the validator's checks
 * report, unknown enumeration names, and the checks the decoder does not
 * repeat. Documents without addresses do not depend on the address codec,
 * so most lemmas hold for every `Codecs`.
 */
module AclEntryExamples {
  import opened Wrappers
  import opened FollyDynamic
  import opened Collaborators
  import Cfg
  import opened AclEntry
  import opened AclEntryCheck

  /** A document with an action, protocol `proto` and ICMP type `icmpType`. */
  function IcmpTypeDoc(proto: int, icmpType: int): Dynamic {
    DObj(map[kActionType := DStr("DENY"), kProto := DInt(proto), kIcmpType := DInt(icmpType)])
  }

  /** The ICMP type bound is inclusive at 255: 255 passes, 256 and -1 are out of range. */
  lemma IcmpTypeBound(v: int, c: Codecs)
    ensures CheckFollyDynamic(IcmpTypeDoc(kProtoIcmp, v), c) ==
      (if 0 <= v <= 255 then Pass else Fail(IcmpTypeOutOfRange))
  {
  }

  /** An ICMP type is accepted exactly with protocol 1 (ICMP) or 58 (ICMPv6). */
  lemma IcmpTypeNeedsIcmpProto(proto: int, c: Codecs)
    ensures CheckFollyDynamic(IcmpTypeDoc(proto, 8), c) ==
      (if proto == 1 || proto == 58 then Pass else Fail(ProtoNotIcmp))
  {
  }

  /** A document with an action and ICMP code `code` but no ICMP type. */
  function IcmpCodeOnlyDoc(code: int): Dynamic {
    DObj(map[kPriority := DInt(10), kName := DStr("acl1"), kActionType := DStr("DENY"),
             kIcmpCode := DInt(code)])
  }

  /**
   * An ICMP code without a type is refused by the validator, and that check
   * comes before the range checks: code 300 is reported as a missing type.
   */
  lemma IcmpCodeNeedsType(code: int, c: Codecs)
    ensures CheckFollyDynamic(IcmpCodeOnlyDoc(code), c) == Fail(IcmpTypeRequired)
  {
  }

  /** The decoder does not run the ICMP checks: it accepts an ICMP code with no type. */
  lemma DecodeSkipsIcmpChecks(c: Codecs)
    ensures var r := Decode(IcmpCodeOnlyDoc(3), c);
      r.Success? && r.value.icmpCode == Some(3) && r.value.icmpType == None
  {
    assert NoOptionalKeys(IcmpCodeOnlyDoc(3).fields);
  }

  /** The keys of the optional fields other than icmpCode, none of which the example documents hold. */
  predicate NoOptionalKeys(m: map<string, Dynamic>) {
    && kSrcIp !in m && kDstIp !in m && kDstMac !in m && kProto !in m && kTcpFlagsBitMap !in m
    && kSrcPort !in m && kDstPort !in m && kSrcL4PortRange !in m && kDstL4PortRange !in m
    && kPktLenRange !in m && kIpFrag !in m && kIcmpType !in m && kDscp !in m && kIpType !in m
    && kDstIpLocal !in m && kTtl !in m && kAclAction !in m
  }

  /** A minimal document: priority, name and action `action`. */
  function ActionDoc(action: string): Dynamic {
    DObj(map[kPriority := DInt(10), kName := DStr("acl1"), kActionType := DStr(action)])
  }

  /** DENY decodes to action 0 with every optional field absent. */
  lemma KnownActionDecoded(c: Codecs)
    ensures Decode(ActionDoc("DENY"), c) == Success(NewFields(10, "acl1").(actionType := 0))
  {
    assert NoOptionalKeys(ActionDoc("DENY").fields) && kIcmpCode !in ActionDoc("DENY").fields;
  }

  /** DENY passes the validator. */
  lemma KnownActionValid(c: Codecs)
    ensures CheckFollyDynamic(ActionDoc("DENY"), c) == Pass
  {
  }

  /** A name outside the AclActionType table is refused by the decoder. */
  lemma UnknownActionNotDecoded(c: Codecs)
    ensures Decode(ActionDoc("flummox"), c) == Failure(UnsupportedName(kActionType, "flummox"))
  {
  }

  /** A name outside the AclActionType table is refused by the validator. */
  lemma UnknownActionNotValid(c: Codecs)
    ensures CheckFollyDynamic(ActionDoc("flummox"), c) == Fail(UnsupportedName(kActionType, "flummox"))
  {
  }

  /**
   * The source's own decoder reaches its unchecked actionType lookup on
   * ActionDoc("flummox"): every step before the lookup accepts that
   * document, the value looked up is "flummox", and that name is outside
   * the precondition of LookupNameAsWritten.
   */
  lemma UnknownActionReachesUncheckedLookup(c: Codecs)
    ensures DecodeBeforeAction(ActionDoc("flummox"), c).Success?
    ensures ActionDoc("flummox").fields[kActionType] == DStr("flummox")
    ensures !Cfg.ValueOf(Cfg.AclActionType, "flummox").Some?
  {
    assert NoOptionalKeys(ActionDoc("flummox").fields);
  }

  /** A document with an IPv4 source and an IPv6 destination. */
  function MixedFamiliesDoc(): Dynamic {
    DObj(map[kPriority := DInt(10), kName := DStr("acl1"), kActionType := DStr("DENY"),
             kSrcIp := DStr("10.0.0.1/32"), kDstIp := DStr("::1/128")])
  }

  /** An IPv4 source with an IPv6 destination is refused by both the decoder and the validator. */
  lemma MixedFamiliesRefused(c: Codecs)
    requires c.createNetwork("10.0.0.1/32").Some? && c.createNetwork("10.0.0.1/32").value.address.IsV4()
    requires c.createNetwork("::1/128").Some? && !c.createNetwork("::1/128").value.address.IsV4()
    ensures Decode(MixedFamiliesDoc(), c) == Failure(UnmatchedIpVersions)
    ensures CheckFollyDynamic(MixedFamiliesDoc(), c) == Fail(UnmatchedIpVersions)
  {
  }

  /** The network 10.0.0.0/24. */
  const Net10 := CIDRNetwork(IPAddressV4(0x0A00_0000), 24)

  /**
   * Collaborators whose prefix parser behaves like a canonicalising one:
   * it clears host bits ("10.0.0.1/24" reads as 10.0.0.0/24) and rejects a
   * prefix longer than 32 bits. The other collaborators reject everything.
   */
  function CanonicalisingCodecs(): Codecs {
    Codecs(
      (n: CIDRNetwork) => if n == Net10 then "10.0.0.0/24" else "",
      (text: string) => if text == "10.0.0.1/24" || text == "10.0.0.0/24" then Some(Net10) else None,
      (a: MacAddress) => "",
      (text: string) => None,
      (p: AclL4PortRange) => DNull,
      (d: Dynamic) => None,
      (p: AclPktLenRange) => DNull,
      (d: Dynamic) => None,
      (a: MatchAction) => DNull,
      (d: Dynamic) => None)
  }

  /** The network law admits a parser that clears host bits and rejects over-long prefixes. */
  lemma CanonicalisingParserIsLawful()
    ensures CanonicalisingCodecs().createNetwork("10.0.0.1/24") == Some(Net10)
    ensures CanonicalisingCodecs().createNetwork("10.0.0.1/33").None?
    ensures NetworkLawful(CanonicalisingCodecs())
  {
    var c := CanonicalisingCodecs();
    forall n | Parsed(c, n) ensures c.createNetwork(c.networkToString(n)) == Some(n) {
      var text :| c.createNetwork(text) == Some(n);
    }
  }
}
