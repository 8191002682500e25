/**
 * AclEntryFields::checkFollyDynamic: the standalone validator of a rule's
 * document. It runs a fixed sequence of semantic checks on the raw
 * document, without decoding it, and reports the first one that fails.
 */
module AclEntryCheck {
  import opened Wrappers
  import opened FollyDynamic
  import opened Collaborators
  import Cfg
  import opened AclEntry
  import AclEntryProofs

  /**
   * Check 1: when both addresses are present, both parse and are of the same
   * family. The source address is parsed first.
   */
  function CheckIpVersions(m: map<string, Dynamic>, c: Codecs): (r: Outcome<AclError>)
    ensures r.Pass? <==>
      kSrcIp in m && kDstIp in m ==>
        && m[kSrcIp].DStr? && c.createNetwork(m[kSrcIp].s).Some?
        && m[kDstIp].DStr? && c.createNetwork(m[kDstIp].s).Some?
        && !FamiliesDiffer(c.createNetwork(m[kSrcIp].s), c.createNetwork(m[kDstIp].s))
  {
    if kSrcIp in m && kDstIp in m then
      match ReadNetwork(m[kSrcIp], kSrcIp, c)
      case Failure(err) => Fail(err)
      case Success(src) =>
        match ReadNetwork(m[kDstIp], kDstIp, c)
        case Failure(err) => Fail(err)
        case Success(dst) =>
          if src.address.IsV4() != dst.address.IsV4() then Fail(UnmatchedIpVersions) else Pass
    else Pass
  }

  /** Check 2: a present ipFrag names an IpFragMatch value. */
  function CheckIpFrag(m: map<string, Dynamic>): (r: Outcome<AclError>)
    ensures r.Pass? <==>
      kIpFrag in m ==> m[kIpFrag].DStr? && Cfg.ValueOf(Cfg.IpFragMatch, m[kIpFrag].s).Some?
    ensures kIpFrag in m && m[kIpFrag].DStr? && Cfg.ValueOf(Cfg.IpFragMatch, m[kIpFrag].s).None? ==>
      r == Fail(UnsupportedName(kIpFrag, m[kIpFrag].s))
  {
    if kIpFrag in m then
      match ReadEnumName(m[kIpFrag], kIpFrag, Cfg.IpFragMatch)
      case Failure(err) => Fail(err)
      case Success(_) => Pass
    else Pass
  }

  /** Check 3: actionType is present and names an AclActionType value. */
  function CheckActionType(m: map<string, Dynamic>): (r: Outcome<AclError>)
    ensures r.Pass? <==>
      kActionType in m && m[kActionType].DStr? && Cfg.ValueOf(Cfg.AclActionType, m[kActionType].s).Some?
    ensures kActionType !in m ==> r == Fail(MissingKey(kActionType))
    ensures kActionType in m && m[kActionType].DStr? && Cfg.ValueOf(Cfg.AclActionType, m[kActionType].s).None? ==>
      r == Fail(UnsupportedName(kActionType, m[kActionType].s))
  {
    match Get(m, kActionType)
    case Failure(err) => Fail(err)
    case Success(v) =>
      match ReadEnumName(v, kActionType, Cfg.AclActionType)
      case Failure(err) => Fail(err)
      case Success(_) => Pass
  }

  /** Check 4: an icmpCode needs an icmpType. */
  function CheckIcmpPairing(m: map<string, Dynamic>): (r: Outcome<AclError>)
    ensures r.Pass? <==> (kIcmpCode in m ==> kIcmpType in m)
    ensures r.Fail? ==> r.error == IcmpTypeRequired
  {
    if kIcmpCode in m && kIcmpType !in m then Fail(IcmpTypeRequired) else Pass
  }

  /** Checks 5 and 6: a present ICMP type or code is an integer in 0 .. `max`. */
  function CheckIcmpRange(m: map<string, Dynamic>, key: string, max: int, outOfRange: AclError): (r: Outcome<AclError>)
    ensures r.Pass? <==> key in m ==> m[key].DInt? && 0 <= m[key].i <= max
    ensures key in m && m[key].DInt? && !(0 <= m[key].i <= max) ==> r == Fail(outOfRange)
  {
    if key in m then
      match ReadInt(m[key], key)
      case Failure(err) => Fail(err)
      case Success(i) => if i < 0 || i > max then Fail(outOfRange) else Pass
    else Pass
  }

  /** The protocol numbers an ICMP match allows: ICMP and ICMPv6, compared as document values. */
  predicate IsIcmpProto(v: Dynamic) {
    v == DInt(kProtoIcmp) || v == DInt(kProtoIcmpv6)
  }

  /** Check 7: an icmpType needs proto to be present and ICMP or ICMPv6. */
  function CheckIcmpProto(m: map<string, Dynamic>): (r: Outcome<AclError>)
    ensures r.Pass? <==> (kIcmpType in m ==> kProto in m && IsIcmpProto(m[kProto]))
    ensures r.Fail? ==> r.error == ProtoNotIcmp
  {
    if kIcmpType in m && (kProto !in m || !IsIcmpProto(m[kProto])) then Fail(ProtoNotIcmp) else Pass
  }

  /**
   * The rules a valid rule document obeys, stated on their own: same
   * address families, known enumeration names, ICMP code only with an
   * ICMP type, both within 0 .. 255, and an ICMP type only for ICMP or
   * ICMPv6.
   */
  ghost predicate Valid(d: Dynamic, c: Codecs) {
    && d.DObj?
    && var m := d.fields;
    && (kSrcIp in m && kDstIp in m ==>
          && m[kSrcIp].DStr? && c.createNetwork(m[kSrcIp].s).Some?
          && m[kDstIp].DStr? && c.createNetwork(m[kDstIp].s).Some?
          && c.createNetwork(m[kSrcIp].s).value.address.IsV4()
             == c.createNetwork(m[kDstIp].s).value.address.IsV4())
    && (kIpFrag in m ==> m[kIpFrag].DStr? && Cfg.ValueOf(Cfg.IpFragMatch, m[kIpFrag].s).Some?)
    && kActionType in m && m[kActionType].DStr?
    && Cfg.ValueOf(Cfg.AclActionType, m[kActionType].s).Some?
    && (kIcmpCode in m ==> kIcmpType in m)
    && (kIcmpType in m ==> m[kIcmpType].DInt? && 0 <= m[kIcmpType].i <= 255)
    && (kIcmpCode in m ==> m[kIcmpCode].DInt? && 0 <= m[kIcmpCode].i <= 255)
    && (kIcmpType in m ==> kProto in m && (m[kProto] == DInt(1) || m[kProto] == DInt(58)))
  }

  /**
   * AclEntryFields::checkFollyDynamic: the checks in source order; the
   * first failure is reported. It passes exactly the documents that obey
   * the rules.
   */
  function CheckFollyDynamic(d: Dynamic, c: Codecs): (r: Outcome<AclError>)
    ensures !d.DObj? ==> r == Fail(NotAnObject)
    ensures r.Pass? <==> Valid(d, c)
  {
    if !d.DObj? then Fail(NotAnObject)
    else
      var m := d.fields;
      var ipVersions := CheckIpVersions(m, c);
      if ipVersions.Fail? then ipVersions
      else
        var ipFrag := CheckIpFrag(m);
        if ipFrag.Fail? then ipFrag
        else
          var actionType := CheckActionType(m);
          if actionType.Fail? then actionType
          else
            var pairing := CheckIcmpPairing(m);
            if pairing.Fail? then pairing
            else
              var icmpType := CheckIcmpRange(m, kIcmpType, kMaxIcmpType, IcmpTypeOutOfRange);
              if icmpType.Fail? then icmpType
              else
                var icmpCode := CheckIcmpRange(m, kIcmpCode, kMaxIcmpCode, IcmpCodeOutOfRange);
                if icmpCode.Fail? then icmpCode
                else CheckIcmpProto(m)
  }

  /** The validator's address check and the decoder's agree: both reject exactly different families. */
  lemma FamilyChecksAgree(d: Dynamic, c: Codecs)
    requires d.DObj? && kSrcIp in d.fields && kDstIp in d.fields
    requires OptNetwork(d.fields, kSrcIp, c).Success? && OptNetwork(d.fields, kDstIp, c).Success?
    ensures CheckIpVersions(d.fields, c) == Fail(UnmatchedIpVersions) <==>
      FamiliesDiffer(OptNetwork(d.fields, kSrcIp, c).value, OptNetwork(d.fields, kDstIp, c).value)
    ensures FamiliesDiffer(OptNetwork(d.fields, kSrcIp, c).value, OptNetwork(d.fields, kDstIp, c).value) ==>
      CheckFollyDynamic(d, c) == Fail(UnmatchedIpVersions)
  {
  }

  /**
   * A rule that both decodes and passes the validator keeps the ICMP rules:
   * a code only with a type, both within 0 .. 255, and a type only with
   * protocol ICMP or ICMPv6.
   */
  lemma ValidatedDecodeKeepsIcmpRules(d: Dynamic, c: Codecs)
    requires CheckFollyDynamic(d, c).Pass? && Decode(d, c).Success?
    ensures var e := Decode(d, c).value;
      && (e.icmpCode.Some? ==> e.icmpType.Some?)
      && (e.icmpType.Some? ==> 0 <= e.icmpType.value <= 255)
      && (e.icmpCode.Some? ==> 0 <= e.icmpCode.value <= 255)
      && (e.icmpType.Some? ==> e.proto == Some(kProtoIcmp) || e.proto == Some(kProtoIcmpv6))
  {
    AclEntryProofs.DecodedPresence(d, c);
    AclEntryProofs.DecodedIcmpValues(d, c);
  }

  // ---------------------------------------------------------------------
  // The first failing check is the one reported

  /** Addresses of different families are reported before anything else. */
  lemma IpVersionsReported(m: map<string, Dynamic>, c: Codecs)
    requires kSrcIp in m && m[kSrcIp].DStr? && c.createNetwork(m[kSrcIp].s).Some?
    requires kDstIp in m && m[kDstIp].DStr? && c.createNetwork(m[kDstIp].s).Some?
    requires c.createNetwork(m[kSrcIp].s).value.address.IsV4() != c.createNetwork(m[kDstIp].s).value.address.IsV4()
    ensures CheckFollyDynamic(DObj(m), c) == Fail(UnmatchedIpVersions)
  {
  }

  /** Once the addresses pass, an unknown fragment-match name is reported. */
  lemma IpFragReported(m: map<string, Dynamic>, c: Codecs)
    requires CheckIpVersions(m, c).Pass?
    requires kIpFrag in m && m[kIpFrag].DStr? && Cfg.ValueOf(Cfg.IpFragMatch, m[kIpFrag].s).None?
    ensures CheckFollyDynamic(DObj(m), c) == Fail(UnsupportedName(kIpFrag, m[kIpFrag].s))
  {
  }

  /** Once the addresses and the fragment match pass, a missing or unknown action is reported. */
  lemma ActionTypeReported(m: map<string, Dynamic>, c: Codecs)
    requires CheckIpVersions(m, c).Pass? && CheckIpFrag(m).Pass?
    ensures kActionType !in m ==> CheckFollyDynamic(DObj(m), c) == Fail(MissingKey(kActionType))
    ensures kActionType in m && m[kActionType].DStr? && Cfg.ValueOf(Cfg.AclActionType, m[kActionType].s).None? ==>
      CheckFollyDynamic(DObj(m), c) == Fail(UnsupportedName(kActionType, m[kActionType].s))
  {
  }

  /** Once the names pass, an ICMP code without a type is reported, whatever the ICMP values. */
  lemma IcmpPairingReported(m: map<string, Dynamic>, c: Codecs)
    requires CheckIpVersions(m, c).Pass? && CheckIpFrag(m).Pass? && CheckActionType(m).Pass?
    requires kIcmpCode in m && kIcmpType !in m
    ensures CheckFollyDynamic(DObj(m), c) == Fail(IcmpTypeRequired)
  {
  }

  /** Once the pairing passes, an integer ICMP type outside 0 .. 255 is reported. */
  lemma IcmpTypeRangeReported(m: map<string, Dynamic>, c: Codecs)
    requires CheckIpVersions(m, c).Pass? && CheckIpFrag(m).Pass? && CheckActionType(m).Pass?
    requires CheckIcmpPairing(m).Pass?
    requires kIcmpType in m && m[kIcmpType].DInt? && !(0 <= m[kIcmpType].i <= 255)
    ensures CheckFollyDynamic(DObj(m), c) == Fail(IcmpTypeOutOfRange)
  {
  }

  /** Once the ICMP type passes, an integer ICMP code outside 0 .. 255 is reported, whatever the protocol. */
  lemma IcmpCodeRangeReported(m: map<string, Dynamic>, c: Codecs)
    requires CheckIpVersions(m, c).Pass? && CheckIpFrag(m).Pass? && CheckActionType(m).Pass?
    requires CheckIcmpPairing(m).Pass? && CheckIcmpRange(m, kIcmpType, kMaxIcmpType, IcmpTypeOutOfRange).Pass?
    requires kIcmpCode in m && m[kIcmpCode].DInt? && !(0 <= m[kIcmpCode].i <= 255)
    ensures CheckFollyDynamic(DObj(m), c) == Fail(IcmpCodeOutOfRange)
  {
  }

  /** Once every other check passes, an ICMP type without protocol ICMP or ICMPv6 is reported. */
  lemma IcmpProtoReported(m: map<string, Dynamic>, c: Codecs)
    requires CheckIpVersions(m, c).Pass? && CheckIpFrag(m).Pass? && CheckActionType(m).Pass?
    requires CheckIcmpPairing(m).Pass? && CheckIcmpRange(m, kIcmpType, kMaxIcmpType, IcmpTypeOutOfRange).Pass?
    requires CheckIcmpRange(m, kIcmpCode, kMaxIcmpCode, IcmpCodeOutOfRange).Pass?
    requires kIcmpType in m && (kProto !in m || !IsIcmpProto(m[kProto]))
    ensures CheckFollyDynamic(DObj(m), c) == Fail(ProtoNotIcmp)
  {
  }
}
