/**
 * What the ACL codec borrows from code outside AclEntry.cpp: folly's network
 * and MAC address types with their text forms, and the nested value types
 * (AclL4PortRange, AclPktLenRange, MatchAction) with their own document codecs.
 * The conversions are parameters of the codec (a `Codecs` record); `Lawful`
 * states the one thing the codec relies on: each parser inverts its printer
 * on the values that parser produces.
 */
module Collaborators {
  import opened Wrappers
  import opened FollyDynamic

  /** folly::IPAddress; the codec only asks for its address family. */
  datatype IPAddress = IPAddressV4(v4: nat) | IPAddressV6(v6: nat) {
    predicate IsV4() { IPAddressV4? }
  }

  /** folly::CIDRNetwork: an address and a prefix length. */
  datatype CIDRNetwork = CIDRNetwork(address: IPAddress, prefixLength: nat)

  /** folly::MacAddress, opaque here. */
  type MacAddress(!new)

  /** The nested value types, opaque here beyond their own codecs. */
  type AclL4PortRange(!new)
  type AclPktLenRange(!new)
  type MatchAction(!new)

  datatype Codecs = Codecs(
    networkToString: CIDRNetwork -> string,           // IPAddress::networkToString
    createNetwork: string -> Option<CIDRNetwork>,     // IPAddress::createNetwork (None: it throws)
    macToString: MacAddress -> string,                // MacAddress::toString
    createMac: string -> Option<MacAddress>,          // MacAddress(string) (None: it throws)
    portRangeToDynamic: AclL4PortRange -> Dynamic,
    portRangeFromDynamic: Dynamic -> Option<AclL4PortRange>,
    pktLenRangeToDynamic: AclPktLenRange -> Dynamic,
    pktLenRangeFromDynamic: Dynamic -> Option<AclPktLenRange>,
    matchActionToDynamic: MatchAction -> Dynamic,
    matchActionFromDynamic: Dynamic -> Option<MatchAction>)

  /** A network the prefix parser produces from some text. */
  ghost predicate Parsed(c: Codecs, n: CIDRNetwork) {
    exists text :: c.createNetwork(text) == Some(n)
  }

  /**
   * The prefix printer and parser agree on the networks the parser
   * produces: printing such a network and parsing the text gives it back.
   * A parser may canonicalise (clear host bits) or reject text (a prefix
   * longer than its family allows); networks it never produces are not
   * constrained.
   */
  ghost predicate NetworkLawful(c: Codecs) {
    forall n | Parsed(c, n) :: c.createNetwork(c.networkToString(n)) == Some(n)
  }

  /** The MAC parser gives back every MAC address its printer was given. */
  ghost predicate MacLawful(c: Codecs) {
    forall a :: c.createMac(c.macToString(a)) == Some(a)
  }

  /** The port and packet length range decoders give back what their encoders were given. */
  ghost predicate RangesLawful(c: Codecs) {
    && (forall p :: c.portRangeFromDynamic(c.portRangeToDynamic(p)) == Some(p))
    && (forall p :: c.pktLenRangeFromDynamic(c.pktLenRangeToDynamic(p)) == Some(p))
  }

  /** The match action decoder gives back what its encoder was given. */
  ghost predicate ActionLawful(c: Codecs) {
    forall a :: c.matchActionFromDynamic(c.matchActionToDynamic(a)) == Some(a)
  }

  /** Every collaborator the codec relies on keeps its own law. */
  ghost predicate Lawful(c: Codecs) {
    NetworkLawful(c) && MacLawful(c) && RangesLawful(c) && ActionLawful(c)
  }
}
