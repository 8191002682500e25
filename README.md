# ACL rule codec (FBOSS `AclEntry`)

This project models the document codec of one access-control rule of the
FBOSS switch agent, `AclEntryFields`, and proves what it promises:

- the **encoder** (`AclEntryFields::toFollyDynamic`, `AclTtl::toFollyDynamic`)
  writes a rule into a `folly::dynamic` object. Each optional field gets a
  key only when it is set. `priority`, `name` and `actionType` are always
  written. Enumerations are written by their names. Integers are narrowed
  to 8 or 16 bits;
- the **decoder** (`AclEntryFields::fromFollyDynamic`, `AclTtl::fromFollyDynamic`)
  reads the keys that are present back into optional fields. Its one
  cross-field rule is that a source and a destination address must be of
  the same family;
- the **validator** (`AclEntryFields::checkFollyDynamic`) runs an ordered
  chain of checks on a raw document and reports the first that fails:
  address family, known fragment-match name, known action name, ICMP code
  only with an ICMP type, ICMP type and code in 0 .. 255, and an ICMP type
  only with protocol ICMP (1) or ICMPv6 (58).

Files:

- `wrappers.dfy`: `Option`, `Result` and the pass/fail `Outcome`.
- `folly_dynamic.dfy`: the document type.
- `collaborators.dfy`: addresses, MACs and the nested value types. Their
  text and document codecs are parameters (`Codecs`), with the inverse
  laws stated as `Lawful`. The prefix law holds only on networks the
  parser produces, so a parser that clears host bits or rejects long
  prefixes can satisfy it.
- `cfg.dfy`: the `IpFragMatch` and `AclActionType` name tables.
- `acl_entry.dfy`: the rule, the TTL codec, the encoder and the decoder.
  The decoder is written twice:
  - `FromFollyDynamic` is a method that builds the rule by assigning each
    optional field in source order: the value read when the key is
    present, `None` otherwise;
  - `Decode` is the function that specifies it. It calls
    `DecodeBeforeAction` for every step before the `actionType` lookup.
- `acl_entry_proofs.dfy`: the round trip, narrowing, presence of keys, and
  the family rule.
- `acl_check.dfy`: the validator, its declarative reading, and how it
  relates to the decoder.
- `acl_examples.dfy`: concrete documents for the boundary and ordering
  cases.

Errors are values of `AclError`. Each `throw FbossError`, a missing key, a
value of the wrong kind and a rejected text or nested document becomes a
`Failure`. The encoder's `CHECK`s are preconditions (`Encodable`).

## Model

| member | source | states |
|---|---|---|
| AclEntry.Uint8 | fboss/agent/state/AclEntry.cpp:78 | `static_cast<uint8_t>` gives a value in 0 .. 255 that is congruent to its input modulo 256. It is the identity on 0 .. 255. |
| AclEntry.Uint16 | fboss/agent/state/AclEntry.cpp:51-52 | `static_cast<uint16_t>` gives a value in 0 .. 65535 that is congruent modulo 65536. It is the identity on 0 .. 65535. |
| AclEntry.TtlToFollyDynamic | fboss/agent/state/AclEntry.cpp:49-54 | The TTL document is an object with exactly the keys "value" and "mask". Both hold integers in 0 .. 65535. |
| AclEntry.TtlFromFollyDynamic | fboss/agent/state/AclEntry.cpp:56-64 | A missing "value" fails first, then a missing "mask". Decoding succeeds exactly when both are present integers, and gives back those integers. |
| AclEntryProofs.TtlRoundTrip | fboss/agent/state/AclEntry.cpp:49-64 | Decoding an encoded TTL gives its value and mask reduced to 16 bits. It gives the TTL itself when both fit. |
| AclEntryProofs.TtlMissingKeys | fboss/agent/state/AclEntry.cpp:57-62 | Objects that lack "value", or lack "mask", or are empty, fail with the matching error. |
| AclEntry.NewFields | fboss/agent/state/AclEntry.cpp:134-135 | The starting rule has the given priority and name and the default action PERMIT. Exactly priority, name and action count as set; no optional field is set. |
| AclEntry.ReadInt | fboss/agent/state/AclEntry.cpp:134 | `asInt` on a document value succeeds exactly on an integer and gives it. Any other kind fails with `WrongKind`. |
| AclEntry.ReadString | fboss/agent/state/AclEntry.cpp:135 | As ReadInt, for `asString`. |
| AclEntry.ReadBool | fboss/agent/state/AclEntry.cpp:198 | As ReadInt, for `asBool`. |
| AclEntry.ReadNetwork | fboss/agent/state/AclEntry.cpp:137-138 | Succeeds exactly on text that the prefix parser accepts, and gives the parser's result. |
| AclEntry.ReadMac | fboss/agent/state/AclEntry.cpp:154 | Succeeds exactly on text that the MAC parser accepts, and gives the parser's result. |
| AclEntry.ReadNested | fboss/agent/state/AclEntry.cpp:169-170 | Succeeds exactly when the nested decoder accepts the document, and gives its result. |
| AclEntry.ReadEnumName | fboss/agent/state/AclEntry.cpp:180-183 | A name succeeds exactly when it is a string in the table, and gives its value. An unknown name fails with `UnsupportedName`. This is the checked lookup the decoder uses. |
| AclEntry.LookupNameAsWritten | fboss/agent/state/AclEntry.cpp:203-206 | The unchecked `find(...)->second` is defined only for names in the table. There it gives the value whose name is the input. |
| AclEntry.EncodeFirstKeys | fboss/agent/state/AclEntry.cpp:66-130 | After the first n writes, the object holds the key of a field exactly when the field is set and comes among those n. The value under the key is the field's encoded value. |
| AclEntry.EncodeFirstDomain | fboss/agent/state/AclEntry.cpp:66-130 | The encoder writes no key outside the rule's keys. |
| AclEntry.WritePosition | fboss/agent/state/AclEntry.cpp:68-128 | Each field has exactly one place in the source's write order. |
| AclEntry.FieldOfKeyOf | fboss/agent/state/AclEntry.cpp:19-44 | No two fields share a document key. |
| AclEntry.EncodableRanges | fboss/agent/state/AclEntry.cpp:98-102 | The encoder's CHECKs (lines 100 and 122) hold exactly when the action is 0 or 1 and a fragment match, if set, is in 0 .. 4. |
| AclEntry.FieldValue | fboss/agent/state/AclEntry.cpp:68-128 | The action and the fragment match are written as names that look back up to their values. Protocol, TCP flags, ICMP type and code, and DSCP are integers in 0 .. 255. Ports and IP type are integers in 0 .. 65535. Addresses and the MAC are strings. |
| AclEntry.ToFollyDynamic | fboss/agent/state/AclEntry.cpp:66-130 | The document is an object. Its keys are the rule's keys. A field's key is present exactly when the field is set, so `priority`, `name` and `actionType` are always present and an unset field has no key. Each value is the field's encoding: enumeration names, 8/16-bit narrowed integers, address text, nested documents. |
| AclEntry.Get | fboss/agent/state/AclEntry.cpp:134-135 | `json[key]` succeeds exactly when the key is present and gives its value. Otherwise it fails with `MissingKey`. |
| AclEntry.OptInt | fboss/agent/state/AclEntry.cpp:156-167 | An absent key gives an unset field. A present key must hold an integer, and the field takes that integer. |
| AclEntry.OptBool | fboss/agent/state/AclEntry.cpp:197-199 | As OptInt, for `asBool`. |
| AclEntry.OptNetwork | fboss/agent/state/AclEntry.cpp:136-143 | An absent key gives an unset address. A present key must hold text that the prefix parser accepts, and the address is what the parser gives. |
| AclEntry.OptMac | fboss/agent/state/AclEntry.cpp:153-155 | As OptNetwork, for the MAC parser. |
| AclEntry.OptNested | fboss/agent/state/AclEntry.cpp:168-179 | An absent key gives an unset field. A present key holds a document that the nested decoder accepts. |
| AclEntry.OptEnum | fboss/agent/state/AclEntry.cpp:180-184 | An absent key gives an unset field. A present key holds a name in the table, and the field takes its value. |
| AclEntry.OptTtl | fboss/agent/state/AclEntry.cpp:200-202 | An absent key gives an unset TTL. A present key holds a TTL document that decodes. |
| AclEntry.DecodeBeforeAction | fboss/agent/state/AclEntry.cpp:134-202 | The steps before the `actionType` lookup. A non-object fails. A success means priority and name were present and are what the rule holds. The action is still the default, no match action is set, a fragment match is in its table, and the addresses share a family. |
| AclEntry.Decode | fboss/agent/state/AclEntry.cpp:132-213 | A non-object fails. A success means `priority`, `name` and `actionType` were present and are what the rule holds. It also means the decoded rule is encodable again and its addresses are of one family. |
| AclEntry.FromFollyDynamic | fboss/agent/state/AclEntry.cpp:132-213 | The method, which updates the rule field by field in source order, returns exactly `Decode`'s result. |
| AclEntryProofs.Narrow8 | fboss/agent/state/AclEntry.cpp:77-79 | An optional field narrowed to 8 bits stays set or unset as it was. A value that fits is unchanged. |
| AclEntryProofs.Narrow16 | fboss/agent/state/AclEntry.cpp:83-85 | The same, for 16 bits. |
| AclEntryProofs.NarrowedFits | fboss/agent/state/AclEntry.cpp:78-113 | Narrowing changes nothing in a rule whose integers fit their encoded widths. |
| AclEntryProofs.EncodedIdentity | fboss/agent/state/AclEntry.cpp:121-128 | An encoded rule reads back its priority and name. Its action reads back by name. |
| AclEntryProofs.EncodedAddresses | fboss/agent/state/AclEntry.cpp:68-73 | Given the prefix law, addresses that the prefix parser produced read back unchanged. |
| AclEntryProofs.EncodedMac | fboss/agent/state/AclEntry.cpp:74-76 | Given the MAC law, the destination MAC reads back unchanged. |
| AclEntryProofs.EncodedProtocol | fboss/agent/state/AclEntry.cpp:77-82 | The protocol and TCP flags read back reduced to 8 bits. The IP type reads back as an integer reduced to 16 bits (lines 112-114). |
| AclEntryProofs.EncodedPorts | fboss/agent/state/AclEntry.cpp:83-88 | The ports read back reduced to 16 bits. DSCP reads back reduced to 8 bits (lines 109-111). |
| AclEntryProofs.EncodedIcmp | fboss/agent/state/AclEntry.cpp:103-108 | The ICMP code and type read back reduced to 8 bits. |
| AclEntryProofs.EncodedRanges | fboss/agent/state/AclEntry.cpp:89-97 | Given the range codecs' law, the port and packet-length ranges read back unchanged. |
| AclEntryProofs.EncodedAction | fboss/agent/state/AclEntry.cpp:98-102 | The fragment match reads back from its name. Given the match-action codec's law, the match action reads back unchanged (lines 124-126). |
| AclEntryProofs.EncodedTtl | fboss/agent/state/AclEntry.cpp:115-117 | The TTL reads back with value and mask reduced to 16 bits. |
| AclEntryProofs.EncodedDstIpLocal | fboss/agent/state/AclEntry.cpp:118-120 | The local-destination flag reads back unchanged. |
| AclEntryProofs.RoundTrip | fboss/agent/state/AclEntry.cpp:66-213 | Take an encodable rule whose addresses share a family and are networks the parser produces, and lawful collaborators. Decoding its document gives the rule with every integer narrowed to its encoded width. |
| AclEntryProofs.RoundTripExact | fboss/agent/state/AclEntry.cpp:66-213 | If the integers also fit their widths, decoding gives back the rule itself. |
| AclEntryProofs.MismatchedFamiliesRejected | fboss/agent/state/AclEntry.cpp:144-152 | The encoder writes a rule whose parsed addresses have mixed families. Given only the prefix law, the decoder rejects that document with `UnmatchedIpVersions`. |
| AclEntryProofs.DecodedAddressesParsed | fboss/agent/state/AclEntry.cpp:136-143 | The addresses of a decoded rule are networks the prefix parser produced, so the round trip applies to them. |
| AclEntryProofs.DecodeEncodeDecode | fboss/agent/state/AclEntry.cpp:66-213 | Re-encoding a decoded rule and decoding again gives the decoded rule, narrowed to the encoded widths. |
| AclEntryProofs.DecodedPresence | fboss/agent/state/AclEntry.cpp:136-209 | Each optional field of a decoded rule is set exactly when the document holds its key. |
| AclEntryProofs.DecodedKeys | fboss/agent/state/AclEntry.cpp:136-209 | The same statement over every field: set exactly when its key is present. |
| AclEntryProofs.ReencodedKeys | fboss/agent/state/AclEntry.cpp:66-213 | Re-encoding a decoded rule writes exactly the document's rule keys and drops the rest. |
| AclEntryProofs.DecodedIcmpValues | fboss/agent/state/AclEntry.cpp:156-190 | A decoded rule's protocol, ICMP type and ICMP code are the integers the document holds. |
| AclEntryProofs.DecodeFamilyRule | fboss/agent/state/AclEntry.cpp:144-152 | Once the identity and both addresses read, decoding fails with `UnmatchedIpVersions` exactly when both addresses are present and of different families. |
| AclEntryCheck.CheckIpVersions | fboss/agent/state/AclEntry.cpp:216-230 | With both addresses present, the check passes exactly when both parse and share a family. Otherwise it passes. |
| AclEntryCheck.CheckIpFrag | fboss/agent/state/AclEntry.cpp:231-239 | A present `ipFrag` passes exactly when it names a table entry. An unknown name fails with `UnsupportedName`. |
| AclEntryCheck.CheckActionType | fboss/agent/state/AclEntry.cpp:240-246 | `actionType` must be present and name a table entry. Absent gives `MissingKey`; unknown gives `UnsupportedName`. |
| AclEntryCheck.CheckIcmpPairing | fboss/agent/state/AclEntry.cpp:247-251 | Passes exactly when an ICMP code comes with an ICMP type. |
| AclEntryCheck.CheckIcmpRange | fboss/agent/state/AclEntry.cpp:252-265 | A present value passes exactly when it is an integer in 0 .. max. Out of range gives the check's error. |
| AclEntryCheck.CheckIcmpProto | fboss/agent/state/AclEntry.cpp:266-273 | Passes exactly when an ICMP type comes with a protocol equal to 1 or 58. |
| AclEntryCheck.CheckFollyDynamic | fboss/agent/state/AclEntry.cpp:215-274 | A non-object fails with `NotAnObject`. The validator passes exactly the documents that obey all the rules, stated declaratively as `Valid`. |
| AclEntryCheck.IpVersionsReported | fboss/agent/state/AclEntry.cpp:216-230 | Two parsed addresses of different families are reported as `UnmatchedIpVersions`, whatever else the document holds. |
| AclEntryCheck.IpFragReported | fboss/agent/state/AclEntry.cpp:231-239 | Once the address check passes, an unknown fragment-match name is the reported failure. |
| AclEntryCheck.ActionTypeReported | fboss/agent/state/AclEntry.cpp:240-246 | Once the earlier checks pass, a missing action is reported as `MissingKey` and an unknown one as `UnsupportedName`. |
| AclEntryCheck.IcmpPairingReported | fboss/agent/state/AclEntry.cpp:247-251 | Once the earlier checks pass, an ICMP code without a type is reported as `IcmpTypeRequired`, whatever the ICMP values. |
| AclEntryCheck.IcmpTypeRangeReported | fboss/agent/state/AclEntry.cpp:252-258 | Once the earlier checks pass, an integer ICMP type outside 0 .. 255 is reported as `IcmpTypeOutOfRange`. |
| AclEntryCheck.IcmpCodeRangeReported | fboss/agent/state/AclEntry.cpp:259-265 | Once the earlier checks pass, an integer ICMP code outside 0 .. 255 is reported as `IcmpCodeOutOfRange`, whatever the protocol. |
| AclEntryCheck.IcmpProtoReported | fboss/agent/state/AclEntry.cpp:266-273 | Once every other check passes, an ICMP type without protocol 1 or 58 is reported as `ProtoNotIcmp`. |
| AclEntryCheck.FamilyChecksAgree | fboss/agent/state/AclEntry.cpp:144-152 | The validator's address check (lines 216-230) and the decoder's reject exactly the same address pairs. Such a pair makes the whole validator fail with `UnmatchedIpVersions`. |
| AclEntryCheck.ValidatedDecodeKeepsIcmpRules | fboss/agent/state/AclEntry.cpp:247-273 | A rule that decodes from a document the validator passes has an ICMP code only with a type, both in 0 .. 255, and a type only with protocol 1 or 58. |
| AclEntryExamples.IcmpTypeBound | fboss/agent/state/AclEntry.cpp:252-258 | With protocol ICMP, an ICMP type passes exactly in 0 .. 255. Outside that range it fails with `IcmpTypeOutOfRange`. |
| AclEntryExamples.IcmpTypeNeedsIcmpProto | fboss/agent/state/AclEntry.cpp:266-273 | An ICMP type passes with protocol 1 or 58. Any other protocol gives `ProtoNotIcmp`. |
| AclEntryExamples.IcmpCodeNeedsType | fboss/agent/state/AclEntry.cpp:247-265 | A code without a type fails with `IcmpTypeRequired`, even when the code is out of range (the pairing check comes first). |
| AclEntryExamples.DecodeSkipsIcmpChecks | fboss/agent/state/AclEntry.cpp:185-190 | The decoder accepts an ICMP code with no ICMP type. |
| AclEntryExamples.KnownActionDecoded | fboss/agent/state/AclEntry.cpp:132-213 | A document with only priority, name and `"DENY"` decodes to a rule with action 0 and nothing else set. |
| AclEntryExamples.KnownActionValid | fboss/agent/state/AclEntry.cpp:240-246 | The validator passes that document. |
| AclEntryExamples.UnknownActionNotDecoded | fboss/agent/state/AclEntry.cpp:203-206 | The corrected decoder rejects the action name "flummox" with `UnsupportedName`. |
| AclEntryExamples.UnknownActionNotValid | fboss/agent/state/AclEntry.cpp:240-246 | The validator rejects "flummox" with `UnsupportedName`. |
| AclEntryExamples.UnknownActionReachesUncheckedLookup | fboss/agent/state/AclEntry.cpp:203-206 | `DecodeBeforeAction`, the steps before the lookup, accepts the "flummox" document. The value looked up is "flummox", which is outside `LookupNameAsWritten`'s precondition. |
| AclEntryExamples.MixedFamiliesRefused | fboss/agent/state/AclEntry.cpp:144-152 | An IPv4 source with an IPv6 destination is refused by the decoder and by the validator (lines 216-230). |
| AclEntryExamples.CanonicalisingParserIsLawful | fboss/agent/state/AclEntry.cpp:137-142 | A parser that reads "10.0.0.1/24" as 10.0.0.0/24 and rejects "10.0.0.1/33" meets the prefix law. |
| Cfg.NameOf | fboss/agent/state/AclEntry.cpp:99-101 | A value has a name exactly when it is in its enumeration's range. |
| Cfg.ValueOf | fboss/agent/state/AclEntry.cpp:181-183 | Any value found for a name is in the enumeration's range. |
| Cfg.ValueOfNameOf | fboss/agent/state/AclEntry.cpp:98-102 | The name a value is written under looks up to that value. |
| Cfg.NameOfValueOf | fboss/agent/state/AclEntry.cpp:180-184 | The value a name reads as is written back under that name. |

## Left out

- Conversions from folly: `asInt`, `asString` and `asBool` convert between kinds (a numeric string to an integer, for example). Here each succeeds only on its own kind, and any other kind is a `WrongKind` failure. Doubles are not modelled.
- Integer width on decode: the decoder stores `asInt` results into fields whose widths are declared in AclEntry.h, which is not part of this model. Decoded integers are kept unbounded. The 64-bit range of `asInt` is not modelled.
- `kMaxIcmpType` and `kMaxIcmpCode` are defined in AclEntry.h, which is not part of this model. They are taken as 255, the bound the validator's comments give. `kProtoIcmp` and `kProtoIcmpv6` are taken as the IANA protocol numbers 1 and 58.
- Text forms of addresses and MACs (`IPAddress::createNetwork`, `networkToString`, `folly::MacAddress`), and the document codecs of `AclL4PortRange`, `AclPktLenRange` and `MatchAction`, are defined elsewhere. They are parameters (`Codecs`), and only their inverse laws (`Lawful`) are assumed. For prefixes, the law covers only networks the parser produces (`Parsed`). The round trip is stated for rules whose addresses are such networks, as every decoded address is.
- The IP family of an address is the only thing the model knows about it.
- The `IpFragMatch` and `AclActionType` tables are generated from the configuration schema, which is not part of this model. The values are taken as DENY = 0 and PERMIT = 1. The fragment matches are MATCH_NOT_FRAGMENTED, MATCH_FIRST_FRAGMENT, MATCH_NOT_FRAGMENTED_OR_FIRST_FRAGMENT, MATCH_NOT_FIRST_FRAGMENT and MATCH_ANY_FRAGMENT, as 0 .. 4.
- The unused key constants `kL4SrcPort`, `kL4DstPort` and `kPortName` are not declared.
- The `AclEntry` constructor and the `NodeBaseT` copy-on-write wrapper (lines 276-280) are state-tree infrastructure, not part of the codec.
- Evaluation order: C++ leaves the order of constructor arguments unspecified (priority and name at lines 134-135, value and mask at line 63). The model reads them left to right, so when both are bad the first one's error is reported.
- AclEntry.ToFollyDynamic: the encoder is a function. It writes the fields one at a time, in source order, into a map value, rather than updating one object in place. Updating in place, and any aliasing of that object, is not modelled.
- AclEntry.FromFollyDynamic: each `find`/`operator[]` pair of the source is one `Opt...` call. It assigns `None` to a field whose key is absent, where the source leaves the field alone. Both leave the field unset, because it starts unset. An exception becomes a returned `Failure`.
- AclEntry.NewFields: the default action of a new rule is set in AclEntry.h, which is not part of this model. PERMIT is assumed. The decoder always overwrites it, so no decoded rule depends on it.
- Exception messages are reduced to the error kinds of `AclError`.
- `proto` gating compares document values with the integers 1 and 58, as the code does (`aclEntryJson[kProto] == kProtoIcmp`). A symbolic protocol name such as "icmp" is therefore never accepted.
- The decoder does not run the validator's ICMP checks, as in the code (`DecodeSkipsIcmpChecks`). Checking is a separate call, and `ValidatedDecodeKeepsIcmpRules` states what the two give together.

## Findings

| source | as written | input that shows it | evidently intended | confidence | as-written member | corrected member |
|---|---|---|---|---|---|---|
| fboss/agent/state/AclEntry.cpp:203-206 (also 180-184 for `ipFrag`) | `fromFollyDynamic` dereferences `_AclActionType_NAMES_TO_VALUES.find(name)` without comparing it against `end()`. An unknown name is undefined behaviour. | `{"priority": 10, "name": "acl1", "actionType": "flummox"}`: every earlier step accepts it, and "flummox" is not in the table | reject the unknown name with an error, as `checkFollyDynamic` does at lines 240-246 | medium; not executed | AclEntry.LookupNameAsWritten, AclEntryExamples.UnknownActionReachesUncheckedLookup | AclEntry.ReadEnumName, AclEntryExamples.UnknownActionNotDecoded |
