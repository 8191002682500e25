/**
 * The configuration enumerations the ACL codec names in documents, with the
 * value-to-name and name-to-value tables generated for them
 * (_IpFragMatch_VALUES_TO_NAMES, _AclActionType_NAMES_TO_VALUES, ...).
 * Enumeration values are kept as the integers a C++ enum holds, so that a
 * value missing from its table can be written down; a table lookup is a
 * function returning None where `find` returns `end()`.
 */
module Cfg {
  import opened Wrappers

  /** The enumerations whose values the codec writes by name. */
  datatype Enumeration = IpFragMatch | AclActionType

  /** AclActionType::PERMIT, the action of a freshly constructed rule. */
  const PERMIT := 1

  /** `_<Enumeration>_VALUES_TO_NAMES.find(value)`. */
  function NameOf(t: Enumeration, value: int): (r: Option<string>)
    ensures r.Some? <==> 0 <= value < Size(t)
  {
    match t
    case IpFragMatch =>
      if value == 0 then Some("MATCH_NOT_FRAGMENTED")
      else if value == 1 then Some("MATCH_FIRST_FRAGMENT")
      else if value == 2 then Some("MATCH_NOT_FRAGMENTED_OR_FIRST_FRAGMENT")
      else if value == 3 then Some("MATCH_NOT_FIRST_FRAGMENT")
      else if value == 4 then Some("MATCH_ANY_FRAGMENT")
      else None
    case AclActionType =>
      if value == 0 then Some("DENY")
      else if value == 1 then Some("PERMIT")
      else None
  }

  /** `_<Enumeration>_NAMES_TO_VALUES.find(name)`. */
  function ValueOf(t: Enumeration, name: string): (r: Option<int>)
    ensures r.Some? ==> 0 <= r.value < Size(t)
  {
    match t
    case IpFragMatch =>
      if name == "MATCH_NOT_FRAGMENTED" then Some(0)
      else if name == "MATCH_FIRST_FRAGMENT" then Some(1)
      else if name == "MATCH_NOT_FRAGMENTED_OR_FIRST_FRAGMENT" then Some(2)
      else if name == "MATCH_NOT_FIRST_FRAGMENT" then Some(3)
      else if name == "MATCH_ANY_FRAGMENT" then Some(4)
      else None
    case AclActionType =>
      if name == "DENY" then Some(0)
      else if name == "PERMIT" then Some(1)
      else None
  }

  /** The number of values of an enumeration; its values are 0 .. Size - 1. */
  function Size(t: Enumeration): nat {
    match t
    case IpFragMatch => 5
    case AclActionType => 2
  }

  /** Looking up the name of a value and then that name's value gives the value back. */
  lemma ValueOfNameOf(t: Enumeration, value: int)
    requires NameOf(t, value).Some?
    ensures ValueOf(t, NameOf(t, value).value) == Some(value)
  {
  }

  /** Looking up the value of a name and then that value's name gives the name back. */
  lemma NameOfValueOf(t: Enumeration, name: string)
    requires ValueOf(t, name).Some?
    ensures NameOf(t, ValueOf(t, name).value) == Some(name)
  {
  }
}
