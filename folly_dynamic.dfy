/**
 * The schemaless document the ACL codec reads and writes (folly::dynamic):
 * null, booleans, integers (unbounded here), strings, arrays and string-keyed
 * objects.
 */
module FollyDynamic {
  datatype Dynamic =
    | DNull
    | DBool(b: bool)
    | DInt(i: int)
    | DStr(s: string)
    | DArray(items: seq<Dynamic>)
    | DObj(fields: map<string, Dynamic>)
}
