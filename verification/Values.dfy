/** The variant type of lib/variables/Variables.hpp. */
module Values {
  /** The identity of a shared object.  Lists and maps hold pointers, so they compare by identity of their parts. */
  type Ref = nat

  datatype Value =
    | Int(i: int)
    | Str(s: string)
    | Bool(b: bool)
    | Map(entries: map<string, Ref>)
    | List(items: seq<Ref>)
    | VarMap(fields: map<string, Ref>)
    | Pointer(target: Ref)
    | Monostate

  /** Element count of the three containers; for anything else the size of the variant itself. */
  function SizeOf(v: Value, variantSize: nat): nat {
    match v
    case List(items) => |items|
    case Map(entries) => |entries|
    case VarMap(fields) => |fields|
    case _ => variantSize
  }

  const INT_MAX: int := 0x7FFF_FFFF

  predicate FitsInt(n: int) { -INT_MAX - 1 <= n <= INT_MAX }

  predicate IsDigit(c: char) { '0' <= c <= '9' }
}
