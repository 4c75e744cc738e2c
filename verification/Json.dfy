/** Bytes, and JSON values as the programs see them once decoded. */
module Json {
  import opened Wrappers

  type Byte = b: int | 0 <= b < 256
  type Bytes = seq<Byte>

  const NEWLINE: Byte := 10

  /** The most records the engine accepts in one document. */
  const MAX_ITEMS := 100_000

  datatype Json =
    | Null
    | Bool(b: bool)
    | Int(n: int)
    | Float
    | Str(s: string)
    | Arr(items: seq<Json>)
    | Obj(fields: map<string, Json>)

  predicate IsLowerHex(c: char) { '0' <= c <= '9' || 'a' <= c <= 'f' }

  predicate IsHex(c: char) { IsLowerHex(c) || 'A' <= c <= 'F' }

  /** The name of a SHA-256 digest in either case. */
  predicate IsDigest(name: string) { |name| == 64 && forall i :: 0 <= i < |name| ==> IsHex(name[i]) }

  predicate IsLowerDigest(name: string) { |name| == 64 && forall i :: 0 <= i < |name| ==> IsLowerHex(name[i]) }
}
