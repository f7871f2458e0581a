/** Ideal hashing. Every hash the repository computes is over a byte string whose first bytes name
    what is hashed, so a collision-free hash is a datatype with one constructor per kind. */
module Hashing {
  type u8 = b: int | 0 <= b < 0x100
  type u16 = b: int | 0 <= b < 0x1_0000
  type u32 = b: int | 0 <= b < 0x1_0000_0000
  type u64 = b: int | 0 <= b < 0x1_0000_0000_0000_0000

  datatype Hash =
    | Leaf(data: seq<u8>)             // H(0x00 || data)
    | Node(left: Hash, right: Hash)   // H(0x01 || left || right)
    | Text(data: seq<u8>)             // H(data), where data starts with neither of those bytes
    | State(parts: seq<Hash>)         // H("PROTOGAEA/STATE_ROOT/A3" || parts)
}
