// Identifiers, compact contact encodings and the constants shared by every
// component (cht/dht.hpp).

module Dht {

  type Byte = x: int | 0 <= x < 256
  type Bytes = seq<Byte>

  newtype U8 = x: int | 0 <= x < 0x100
  newtype U32 = x: int | 0 <= x < 0x1_0000_0000
  type U16 = x: int | 0 <= x < 0x1_0000

  datatype Option<+T> = None | Some(value: T)

  const NIH_LEN := 20
  const PEERINFO_LEN := 6
  const PNODE_LEN := 26

  const OUR_TOK_PG: Byte := 0x77
  const OUR_TOK_GP: Byte := 0x78
  const OUR_TOK_FN: Byte := 0x79
  const OUR_TOKEN: Byte := 0x88

  const MIN_MSG_LEN := 45

  function Zeros(n: nat): (s: Bytes)
    ensures |s| == n
    ensures forall i :: 0 <= i < n ==> s[i] == 0
  {
    seq(n, _ => 0)
  }

  type Nih = s: Bytes | |s| == NIH_LEN witness Zeros(NIH_LEN)
  type Peerinfo = s: Bytes | |s| == PEERINFO_LEN witness Zeros(PEERINFO_LEN)
  type PNode = s: Bytes | |s| == PNODE_LEN witness Zeros(PNODE_LEN)

  /** The 32-bit checksum of an id is its last four bytes, in memory order. */
  function Checksum(nid: Nih): (c: Bytes)
    ensures |c| == 4
  {
    nid[16..20]
  }

  function NidOf(p: PNode): Nih { p[..NIH_LEN] }

  function PeerinfoOf(p: PNode): Peerinfo { p[NIH_LEN..] }

  /** The address part of a compact contact, without the port. */
  function InAddr(p: Peerinfo): Bytes { p[..4] }

  /** A 16-bit load from two consecutive bytes of memory (little-endian host). */
  function LoadU16(s: Bytes): U16
    requires |s| >= 2
  {
    (s[0] as int) + 256 * (s[1] as int)
  }

  function StoreU16(x: U16): (s: Bytes)
    ensures |s| == 2
  {
    [x % 256, x / 256]
  }
}
