/** The packet header of include/protocol.h, packed and unpacked in place by src/packet_common.c. */
module Packets {

  type Byte = x: int | 0 <= x < 256
  type UInt16 = x: int | 0 <= x < 0x1_0000
  type UInt32 = x: int | 0 <= x < 0x1_0000_0000

  const HEADER_SIZE := 16

  function Low(x: UInt16): (b: Byte) {
    x as int % 256
  }

  function High(x: UInt16): (b: Byte) {
    x as int / 256
  }

  function Join(high: Byte, low: Byte): UInt16 {
    256 * (high as int) + low as int
  }

  function LowHalf(y: UInt32): UInt16 {
    y as int % 0x1_0000
  }

  function HighHalf(y: UInt32): UInt16 {
    y as int / 0x1_0000
  }

  function JoinHalves(high: UInt16, low: UInt16): UInt32 {
    0x1_0000 * (high as int) + low as int
  }

  lemma Halves(high: UInt16, low: UInt16, y: UInt32)
    ensures LowHalf(JoinHalves(high, low)) == low && HighHalf(JoinHalves(high, low)) == high
    ensures JoinHalves(HighHalf(y), LowHalf(y)) == y
  {
  }

  lemma Octets(high: Byte, low: Byte, x: UInt16)
    ensures Low(Join(high, low)) == low && High(Join(high, low)) == high
    ensures Join(High(x), Low(x)) == x
  {
  }

  /** htons and ntohs on a little-endian machine. */
  function Swap16(x: UInt16): UInt16 {
    Join(Low(x), High(x))
  }

  /** htonl and ntohl. */
  function Swap32(y: UInt32): UInt32 {
    JoinHalves(Swap16(LowHalf(y)), Swap16(HighHalf(y)))
  }

  /** The bytes of a number in memory, lowest first. */
  function Bytes16(x: UInt16): (b: seq<Byte>)
    ensures |b| == 2
  {
    [Low(x), High(x)]
  }

  function Bytes32(y: UInt32): (b: seq<Byte>)
    ensures |b| == 4
  {
    Bytes16(LowHalf(y)) + Bytes16(HighHalf(y))
  }

  function Value16(b: seq<Byte>): UInt16
    requires |b| == 2
  {
    Join(b[1], b[0])
  }

  function Value32(b: seq<Byte>): UInt32
    requires |b| == 4
  {
    JoinHalves(Value16(b[2..]), Value16(b[..2]))
  }

  /** Conversion to uint8_t, uint16_t and uint32_t. */
  function Narrow8(x: int): (r: Byte)
    ensures r == x <==> 0 <= x < 256
  {
    x % 256
  }

  function Narrow16(x: int): (r: UInt16)
    ensures r == x <==> 0 <= x < 0x1_0000
  {
    x % 0x1_0000
  }

  function Narrow32(x: int): (r: UInt32)
    ensures r == x <==> 0 <= x < 0x1_0000_0000
  {
    x % 0x1_0000_0000
  }

  /** The fields of a header as they are in memory. */
  datatype Fields = Fields(kind: Byte, id: Byte, role: Byte, size: UInt16, sec: UInt32, nsec: UInt32)

  /** The 16 bytes of the struct: after role one byte of padding, after size two. */
  function Image(f: Fields): (b: seq<Byte>)
    ensures |b| == HEADER_SIZE
  {
    [f.kind, f.id, f.role, 0] + Bytes16(f.size) + [0, 0] + Bytes32(f.sec) + Bytes32(f.nsec)
  }

  /** The struct read back from 16 bytes; padding is ignored. */
  function FromImage(b: seq<Byte>): Fields
    requires |b| == HEADER_SIZE
  {
    Fields(b[0], b[1], b[2], Value16(b[4..6]), Value32(b[8..12]), Value32(b[12..16]))
  }

  lemma SwapTwice(x: UInt16, y: UInt32)
    ensures Swap16(Swap16(x)) == x
    ensures Swap32(Swap32(y)) == y
  {
    Octets(Low(x), High(x), x);
    Octets(Low(LowHalf(y)), High(LowHalf(y)), LowHalf(y));
    Octets(Low(HighHalf(y)), High(HighHalf(y)), HighHalf(y));
    Halves(Swap16(LowHalf(y)), Swap16(HighHalf(y)), y);
  }

  lemma ValueBytes(x: UInt16, y: UInt32)
    ensures Value16(Bytes16(x)) == x
    ensures Value32(Bytes32(y)) == y
  {
    Octets(0, 0, x);
    Octets(0, 0, LowHalf(y));
    Octets(0, 0, HighHalf(y));
    Halves(0, 0, y);
    assert Bytes32(y)[..2] == Bytes16(LowHalf(y)) && Bytes32(y)[2..] == Bytes16(HighHalf(y));
  }

  /** The sixteen bytes determine the fields. */
  lemma ImageRoundTrip(f: Fields)
    ensures FromImage(Image(f)) == f
  {
    var b := Image(f);
    assert b[4..6] == Bytes16(f.size) && b[8..12] == Bytes32(f.sec) && b[12..16] == Bytes32(f.nsec);
    ValueBytes(f.size, f.sec);
    ValueBytes(f.size, f.nsec);
  }

  /** JEUX_PACKET_HEADER, whose fields the two functions overwrite. */
  class PacketHeader {
    var kind: Byte
    var id: Byte
    var role: Byte
    var size: UInt16
    var sec: UInt32
    var nsec: UInt32

    function Value(): Fields
      reads this
    {
      Fields(kind, id, role, size, sec, nsec)
    }

    constructor ()
      ensures Value() == Fields(0, 0, 0, 0, 0, 0)
    {
      kind, id, role, size, sec, nsec := 0, 0, 0, 0, 0, 0;
    }

    /**
     pack_header: the id loses all but eight bits, the size all but sixteen, and the multi-byte fields
     end up most significant byte first in memory.
     */
    method Pack(kind: Byte, id: int, role: Byte, size: nat, clockSec: nat, clockNsec: nat)
      modifies this
      ensures Value() == Packed(kind, id, role, size, clockSec, clockNsec)
    {
      this.kind := kind;
      this.id := Narrow8(id);
      this.role := role;
      this.size := Swap16(Narrow16(size));
      var tsec := Narrow32(clockSec);
      var tnsec := Narrow32(clockNsec);
      sec := Swap32(tsec);
      nsec := Swap32(tnsec);
    }

    /** unpack_header. */
    method Unpack()
      modifies this
      ensures Value() == old(Value()).(size := Swap16(old(size)), sec := Swap32(old(sec)), nsec := Swap32(old(nsec)))
    {
      sec := Swap32(sec);
      nsec := Swap32(nsec);
      size := Swap16(size);
    }
  }

  /** What pack_header leaves, as a value. */
  function Packed(kind: Byte, id: int, role: Byte, size: nat, clockSec: nat, clockNsec: nat): Fields {
    Fields(kind, Narrow8(id), role, Swap16(Narrow16(size)), Swap32(Narrow32(clockSec)), Swap32(Narrow32(clockNsec)))
  }

  /** Unpacking in place undoes the byte order of packing, and the fields fit exactly when they are in range. */
  method PackUnpack(kind: Byte, id: int, role: Byte, size: nat, clockSec: nat, clockNsec: nat) returns (h: PacketHeader)
    ensures fresh(h)
    ensures h.kind == kind && h.role == role
    ensures h.id == id <==> 0 <= id < 256
    ensures h.size == size <==> size < 0x1_0000
    ensures h.sec == Narrow32(clockSec) && h.nsec == Narrow32(clockNsec)
  {
    h := new PacketHeader();
    h.Pack(kind, id, role, size, clockSec, clockNsec);
    h.Unpack();
    SwapTwice(Narrow16(size), Narrow32(clockSec));
    SwapTwice(Narrow16(size), Narrow32(clockNsec));
  }

  /** In memory, a swapped number lies most significant byte first. */
  lemma BigEndian(x: UInt16, y: UInt32)
    ensures Bytes16(Swap16(x)) == [High(x), Low(x)]
    ensures Bytes32(Swap32(y)) == [High(HighHalf(y)), Low(HighHalf(y)), High(LowHalf(y)), Low(LowHalf(y))]
  {
    Octets(Low(x), High(x), x);
    Octets(Low(LowHalf(y)), High(LowHalf(y)), LowHalf(y));
    Octets(Low(HighHalf(y)), High(HighHalf(y)), HighHalf(y));
    Halves(Swap16(LowHalf(y)), Swap16(HighHalf(y)), y);
  }

  /** The number that two bytes, or four, make with the most significant one first. */
  function Network16(a: Byte, b: Byte): int {
    256 * a as int + b as int
  }

  function Network32(a: Byte, b: Byte, c: Byte, d: Byte): int {
    0x100_0000 * a as int + 0x1_0000 * b as int + 256 * c as int + d as int
  }

  /** The bytes a packed header puts on the wire: network byte order. */
  lemma WireOrder(kind: Byte, id: int, role: Byte, size: nat, clockSec: nat, clockNsec: nat)
    ensures var b := Image(Packed(kind, id, role, size, clockSec, clockNsec));
            && b[0] == kind && b[1] == id % 256 && b[2] == role
            && Network16(b[4], b[5]) == size % 0x1_0000
            && Network32(b[8], b[9], b[10], b[11]) == clockSec % 0x1_0000_0000
            && Network32(b[12], b[13], b[14], b[15]) == clockNsec % 0x1_0000_0000
  {
    var x, y, z := Narrow16(size), Narrow32(clockSec), Narrow32(clockNsec);
    BigEndian(x, y);
    BigEndian(x, z);
    Octets(0, 0, x);
    Octets(0, 0, LowHalf(y));
    Octets(0, 0, HighHalf(y));
    Octets(0, 0, LowHalf(z));
    Octets(0, 0, HighHalf(z));
    Halves(0, 0, y);
    Halves(0, 0, z);
  }
}
