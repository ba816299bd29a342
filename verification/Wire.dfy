/** Values that cross the wire: bytes, link handles, frames and the packed 17-byte header of a big message. */
module Wire {

  datatype Option<+T> = None | Some(value: T)

  type byte = x: int | 0 <= x < 0x100
  type u16 = x: int | 0 <= x < 0x1_0000
  type u32 = x: int | 0 <= x < 0x1_0000_0000

  const INT_MAX := 0x7FFF_FFFF

  /** `max_body_length`: the capacity of one frame's body. */
  const MAX_BODY := 0x8000

  /** `sizeof(HXMessagePackage)`, packed, with 64-bit pointers. */
  const PACKAGE_SIZE := 4 + 8 + MAX_BODY + 8

  const ID_CONNECT: u16 := 101
  const ID_DISCONNECT: u16 := 102
  const ID_CONNECT_FAILURE: u16 := 103
  const ID_BIG_BEGIN: u16 := 104
  const ID_BIG_DATA: u16 := 105
  const ID_BIG_END: u16 := 106
  const ID_HEARTBEAT: u16 := 107

  /** A link handle; the source reads the pair also as one integer, which is 0 exactly for NO_LINK. */
  datatype LinkID = LinkID(sid: u16, sindex: u16)

  const NO_LINK := LinkID(0, 0)

  /** What a package's body area can hold. */
  type Body = b: seq<byte> | |b| <= MAX_BODY

  /** One package as transmitted: header ids and the `length` body bytes. */
  datatype Frame = Frame(id: u16, id2: u16, body: Body)

  predicate IsStreamFrame(f: Frame) {
    f.id == ID_BIG_BEGIN || f.id == ID_BIG_DATA || f.id == ID_BIG_END
  }

  /** `std::vector::resize`: old bytes stay, new ones are zero. */
  function Resize(s: seq<byte>, n: nat): (r: seq<byte>)
    ensures |r| == n
    ensures forall i :: 0 <= i < n ==> r[i] == if i < |s| then s[i] else 0
  {
    if n <= |s| then s[..n] else s + seq(n - |s|, _ => 0 as byte)
  }

  /** `memcpy` into the middle of a buffer. */
  function Overwrite(s: seq<byte>, at: nat, src: seq<byte>): (r: seq<byte>)
    requires at + |src| <= |s|
    ensures |r| == |s|
    ensures forall i :: 0 <= i < |s| ==> r[i] == if at <= i < at + |src| then src[i - at] else s[i]
  {
    s[..at] + src + s[at + |src|..]
  }

  const TIME_SIZE := 8

  /** The answer to a heartbeat: the eight bytes of the time it carries. */
  function Echo(f: Frame): Frame {
    Frame(ID_HEARTBEAT, 0, Resize(f.body, TIME_SIZE))
  }

  function Put16(n: u16): seq<byte> {
    [n % 0x100, n / 0x100]
  }

  function Put32(n: u32): seq<byte> {
    Put16(n % 0x1_0000) + Put16(n / 0x1_0000)
  }

  function Get16(s: seq<byte>, at: nat): u16
    requires at + 2 <= |s|
  {
    var lo: int, hi: int := s[at], s[at + 1];
    lo + 0x100 * hi
  }

  function Get32(s: seq<byte>, at: nat): u32
    requires at + 4 <= |s|
  {
    var lo: int, hi: int := Get16(s, at), Get16(s, at + 2);
    lo + 0x1_0000 * hi
  }

  /** `MBigHeader`, packed with no padding. */
  datatype BigHeader = BigHeader(
    zipLevel: byte, sectionLength: u16, id: u16, id2: u16,
    dataLength: u32, originalLength: u32, sectionCount: u16)

  const BIG_HEADER_SIZE := 17

  function EncodeHeader(h: BigHeader): (s: seq<byte>)
    ensures |s| == BIG_HEADER_SIZE
  {
    [h.zipLevel] + Put16(h.sectionLength) + Put16(h.id) + Put16(h.id2)
    + Put32(h.dataLength) + Put32(h.originalLength) + Put16(h.sectionCount)
  }

  /** The source casts the body area; the bytes a short body lacks are read as zero here. */
  function DecodeHeader(body: seq<byte>): BigHeader {
    var s := Resize(body, BIG_HEADER_SIZE);
    BigHeader(s[0], Get16(s, 1), Get16(s, 3), Get16(s, 5), Get32(s, 7), Get32(s, 11), Get16(s, 15))
  }

  /** What a receiver reads from a header is what the sender packed, whatever follows it in the body area. */
  lemma HeaderRoundTrip(h: BigHeader, tail: seq<byte>)
    ensures DecodeHeader(EncodeHeader(h) + tail) == h
  {
  }
}
