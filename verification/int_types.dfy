/**
 * The machine integer types the protocol structures are built from, and the
 * little-endian byte codec used for every integer field of a frame.
 *
 * C `int` and `pid_t` are signed 32-bit, `uid_t` and `gid_t` unsigned 32-bit
 * (their Linux widths); the kernel pointer `mod` is carried as an opaque
 * 64-bit handle.
 */
module IntTypes {

  newtype byte = x: int | 0 <= x < 0x100
  newtype int32 = x: int | -0x8000_0000 <= x < 0x8000_0000
  newtype uint32 = x: int | 0 <= x < 0x1_0000_0000
  newtype uint64 = x: int | 0 <= x < 0x1_0000_0000_0000_0000

  /** Width in bytes of every `int`, `pid_t`, `uid_t` and `gid_t` field. */
  const INT_LEN: nat := 4
  /** Width in bytes of the opaque `mod` handle. */
  const PTR_LEN: nat := 8

  function Pow256(n: nat): (r: nat)
    ensures r > 0
  {
    if n == 0 then 1 else 256 * Pow256(n - 1)
  }

  /** The n least significant bytes of u, least significant first. */
  function ToLE(u: nat, n: nat): (r: seq<byte>)
    requires u < Pow256(n)
    ensures |r| == n
  {
    if n == 0 then [] else [(u % 256) as byte] + ToLE(u / 256, n - 1)
  }

  /** The unsigned value of a little-endian byte string. */
  function FromLE(s: seq<byte>): (r: nat)
    ensures r < Pow256(|s|)
  {
    if s == [] then 0 else s[0] as nat + 256 * FromLE(s[1..])
  }

  lemma {:induction false} FromLEOfToLE(u: nat, n: nat)
    requires u < Pow256(n)
    ensures FromLE(ToLE(u, n)) == u
  {
    if n > 0 {
      FromLEOfToLE(u / 256, n - 1);
      assert ToLE(u, n)[1..] == ToLE(u / 256, n - 1);
    }
  }

  lemma {:induction false} ToLEOfFromLE(s: seq<byte>)
    ensures ToLE(FromLE(s), |s|) == s
  {
    if s != [] {
      var k := FromLE(s[1..]);
      var u := s[0] as nat + 256 * k;
      assert u % 256 == s[0] as nat && u / 256 == k;
      ToLEOfFromLE(s[1..]);
    }
  }

  lemma Pow256Four()
    ensures Pow256(4) == 0x1_0000_0000
  {
    assert Pow256(2) == 0x1_0000;
  }

  lemma Pow256Eight()
    ensures Pow256(8) == 0x1_0000_0000_0000_0000
  {
    Pow256Four();
    assert Pow256(6) == 0x1_0000_0000_0000;
  }

  /** Two's-complement little-endian encoding of a signed 32-bit field. */
  function EncodeInt32(x: int32): (r: seq<byte>)
    ensures |r| == INT_LEN && DecodeInt32(r) == x
  {
    Pow256Four();
    var u: nat := if x < 0 then x as int + 0x1_0000_0000 else x as int;
    FromLEOfToLE(u, 4);
    ToLE(u, 4)
  }

  function DecodeInt32(s: seq<byte>): (x: int32)
    requires |s| == INT_LEN
  {
    Pow256Four();
    var u := FromLE(s);
    if u >= 0x8000_0000 then (u - 0x1_0000_0000) as int32 else u as int32
  }

  /** Every 4-byte string is the encoding of the value it decodes to. */
  lemma EncodeOfDecodeInt32(s: seq<byte>)
    requires |s| == INT_LEN
    ensures EncodeInt32(DecodeInt32(s)) == s
  {
    Pow256Four();
    ToLEOfFromLE(s);
  }

  function EncodeUInt32(x: uint32): (r: seq<byte>)
    ensures |r| == INT_LEN && DecodeUInt32(r) == x
  {
    Pow256Four();
    FromLEOfToLE(x as nat, 4);
    ToLE(x as nat, 4)
  }

  function DecodeUInt32(s: seq<byte>): (x: uint32)
    requires |s| == INT_LEN
  {
    Pow256Four();
    FromLE(s) as uint32
  }

  lemma EncodeOfDecodeUInt32(s: seq<byte>)
    requires |s| == INT_LEN
    ensures EncodeUInt32(DecodeUInt32(s)) == s
  {
    Pow256Four();
    ToLEOfFromLE(s);
  }

  function EncodeUInt64(x: uint64): (r: seq<byte>)
    ensures |r| == PTR_LEN && DecodeUInt64(r) == x
  {
    Pow256Eight();
    FromLEOfToLE(x as nat, 8);
    ToLE(x as nat, 8)
  }

  function DecodeUInt64(s: seq<byte>): (x: uint64)
    requires |s| == PTR_LEN
  {
    Pow256Eight();
    FromLE(s) as uint64
  }

  lemma EncodeOfDecodeUInt64(s: seq<byte>)
    requires |s| == PTR_LEN
    ensures EncodeUInt64(DecodeUInt64(s)) == s
  {
    Pow256Eight();
    ToLEOfFromLE(s);
  }
}
