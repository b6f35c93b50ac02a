/** Network byte order. */
module Bytes {
  import opened Common

  type byte = x: int | 0 <= x < 256
  type int32 = x: int | -0x8000_0000 <= x < 0x8000_0000
  type int64 = x: int | -0x8000_0000_0000_0000 <= x < 0x8000_0000_0000_0000

  function Pow256(n: nat): (p: nat)
    ensures p > 0
  {
    if n == 0 then 1 else 256 * Pow256(n - 1)
  }

  /** The low `n` bytes of `u`, most significant first. */
  function BigEndian(n: nat, u: nat): (bs: seq<byte>)
    ensures |bs| == n
    decreases n, u
  {
    if n == 0 then [] else BigEndian(n - 1, u / 256) + [u % 256]
  }

  function FromBigEndian(bs: seq<byte>): (u: nat)
    ensures u < Pow256(|bs|)
  {
    if bs == [] then 0 else 256 * FromBigEndian(Front(bs)) + Last(bs)
  }

  lemma {:induction false} FromBigEndianInverts(n: nat, u: nat)
    requires u < Pow256(n)
    ensures FromBigEndian(BigEndian(n, u)) == u
  {
    if n > 0 {
      FromBigEndianInverts(n - 1, u / 256);
      assert Front(BigEndian(n, u)) == BigEndian(n - 1, u / 256);
    }
  }

  lemma {:induction false} BigEndianInverts(bs: seq<byte>)
    ensures BigEndian(|bs|, FromBigEndian(bs)) == bs
  {
    if bs != [] {
      BigEndianInverts(Front(bs));
      assert FromBigEndian(bs) / 256 == FromBigEndian(Front(bs));
      assert bs == Front(bs) + [Last(bs)];
    }
  }

  function Reverse<T>(s: seq<T>): (r: seq<T>)
    ensures |r| == |s|
    ensures forall i | 0 <= i < |s| :: r[i] == s[|s| - 1 - i]
  {
    if s == [] then [] else Reverse(s[1..]) + [s[0]]
  }

  /** Two's complement. */
  function Unsigned(n: nat, x: int): (u: nat)
    requires 0 <= 2 * x + Pow256(n) && 2 * x < Pow256(n)
    ensures u < Pow256(n)
  {
    if x < 0 then x + Pow256(n) else x
  }

  function Signed(n: nat, u: nat): int { if 2 * u < Pow256(n) then u else u - Pow256(n) }

  lemma Powers()
    ensures Pow256(4) == 0x1_0000_0000
    ensures Pow256(8) == 0x1_0000_0000_0000_0000
  {
    assert Pow256(2) == 0x1_0000;
    assert Pow256(3) == 0x100_0000;
    assert Pow256(4) == 0x1_0000_0000;
    assert Pow256(5) == 0x100_0000_0000;
    assert Pow256(6) == 0x1_0000_0000_0000;
    assert Pow256(7) == 0x100_0000_0000_0000;
  }

  function EncodeInt(x: int32): (bs: seq<byte>)
    ensures |bs| == 4
  {
    Powers(); BigEndian(4, Unsigned(4, x))
  }

  function EncodeLong(x: int64): (bs: seq<byte>)
    ensures |bs| == 8
  {
    Powers(); BigEndian(8, Unsigned(8, x))
  }

  function DecodeInt(bs: seq<byte>): (x: int32)
    requires |bs| == 4
  {
    Powers(); Signed(4, FromBigEndian(bs))
  }

  function DecodeLong(bs: seq<byte>): (x: int64)
    requires |bs| == 8
  {
    Powers(); Signed(8, FromBigEndian(bs))
  }

  /** Network order: two's complement, the most significant byte first. */
  lemma NetworkOrder(x: int32)
    ensures var u := if x < 0 then x + 0x1_0000_0000 else x;
            EncodeInt(x) == [u / 0x100_0000 % 256, u / 0x1_0000 % 256, u / 0x100 % 256, u % 256]
  {
    Powers();
    FourBytes(Unsigned(4, x), 0);
  }

  lemma NetworkOrderLong(x: int64)
    ensures var u := if x < 0 then x + 0x1_0000_0000_0000_0000 else x;
            var high := u / 0x1_0000_0000;
            EncodeLong(x) == [high / 0x100_0000 % 256, high / 0x1_0000 % 256, high / 0x100 % 256, high % 256,
                              u / 0x100_0000 % 256, u / 0x1_0000 % 256, u / 0x100 % 256, u % 256]
  {
    hide BigEndian;
    Powers();
    var u := Unsigned(8, x);
    FourBytes(u / 0x1_0000_0000, 0);
    FourBytes(u, 4);
  }

  /** The last four of `4 + n` bytes. */
  lemma FourBytes(u: nat, n: nat)
    ensures BigEndian(4 + n, u) ==
              BigEndian(n, u / 0x1_0000_0000) +
              [u / 0x100_0000 % 256, u / 0x1_0000 % 256, u / 0x100 % 256, u % 256]
  {
    var a, b, c := u / 256, u / 0x1_0000, u / 0x100_0000;
    assert a / 256 == b && b / 256 == c && c / 256 == u / 0x1_0000_0000;
    assert BigEndian(1 + n, c) == BigEndian(n, c / 256) + [c % 256];
    assert BigEndian(2 + n, b) == BigEndian(1 + n, c) + [b % 256];
    assert BigEndian(3 + n, a) == BigEndian(2 + n, b) + [a % 256];
  }

  lemma ZeroInt()
    ensures EncodeInt(0) == [0, 0, 0, 0] && DecodeInt([0, 0, 0, 0]) == 0
  {
    IntRoundTrip(0);
    assert BigEndian(1, 0) == [0] && BigEndian(2, 0) == [0, 0] && BigEndian(3, 0) == [0, 0, 0];
  }

  lemma IntRoundTrip(x: int32)
    ensures DecodeInt(EncodeInt(x)) == x
  {
    Powers();
    FromBigEndianInverts(4, Unsigned(4, x));
  }

  lemma LongRoundTrip(x: int64)
    ensures DecodeLong(EncodeLong(x)) == x
  {
    Powers();
    FromBigEndianInverts(8, Unsigned(8, x));
  }

  lemma IntBytesRoundTrip(bs: seq<byte>)
    requires |bs| == 4
    ensures EncodeInt(DecodeInt(bs)) == bs
  {
    Powers();
    BigEndianInverts(bs);
  }

  lemma LongBytesRoundTrip(bs: seq<byte>)
    requires |bs| == 8
    ensures EncodeLong(DecodeLong(bs)) == bs
  {
    Powers();
    BigEndianInverts(bs);
  }

  /** The low `n` bytes of `u`, least significant first. */
  function LittleEndian(n: nat, u: nat): (bs: seq<byte>)
    ensures |bs| == n
    decreases n, u
  {
    if n == 0 then [] else [u % 256] + LittleEndian(n - 1, u / 256)
  }

  function FromLittleEndian(bs: seq<byte>): nat {
    if bs == [] then 0 else bs[0] + 256 * FromLittleEndian(bs[1..])
  }

  lemma {:induction false} ReverseLittleEndian(n: nat, u: nat)
    ensures Reverse(LittleEndian(n, u)) == BigEndian(n, u)
  {
    if n > 0 {
      ReverseLittleEndian(n - 1, u / 256);
      assert LittleEndian(n, u)[1..] == LittleEndian(n - 1, u / 256);
    }
  }

  lemma {:induction false} FromReversed(bs: seq<byte>)
    ensures FromLittleEndian(Reverse(bs)) == FromBigEndian(bs)
  {
    if bs != [] {
      FromReversed(Front(bs));
      assert Reverse(bs) == [Last(bs)] + Reverse(Front(bs));
    }
  }

  /** A 64-bit value in the memory of a little-endian host. */
  function HostLong(x: int64): (bs: seq<byte>)
    ensures |bs| == 8
  {
    Powers(); LittleEndian(8, Unsigned(8, x))
  }

  function FromHostLong(bs: seq<byte>): int64
    requires |bs| == 8
  {
    Powers(); FromReversed(Reverse(bs)); ReverseTwice(bs); Signed(8, FromLittleEndian(bs))
  }

  /** Swapping the host's memory end for end gives network order. */
  lemma SwapHostLong(x: int64)
    ensures Reverse(HostLong(x)) == EncodeLong(x)
  {
    Powers();
    ReverseLittleEndian(8, Unsigned(8, x));
  }

  /** And swapping network order end for end gives the host's memory. */
  lemma UnswapHostLong(bs: seq<byte>)
    requires |bs| == 8
    ensures FromHostLong(Reverse(bs)) == DecodeLong(bs)
  {
    FromReversed(bs);
  }

  /** `htonll` on a little-endian host: the bytes are swapped end for end in place. */
  method Htonll(s: array<byte>)
    requires s.Length == 8
    modifies s
    ensures s[..] == Reverse(old(s[..]))
  {
    var i := 0;
    while i < 4
      invariant 0 <= i <= 4
      invariant forall k | 0 <= k < 8 :: s[k] == if k < i || 8 - i <= k then old(s[7 - k]) else old(s[k])
    {
      var tmp := s[i];
      s[i] := s[8 - i - 1];
      s[8 - i - 1] := tmp;
      i := i + 1;
    }
  }

  /** `htonll` is its own inverse. */
  lemma {:induction false} ReverseTwice<T>(s: seq<T>)
    ensures Reverse(Reverse(s)) == s
  {
    forall i | 0 <= i < |s| ensures Reverse(Reverse(s))[i] == s[i] {
      assert Reverse(s)[|s| - 1 - i] == s[i];
    }
  }
}
