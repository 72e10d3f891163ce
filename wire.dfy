/**
 * Machine words and their network (big-endian) byte order.
 *
 * Everything on the wire is a sequence of bytes; multi-byte fields are
 * written most significant byte first. The program runs on a little-endian
 * host, so a 32-bit word it stores without converting it first reaches the
 * wire least significant byte first: `HostOrder32` gives the value a
 * big-endian reader sees in that case.
 */
module Wire {

  type u8 = x: int | 0 <= x < 0x100
  type u16 = x: int | 0 <= x < 0x1_0000
  type u32 = x: int | 0 <= x < 0x1_0000_0000
  type i8 = x: int | -0x80 <= x < 0x80

  /** Truncation of an integer to its low 32 bits, as a store into a u_int32_t does. */
  function Wrap32(x: int): u32 {
    x % 0x1_0000_0000
  }

  /** Truncation to the low 8 bits, as a store into an unsigned char does. */
  function Wrap8(x: int): u8 {
    x % 0x100
  }

  /** The byte that holds the two's complement form of a signed char. */
  function SignedByte(v: i8): (b: u8)
    ensures b == v % 0x100
    ensures b < 0x80 <==> v >= 0
  {
    if v < 0 then v + 0x100 else v
  }

  /** The signed char whose two's complement form is the byte b. */
  function FromSignedByte(b: u8): (v: i8)
    ensures SignedByte(v) == b
  {
    if b >= 0x80 then b - 0x100 else b
  }

  lemma SignedByteInverse(v: i8)
    ensures FromSignedByte(SignedByte(v)) == v
  {
  }

  /** Narrowing of an int to a signed char (two's complement, as GCC does it). */
  function WrapSigned8(x: int): i8 {
    FromSignedByte(Wrap8(x))
  }

  function Pow256(n: nat): (r: nat)
    ensures r >= 1
  {
    if n == 0 then 1 else 0x100 * Pow256(n - 1)
  }

  lemma Pow256Values()
    ensures Pow256(1) == 0x100 && Pow256(2) == 0x1_0000 && Pow256(4) == 0x1_0000_0000
  {
  }

  /** The n-byte big-endian form of x: most significant byte first. */
  function BigEndian(x: nat, n: nat): (r: seq<u8>)
    requires x < Pow256(n)
    ensures |r| == n
  {
    if n == 0 then [] else BigEndian(x / 0x100, n - 1) + [x % 0x100]
  }

  /** The number whose big-endian form is bs. */
  function FromBigEndian(bs: seq<u8>): (x: nat)
    ensures x < Pow256(|bs|)
  {
    if bs == [] then 0 else FromBigEndian(bs[..|bs| - 1]) * 0x100 + bs[|bs| - 1]
  }

  lemma {:induction false} FromBigEndianInverse(x: nat, n: nat)
    requires x < Pow256(n)
    ensures FromBigEndian(BigEndian(x, n)) == x
  {
    if n > 0 {
      var r := BigEndian(x, n);
      assert r[..n - 1] == BigEndian(x / 0x100, n - 1);
      FromBigEndianInverse(x / 0x100, n - 1);
    }
  }

  lemma {:induction false} BigEndianInverse(bs: seq<u8>)
    ensures BigEndian(FromBigEndian(bs), |bs|) == bs
  {
    if bs != [] {
      var init := bs[..|bs| - 1];
      BigEndianInverse(init);
      var x := FromBigEndian(bs);
      assert x / 0x100 == FromBigEndian(init);
      assert x % 0x100 == bs[|bs| - 1];
      assert bs == init + [bs[|bs| - 1]];
    }
  }

  function Reverse(bs: seq<u8>): (r: seq<u8>)
    ensures |r| == |bs|
    ensures forall i :: 0 <= i < |bs| ==> r[i] == bs[|bs| - 1 - i]
  {
    if bs == [] then [] else Reverse(bs[1..]) + [bs[0]]
  }

  lemma {:induction false} ReverseInvolution(bs: seq<u8>)
    ensures Reverse(Reverse(bs)) == bs
  {
    var r := Reverse(Reverse(bs));
    assert forall i :: 0 <= i < |bs| ==> r[i] == bs[i];
  }

  /**
   * The 32-bit value a big-endian reader sees in the wire bytes of v when v
   * is stored in little-endian host order (no hton conversion).
   */
  function HostOrder32(v: u32): (w: u32)
    ensures BigEndian(w, 4) == Reverse(BigEndian(v, 4))
  {
    Pow256Values();
    var x := FromBigEndian(Reverse(BigEndian(v, 4)));
    BigEndianInverse(Reverse(BigEndian(v, 4)));
    x
  }

  /** Swapping byte order twice gives the word back. */
  lemma HostOrder32Involution(v: u32)
    ensures HostOrder32(HostOrder32(v)) == v
  {
    Pow256Values();
    var w := HostOrder32(v);
    var back := HostOrder32(w);
    ReverseInvolution(BigEndian(v, 4));
    assert BigEndian(back, 4) == BigEndian(v, 4);
    FromBigEndianInverse(back, 4);
    FromBigEndianInverse(v, 4);
  }

  /** The zero word looks the same in either byte order. */
  lemma HostOrderZero()
    ensures HostOrder32(0) == 0
  {
    Pow256Values();
    var z := BigEndian(0, 4);
    assert z == BigEndian(0, 3) + [0];
    assert BigEndian(0, 3) == BigEndian(0, 2) + [0];
    assert BigEndian(0, 2) == BigEndian(0, 1) + [0];
    assert z == [0, 0, 0, 0];
    FromBigEndianInverse(HostOrder32(0), 4);
  }

  /** Every word of ws fits in n bytes. */
  predicate Fits(ws: seq<nat>, n: nat) {
    forall i :: 0 <= i < |ws| ==> ws[i] < Pow256(n)
  }

  /** The words of ws, each in its n-byte big-endian form, one after another. */
  function Pack(ws: seq<nat>, n: nat): (r: seq<u8>)
    requires Fits(ws, n)
    ensures |r| == n * |ws|
  {
    if ws == [] then [] else BigEndian(ws[0], n) + Pack(ws[1..], n)
  }

  /** The k words of n bytes each that make up bs. */
  function Unpack(bs: seq<u8>, n: nat, k: nat): (ws: seq<nat>)
    requires |bs| == n * k
    ensures |ws| == k && Fits(ws, n)
  {
    if k == 0 then [] else [FromBigEndian(bs[..n])] + Unpack(bs[n..], n, k - 1)
  }

  lemma {:induction false} UnpackPack(ws: seq<nat>, n: nat)
    requires Fits(ws, n)
    ensures Unpack(Pack(ws, n), n, |ws|) == ws
  {
    if ws != [] {
      var p := Pack(ws, n);
      assert p[..n] == BigEndian(ws[0], n);
      assert p[n..] == Pack(ws[1..], n);
      FromBigEndianInverse(ws[0], n);
      UnpackPack(ws[1..], n);
      assert ws == [ws[0]] + ws[1..];
    }
  }

  lemma {:induction false} PackUnpack(bs: seq<u8>, n: nat, k: nat)
    requires |bs| == n * k
    ensures Pack(Unpack(bs, n, k), n) == bs
  {
    if k > 0 {
      var ws := Unpack(bs, n, k);
      assert ws[1..] == Unpack(bs[n..], n, k - 1);
      PackUnpack(bs[n..], n, k - 1);
      BigEndianInverse(bs[..n]);
      assert bs == bs[..n] + bs[n..];
    }
  }
}
