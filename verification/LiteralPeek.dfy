/** peekInt16 and peekInt32 read literally. Both call networkToHost64 (XNet/ByteBuffer.h:299
    and XNet/ByteBuffer.h:309): the loaded value is widened to 64 bits with its sign, swapped
    as 64 bits, and narrowed again. Elsewhere the model uses the conversion of the matching
    width, as XNet/Endian.h:26-32 provides it; this module says exactly what the difference is. */
module LiteralPeek {
  import opened Endian

  function Fill(b: Byte, n: nat): (bs: seq<Byte>)
    ensures |bs| == n
  {
    seq(n, _ => b)
  }

  function SignOctet(u: nat, w: nat): Byte {
    if 2 * u >= Pow256(w) then 255 else 0
  }

  /** intN_t to int64_t, as octets: the sign is repeated above the value. */
  function Widen(u: nat, w: nat): (r: nat)
    requires w <= 8 && u < Pow256(w)
    ensures r < Pow256(8)
  {
    FromBig(Fill(SignOctet(u, w), 8 - w) + ToBig(u, w))
  }

  /** int64_t to intN_t, as octets: the low ones are kept. */
  function Narrow(v: nat, w: nat): (r: nat)
    requires w <= 8 && v < Pow256(8)
    ensures r < Pow256(w)
  {
    FromBig(ToBig(v, 8)[8 - w..])
  }

  function DecodeAsWritten(host: HostOrder, bs: seq<Byte>): int
    requires |bs| <= 8
  {
    var w := |bs|;
    ToSigned(Narrow(NetworkToHost(host, Widen(Load(host, bs), w), 8), w), w)
  }

  lemma {:induction false} FillValue(n: nat)
    ensures FromBig(Fill(0, n)) == 0
    ensures FromBig(Fill(255, n)) == Pow256(n) - 1
  {
    if n > 0 {
      FillValue(n - 1);
      assert Fill(0, n)[..n - 1] == Fill(0, n - 1);
      assert Fill(255, n)[..n - 1] == Fill(255, n - 1);
    }
  }

  lemma SignedFill(b: Byte, w: nat)
    requires w >= 1 && (b == 0 || b == 255)
    ensures ToSigned(FromBig(Fill(b, w)), w) == if b == 0 then 0 else -1
  {
    FillValue(w);
    assert Pow256(w) >= 256;
  }

  lemma SwapOctets(octets: seq<Byte>)
    requires |octets| == 8
    ensures ByteSwap(FromBig(octets), 8) == FromBig(Reverse(octets))
  {
    ToFromBig(octets);
  }

  lemma NarrowOctets(octets: seq<Byte>, w: nat)
    requires |octets| == 8 && w <= 8
    ensures Narrow(FromBig(octets), w) == FromBig(octets[8 - w..])
  {
    ToFromBig(octets);
  }

  lemma ReversedTail(b: Byte, low: seq<Byte>)
    requires |low| <= 4
    ensures Reverse(Fill(b, 8 - |low|) + low)[8 - |low|..] == Fill(b, |low|)
  {
  }

  /** Reversed, the repeated sign comes last, and the narrowing keeps nothing else. */
  lemma OnlySignSurvives(u: nat, w: nat)
    requires 1 <= w <= 4 && u < Pow256(w)
    ensures Narrow(ByteSwap(Widen(u, w), 8), w) == FromBig(Fill(SignOctet(u, w), w))
  {
    var b := SignOctet(u, w);
    var octets := Fill(b, 8 - w) + ToBig(u, w);
    SwapOctets(octets);
    NarrowOctets(Reverse(octets), w);
    ReversedTail(b, ToBig(u, w));
  }

  /** On a little-endian host only the widened sign survives: the result is 0 or -1. */
  lemma LittleHostKeepsOnlySign(bs: seq<Byte>)
    requires 1 <= |bs| <= 4
    ensures DecodeAsWritten(LittleHost, bs)
         == if 2 * Load(LittleHost, bs) >= Pow256(|bs|) then -1 else 0
  {
    var w, u := |bs|, Load(LittleHost, bs);
    OnlySignSurvives(u, w);
    SignedFill(SignOctet(u, w), w);
  }

  /** On a big-endian host there is no swap, and widening and narrowing cancel. */
  lemma BigHostIsExact(bs: seq<Byte>)
    requires |bs| <= 8
    ensures DecodeAsWritten(BigHost, bs) == DecodeInt(BigHost, bs)
  {
    var w, u := |bs|, Load(BigHost, bs);
    NarrowOctets(Fill(SignOctet(u, w), 8 - w) + ToBig(u, w), w);
    FromToBig(u, w);
  }

  /** Exactly when the literal 16- and 32-bit peeks return what was appended: always on a
      big-endian host, and on a little-endian one only for 0 and -1. */
  lemma LiteralPeekCorrectIff(host: HostOrder, x: int, w: nat)
    requires (w == 2 || w == 4) && Fits(x, w)
    ensures DecodeAsWritten(host, EncodeInt(host, x, w)) == x
       <==> host.BigHost? || x == 0 || x == -1
  {
    var bs := EncodeInt(host, x, w);
    if host.BigHost? {
      BigHostIsExact(bs);
      IntRoundTrip(host, host, x, w);
    } else {
      LittleHostKeepsOnlySign(bs);
      EncodedSigns(w);
    }
  }

  lemma LoadEncoded(x: int, w: nat, b: Byte)
    requires Fits(x, w) && ToUnsigned(x, w) == FromBig(Fill(b, w))
    ensures Load(LittleHost, EncodeInt(LittleHost, x, w)) == FromBig(Fill(b, w))
  {
    EncodeIsNetworkOrder(LittleHost, x, w);
    ToFromBig(Fill(b, w));
    assert Reverse(Fill(b, w)) == Fill(b, w);
  }

  lemma EncodedSigns(w: nat)
    requires w >= 1
    ensures Fits(0, w) && Fits(-1, w)
    ensures 2 * Load(LittleHost, EncodeInt(LittleHost, 0, w)) < Pow256(w)
    ensures 2 * Load(LittleHost, EncodeInt(LittleHost, -1, w)) >= Pow256(w)
  {
    assert Pow256(w) >= 256;
    FillValue(w);
    LoadEncoded(0, w, 0);
    LoadEncoded(-1, w, 255);
  }
}
