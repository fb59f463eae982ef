/** Byte order: XNet/Endian.h and the fixed-width integers of XNet/ByteBuffer.h.

    An unsigned integer of `w` bytes has a memory image, which depends on the host's
    byte order, and a network form (RFC 791 Appendix B: most significant octet first),
    which does not. The conversions of Endian.h connect the two. */
module Endian {
  type Byte = x: int | 0 <= x < 256

  datatype HostOrder = LittleHost | BigHost

  function Pow256(w: nat): (p: nat)
    ensures p >= 1
  {
    if w == 0 then 1 else 256 * Pow256(w - 1)
  }

  function Reverse<T>(bs: seq<T>): (r: seq<T>)
    ensures |r| == |bs|
    ensures forall i :: 0 <= i < |bs| ==> r[i] == bs[|bs| - 1 - i]
  {
    seq(|bs|, i requires 0 <= i < |bs| => bs[|bs| - 1 - i])
  }

  /** The w octets of v, most significant first. */
  function ToBig(v: nat, w: nat): (bs: seq<Byte>)
    ensures |bs| == w
  {
    if w == 0 then [] else ToBig(v / 256, w - 1) + [v % 256]
  }

  /** The number that a sequence of octets denotes, most significant first. */
  function FromBig(bs: seq<Byte>): (v: nat)
    ensures v < Pow256(|bs|)
  {
    if |bs| == 0 then 0 else FromBig(bs[..|bs| - 1]) * 256 + bs[|bs| - 1]
  }

  /** What a w-byte unsigned integer looks like in the host's memory. */
  function Image(host: HostOrder, v: nat, w: nat): seq<Byte> {
    if host.BigHost? then ToBig(v, w) else Reverse(ToBig(v, w))
  }

  /** memcpy of octets into an unsigned integer of that size. */
  function Load(host: HostOrder, bs: seq<Byte>): (v: nat)
    ensures v < Pow256(|bs|)
  {
    if host.BigHost? then FromBig(bs) else FromBig(Reverse(bs))
  }

  function ByteSwap(v: nat, w: nat): (r: nat)
    ensures r < Pow256(w)
  {
    FromBig(Reverse(ToBig(v, w)))
  }

  /** htobe16/32/64: a swap on a little-endian host, nothing on a big-endian one. */
  function HostToNetwork(host: HostOrder, v: nat, w: nat): (r: nat)
    requires v < Pow256(w)
    ensures r < Pow256(w)
  {
    if host.BigHost? then v else ByteSwap(v, w)
  }

  /** be16toh/be32toh/be64toh. */
  function NetworkToHost(host: HostOrder, v: nat, w: nat): (r: nat)
    requires v < Pow256(w)
    ensures r < Pow256(w)
  {
    if host.BigHost? then v else ByteSwap(v, w)
  }

  // ----- signed values, as the implicit conversions between intN_t and uintN_t -----

  predicate Fits(x: int, w: nat) {
    0 - Pow256(w) <= 2 * x < Pow256(w)
  }

  function ToUnsigned(x: int, w: nat): (u: nat)
    requires Fits(x, w)
    ensures u < Pow256(w)
  {
    if x < 0 then x + Pow256(w) else x
  }

  /** Conversion to the signed type of the same size. */
  function ToSigned(u: nat, w: nat): (x: int)
    requires u < Pow256(w)
    ensures Fits(x, w)
  {
    if 2 * u >= Pow256(w) then u - Pow256(w) else u
  }

  /** What the append family hands to the buffer: the image of the swapped value. */
  function EncodeInt(host: HostOrder, x: int, w: nat): (bs: seq<Byte>)
    requires Fits(x, w)
    ensures |bs| == w
  {
    Image(host, HostToNetwork(host, ToUnsigned(x, w), w), w)
  }

  /** What the peek family computes from the first w octets. */
  function DecodeInt(host: HostOrder, bs: seq<Byte>): int {
    ToSigned(NetworkToHost(host, Load(host, bs), |bs|), |bs|)
  }

  // ----- the digits -----

  lemma {:induction false} FromToBig(v: nat, w: nat)
    requires v < Pow256(w)
    ensures FromBig(ToBig(v, w)) == v
  {
    if w > 0 {
      FromToBig(v / 256, w - 1);
      var bs := ToBig(v, w);
      assert bs[..|bs| - 1] == ToBig(v / 256, w - 1);
    }
  }

  lemma {:induction false} ToFromBig(bs: seq<Byte>)
    ensures ToBig(FromBig(bs), |bs|) == bs
  {
    if |bs| > 0 {
      var front, last := bs[..|bs| - 1], bs[|bs| - 1];
      ToFromBig(front);
      assert FromBig(bs) / 256 == FromBig(front) && FromBig(bs) % 256 == last;
      assert bs == front + [last];
    }
  }

  /** Octet i counts multiples of 256^lo, lo being the number of octets after it: the most
      significant octet is transmitted first. */
  lemma NetworkOrderDigits(q: nat, r: nat, i: nat, lo: nat)
    requires r < Pow256(lo)
    ensures ToBig(Pow256(lo) * q + r, i + 1 + lo)[i] == q % 256
  {
    ToBigSplit(q, r, i + 1, lo);
    assert ToBig(q, i + 1)[i] == q % 256;
  }

  lemma DropDigit(p: nat, q: nat, r: nat)
    requires r < 256 * p
    ensures r / 256 < p
    ensures ((256 * p) * q + r) / 256 == p * q + r / 256
    ensures ((256 * p) * q + r) % 256 == r % 256
  {
    assert (256 * p) * q == 256 * (p * q);
  }

  lemma LastOctet(v: nat, w: nat)
    ensures ToBig(v, w + 1) == ToBig(v / 256, w) + [v % 256]
  {
  }

  lemma Regroup(a: seq<Byte>, b: seq<Byte>, c: seq<Byte>)
    ensures (a + b) + c == a + (b + c)
  {
  }

  /** The octets of a wide value are those of its high part, then those of its low part. */
  lemma {:induction false} ToBigSplit(q: nat, r: nat, hi: nat, lo: nat)
    requires r < Pow256(lo)
    ensures ToBig(Pow256(lo) * q + r, hi + lo) == ToBig(q, hi) + ToBig(r, lo)
  {
    if lo > 0 {
      var p := Pow256(lo - 1);
      DropDigit(p, q, r);
      LastOctet((256 * p) * q + r, hi + (lo - 1));
      LastOctet(r, lo - 1);
      ToBigSplit(q, r / 256, hi, lo - 1);
      Regroup(ToBig(q, hi), ToBig(r / 256, lo - 1), [r % 256]);
    } else {
      assert ToBig(q, hi) + [] == ToBig(q, hi);
    }
  }

  lemma ReverseTwice(bs: seq<Byte>)
    ensures Reverse(Reverse(bs)) == bs
  {
  }

  lemma SwapTwice(v: nat, w: nat)
    requires v < Pow256(w)
    ensures ByteSwap(v, w) < Pow256(w)
    ensures ByteSwap(ByteSwap(v, w), w) == v
  {
    ToFromBig(Reverse(ToBig(v, w)));
    ReverseTwice(ToBig(v, w));
    FromToBig(v, w);
  }

  // ----- the conversions -----

  /** On every host the octets that reach the buffer are the network form of the value. */
  lemma WireImageIsNetworkOrder(host: HostOrder, v: nat, w: nat)
    requires v < Pow256(w)
    ensures Image(host, HostToNetwork(host, v, w), w) == ToBig(v, w)
  {
    if host.LittleHost? {
      ToFromBig(Reverse(ToBig(v, w)));
      ReverseTwice(ToBig(v, w));
    }
  }

  lemma NetworkRoundTrip(host: HostOrder, v: nat, w: nat)
    requires v < Pow256(w)
    ensures NetworkToHost(host, HostToNetwork(host, v, w), w) == v
  {
    SwapTwice(v, w);
  }

  lemma NetworkLoad(host: HostOrder, bs: seq<Byte>)
    ensures NetworkToHost(host, Load(host, bs), |bs|) == FromBig(bs)
  {
    if host.LittleHost? {
      ToFromBig(Reverse(bs));
      ReverseTwice(bs);
    }
  }

  lemma SignedRoundTrip(x: int, w: nat)
    requires Fits(x, w)
    ensures ToSigned(ToUnsigned(x, w), w) == x
  {
  }

  /** Encoding does not depend on the host, so two hosts of different byte order agree. */
  lemma EncodeIsNetworkOrder(host: HostOrder, x: int, w: nat)
    requires Fits(x, w)
    ensures EncodeInt(host, x, w) == ToBig(ToUnsigned(x, w), w)
  {
    WireImageIsNetworkOrder(host, ToUnsigned(x, w), w);
  }

  /** A value written by one host is read back by any other. */
  lemma IntRoundTrip(writer: HostOrder, reader: HostOrder, x: int, w: nat)
    requires Fits(x, w)
    ensures DecodeInt(reader, EncodeInt(writer, x, w)) == x
  {
    EncodeIsNetworkOrder(writer, x, w);
    NetworkLoad(reader, ToBig(ToUnsigned(x, w), w));
    FromToBig(ToUnsigned(x, w), w);
    SignedRoundTrip(x, w);
  }
}
