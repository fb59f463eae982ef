/** The append/prepend/peek/read family of XNet/ByteBuffer.h for signed integers of 1, 2, 4
    and 8 bytes, over the layouts of BufferModel. The four widths share one definition. */
module TypedStream {
  import opened Endian
  import opened BufferModel

  datatype Width = W8 | W16 | W32 | W64 {
    function Size(): (n: nat)
      ensures 1 <= n <= 8
    {
      match this
      case W8 => 1
      case W16 => 2
      case W32 => 4
      case W64 => 8
    }
  }

  datatype Item = Item(width: Width, value: int) {
    predicate Valid() {
      Fits(value, width.Size())
    }
  }

  predicate AllValid(items: seq<Item>) {
    forall i :: 0 <= i < |items| ==> items[i].Valid()
  }

  function EncodeItem(host: HostOrder, it: Item): (bs: seq<Byte>)
    requires it.Valid()
    ensures |bs| == it.width.Size()
  {
    EncodeInt(host, it.value, it.width.Size())
  }

  function Decode(host: HostOrder, bs: seq<Byte>, w: Width): int
    requires |bs| == w.Size()
  {
    DecodeInt(host, bs)
  }

  function AppendInt(l: Layout, host: HostOrder, it: Item): (r: Layout)
    requires l.Valid() && it.Valid()
    ensures r.Valid()
  {
    Append(l, EncodeItem(host, it))
  }

  function PrependInt(l: Layout, host: HostOrder, it: Item): (r: Layout)
    requires l.Valid() && it.Valid()
    ensures r.Valid()
  {
    Prepend(l, EncodeItem(host, it))
  }

  /** -1 when too few bytes are readable. */
  function PeekInt(l: Layout, host: HostOrder, w: Width): int {
    if |l.content| < w.Size() then -1 else Decode(host, l.content[..w.Size()], w)
  }

  // ----- the widths, octet by octet -----

  /** The values each width holds are those of int8_t, int16_t, int32_t and int64_t. */
  lemma WidthRanges(x: int)
    ensures Item(W8, x).Valid() <==> -0x80 <= x < 0x80
    ensures Item(W16, x).Valid() <==> -0x8000 <= x < 0x8000
    ensures Item(W32, x).Valid() <==> -0x8000_0000 <= x < 0x8000_0000
    ensures Item(W64, x).Valid() <==> -0x8000_0000_0000_0000 <= x < 0x8000_0000_0000_0000
  {
    Powers();
  }

  lemma Powers()
    ensures Pow256(1) == 0x100 && Pow256(2) == 0x1_0000
    ensures Pow256(4) == 0x1_0000_0000 && Pow256(8) == 0x1_0000_0000_0000_0000
  {
    assert Pow256(3) == 0x100_0000 && Pow256(5) == 0x100_0000_0000;
    assert Pow256(6) == 0x1_0000_0000_0000 && Pow256(7) == 0x100_0000_0000_0000;
  }

  /** The four octets of a 32-bit word, most significant first. */
  function Word(u: nat): seq<Byte>
    requires u < 0x1_0000_0000
  {
    [u / 0x100_0000, u / 0x1_0000 % 0x100, u / 0x100 % 0x100, u % 0x100]
  }

  /** The two's complement octets of a value: one, two, four or eight of them. */
  function Octets(w: Width, x: int): seq<Byte>
    requires Item(w, x).Valid()
  {
    WidthRanges(x);
    match w
    case W8 => [if x < 0 then x + 0x100 else x]
    case W16 => var u := if x < 0 then x + 0x1_0000 else x; [u / 0x100, u % 0x100]
    case W32 => Word(if x < 0 then x + 0x1_0000_0000 else x)
    case W64 =>
      var u := if x < 0 then x + 0x1_0000_0000_0000_0000 else x;
      Word(u / 0x1_0000_0000) + Word(u % 0x1_0000_0000)
  }

  lemma TwoOctets(u: nat)
    requires u < 0x1_0000
    ensures ToBig(u, 2) == [u / 0x100, u % 0x100]
  {
    LastOctet(u, 1);
    LastOctet(u / 0x100, 0);
  }

  lemma FourOctets(u: nat)
    requires u < 0x1_0000_0000
    ensures ToBig(u, 4) == Word(u)
  {
    LastOctet(u, 3);
    LastOctet(u / 0x100, 2);
    assert u / 0x100 / 0x100 == u / 0x1_0000 && u / 0x1_0000 / 0x100 == u / 0x100_0000;
    TwoOctets(u / 0x1_0000);
  }

  lemma EightOctets(u: nat)
    requires u < 0x1_0000_0000_0000_0000
    ensures ToBig(u, 8) == Word(u / 0x1_0000_0000) + Word(u % 0x1_0000_0000)
  {
    var q, r := u / 0x1_0000_0000, u % 0x1_0000_0000;
    Powers();
    ToBigSplit(q, r, 4, 4);
    FourOctets(q);
    FourOctets(r);
  }

  lemma UnsignedOctets(host: HostOrder, it: Item)
    requires it.Valid()
    ensures EncodeItem(host, it) == ToBig(ToUnsigned(it.value, it.width.Size()), it.width.Size())
  {
    EncodeIsNetworkOrder(host, it.value, it.width.Size());
  }

  lemma NarrowOctets(w: Width, x: int)
    requires Item(w, x).Valid() && (w.W8? || w.W16?)
    ensures ToBig(ToUnsigned(x, w.Size()), w.Size()) == Octets(w, x)
  {
    Powers();
    var u := ToUnsigned(x, w.Size());
    if w.W8? {
      LastOctet(u, 0);
    } else {
      TwoOctets(u);
    }
  }

  lemma WideOctets(w: Width, x: int)
    requires Item(w, x).Valid() && (w.W32? || w.W64?)
    ensures ToBig(ToUnsigned(x, w.Size()), w.Size()) == Octets(w, x)
  {
    Powers();
    var u := ToUnsigned(x, w.Size());
    if w.W32? {
      FourOctets(u);
    } else {
      EightOctets(u);
    }
  }

  /** On every host, an integer goes into the buffer as those octets. */
  lemma EncodedOctets(host: HostOrder, it: Item)
    requires it.Valid()
    ensures EncodeItem(host, it) == Octets(it.width, it.value)
  {
    UnsignedOctets(host, it);
    if it.width.W8? || it.width.W16? {
      NarrowOctets(it.width, it.value);
    } else {
      WideOctets(it.width, it.value);
    }
  }

  /** appendInt8 to appendInt64 put those octets, and nothing else, behind the content; prependInt8 to
      prependInt64 in front of it when they fit before the reader index. */
  lemma IntegersAsOctets(l: Layout, host: HostOrder, it: Item)
    requires l.Valid() && it.Valid()
    ensures AppendInt(l, host, it).content == l.content + Octets(it.width, it.value)
    ensures |Octets(it.width, it.value)| <= l.reader ==>
              PrependInt(l, host, it).content == Octets(it.width, it.value) + l.content
    ensures |Octets(it.width, it.value)| > l.reader ==> PrependInt(l, host, it) == l
  {
    EncodedOctets(host, it);
  }

  /** peekInt8 to peekInt64 answer -1 while fewer than one, two, four or eight bytes are readable. */
  lemma PeekNeeds(l: Layout, host: HostOrder, w: Width)
    requires l.Valid()
    requires |l.content| < match w case W8 => 1 case W16 => 2 case W32 => 4 case W64 => 8
    ensures PeekInt(l, host, w) == -1
  {
  }

  /** How many bytes a value of each width takes. */
  lemma OctetCount(w: Width, x: int)
    requires Item(w, x).Valid()
    ensures |Octets(w, x)| == w.Size() == match w case W8 => 1 case W16 => 2 case W32 => 4 case W64 => 8
  {
  }

  /** With enough bytes they answer the value whose octets come first, whichever host wrote them. */
  lemma PeekOctets(l: Layout, host: HostOrder, w: Width, x: int)
    requires l.Valid() && Item(w, x).Valid() && Octets(w, x) <= l.content
    ensures PeekInt(l, host, w) == x
    ensures Octets(w, x) + Retrieve(l, w.Size()).content == l.content
  {
    EncodedOctets(host, Item(w, x));
    var tail := l.content[|Octets(w, x)|..];
    assert l.content == Octets(w, x) + tail;
    PeekEncoded(l, host, host, Item(w, x), tail);
  }

  // ----- lists of integers -----

  function AppendInts(l: Layout, host: HostOrder, items: seq<Item>): (r: Layout)
    requires l.Valid() && AllValid(items)
    ensures r.Valid()
    decreases |items|
  {
    if items == [] then l else AppendInts(AppendInt(l, host, items[0]), host, items[1..])
  }

  function PrependInts(l: Layout, host: HostOrder, items: seq<Item>): (r: Layout)
    requires l.Valid() && AllValid(items)
    ensures r.Valid()
    decreases |items|
  {
    if items == [] then l else PrependInts(PrependInt(l, host, items[0]), host, items[1..])
  }

  datatype Reading = Reading(values: seq<int>, rest: Layout)

  /** readInt8/16/32/64 in turn: peek, then retrieve. */
  function ReadInts(l: Layout, host: HostOrder, widths: seq<Width>): (r: Reading)
    requires l.Valid()
    ensures r.rest.Valid()
    decreases |widths|
  {
    if widths == [] then Reading([], l)
    else
      var more := ReadInts(Retrieve(l, widths[0].Size()), host, widths[1..]);
      Reading([PeekInt(l, host, widths[0])] + more.values, more.rest)
  }

  function Widths(items: seq<Item>): (r: seq<Width>)
    ensures |r| == |items|
  {
    seq(|items|, i requires 0 <= i < |items| => items[i].width)
  }

  function Values(items: seq<Item>): (r: seq<int>)
    ensures |r| == |items|
  {
    seq(|items|, i requires 0 <= i < |items| => items[i].value)
  }

  // ----- the same in chunks of bytes -----

  function Chunks(host: HostOrder, items: seq<Item>): (r: seq<seq<Byte>>)
    requires AllValid(items)
    ensures |r| == |items|
    ensures forall i :: 0 <= i < |r| ==> r[i] == EncodeItem(host, items[i])
  {
    seq(|items|, i requires 0 <= i < |items| => EncodeItem(host, items[i]))
  }

  function Flat(chunks: seq<seq<Byte>>): seq<Byte> {
    if chunks == [] then [] else chunks[0] + Flat(chunks[1..])
  }

  lemma {:induction false} FlatConcat(a: seq<seq<Byte>>, b: seq<seq<Byte>>)
    ensures Flat(a + b) == Flat(a) + Flat(b)
  {
    if a == [] {
      assert a + b == b;
    } else {
      assert (a + b)[0] == a[0] && (a + b)[1..] == a[1..] + b;
      FlatConcat(a[1..], b);
      Assoc(a[0], Flat(a[1..]), Flat(b));
    }
  }

  lemma {:induction false} AppendIntsContent(l: Layout, host: HostOrder, items: seq<Item>)
    requires l.Valid() && AllValid(items)
    ensures AppendInts(l, host, items).content == l.content + Flat(Chunks(host, items))
    decreases |items|
  {
    if items != [] {
      var l' := AppendInt(l, host, items[0]);
      AppendIntsContent(l', host, items[1..]);
      ChunksStep(host, items);
      Assoc(l.content, EncodeItem(host, items[0]), Flat(Chunks(host, items[1..])));
    }
  }

  lemma ChunksStep(host: HostOrder, items: seq<Item>)
    requires AllValid(items) && items != []
    ensures Chunks(host, items) == [EncodeItem(host, items[0])] + Chunks(host, items[1..])
    ensures Flat(Chunks(host, items)) == EncodeItem(host, items[0]) + Flat(Chunks(host, items[1..]))
  {
    FlatStep(Chunks(host, items), EncodeItem(host, items[0]), Chunks(host, items[1..]));
  }

  lemma FlatStep(all: seq<seq<Byte>>, first: seq<Byte>, rest: seq<seq<Byte>>)
    requires |all| == 1 + |rest| && all[0] == first
    requires forall i :: 0 <= i < |rest| ==> rest[i] == all[i + 1]
    ensures all == [first] + rest && Flat(all) == first + Flat(rest)
  {
    assert all[1..] == rest;
  }

  lemma Assoc(a: seq<Byte>, b: seq<Byte>, c: seq<Byte>)
    ensures (a + b) + c == a + (b + c)
  {
  }

  lemma {:induction false} PrependIntsContent(l: Layout, host: HostOrder, items: seq<Item>)
    requires l.Valid() && AllValid(items) && |Flat(Chunks(host, items))| <= l.reader
    ensures PrependInts(l, host, items).content == Flat(Reverse(Chunks(host, items))) + l.content
    decreases |items|
  {
    if items != [] {
      var one := EncodeItem(host, items[0]);
      var rest := Chunks(host, items[1..]);
      ChunksStep(host, items);
      PrependIntsContent(PrependInt(l, host, items[0]), host, items[1..]);
      ReverseStep(one, rest);
      FlatConcat(Reverse(rest), [one]);
      FlatOne(one);
      Assoc(Flat(Reverse(rest)), one, l.content);
    }
  }

  lemma ReverseStep<T>(first: T, rest: seq<T>)
    ensures Reverse([first] + rest) == Reverse(rest) + [first]
  {
  }

  lemma FlatOne(c: seq<Byte>)
    ensures Flat([c]) == c
  {
    assert Flat([c]) == c + Flat([]);
  }

  lemma DecodeItem(writer: HostOrder, reader: HostOrder, it: Item)
    requires it.Valid()
    ensures Decode(reader, EncodeItem(writer, it), it.width) == it.value
  {
    IntRoundTrip(writer, reader, it.value, it.width.Size());
  }

  lemma PeekEncoded(l: Layout, writer: HostOrder, reader: HostOrder, it: Item, tail: seq<Byte>)
    requires l.Valid() && it.Valid() && l.content == EncodeItem(writer, it) + tail
    ensures PeekInt(l, reader, it.width) == it.value
    ensures Retrieve(l, it.width.Size()).content == tail
  {
    assert l.content[..it.width.Size()] == EncodeItem(writer, it);
    DecodeItem(writer, reader, it);
  }

  /** Reading an encoded list back, whatever follows it. */
  lemma {:induction false} ReadEncoded(l: Layout, writer: HostOrder, reader: HostOrder, items: seq<Item>, tail: seq<Byte>)
    requires l.Valid() && AllValid(items) && l.content == Flat(Chunks(writer, items)) + tail
    ensures var r := ReadInts(l, reader, Widths(items)); r.values == Values(items) && r.rest.content == tail
    decreases |items|
  {
    if items == [] {
      assert l.content == tail;
    } else {
      ChunksStep(writer, items);
      ListsStep(items);
      var more := Flat(Chunks(writer, items[1..]));
      Assoc(EncodeItem(writer, items[0]), more, tail);
      PeekEncoded(l, writer, reader, items[0], more + tail);
      ReadEncoded(Retrieve(l, items[0].width.Size()), writer, reader, items[1..], tail);
    }
  }

  lemma ListsStep(items: seq<Item>)
    requires items != []
    ensures Widths(items)[0] == items[0].width && Widths(items)[1..] == Widths(items[1..])
    ensures Values(items) == [items[0].value] + Values(items[1..])
  {
  }

  /** Any list of integers appended after any bytes is read back, by a host of either byte
      order, once those bytes are retrieved; nothing is left over. */
  lemma TypedStreamRoundTrip(l: Layout, writer: HostOrder, reader: HostOrder, items: seq<Item>)
    requires l.Valid() && AllValid(items)
    ensures var r := ReadInts(Retrieve(AppendInts(l, writer, items), |l.content|), reader, Widths(items));
            r.values == Values(items) && r.rest.content == []
  {
    AppendIntsContent(l, writer, items);
    var after := Retrieve(AppendInts(l, writer, items), |l.content|);
    assert after.content == Flat(Chunks(writer, items)) + [];
    ReadEncoded(after, writer, reader, items, []);
  }

  lemma ChunksReverse(host: HostOrder, items: seq<Item>)
    requires AllValid(items)
    ensures Reverse(Chunks(host, items)) == Chunks(host, Reverse(items))
  {
  }

  /** Prepending with enough room is undone, last value first, down to the original bytes. */
  lemma PrependRoundTrip(l: Layout, writer: HostOrder, reader: HostOrder, items: seq<Item>)
    requires l.Valid() && AllValid(items) && |Flat(Chunks(writer, items))| <= l.reader
    ensures var r := ReadInts(PrependInts(l, writer, items), reader, Widths(Reverse(items)));
            r.values == Values(Reverse(items)) && r.rest.content == l.content
  {
    PrependIntsContent(l, writer, items);
    ChunksReverse(writer, items);
    ReadEncoded(PrependInts(l, writer, items), writer, reader, Reverse(items), l.content);
  }
}
