/** XNet/ByteBuffer.h and XNet/ByteBuffer.cpp: one array with a reader and a writer index.
    Every method is proved to do to the array what BufferModel says it does to the layout. */
module ByteBuffers {
  import opened Endian
  import opened BufferModel
  import opened TypedStream

  /** std::copy, or what the kernel does, into the array from index `at`. */
  method CopyTo(a: array<Byte>, at: nat, data: seq<Byte>)
    requires at + |data| <= a.Length
    modifies a
    ensures a[at..at + |data|] == data
    ensures a[..at] == old(a[..at]) && a[at + |data|..] == old(a[at + |data|..])
  {
    forall i | 0 <= i < |data| {
      a[at + i] := data[i];
    }
  }

  lemma SlicesJoin(a: array<Byte>, i: nat, j: nat, k: nat)
    requires i <= j <= k <= a.Length
    ensures a[i..k] == a[i..j] + a[j..k]
  {
  }

  lemma SliceOfRest(a: array<Byte>, i: nat, k: nat)
    requires i <= k <= a.Length
    ensures a[i..k] == a[i..][..k - i]
  {
  }

  class ByteBuffer {
    var buffer: array<Byte>   // m_buffer
    var readerIndex: nat      // m_readerIndex
    var writerIndex: nat      // m_writerIndex

    ghost predicate Valid()
      reads this
    {
      readerIndex <= writerIndex <= buffer.Length && CHEAP_PREPEND <= buffer.Length
    }

    ghost function View(): (l: Layout)
      requires Valid()
      reads this, buffer
      ensures l.Valid()
    {
      Layout(buffer.Length, readerIndex, buffer[readerIndex..writerIndex])
    }

    constructor (initialSize: nat := INITIAL_SIZE)
      ensures Valid() && fresh(buffer)
      ensures View() == Fresh(initialSize)
    {
      buffer := new Byte[CHEAP_PREPEND + initialSize](_ => 0);
      readerIndex := CHEAP_PREPEND;
      writerIndex := CHEAP_PREPEND;
    }

    function ReadableBytes(): nat
      requires Valid()
      reads this
    {
      writerIndex - readerIndex
    }

    function WritableBytes(): nat
      requires Valid()
      reads this
    {
      buffer.Length - writerIndex
    }

    function PrependableBytes(): nat
      reads this
    {
      readerIndex
    }

    /** The bytes a caller reaches through peek(). */
    method Peek() returns (bytes: seq<Byte>)
      requires Valid()
      ensures bytes == View().content
    {
      bytes := buffer[readerIndex..writerIndex];
    }

    method RetrieveAll()
      requires Valid()
      modifies this`readerIndex, this`writerIndex
      ensures Valid() && View() == BufferModel.RetrieveAll(old(View()))
    {
      readerIndex := CHEAP_PREPEND;
      writerIndex := CHEAP_PREPEND;
    }

    method Retrieve(len: nat) returns (ok: bool)
      requires Valid()
      modifies this`readerIndex, this`writerIndex
      ensures Valid() && View() == BufferModel.Retrieve(old(View()), len)
      ensures ok == (len <= |old(View()).content|)
    {
      if len > ReadableBytes() {
        return false;
      }
      if len < ReadableBytes() {
        readerIndex := readerIndex + len;
      } else {
        RetrieveAll();
      }
      return true;
    }

    /** end is a position relative to peek(), as the pointer comparisons see it. */
    method RetrieveUntil(end: int) returns (ok: bool)
      requires Valid()
      modifies this`readerIndex, this`writerIndex
      ensures Valid()
      ensures ok == (0 <= end <= |old(View()).content|)
      ensures View() == if ok then BufferModel.Retrieve(old(View()), end) else old(View())
    {
      if 0 > end {
        return false;
      }
      if end > ReadableBytes() {
        return false;
      }
      var _ := Retrieve(end);
      return true;
    }

    method RetrieveAsString(len: nat) returns (result: seq<Byte>)
      requires Valid()
      modifies this`readerIndex, this`writerIndex
      ensures Valid() && View() == BufferModel.Retrieve(old(View()), len)
      ensures result == if len <= |old(View()).content| then old(View()).content[..len] else []
    {
      if len > ReadableBytes() {
        return [];
      }
      var bytes := Peek();
      result := bytes[..len];
      var _ := Retrieve(len);
    }

    method RetrieveAllAsString() returns (result: seq<Byte>)
      requires Valid()
      modifies this`readerIndex, this`writerIndex
      ensures Valid() && View() == BufferModel.RetrieveAll(old(View()))
      ensures result == old(View()).content
    {
      result := RetrieveAsString(ReadableBytes());
    }

    /** vector::resize: the old bytes are kept, new ones are zero. */
    method Resize(size: nat)
      requires writerIndex <= size
      requires Valid()
      modifies this`buffer
      ensures fresh(buffer) && buffer.Length == size
      ensures buffer[..writerIndex] == old(buffer[..writerIndex])
    {
      var was := buffer;
      var n := writerIndex;
      var bigger := new Byte[size](i requires 0 <= i reads this, was => if i < was.Length then was[i] else 0);
      buffer := bigger;
    }

    /** std::copy of the readable bytes down to the reserved prefix, one byte at a time from the
        front; the two ranges may overlap. */
    method SlideDown()
      requires Valid() && CHEAP_PREPEND < readerIndex
      modifies buffer
      ensures buffer[CHEAP_PREPEND..CHEAP_PREPEND + ReadableBytes()] == old(buffer[readerIndex..writerIndex])
    {
      var n, r := ReadableBytes(), readerIndex;
      ghost var was := buffer[..];
      var i := 0;
      while i < n
        invariant 0 <= i <= n
        invariant buffer[CHEAP_PREPEND..CHEAP_PREPEND + i] == was[r..r + i]
        invariant buffer[r + i..] == was[r + i..]
      {
        assert buffer[r + i] == buffer[r + i..][0] == was[r + i];
        ghost var rest := buffer[r + i..][1..];
        buffer[CHEAP_PREPEND + i] := buffer[r + i];
        i := i + 1;
        assert buffer[r + i..] == rest;
      }
      assert was[r..r + n] == old(buffer[readerIndex..writerIndex]);
    }

    method MakeSpace(len: nat)
      requires Valid()
      modifies this, buffer
      ensures buffer == old(buffer) || fresh(buffer)
      ensures old(View()).Writable() < len ==> Valid() && View() == BufferModel.MakeSpace(old(View()), len)
    {
      if WritableBytes() + PrependableBytes() < len + CHEAP_PREPEND {
        Resize(writerIndex + len);
        assert buffer[readerIndex..writerIndex] == buffer[..writerIndex][readerIndex..];
      } else {
        if CHEAP_PREPEND >= readerIndex {
          return;
        }
        var readable := ReadableBytes();
        SlideDown();
        readerIndex := CHEAP_PREPEND;
        writerIndex := readerIndex + readable;
      }
    }

    method EnsureWritableBytes(len: nat) returns (ok: bool)
      requires Valid()
      modifies this, buffer
      ensures buffer == old(buffer) || fresh(buffer)
      ensures Valid() && View() == EnsureWritable(old(View()), len)
      ensures ok && WritableBytes() >= len
    {
      if WritableBytes() < len {
        MakeSpace(len);
      }
      return true;
    }

    method HasWritten(len: nat) returns (ok: bool)
      requires Valid()
      modifies this`writerIndex
      ensures Valid()
      ensures ok == (len <= old(View()).Writable())
      ensures writerIndex == old(writerIndex) + if ok then len else 0
    {
      if len > WritableBytes() {
        return false;
      }
      writerIndex := writerIndex + len;
      return true;
    }

    /** std::copy to beginWrite(), then hasWritten. */
    method WriteReserved(data: seq<Byte>)
      requires Valid() && |data| <= WritableBytes()
      modifies this`writerIndex, buffer
      ensures Valid() && View() == old(View()).(content := old(View()).content + data)
    {
      ghost var before := buffer[readerIndex..writerIndex];
      var w := writerIndex;
      CopyTo(buffer, w, data);
      var _ := HasWritten(|data|);
      assert buffer[readerIndex..w] == buffer[..w][readerIndex..] == before;
      SlicesJoin(buffer, readerIndex, w, writerIndex);
    }

    method Append(data: seq<Byte>)
      requires Valid()
      modifies this, buffer
      ensures buffer == old(buffer) || fresh(buffer)
      ensures Valid() && View() == BufferModel.Append(old(View()), data)
    {
      var _ := EnsureWritableBytes(|data|);
      WriteReserved(data);
    }

    method Unwrite(len: nat) returns (ok: bool)
      requires Valid()
      modifies this`writerIndex
      ensures Valid() && View() == BufferModel.Unwrite(old(View()), len)
      ensures ok == (len <= |old(View()).content|)
    {
      if len > ReadableBytes() {
        return false;
      }
      writerIndex := writerIndex - len;
      return true;
    }

    /** std::copy to just before the reader index. */
    method WriteBefore(data: seq<Byte>)
      requires Valid() && |data| <= readerIndex
      modifies this`readerIndex, buffer
      ensures Valid()
      ensures var l := old(View()); View() == Layout(l.size, l.reader - |data|, data + l.content)
    {
      var r := readerIndex;
      ghost var content := buffer[r..writerIndex];
      SliceOfRest(buffer, r, writerIndex);
      readerIndex := readerIndex - |data|;
      CopyTo(buffer, readerIndex, data);
      SliceOfRest(buffer, r, writerIndex);
      assert buffer[r..writerIndex] == content;
      SlicesJoin(buffer, readerIndex, r, writerIndex);
    }

    method Prepend(data: seq<Byte>) returns (ok: bool)
      requires Valid()
      modifies this`readerIndex, buffer
      ensures Valid() && View() == BufferModel.Prepend(old(View()), data)
      ensures ok == (|data| <= old(View()).reader)
    {
      if |data| > PrependableBytes() {
        return false;
      }
      WriteBefore(data);
      return true;
    }

    /** Build a smaller buffer and swap; the old array is dropped. */
    method Shrink(reserve: nat)
      requires Valid()
      modifies this
      ensures fresh(buffer)
      ensures Valid() && View() == BufferModel.Shrink(old(View()), reserve)
    {
      var other := new ByteBuffer();
      var _ := other.EnsureWritableBytes(ReadableBytes() + reserve);
      var all := Peek();
      other.Append(all);
      assert other.View() == BufferModel.Shrink(old(View()), reserve);
      buffer, readerIndex, writerIndex := other.buffer, other.readerIndex, other.writerIndex;
    }

    // ----- scatter read -----

    /** readv over the writable part and, when count is 2, the spill area. The kernel fills the
        first area before the second and reports the total, or -1. */
    method Readv(extra: array<Byte>, count: nat, src: Source) returns (n: int)
      requires Valid() && extra != buffer
      requires count == 1 || count == 2
      modifies buffer, extra
      ensures src.ReadFault? ==> n == -1
      ensures src.Ready? ==> n == Min(|src.bytes|, WritableBytes() + if count == 2 then extra.Length else 0)
      ensures buffer[..writerIndex] == old(buffer[..writerIndex])
      ensures src.Ready? ==>
        var k := Min(n, WritableBytes()); buffer[writerIndex..writerIndex + k] == src.bytes[..k]
      ensures n > WritableBytes() ==>
        n - WritableBytes() <= extra.Length && extra[..n - WritableBytes()] == src.bytes[WritableBytes()..n]
    {
      if src.ReadFault? {
        return -1;
      }
      var writable := WritableBytes();
      var w := writerIndex;
      n := Min(|src.bytes|, writable + if count == 2 then extra.Length else 0);
      CopyTo(buffer, w, src.bytes[..Min(n, writable)]);
      if n > writable {
        CopyTo(extra, 0, src.bytes[writable..n]);
      }
    }

    /** The writer index moves over bytes already in place. */
    method Advance(n: nat)
      requires Valid() && n <= WritableBytes()
      modifies this`writerIndex
      ensures Valid() && writerIndex == old(writerIndex) + n
      ensures View() == old(View()).(content := old(View()).content + old(buffer[writerIndex..writerIndex + n]))
    {
      ghost var w := writerIndex;
      writerIndex := writerIndex + n;
      SlicesJoin(buffer, readerIndex, w, writerIndex);
    }

    /** What readFd does once readv has put the received bytes in place. */
    method Absorb(n: int, extra: array<Byte>, ghost got: seq<Byte>)
      requires Valid() && extra != buffer
      requires |got| == if n < 0 then 0 else n
      requires var k := Min(|got|, WritableBytes()); buffer[writerIndex..writerIndex + k] == got[..k]
      requires n > WritableBytes() ==>
        n - WritableBytes() <= extra.Length && extra[..n - WritableBytes()] == got[WritableBytes()..]
      modifies this, buffer
      ensures buffer == old(buffer) || fresh(buffer)
      ensures Valid() && View() == BufferModel.Absorb(old(View()), got)
    {
      var writable := WritableBytes();
      ghost var before := View();
      if n <= 0 {
        assert got == [];
      } else if n < writable {
        assert got[..n] == got;
        Advance(n);
      } else {
        var spilled := extra[..n - writable];
        assert spilled == got[writable..];
        FillAndAppend(spilled, got);
      }
    }

    /** The writable part is full of received bytes; the rest came in the spill area. */
    method FillAndAppend(spilled: seq<Byte>, ghost got: seq<Byte>)
      requires Valid() && |got| >= WritableBytes() && spilled == got[WritableBytes()..]
      requires buffer[writerIndex..writerIndex + WritableBytes()] == got[..WritableBytes()]
      modifies this, buffer
      ensures buffer == old(buffer) || fresh(buffer)
      ensures Valid()
      ensures var l := old(View());
              View() == BufferModel.Append(l.(content := l.content + got[..l.Writable()]), spilled)
    {
      ghost var l := View();
      Advance(WritableBytes());
      assert View() == l.(content := l.content + got[..l.Writable()]);
      Append(spilled);
    }

    method ReadFd(src: Source) returns (n: int)
      requires Valid()
      modifies this, buffer
      ensures buffer == old(buffer) || fresh(buffer)
      ensures Valid() && View() == BufferModel.ReadFd(old(View()), src)
      ensures n == if src.ReadFault? then -1 else |Delivered(old(View()), src)|
    {
      var extra := new Byte[SPILL](_ => 0);
      var count := if WritableBytes() < extra.Length then 2 else 1;
      ghost var before := View();
      ghost var got := Delivered(before, src);
      n := Readv(extra, count, src);
      assert View() == before by {
        assert buffer[readerIndex..writerIndex] == buffer[..writerIndex][readerIndex..];
      }
      Absorb(n, extra, got);
    }

    // ----- fixed-width integers; host is the byte order of the machine -----

    method AppendInt(host: HostOrder, it: Item)
      requires Valid() && it.Valid()
      modifies this, buffer
      ensures buffer == old(buffer) || fresh(buffer)
      ensures Valid() && View() == TypedStream.AppendInt(old(View()), host, it)
      ensures View().content == old(View().content) + Octets(it.width, it.value)
    {
      IntegersAsOctets(View(), host, it);
      Append(EncodeItem(host, it));
    }

    method PrependInt(host: HostOrder, it: Item)
      requires Valid() && it.Valid()
      modifies this`readerIndex, buffer
      ensures Valid() && View() == TypedStream.PrependInt(old(View()), host, it)
      ensures View().content
           == (if |Octets(it.width, it.value)| <= old(readerIndex) then Octets(it.width, it.value) else [])
              + old(View().content)
    {
      IntegersAsOctets(View(), host, it);
      var _ := Prepend(EncodeItem(host, it));
    }

    /** The intended reading: each width uses its own conversion. What the literal 16- and 32-bit
        peeks return instead is stated by LiteralPeek.LiteralPeekCorrectIff. */
    method PeekInt(host: HostOrder, w: Width) returns (x: int)
      requires Valid()
      ensures x == TypedStream.PeekInt(View(), host, w)
      ensures |View().content| < (match w case W8 => 1 case W16 => 2 case W32 => 4 case W64 => 8) ==> x == -1
    {
      if ReadableBytes() < w.Size() {
        return -1;
      }
      var bytes := Peek();
      x := Decode(host, bytes[..w.Size()], w);
    }

    method ReadInt(host: HostOrder, w: Width) returns (x: int)
      requires Valid()
      modifies this`readerIndex, this`writerIndex
      ensures Valid() && View() == BufferModel.Retrieve(old(View()), w.Size())
      ensures x == TypedStream.PeekInt(old(View()), host, w)
      ensures var n := match w case W8 => 1 case W16 => 2 case W32 => 4 case W64 => 8;
              View().content == if n <= |old(View().content)| then old(View().content)[n..] else old(View().content)
    {
      x := PeekInt(host, w);
      var _ := Retrieve(w.Size());
    }
  }
}
