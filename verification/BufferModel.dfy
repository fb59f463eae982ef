/** What XNet/ByteBuffer.h and XNet/ByteBuffer.cpp do to a buffer, as functions on its
    layout: the size of the array, the reader index and the bytes between the indices.
    The class in ByteBuffer.dfy is proved against these functions; here they are proved
    to behave like operations on a plain byte sequence, in bounded space. */
module BufferModel {
  import opened Endian

  const CHEAP_PREPEND: nat := 8
  const INITIAL_SIZE: nat := 1024
  /** The size of the second area of a scatter read. */
  const SPILL: nat := 65536

  datatype Layout = Layout(size: nat, reader: nat, content: seq<Byte>) {
    /** reader <= writer <= size, with room for the reserved prefix. */
    predicate Valid() {
      reader + |content| <= size && CHEAP_PREPEND <= size
    }

    function Writable(): nat
      requires Valid()
    {
      size - reader - |content|
    }
  }

  /** Outcome of readv: the descriptor has these bytes ready (none at end of stream), or fails. */
  datatype Source = Ready(bytes: seq<Byte>) | ReadFault(errno: int)

  function Min(a: int, b: int): int {
    if a <= b then a else b
  }

  function Max(a: int, b: int): int {
    if a >= b then a else b
  }

  // ----- the operations -----

  function Fresh(initial: nat): (l: Layout)
    ensures l.Valid() && l.content == []
  {
    Layout(CHEAP_PREPEND + initial, CHEAP_PREPEND, [])
  }

  /** Grow by resizing, or slide the content down to the reserved prefix, or do nothing. */
  function MakeSpace(l: Layout, len: nat): (r: Layout)
    requires l.Valid()
    ensures r.content == l.content
    ensures l.Writable() < len ==> r.Valid() && r.Writable() >= len
    ensures l.reader <= 8 ==> r.reader == l.reader
  {
    if l.Writable() + l.reader < len + CHEAP_PREPEND then
      l.(size := l.reader + |l.content| + len)
    else if CHEAP_PREPEND >= l.reader then
      l
    else
      l.(reader := CHEAP_PREPEND)
  }

  function EnsureWritable(l: Layout, len: nat): (r: Layout)
    requires l.Valid()
    ensures r.Valid() && r.content == l.content && r.Writable() >= len
  {
    if l.Writable() < len then MakeSpace(l, len) else l
  }

  function Append(l: Layout, data: seq<Byte>): (r: Layout)
    requires l.Valid()
    ensures r.Valid() && r.content == l.content + data
  {
    var e := EnsureWritable(l, |data|);
    e.(content := e.content + data)
  }

  function RetrieveAll(l: Layout): (r: Layout)
    requires l.Valid()
    ensures r.Valid() && r.content == []
  {
    Layout(l.size, CHEAP_PREPEND, [])
  }

  /** Refused, and without effect, when fewer than len bytes are readable. */
  function Retrieve(l: Layout, len: nat): (r: Layout)
    requires l.Valid()
    ensures r.Valid()
    ensures r.content == if len <= |l.content| then l.content[len..] else l.content
  {
    if len > |l.content| then l
    else if len < |l.content| then Layout(l.size, l.reader + len, l.content[len..])
    else RetrieveAll(l)
  }

  function Unwrite(l: Layout, len: nat): (r: Layout)
    requires l.Valid()
    ensures r.Valid()
    ensures len <= |l.content| ==> r.content + l.content[|l.content| - len..] == l.content
    ensures len > |l.content| ==> r == l
  {
    if len > |l.content| then l else l.(content := l.content[..|l.content| - len])
  }

  /** Refused, and without effect, when the bytes do not fit before the reader index. */
  function Prepend(l: Layout, data: seq<Byte>): (r: Layout)
    requires l.Valid()
    ensures r.Valid()
    ensures r.content == if |data| <= l.reader then data + l.content else l.content
  {
    if |data| > l.reader then l else Layout(l.size, l.reader - |data|, data + l.content)
  }

  function Shrink(l: Layout, reserve: nat): (r: Layout)
    requires l.Valid()
    ensures r.Valid() && r.content == l.content && r.Writable() >= reserve
  {
    Append(EnsureWritable(Fresh(INITIAL_SIZE), |l.content| + reserve), l.content)
  }

  /** How much a scatter read offers the kernel: the spill area only when the writable part is smaller. */
  function Offered(l: Layout): nat
    requires l.Valid()
  {
    if l.Writable() < SPILL then l.Writable() + SPILL else l.Writable()
  }

  /** The bytes the kernel delivers: what is ready, up to what is offered. */
  function Delivered(l: Layout, src: Source): (d: seq<Byte>)
    requires l.Valid()
    ensures |d| <= Offered(l)
  {
    if src.Ready? then src.bytes[..Min(|src.bytes|, Offered(l))] else []
  }

  /** The received bytes fill the writable part; what spilled over is appended. */
  function Absorb(l: Layout, got: seq<Byte>): (r: Layout)
    requires l.Valid()
    ensures r.Valid() && r.content == l.content + got
  {
    var w := l.Writable();
    if |got| < w then
      l.(content := l.content + got)
    else if got == [] then
      l
    else
      Append(l.(content := l.content + got[..w]), got[w..])
  }

  function ReadFd(l: Layout, src: Source): (r: Layout)
    requires l.Valid()
    ensures r.Valid() && r.content == l.content + Delivered(l, src)
  {
    Absorb(l, Delivered(l, src))
  }

  /** A scatter read appends exactly what was received, as one contiguous read would: all that was
      ready if it fits the two areas, and nothing at all at end of stream or on an error. */
  lemma ScatterRead(l: Layout, src: Source)
    requires l.Valid()
    ensures ReadFd(l, src).content == Append(l, Delivered(l, src)).content
    ensures src.Ready? && |src.bytes| <= Offered(l) ==> ReadFd(l, src).content == l.content + src.bytes
    ensures src.ReadFault? || src.bytes == [] ==> ReadFd(l, src) == l
    ensures ReadFd(l, src).size > l.size ==> |Delivered(l, src)| > l.Writable()
  {
    assert l.content + [] == l.content;
    assert src.Ready? && |src.bytes| <= Offered(l) ==> Delivered(l, src) == src.bytes;
  }

  // ----- runs -----

  datatype Op =
    | OpAppend(data: seq<Byte>)
    | OpRetrieve(len: nat)
    | OpRetrieveAll
    | OpUnwrite(len: nat)
    | OpPrepend(data: seq<Byte>)
    | OpEnsure(len: nat)
    | OpShrink(reserve: nat)
    | OpReadFd(src: Source)

  function Apply(l: Layout, op: Op): (r: Layout)
    requires l.Valid()
    ensures r.Valid()
  {
    match op
    case OpAppend(data) => Append(l, data)
    case OpRetrieve(len) => Retrieve(l, len)
    case OpRetrieveAll => RetrieveAll(l)
    case OpUnwrite(len) => Unwrite(l, len)
    case OpPrepend(data) => Prepend(l, data)
    case OpEnsure(len) => EnsureWritable(l, len)
    case OpShrink(reserve) => Shrink(l, reserve)
    case OpReadFd(src) => ReadFd(l, src)
  }

  function Run(l: Layout, ops: seq<Op>): (r: Layout)
    requires l.Valid()
    ensures r.Valid()
    decreases |ops|
  {
    if ops == [] then l else Run(Apply(l, ops[0]), ops[1..])
  }

  /** What a caller sees of one call: whether a prepend was accepted, what a read delivered. */
  datatype Answer = Answer(prepended: bool, delivered: seq<Byte>)

  function AnswerOf(l: Layout, op: Op): Answer
    requires l.Valid()
  {
    Answer(op.OpPrepend? && |op.data| <= l.reader,
           if op.OpReadFd? then Delivered(l, op.src) else [])
  }

  function Answers(l: Layout, ops: seq<Op>): (a: seq<Answer>)
    requires l.Valid()
    ensures |a| == |ops|
    decreases |ops|
  {
    if ops == [] then [] else [AnswerOf(l, ops[0])] + Answers(Apply(l, ops[0]), ops[1..])
  }

  /** The same operation on a plain byte sequence, which knows nothing of indices, capacity or
      compaction. */
  function Plain(c: seq<Byte>, op: Op, a: Answer): seq<Byte> {
    match op
    case OpAppend(data) => c + data
    case OpRetrieve(len) => if len <= |c| then c[len..] else c
    case OpRetrieveAll => []
    case OpUnwrite(len) => if len <= |c| then c[..|c| - len] else c
    case OpPrepend(data) => if a.prepended then data + c else c
    case OpEnsure(_) => c
    case OpShrink(_) => c
    case OpReadFd(_) => c + a.delivered
  }

  function PlainRun(c: seq<Byte>, ops: seq<Op>, answers: seq<Answer>): seq<Byte>
    requires |ops| == |answers|
    decreases |ops|
  {
    if ops == [] then c else PlainRun(Plain(c, ops[0], answers[0]), ops[1..], answers[1..])
  }

  /** Whatever the sequence of calls, the bytes between the indices are those of a plain
      sequence under the same calls. */
  lemma {:induction false} RunRefinesPlain(l: Layout, ops: seq<Op>)
    requires l.Valid()
    ensures Run(l, ops).content == PlainRun(l.content, ops, Answers(l, ops))
    decreases |ops|
  {
    if ops != [] {
      var a := Answers(l, ops);
      assert a[1..] == Answers(Apply(l, ops[0]), ops[1..]);
      assert Apply(l, ops[0]).content == Plain(l.content, ops[0], a[0]);
      RunRefinesPlain(Apply(l, ops[0]), ops[1..]);
    }
  }

  // ----- space -----

  /** The early return of makeSpace is never reached from ensureWritableBytes. */
  lemma EarlyReturnUnreachable(l: Layout, len: nat)
    requires l.Valid() && l.Writable() < len
    ensures !(l.Writable() + l.reader < len + CHEAP_PREPEND) ==> l.reader > CHEAP_PREPEND
    ensures MakeSpace(l, len) != l
  {
  }

  /** A resize leaves a size strictly below readable + 2 * len + 8, and only a resize changes it. */
  lemma ResizeBound(l: Layout, len: nat)
    requires l.Valid()
    ensures var r := EnsureWritable(l, len);
            r.size == l.size || l.size < r.size < |l.content| + 2 * len + CHEAP_PREPEND
  {
  }

  // ----- room -----

  /** A new buffer of n bytes takes n more without growing, and up to 8 in front. */
  lemma FreshRoom(n: nat, front: seq<Byte>)
    ensures Fresh(n).Writable() == n
    ensures Prepend(Fresh(n), front).content == if |front| <= 8 then front else []
  {
    assert front + [] == front;
  }

  /** Emptying a buffer, in one call or by retrieving all there is, makes it a new one of the same size. */
  lemma EmptiedIsFresh(l: Layout)
    requires l.Valid()
    ensures RetrieveAll(l) == Retrieve(l, |l.content|) == Fresh(l.size - 8)
  {
  }

  /** What was retrieved from a buffer that keeps some of its bytes can be put back, as if nothing had
      happened; what was appended can be taken off again. */
  lemma UndoneExactly(l: Layout, len: nat, data: seq<Byte>)
    requires l.Valid()
    ensures len < |l.content| ==> Prepend(Retrieve(l, len), l.content[..len]) == l
    ensures Unwrite(Append(l, data), |data|) == EnsureWritable(l, |data|)
    ensures |data| <= l.reader && l.content != [] ==> Retrieve(Prepend(l, data), |data|) == l
  {
    assert len < |l.content| ==> l.content[..len] + l.content[len..] == l.content;
    assert (l.content + data)[..|l.content|] == l.content;
    assert (data + l.content)[|data|..] == l.content;
  }

  /** Nothing moves while there is room. Without it, the array grows exactly when content, len and the
      reserved 8 bytes do not fit it together, and then leaves room for just len. */
  lemma RoomMadeIff(l: Layout, len: nat)
    requires l.Valid()
    ensures EnsureWritable(l, len) == l <==> len <= l.Writable()
    ensures var r := EnsureWritable(l, len);
      && (r.size != l.size <==> len > l.Writable() && 8 + |l.content| + len > l.size)
      && (r.size != l.size ==> r.reader == l.reader && r.Writable() == len)
      && (r != l && r.size == l.size ==> r.reader == 8)
  {
  }

  /** Shrinking leaves the default size, or what content, reserve and the reserved bytes need. */
  lemma ShrinkSize(l: Layout, reserve: nat)
    requires l.Valid()
    ensures Shrink(l, reserve).size == Max(1032, 8 + |l.content| + reserve) && Shrink(l, reserve).reader == 8
  {
  }

  /** One scatter read takes all that is ready up to 65536 bytes more than fit the array, or up to what
      fits, if that is 65536 or more. */
  lemma ReadTakes(l: Layout, bytes: seq<Byte>)
    requires l.Valid()
    ensures var n := |Delivered(l, Ready(bytes))|;
      && Delivered(l, Ready(bytes)) == bytes[..n]
      && (|bytes| <= 65536 ==> n == |bytes|)
      && (l.Writable() < 65536 ==> n == Min(|bytes|, l.Writable() + 65536))
      && (l.Writable() >= 65536 ==> n == Min(|bytes|, l.Writable()))
  {
  }

  function PrependedBytes(ops: seq<Op>): nat {
    if ops == [] then 0
    else (if ops[0].OpPrepend? then |ops[0].data| else 0) + PrependedBytes(ops[1..])
  }

  lemma ApplyKeepsRoom(l: Layout, op: Op, used: int)
    requires l.Valid() && l.reader >= 8 - used && used >= 0
    ensures Apply(l, op).reader >= 8 - used - if op.OpPrepend? then |op.data| else 0
  {
  }

  lemma {:induction false} RunKeepsRoom(l: Layout, ops: seq<Op>, used: int)
    requires l.Valid() && l.reader >= 8 - used && used >= 0
    ensures Run(l, ops).reader >= 8 - used - PrependedBytes(ops)
    decreases |ops|
  {
    if ops != [] {
      ApplyKeepsRoom(l, ops[0], used);
      RunKeepsRoom(Apply(l, ops[0]), ops[1..], used + if ops[0].OpPrepend? then |ops[0].data| else 0);
    }
  }

  /** The reserved bytes are there in every run: whatever the calls, data are accepted in front of the
      content as long as no more than 8 bytes have been, this one included. */
  lemma PrependAccepted(initial: nat, ops: seq<Op>, data: seq<Byte>)
    requires PrependedBytes(ops) + |data| <= 8
    ensures var l := Run(Fresh(initial), ops); Prepend(l, data).content == data + l.content
  {
    RunKeepsRoom(Fresh(initial), ops, 0);
  }

  /** op finds at most `readable` bytes when it appends, and appends at most `len`. */
  predicate Modest(l: Layout, op: Op, readable: nat, len: nat)
    requires l.Valid()
  {
    match op
    case OpAppend(data) => |l.content| <= readable && |data| <= len
    case OpEnsure(n) => |l.content| <= readable && n <= len
    case OpShrink(reserve) => |l.content| <= readable && reserve <= len
    case OpReadFd(src) =>
      |Delivered(l, src)| <= l.Writable()
      || (|l.content| + l.Writable() <= readable && |Delivered(l, src)| - l.Writable() <= len)
    case _ => true
  }

  predicate ModestRun(l: Layout, ops: seq<Op>, readable: nat, len: nat)
    requires l.Valid()
    decreases |ops|
  {
    ops == [] || (Modest(l, ops[0], readable, len) && ModestRun(Apply(l, ops[0]), ops[1..], readable, len))
  }

  predicate Shrinks(ops: seq<Op>) {
    exists i :: 0 <= i < |ops| && ops[i].OpShrink?
  }

  /** The array never outgrows its initial size, the default size if it is ever shrunk, and
      readable + 2 * len + 8. */
  lemma {:induction false} RunBound(l: Layout, ops: seq<Op>, readable: nat, len: nat)
    requires l.Valid() && ModestRun(l, ops, readable, len)
    ensures Run(l, ops).size
         <= Max(Max(l.size, readable + 2 * len + CHEAP_PREPEND),
                if Shrinks(ops) then CHEAP_PREPEND + INITIAL_SIZE else 0)
    decreases |ops|
  {
    if ops != [] {
      var n := Apply(l, ops[0]);
      ApplyBound(l, ops[0], readable, len);
      RunBound(n, ops[1..], readable, len);
      if Shrinks(ops[1..]) {
        var i :| 0 <= i < |ops[1..]| && ops[1..][i].OpShrink?;
        assert ops[i + 1].OpShrink?;
      }
    }
  }

  lemma ApplyBound(l: Layout, op: Op, readable: nat, len: nat)
    requires l.Valid() && Modest(l, op, readable, len)
    ensures Apply(l, op).size
         <= Max(Max(l.size, readable + 2 * len + CHEAP_PREPEND),
                if op.OpShrink? then CHEAP_PREPEND + INITIAL_SIZE else 0)
  {
    match op
    case OpAppend(data) => ResizeBound(l, |data|);
    case OpEnsure(n) => ResizeBound(l, n);
    case OpReadFd(src) =>
    case _ =>
  }
}
