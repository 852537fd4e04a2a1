/** The growable byte buffer every connection reads into and writes from (net/Buffer.h, net/Buffer.cc).

    `Layout` is the arithmetic of the two indices; `Buffer` is the object that keeps its bytes in place.
    Every method of `Buffer` is proved against two views at once: the bytes a caller sees (`Contents`)
    and the layout of the storage (`LayoutOf`). */
module Buffers {
  import opened Common

  newtype byte = b: int | 0 <= b < 256

  const CHEAP_PREPEND: nat := 8
  const INITIAL_SIZE: nat := 1024
  const EXTRA_BUFFER: nat := 65536

  datatype Layout = Layout(size: nat, reader: nat, writer: nat) {

    ghost predicate Valid() {
      reader <= writer <= size && CHEAP_PREPEND <= size
    }

    function Readable(): int {
      writer - reader
    }

    function Writable(): int {
      size - writer
    }

    /** makeSpace: grow, or slide the readable bytes down to the cheap-prepend mark. */
    function MadeSpace(len: nat): (l: Layout)
      requires Valid() && Writable() < len
      ensures l.Valid() && l.Readable() == Readable() && len <= l.Writable()
      ensures l.reader == reader || l.reader == 8 < reader
    {
      if Writable() + reader < len + CHEAP_PREPEND then
        Layout(writer + len, reader, writer)
      else
        Layout(size, CHEAP_PREPEND, CHEAP_PREPEND + (writer - reader))
    }

    function Ensured(len: nat): (l: Layout)
      requires Valid()
      ensures l.Valid() && l.Readable() == Readable() && len <= l.Writable()
    {
      if Writable() < len then MadeSpace(len) else this
    }

    function Appended(len: nat): (l: Layout)
      requires Valid()
      ensures l.Valid() && l.Readable() == Readable() + len
    {
      var l := Ensured(len);
      l.(writer := l.writer + len)
    }

    /** readFd: the kernel fills the free tail first and an on-stack spill area after it. */
    function Received(n: nat): (l: Layout)
      requires Valid()
      ensures l.Valid() && l.Readable() == Readable() + n
    {
      if n <= Writable() then this.(writer := writer + n)
      else this.(writer := size).Appended(n - Writable())
    }
  }

  const FRESH_LAYOUT := Layout(CHEAP_PREPEND + INITIAL_SIZE, CHEAP_PREPEND, CHEAP_PREPEND)

  /** The scatter read lays the buffer out exactly as one append of the same bytes would. */
  lemma ReceivedIsAppended(l: Layout, n: nat)
    requires l.Valid()
    ensures l.Received(n) == l.Appended(n)
  {
  }

  // ----- Runs -----

  datatype BufferOp =
    | Append(bytes: seq<byte>)
    | ReadFd(bytes: seq<byte>)
    | Retrieve(len: nat)
    | RetrieveAll
    | RetrieveAsString
    | Prepend(bytes: seq<byte>)

  /** The assertions of the source, as conditions on the caller. */
  ghost predicate Enabled(l: Layout, op: BufferOp) {
    match op
    case ReadFd(bytes) => |bytes| <= l.Writable() + EXTRA_BUFFER
    case Retrieve(len) => len <= l.Readable()
    case Prepend(bytes) => |bytes| <= l.reader
    case _ => true
  }

  ghost function NextLayout(l: Layout, op: BufferOp): (r: Layout)
    requires l.Valid() && Enabled(l, op)
    ensures r.Valid()
  {
    match op
    case Append(bytes) => l.Appended(|bytes|)
    case ReadFd(bytes) => l.Received(|bytes|)
    case Retrieve(len) => l.(reader := l.reader + len)
    case Prepend(bytes) => l.(reader := l.reader - |bytes|)
    case _ => l.(reader := CHEAP_PREPEND, writer := CHEAP_PREPEND)
  }

  /** A run has two buffers, so that it can swap them. */
  datatype Layouts = Layouts(first: Layout, second: Layout) {
    ghost predicate Valid() {
      first.Valid() && second.Valid()
    }

    function Readable(): int {
      Max(first.Readable(), second.Readable())
    }
  }

  datatype RunOp = First(op: BufferOp) | Second(op: BufferOp) | Swap

  ghost predicate Possible(p: Layouts, op: RunOp) {
    match op
    case First(o) => Enabled(p.first, o)
    case Second(o) => Enabled(p.second, o)
    case Swap => true
  }

  ghost function NextLayouts(p: Layouts, op: RunOp): (r: Layouts)
    requires p.Valid() && Possible(p, op)
    ensures r.Valid()
  {
    match op
    case First(o) => p.(first := NextLayout(p.first, o))
    case Second(o) => p.(second := NextLayout(p.second, o))
    case Swap => Layouts(p.second, p.first)
  }

  const FRESH_LAYOUTS := Layouts(FRESH_LAYOUT, FRESH_LAYOUT)

  ghost predicate LegalRun(p: Layouts, ops: seq<RunOp>)
    requires p.Valid()
    decreases |ops|
  {
    ops == [] || (Possible(p, ops[0]) && LegalRun(NextLayouts(p, ops[0]), ops[1..]))
  }

  ghost function RunLayouts(p: Layouts, ops: seq<RunOp>): (r: Layouts)
    requires p.Valid() && LegalRun(p, ops)
    ensures r.Valid()
    decreases |ops|
  {
    if ops == [] then p else RunLayouts(NextLayouts(p, ops[0]), ops[1..])
  }

  /** The largest number of readable bytes in either buffer at any point of the run, the start included. */
  ghost function Peak(p: Layouts, ops: seq<RunOp>): (peak: int)
    requires p.Valid() && LegalRun(p, ops)
    decreases |ops|
  {
    if ops == [] then p.Readable()
    else Max(p.Readable(), Peak(NextLayouts(p, ops[0]), ops[1..]))
  }

  ghost predicate WithinBound(l: Layout, peak: int) {
    l.Readable() <= peak && l.size <= MemoryBound(peak)
  }

  lemma AppendedWithinBound(l: Layout, len: nat, peak: int)
    requires l.Valid() && WithinBound(l, peak)
    ensures WithinBound(l.Appended(len), Max(peak, l.Readable() + len))
  {
  }

  lemma NextWithinBound(l: Layout, op: BufferOp, peak: int)
    requires l.Valid() && Enabled(l, op) && WithinBound(l, peak)
    ensures WithinBound(NextLayout(l, op), Max(peak, NextLayout(l, op).Readable()))
  {
    match op
    case Append(bytes) => AppendedWithinBound(l, |bytes|, peak);
    case ReadFd(bytes) =>
      ReceivedIsAppended(l, |bytes|);
      AppendedWithinBound(l, |bytes|, peak);
    case _ =>
  }

  ghost predicate BothWithinBound(p: Layouts, peak: int) {
    WithinBound(p.first, peak) && WithinBound(p.second, peak)
  }

  lemma NextBothWithinBound(p: Layouts, op: RunOp, peak: int)
    requires p.Valid() && Possible(p, op) && BothWithinBound(p, peak)
    ensures BothWithinBound(NextLayouts(p, op), Max(peak, NextLayouts(p, op).Readable()))
  {
    match op
    case First(o) => NextWithinBound(p.first, o, peak);
    case Second(o) => NextWithinBound(p.second, o, peak);
    case Swap =>
  }

  lemma {:induction false} RunWithinBound(p: Layouts, ops: seq<RunOp>, seen: int)
    requires p.Valid() && LegalRun(p, ops) && BothWithinBound(p, seen)
    ensures BothWithinBound(RunLayouts(p, ops), Max(seen, Peak(p, ops)))
    decreases |ops|
  {
    if ops != [] {
      var next := NextLayouts(p, ops[0]);
      NextBothWithinBound(p, ops[0], seen);
      RunWithinBound(next, ops[1..], Max(seen, next.Readable()));
      ReadableBelowPeak(next, ops[1..]);
    }
  }

  lemma ReadableBelowPeak(p: Layouts, ops: seq<RunOp>)
    requires p.Valid() && LegalRun(p, ops)
    ensures p.Readable() <= Peak(p, ops)
  {
  }

  function MemoryBound(peak: int): int {
    Max(1032, 2 * peak + 7)
  }

  /** Memory bound: whatever a run does, no storage ever exceeds the initial size or twice the
      largest backlog plus seven bytes. */
  lemma MemoryBounded(ops: seq<RunOp>)
    requires LegalRun(FRESH_LAYOUTS, ops)
    ensures var p := RunLayouts(FRESH_LAYOUTS, ops);
            && p.first.size <= MemoryBound(Peak(FRESH_LAYOUTS, ops))
            && p.second.size <= MemoryBound(Peak(FRESH_LAYOUTS, ops))
  {
    RunWithinBound(FRESH_LAYOUTS, ops, 0);
    ReadableBelowPeak(FRESH_LAYOUTS, ops);
  }

  /** The bound is attained: fill the buffer, drain it byte for byte, append one byte more. */
  lemma MemoryBoundTight(first: seq<byte>, second: seq<byte>)
    requires |first| == INITIAL_SIZE && |second| == INITIAL_SIZE + 1
    ensures var ops := [First(Append(first)), First(Retrieve(INITIAL_SIZE)), First(Append(second))];
            && LegalRun(FRESH_LAYOUTS, ops)
            && RunLayouts(FRESH_LAYOUTS, ops).first.size == 2 * Peak(FRESH_LAYOUTS, ops) + 7
  {
    var ops := [First(Append(first)), First(Retrieve(INITIAL_SIZE)), First(Append(second))];
    var l1 := FRESH_LAYOUT.Appended(INITIAL_SIZE);
    var l2 := l1.(reader := l1.reader + INITIAL_SIZE);
    var l3 := l2.Appended(INITIAL_SIZE + 1);
    var p1, p2, p3 := FRESH_LAYOUTS.(first := l1), FRESH_LAYOUTS.(first := l2), FRESH_LAYOUTS.(first := l3);
    assert ops[1..] == [ops[1], ops[2]] && [ops[1], ops[2]][1..] == [ops[2]] && [ops[2]][1..] == [];
    assert NextLayouts(FRESH_LAYOUTS, ops[0]) == p1;
    assert NextLayouts(p1, ops[1]) == p2;
    assert NextLayouts(p2, ops[2]) == p3;
    assert LegalRun(p3, []) && Peak(p3, []) == INITIAL_SIZE + 1;
    assert LegalRun(p2, [ops[2]]) && RunLayouts(p2, [ops[2]]) == p3;
    assert Peak(p2, [ops[2]]) == INITIAL_SIZE + 1;
    assert LegalRun(p1, ops[1..]) && RunLayouts(p1, ops[1..]) == p3;
  }

  // ----- The buffer itself -----

  class Buffer {
    var data: array<byte>
    var reader: nat
    var writer: nat

    ghost predicate Valid()
      reads this
    {
      LayoutOf().Valid()
    }

    ghost function LayoutOf(): Layout
      reads this
    {
      Layout(data.Length, reader, writer)
    }

    /** The readable bytes, oldest first. */
    ghost function Contents(): seq<byte>
      requires Valid()
      reads this, data
    {
      data[reader..writer]
    }

    constructor ()
      ensures Valid() && fresh(data)
      ensures LayoutOf() == FRESH_LAYOUT == Layout(1032, 8, 8) && Contents() == []
    {
      data := new byte[CHEAP_PREPEND + INITIAL_SIZE](_ => 0);
      reader := CHEAP_PREPEND;
      writer := CHEAP_PREPEND;
    }

    function ReadableBytes(): (n: nat)
      requires Valid()
      reads this, data
      ensures n == |Contents()|
    {
      writer - reader
    }

    method Swap(rhs: Buffer)
      requires Valid() && rhs.Valid()
      modifies this, rhs
      ensures Valid() && rhs.Valid()
      ensures data == old(rhs.data) && rhs.data == old(data)
      ensures LayoutOf() == old(rhs.LayoutOf()) && rhs.LayoutOf() == old(LayoutOf())
      ensures Contents() == old(rhs.Contents()) && rhs.Contents() == old(Contents())
    {
      data, rhs.data := rhs.data, data;
      reader, rhs.reader := rhs.reader, reader;
      writer, rhs.writer := rhs.writer, writer;
    }

    method Retrieve(len: nat)
      requires Valid() && len <= |Contents()|
      modifies this`reader
      ensures Valid() && LayoutOf() == old(LayoutOf()).(reader := old(reader) + len)
      ensures Contents() == old(Contents())[len..]
    {
      reader := reader + len;
    }

    method RetrieveAll()
      requires Valid()
      modifies this`reader, this`writer
      ensures Valid() && Contents() == []
      ensures LayoutOf() == old(LayoutOf()).(reader := 8, writer := 8)
    {
      reader := CHEAP_PREPEND;
      writer := CHEAP_PREPEND;
    }

    method RetrieveAsString() returns (s: seq<byte>)
      requires Valid()
      modifies this`reader, this`writer
      ensures Valid() && s == old(Contents()) && Contents() == []
      ensures LayoutOf() == old(LayoutOf()).(reader := 8, writer := 8)
    {
      s := data[reader..writer];
      RetrieveAll();
    }

    /** std::copy within the same storage, lowest index first, towards a lower index: the
        regions may overlap. */
    method SlideDown(from: nat, to: nat, count: nat)
      requires to < from && from + count <= data.Length
      modifies data
      ensures data[to..to + count] == old(data[from..from + count])
    {
      var i := 0;
      while i < count
        invariant 0 <= i <= count
        invariant data[to..to + i] == old(data[from..from + i])
        invariant forall k :: from + i <= k < data.Length ==> data[k] == old(data[k])
      {
        data[to + i] := data[from + i];
        i := i + 1;
      }
    }

    method MakeSpace(len: nat)
      requires Valid() && LayoutOf().Writable() < len
      modifies this, data
      ensures Valid() && LayoutOf() == old(LayoutOf()).MadeSpace(len)
      ensures data == old(data) || fresh(data)
      ensures Contents() == old(Contents())
    {
      if data.Length - writer + reader < len + CHEAP_PREPEND {
        var small := data;
        data := new byte[writer + len](i requires 0 <= i < writer + len reads this, small =>
          if i < small.Length then small[i] else 0);
        assert forall k | 0 <= k < small.Length :: data[k] == small[k] == old(small[k]);
        assert data[reader..writer] == small[reader..writer] == old(data[reader..writer]);
      } else {
        assert CHEAP_PREPEND < reader;
        var readable := writer - reader;
        SlideDown(reader, CHEAP_PREPEND, readable);
        reader := CHEAP_PREPEND;
        writer := reader + readable;
        assert readable == writer - reader;
      }
    }

    method EnsureWritableBytes(len: nat)
      requires Valid()
      modifies this, data
      ensures Valid() && LayoutOf() == old(LayoutOf()).Ensured(len)
      ensures data == old(data) || fresh(data)
      ensures Contents() == old(Contents())
    {
      if data.Length - writer < len {
        MakeSpace(len);
      }
    }

    /** std::copy of foreign bytes to an offset of the storage. */
    method Store(at: nat, bytes: seq<byte>)
      requires at + |bytes| <= data.Length
      modifies data
      ensures data[at..at + |bytes|] == bytes
      ensures forall k :: 0 <= k < at || at + |bytes| <= k < data.Length ==> data[k] == old(data[k])
    {
      var i := 0;
      while i < |bytes|
        invariant 0 <= i <= |bytes|
        invariant data[at..at + i] == bytes[..i]
        invariant forall k :: 0 <= k < at || at + i <= k < data.Length ==> data[k] == old(data[k])
      {
        data[at + i] := bytes[i];
        i := i + 1;
      }
    }

    method Append(bytes: seq<byte>)
      requires Valid()
      modifies this, data
      ensures Valid() && LayoutOf() == old(LayoutOf()).Appended(|bytes|)
      ensures data == old(data) || fresh(data)
      ensures Contents() == old(Contents()) + bytes
    {
      EnsureWritableBytes(|bytes|);
      FillTail(bytes);
    }

    method Prepend(bytes: seq<byte>)
      requires Valid() && |bytes| <= reader
      modifies this`reader, data
      ensures Valid() && LayoutOf() == old(LayoutOf()).(reader := old(reader) - |bytes|)
      ensures Contents() == bytes + old(Contents())
    {
      reader := reader - |bytes|;
      Store(reader, bytes);
    }

    /** readFd. `arrived` is what the kernel has for this descriptor: `None` when readv fails,
        otherwise at most the two regions' worth of bytes. */
    method ReadFd(arrived: Option<seq<byte>>) returns (n: int)
      requires Valid()
      requires arrived.Some? ==> |arrived.value| <= LayoutOf().Writable() + 65536
      modifies this, data
      ensures Valid() && (data == old(data) || fresh(data))
      ensures arrived.None? ==> n == -1 && LayoutOf() == old(LayoutOf()) && Contents() == old(Contents())
      ensures arrived.Some? ==>
        && n == |arrived.value|
        && LayoutOf() == old(LayoutOf()).Received(n)
        && Contents() == old(Contents()) + arrived.value
    {
      if arrived.None? {
        return -1;
      }
      Scatter(arrived.value);
      n := |arrived.value|;
    }

    /** Bytes that fit land behind the readable ones (std::copy or readv, then hasWritten). */
    method FillTail(bytes: seq<byte>)
      requires Valid() && |bytes| <= LayoutOf().Writable()
      modifies this`writer, data
      ensures Valid() && LayoutOf() == old(LayoutOf()).(writer := old(writer) + |bytes|)
      ensures Contents() == old(Contents()) + bytes
    {
      Store(writer, bytes);
      writer := writer + |bytes|;
    }

    /** A successful readv: the tail of the storage first, the rest through the stack. */
    method Scatter(bytes: seq<byte>)
      requires Valid() && |bytes| <= LayoutOf().Writable() + EXTRA_BUFFER
      modifies this, data
      ensures Valid() && (data == old(data) || fresh(data))
      ensures LayoutOf() == old(LayoutOf()).Received(|bytes|)
      ensures Contents() == old(Contents()) + bytes
    {
      var writable := data.Length - writer;
      if |bytes| <= writable {
        FillTail(bytes);
      } else {
        var spilled := |bytes| - writable;
        var extrabuf := new byte[EXTRA_BUFFER](i requires 0 <= i => if i < spilled then bytes[writable + i] else 0);
        FillTail(bytes[..writable]);
        assert extrabuf[..spilled] == bytes[writable..];
        Append(extrabuf[..spilled]);
        assert bytes == bytes[..writable] + bytes[writable..];
      }
    }
  }

  /** What a caller sees of a run: the bytes in either buffer, and the strings retrieved so far. */
  datatype Bytes = Bytes(first: seq<byte>, second: seq<byte>, strings: seq<seq<byte>>)

  ghost function NextContents(c: seq<byte>, op: BufferOp): seq<byte> {
    match op
    case Append(bytes) => c + bytes
    case ReadFd(bytes) => c + bytes
    case Retrieve(len) => if len <= |c| then c[len..] else []
    case Prepend(bytes) => bytes + c
    case _ => []
  }

  ghost function Returned(c: seq<byte>, op: BufferOp): seq<seq<byte>> {
    if op.RetrieveAsString? then [c] else []
  }

  ghost function NextBytes(v: Bytes, op: RunOp): Bytes {
    match op
    case First(o) => v.(first := NextContents(v.first, o), strings := v.strings + Returned(v.first, o))
    case Second(o) => v.(second := NextContents(v.second, o), strings := v.strings + Returned(v.second, o))
    case Swap => v.(first := v.second, second := v.first)
  }

  ghost function RunBytes(v: Bytes, ops: seq<RunOp>): Bytes
    decreases |ops|
  {
    if ops == [] then v else RunBytes(NextBytes(v, ops[0]), ops[1..])
  }

  method Apply(b: Buffer, op: BufferOp) returns (returned: seq<seq<byte>>)
    requires b.Valid() && Enabled(b.LayoutOf(), op)
    modifies b, b.data
    ensures b.Valid() && b.LayoutOf() == NextLayout(old(b.LayoutOf()), op)
    ensures b.Contents() == NextContents(old(b.Contents()), op) && returned == Returned(old(b.Contents()), op)
    ensures b.data == old(b.data) || fresh(b.data)
  {
    returned := [];
    match op {
      case Append(bytes) => b.Append(bytes);
      case ReadFd(bytes) => var _ := b.ReadFd(Some(bytes));
      case Retrieve(len) => b.Retrieve(len);
      case RetrieveAll => b.RetrieveAll();
      case RetrieveAsString =>
        var s := b.RetrieveAsString();
        returned := [s];
      case Prepend(bytes) => b.Prepend(bytes);
    }
  }

  ghost predicate Apart(a: Buffer, b: Buffer)
    reads a, b
  {
    a != b && a.data != b.data && a.Valid() && b.Valid()
  }

  ghost function LayoutsOf(a: Buffer, b: Buffer): Layouts
    reads a, b
  {
    Layouts(a.LayoutOf(), b.LayoutOf())
  }

  ghost function BytesOf(a: Buffer, b: Buffer, strings: seq<seq<byte>>): Bytes
    requires a.Valid() && b.Valid()
    reads a, b, a.data, b.data
  {
    Bytes(a.Contents(), b.Contents(), strings)
  }

  method ApplyToPair(a: Buffer, b: Buffer, op: RunOp, strings: seq<seq<byte>>) returns (strings': seq<seq<byte>>)
    requires Apart(a, b) && Possible(LayoutsOf(a, b), op)
    modifies a, b, a.data, b.data
    ensures Apart(a, b) && LayoutsOf(a, b) == NextLayouts(old(LayoutsOf(a, b)), op)
    ensures BytesOf(a, b, strings') == NextBytes(old(BytesOf(a, b, strings)), op)
    ensures fresh({a.data, b.data} - old({a.data, b.data}))
  {
    strings' := strings;
    match op {
      case First(o) =>
        var returned := Apply(a, o);
        strings' := strings + returned;
      case Second(o) =>
        var returned := Apply(b, o);
        strings' := strings + returned;
      case Swap => a.Swap(b);
    }
  }

  /** Any run on two new buffers: the objects refine plain byte sequences within the memory bound. */
  method Perform(ops: seq<RunOp>) returns (a: Buffer, b: Buffer, strings: seq<seq<byte>>)
    requires LegalRun(FRESH_LAYOUTS, ops)
    ensures a.Valid() && b.Valid() && BytesOf(a, b, strings) == RunBytes(Bytes([], [], []), ops)
    ensures a.data.Length <= MemoryBound(Peak(FRESH_LAYOUTS, ops))
    ensures b.data.Length <= MemoryBound(Peak(FRESH_LAYOUTS, ops))
  {
    a := new Buffer();
    b := new Buffer();
    strings := [];
    var i := 0;
    assert ops[0..] == ops;
    while i < |ops|
      invariant 0 <= i <= |ops|
      invariant Apart(a, b) && fresh({a, b}) && fresh({a.data, b.data})
      invariant LegalRun(LayoutsOf(a, b), ops[i..])
      invariant RunLayouts(LayoutsOf(a, b), ops[i..]) == RunLayouts(FRESH_LAYOUTS, ops)
      invariant RunBytes(BytesOf(a, b, strings), ops[i..]) == RunBytes(Bytes([], [], []), ops)
    {
      assert ops[i..][0] == ops[i] && ops[i..][1..] == ops[i + 1..];
      strings := ApplyToPair(a, b, ops[i], strings);
      i := i + 1;
    }
    MemoryBounded(ops);
  }
}
