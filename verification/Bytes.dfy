/** Bytes, little-endian packing, and the effect of a list of slice assignments on a
    zero-filled buffer, as every builder and reader of a binary format here needs them. */
module Bytes {
  import opened Results

  type Byte = b: int | 0 <= b < 256

  /** The bytes of an ASCII literal. */
  function Ascii(text: string): (r: seq<Byte>)
    requires forall i | 0 <= i < |text| :: text[i] < 128 as char
    ensures |r| == |text|
  {
    seq(|text|, i requires 0 <= i < |text| => text[i] as int)
  }

  function Zeros(n: nat): (r: seq<Byte>)
    ensures |r| == n
  {
    seq(n, _ => 0)
  }

  // ---------- little-endian words ----------

  function Pow256(width: nat): (p: nat)
    ensures p >= 1
  {
    if width == 0 then 1 else 256 * Pow256(width - 1)
  }

  /** `struct.pack("<B|H|I|Q", value)`: the value must fit the width. */
  function Pack(width: nat, value: nat): (r: seq<Byte>)
    requires value < Pow256(width)
    ensures |r| == width
  {
    if width == 0 then [] else [value % 256] + Pack(width - 1, value / 256)
  }

  function Unpack(bytes: seq<Byte>): nat
  {
    if bytes == [] then 0 else bytes[0] + 256 * Unpack(bytes[1..])
  }

  lemma {:induction false} UnpackPack(width: nat, value: nat)
    requires value < Pow256(width)
    ensures Unpack(Pack(width, value)) == value
  {
    if width > 0 {
      UnpackPack(width - 1, value / 256);
      assert Pack(width, value)[1..] == Pack(width - 1, value / 256);
    }
  }

  // ---------- slices ----------

  /** `data` sits at `offset` of `buffer`. */
  ghost predicate Holds(buffer: seq<Byte>, offset: nat, data: seq<Byte>) {
    offset + |data| <= |buffer| && buffer[offset..offset + |data|] == data
  }

  /** `len` bytes at `offset`, if they are there. */
  function Take(buffer: seq<Byte>, offset: nat, len: nat): Option<seq<Byte>> {
    if offset + len <= |buffer| then Some(buffer[offset..offset + len]) else None
  }

  /** The `width`-byte little-endian word at `offset`. */
  function Field(buffer: seq<Byte>, offset: nat, width: nat): nat
    requires offset + width <= |buffer|
  {
    Unpack(buffer[offset..offset + width])
  }

  lemma HoldsPart(buffer: seq<Byte>, offset: nat, data: seq<Byte>, at: nat, part: seq<Byte>)
    requires Holds(buffer, offset, data) && Holds(data, at, part)
    ensures Holds(buffer, offset + at, part)
  {
    forall k | 0 <= k < |part|
      ensures buffer[offset + at + k] == part[k]
    {
      assert part[k] == data[at..at + |part|][k] == buffer[offset..offset + |data|][at + k];
    }
  }

  lemma HoldsSlice(buffer: seq<Byte>, offset: nat, data: seq<Byte>, lo: nat, hi: nat)
    requires Holds(buffer, offset, data) && lo <= hi <= |data|
    ensures buffer[offset + lo..offset + hi] == data[lo..hi]
  {
    HoldsPart(buffer, offset, data, lo, data[lo..hi]);
  }

  lemma HoldsField(buffer: seq<Byte>, offset: nat, width: nat, value: nat)
    requires value < Pow256(width) && Holds(buffer, offset, Pack(width, value))
    ensures Field(buffer, offset, width) == value
  {
    UnpackPack(width, value);
  }

  // ---------- slice assignments ----------

  /** One slice assignment `buffer[offset:offset + len(data)] = data`. */
  datatype Write = Write(offset: nat, data: seq<Byte>) {
    function End(): nat { offset + |data| }
  }

  predicate Apart(a: Write, b: Write) {
    a.End() <= b.offset || b.End() <= a.offset
  }

  predicate InBounds(n: nat, log: seq<Write>) {
    forall i | 0 <= i < |log| :: log[i].End() <= n
  }

  predicate PairwiseApart(log: seq<Write>) {
    forall i, j | 0 <= i < j < |log| :: Apart(log[i], log[j])
  }

  function Splice(buffer: seq<Byte>, w: Write): (r: seq<Byte>)
    requires w.End() <= |buffer|
    ensures |r| == |buffer|
    ensures forall k | 0 <= k < |r| :: r[k] == if w.offset <= k < w.End() then w.data[k - w.offset] else buffer[k]
  {
    buffer[..w.offset] + w.data + buffer[w.End()..]
  }

  /** A zero-filled buffer after the assignments of `log`, in order. */
  function Written(n: nat, log: seq<Write>): (r: seq<Byte>)
    requires InBounds(n, log)
    ensures |r| == n
  {
    if log == [] then Zeros(n) else Splice(Written(n, log[..|log| - 1]), log[|log| - 1])
  }

  /** `contents` is a zero-filled buffer after the assignments of `log`. */
  ghost predicate Records(log: seq<Write>, contents: seq<Byte>) {
    InBounds(|contents|, log) && contents == Written(|contents|, log)
  }

  lemma WrittenSnoc(n: nat, log: seq<Write>, w: Write)
    requires InBounds(n, log) && w.End() <= n
    ensures InBounds(n, log + [w])
    ensures Written(n, log + [w]) == Splice(Written(n, log), w)
  {
    assert (log + [w])[..|log|] == log;
  }

  lemma HoldsAfter(buffer: seq<Byte>, w: Write, later: Write)
    requires later.End() <= |buffer| && Apart(w, later) && Holds(buffer, w.offset, w.data)
    ensures Holds(Splice(buffer, later), w.offset, w.data)
  {
    var after := Splice(buffer, later);
    forall k | 0 <= k < |w.data|
      ensures after[w.offset + k] == w.data[k]
    {
      assert w.data[k] == buffer[w.offset..w.End()][k];
    }
  }

  /** A write that nothing later overlaps is still there at the end. */
  lemma {:induction false} WriteSurvives(n: nat, log: seq<Write>, i: nat)
    requires InBounds(n, log) && PairwiseApart(log) && i < |log|
    ensures Holds(Written(n, log), log[i].offset, log[i].data)
  {
    var last := |log| - 1;
    if i < last {
      var before := log[..last];
      assert before[i] == log[i] && Apart(log[i], log[last]);
      WriteSurvives(n, before, i);
      HoldsAfter(Written(n, before), log[i], log[last]);
    }
  }

  lemma SurvivesInTail(n: nat, head: seq<Write>, tail: seq<Write>, i: nat)
    requires InBounds(n, head + tail) && PairwiseApart(head + tail) && i < |tail|
    ensures Holds(Written(n, head + tail), tail[i].offset, tail[i].data)
  {
    WriteSurvives(n, head + tail, |head| + i);
  }

  lemma SurvivesInHead(n: nat, head: seq<Write>, tail: seq<Write>, i: nat)
    requires InBounds(n, head + tail) && PairwiseApart(head + tail) && i < |head|
    ensures Holds(Written(n, head + tail), head[i].offset, head[i].data)
  {
    WriteSurvives(n, head + tail, i);
  }

  /** The word a write put there, read back from a copy of the buffer that lies at `base` of another. */
  lemma FieldOfWrite(outer: seq<Byte>, base: nat, n: nat, log: seq<Write>, i: nat, width: nat, value: nat)
    requires InBounds(n, log) && PairwiseApart(log) && i < |log|
    requires Holds(outer, base, Written(n, log))
    requires value < Pow256(width) && log[i].data == Pack(width, value)
    ensures base + log[i].offset + width <= |outer| && Field(outer, base + log[i].offset, width) == value
  {
    DataOfWrite(outer, base, n, log, i);
    HoldsField(outer, base + log[i].offset, width, value);
  }

  lemma DataOfWrite(outer: seq<Byte>, base: nat, n: nat, log: seq<Write>, i: nat)
    requires InBounds(n, log) && PairwiseApart(log) && i < |log|
    requires Holds(outer, base, Written(n, log))
    ensures Holds(outer, base + log[i].offset, log[i].data)
  {
    WriteSurvives(n, log, i);
    HoldsPart(outer, base, Written(n, log), log[i].offset, log[i].data);
  }

  /** What no write overlaps stays zero. */
  lemma {:induction false} UnwrittenIsZero(n: nat, log: seq<Write>, gap: Write)
    requires InBounds(n, log) && gap.End() <= n && gap.data == Zeros(|gap.data|)
    requires forall j | 0 <= j < |log| :: Apart(gap, log[j])
    ensures Holds(Written(n, log), gap.offset, gap.data)
  {
    if log != [] {
      var last := |log| - 1;
      UnwrittenIsZero(n, log[..last], gap);
      HoldsAfter(Written(n, log[..last]), gap, log[last]);
    }
  }

  /** In-place slice assignment. */
  method Assign(buffer: array<Byte>, w: Write)
    requires w.End() <= buffer.Length
    modifies buffer
    ensures buffer[..] == Splice(old(buffer[..]), w)
  {
    for i := 0 to |w.data|
      invariant forall k | 0 <= k < buffer.Length ::
          buffer[k] == if w.offset <= k < w.offset + i then w.data[k - w.offset] else old(buffer[k])
    {
      buffer[w.offset + i] := w.data[i];
    }
  }

  /** ... on a buffer whose history is `log`. */
  method Put(buffer: array<Byte>, offset: nat, data: seq<Byte>, ghost log: seq<Write>) returns (ghost after: seq<Write>)
    requires Records(log, buffer[..])
    requires offset + |data| <= buffer.Length
    modifies buffer
    ensures after == log + [Write(offset, data)]
    ensures Records(after, buffer[..])
  {
    WrittenSnoc(buffer.Length, log, Write(offset, data));
    Assign(buffer, Write(offset, data));
    after := log + [Write(offset, data)];
  }

  /** Consecutive fields, as one `struct.pack_into` stores them. */
  method PutAll(buffer: array<Byte>, writes: seq<Write>, ghost log: seq<Write>) returns (ghost after: seq<Write>)
    requires Records(log, buffer[..])
    requires InBounds(buffer.Length, writes)
    modifies buffer
    ensures after == log + writes
    ensures Records(after, buffer[..])
    decreases |writes|
  {
    if writes == [] {
      after := log;
    } else {
      after := Put(buffer, writes[0].offset, writes[0].data, log);
      after := PutAll(buffer, writes[1..], after);
      assert writes == [writes[0]] + writes[1..];
    }
  }

  /** A fresh zero-filled `bytearray(n)`. */
  method NewBuffer(n: nat) returns (buffer: array<Byte>)
    ensures fresh(buffer) && buffer.Length == n && Records([], buffer[..])
  {
    buffer := new Byte[n](_ => 0);
    assert buffer[..] == Zeros(n);
  }

  /** A fresh buffer after the slice assignments of `writes`, in order. */
  method Fill(n: nat, writes: seq<Write>) returns (buffer: array<Byte>)
    requires InBounds(n, writes)
    ensures fresh(buffer) && buffer.Length == n && buffer[..] == Written(n, writes)
  {
    buffer := NewBuffer(n);
    ghost var log := PutAll(buffer, writes, []);
    assert [] + writes == writes;
  }
}
