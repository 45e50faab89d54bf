/**
 * The staging buffers of cocos/editor-support: an IOBuffer is a bounded byte buffer, and a
 * MeshBuffer moves full ones into a growing list of chunks.
 */
module MeshBuffers {

  import opened Wrappers

  const MAX_VERTEX_BUFFER_SIZE: nat := 65535
  const INIT_INDEX_BUFFER_SIZE: nat := 1024000
  const MIN_TYPE_ARRAY_SIZE: nat := 1024
  const SIZE_OF_FLOAT: nat := 4

  /** The size that `checkSpace` asks for: whole kilobytes. */
  function FitSize(needLen: nat): (size: nat)
    ensures needLen <= size < needLen + MIN_TYPE_ARRAY_SIZE && size % MIN_TYPE_ARRAY_SIZE == 0
  {
    (needLen + MIN_TYPE_ARRAY_SIZE - 1) / MIN_TYPE_ARRAY_SIZE * MIN_TYPE_ARRAY_SIZE
  }

  class IOBuffer {
    var buffer: array<Byte>
    var curPos: nat
    var outRange: bool
    var maxSize: nat

    ghost predicate Valid()
      reads this
    {
      curPos <= buffer.Length
    }

    ghost function Contents(): (s: seq<Byte>)
      requires Valid()
      reads this, buffer
      ensures |s| == curPos
    {
      buffer[..curPos]
    }

    constructor (size: nat)
      ensures Valid() && fresh(buffer) && buffer.Length == size
      ensures Contents() == [] && !outRange && maxSize == 0
    {
      buffer, curPos, outRange, maxSize := new Byte[size], 0, false, 0;
    }

    /** Writes all or, when there is no room, nothing. */
    method WriteBytes(bytes: seq<Byte>)
      requires Valid()
      modifies this`curPos, this`outRange, buffer
      ensures Valid()
      ensures old(curPos) + |bytes| <= buffer.Length ==>
        Contents() == old(Contents()) + bytes && outRange == old(outRange)
      ensures old(curPos) + |bytes| > buffer.Length ==> Contents() == old(Contents()) && outRange
    {
      if buffer.Length < curPos + |bytes| {
        outRange := true;
        return;
      }
      forall i | 0 <= i < |bytes| {
        buffer[curPos + i] := bytes[i];
      }
      curPos := curPos + |bytes|;
    }

    method Reset()
      modifies this`curPos
      ensures Valid() && Contents() == []
    {
      curPos := 0;
    }

    /** Without `needCopy`, what has been written is lost. */
    method Resize(newLen: nat, needCopy: bool)
      requires Valid()
      modifies this`buffer, this`outRange
      ensures Valid() && (buffer == old(buffer) || fresh(buffer))
      ensures old(buffer.Length) >= newLen ==> buffer == old(buffer) && outRange == old(outRange)
      ensures old(buffer.Length) < newLen ==> fresh(buffer) && buffer.Length == newLen && !outRange
      ensures needCopy ==> Contents() == old(Contents())
    {
      if buffer.Length < newLen {
        var newBuffer := new Byte[newLen];
        if needCopy {
          forall i | 0 <= i < buffer.Length {
            newBuffer[i] := buffer[i];
          }
        }
        buffer := newBuffer;
        outRange := false;
      }
    }

    /** The second half of `checkSpace`; `needLen` was computed before the first half. */
    method Grow(needLen: nat, needCopy: bool)
      requires Valid()
      modifies this`buffer, this`outRange
      ensures Valid() && (buffer == old(buffer) || fresh(buffer)) && buffer.Length >= needLen
      ensures buffer.Length == if old(buffer.Length) < needLen then FitSize(needLen) else old(buffer.Length)
      ensures old(buffer.Length) >= needLen ==> buffer == old(buffer)
      ensures needCopy || curPos == 0 || old(buffer.Length) >= needLen ==> Contents() == old(Contents())
      ensures !old(outRange) ==> !outRange
    {
      if buffer.Length < needLen {
        Resize(FitSize(needLen), needCopy);
      }
    }

    /** `checkSpace` of a buffer without a callback: one that is full starts again. */
    method CheckSpace(needSize: nat, needCopy: bool) returns (isFull: bool)
      requires Valid()
      modifies this`buffer, this`curPos, this`outRange
      ensures Valid() && (buffer == old(buffer) || fresh(buffer))
      ensures isFull <==> maxSize > 0 && old(curPos) + needSize > maxSize
      ensures curPos == if isFull then 0 else old(curPos)
      ensures buffer.Length >= old(curPos) + needSize
      ensures old(buffer.Length) >= old(curPos) + needSize ==> buffer == old(buffer)
      ensures !isFull && (needCopy || old(buffer.Length) >= old(curPos) + needSize) ==>
        Contents() == old(Contents())
      ensures !old(outRange) ==> !outRange
    {
      var needLen := curPos + needSize;
      isFull := maxSize > 0 && needLen > maxSize;
      if isFull {
        curPos := 0;
      }
      Grow(needLen, needCopy);
    }
  }

  // ---- What a run of writes is to leave behind ----

  datatype Op = Vertices(bytes: seq<Byte>) | Indices(bytes: seq<Byte>)

  /** What goes to one position of the two lists of chunks. */
  datatype Segment = Segment(vertices: seq<Byte>, indices: seq<Byte>)

  function AddOp(done: seq<Segment>, last: Segment, op: Op, max: nat): (seq<Segment>, Segment) {
    match op
    case Vertices(bytes) =>
      if |last.vertices| + |bytes| > max then (done + [last], Segment(bytes, []))
      else (done, last.(vertices := last.vertices + bytes))
    case Indices(bytes) =>
      (done, last.(indices := last.indices + bytes))
  }

  /** Segments filled one after another, each as long as the next vertices fit. */
  function Packed(ops: seq<Op>, max: nat): (seq<Segment>, Segment) {
    if ops == [] then ([], Segment([], []))
    else
      var (done, last) := Packed(ops[..|ops| - 1], max);
      AddOp(done, last, ops[|ops| - 1], max)
  }

  function AllVertices(ops: seq<Op>): seq<Byte> {
    if ops == [] then [] else
      var op := ops[|ops| - 1];
      AllVertices(ops[..|ops| - 1]) + (if op.Vertices? then op.bytes else [])
  }

  function AllIndices(ops: seq<Op>): seq<Byte> {
    if ops == [] then [] else
      var op := ops[|ops| - 1];
      AllIndices(ops[..|ops| - 1]) + (if op.Indices? then op.bytes else [])
  }

  function VerticesOf(segments: seq<Segment>): (r: seq<seq<Byte>>)
    ensures |r| == |segments|
  {
    seq(|segments|, i requires 0 <= i < |segments| => segments[i].vertices)
  }

  function IndicesOf(segments: seq<Segment>): (r: seq<seq<Byte>>)
    ensures |r| == |segments|
  {
    seq(|segments|, i requires 0 <= i < |segments| => segments[i].indices)
  }

  lemma PartsMore(segments: seq<Segment>, last: Segment)
    ensures VerticesOf(segments + [last]) == VerticesOf(segments) + [last.vertices]
    ensures IndicesOf(segments + [last]) == IndicesOf(segments) + [last.indices]
  {}

  function Join(parts: seq<seq<Byte>>): seq<Byte> {
    if parts == [] then [] else Join(parts[..|parts| - 1]) + parts[|parts| - 1]
  }

  lemma JoinMore(parts: seq<seq<Byte>>, last: seq<Byte>)
    ensures Join(parts + [last]) == Join(parts) + last
  {
    assert (parts + [last])[..|parts|] == parts;
  }

  lemma JoinOne(part: seq<Byte>)
    ensures Join([part]) == part
  {
    assert [part][..0] == [] && Join([part][..0]) == [];
  }

  /** The vertices and the indices of all segments, one after the other. */
  predicate HoldsAll(done: seq<Segment>, last: Segment, vertices: seq<Byte>, indices: seq<Byte>) {
    Join(VerticesOf(done)) + last.vertices == vertices && Join(IndicesOf(done)) + last.indices == indices
  }

  lemma AddOpHoldsAll(done: seq<Segment>, last: Segment, op: Op, max: nat, vertices: seq<Byte>, indices: seq<Byte>)
    requires HoldsAll(done, last, vertices, indices)
    ensures var (more, next) := AddOp(done, last, op, max);
      HoldsAll(more, next, vertices + (if op.Vertices? then op.bytes else []),
               indices + (if op.Indices? then op.bytes else []))
  {
    PartsMore(done, last);
    JoinMore(VerticesOf(done), last.vertices);
    JoinMore(IndicesOf(done), last.indices);
    var v, i := Join(VerticesOf(done)), Join(IndicesOf(done));
    assert v + last.vertices + op.bytes == v + (last.vertices + op.bytes);
    assert i + last.indices + op.bytes == i + (last.indices + op.bytes);
    assert vertices + [] == vertices && indices + [] == indices;
  }

  /** No segment is larger than the maximum, and only the first can be without vertices. */
  predicate WithinMax(done: seq<Segment>, last: Segment, max: nat) {
    && |last.vertices| <= max && (forall k :: 0 <= k < |done| ==> 0 < |done[k].vertices| <= max)
    && (last.vertices == [] ==> done == [])
  }

  /** No segment could have taken the vertices of the one after it as well. */
  predicate FilledUp(done: seq<Segment>, last: Segment, max: nat) {
    && (forall k :: 0 <= k < |done| - 1 ==> |done[k].vertices| + |done[k + 1].vertices| > max)
    && (done != [] ==> |done[|done| - 1].vertices| + |last.vertices| > max)
  }

  lemma AddOpFillsUp(done: seq<Segment>, last: Segment, op: Op, max: nat)
    requires FilledUp(done, last, max)
    ensures var (more, next) := AddOp(done, last, op, max); FilledUp(more, next, max)
  {
    assert forall k :: 0 <= k < |done| ==> (done + [last])[k] == done[k];
  }

  /** A flush comes only where the next vertices would not have fitted. */
  lemma {:induction false} PackedFillsUp(ops: seq<Op>, max: nat)
    ensures var (done, last) := Packed(ops, max); FilledUp(done, last, max)
  {
    if ops != [] {
      var most, op := ops[..|ops| - 1], ops[|ops| - 1];
      PackedFillsUp(most, max);
      var (done, last) := Packed(most, max);
      AddOpFillsUp(done, last, op, max);
    }
  }

  /** Nothing is lost. */
  lemma {:induction false} PackedLosesNothing(ops: seq<Op>, max: nat)
    requires forall k :: 0 <= k < |ops| && ops[k].Vertices? ==> |ops[k].bytes| <= max
    ensures var (done, last) := Packed(ops, max);
      HoldsAll(done, last, AllVertices(ops), AllIndices(ops)) && WithinMax(done, last, max)
  {
    if ops != [] {
      var most, op := ops[..|ops| - 1], ops[|ops| - 1];
      PackedLosesNothing(most, max);
      var (done, last) := Packed(most, max);
      AddOpHoldsAll(done, last, op, max, AllVertices(most), AllIndices(most));
    }
  }

  /** The vertices of each write fit an empty buffer, and the indices of each segment fit theirs. */
  predicate Fits(ops: seq<Op>, max: nat) {
    ops == [] ||
    var most, op := ops[..|ops| - 1], ops[|ops| - 1];
    && Fits(most, max)
    && (op.Vertices? ==> |op.bytes| <= max)
    && (op.Indices? ==> |Packed(most, max).1.indices| + |op.bytes| <= INIT_INDEX_BUFFER_SIZE)
  }

  lemma {:induction false} FitsPrefix(ops: seq<Op>, i: nat, max: nat)
    requires i < |ops| && Fits(ops, max)
    ensures Fits(ops[..i + 1], max)
  {
    if i + 1 < |ops| {
      FitsPrefix(ops[..|ops| - 1], i, max);
      assert ops[..|ops| - 1][..i + 1] == ops[..i + 1];
    } else {
      assert ops[..i + 1] == ops;
    }
  }

  lemma {:induction false} FitsParts(ops: seq<Op>, max: nat)
    requires Fits(ops, max)
    ensures forall k :: 0 <= k < |ops| && ops[k].Vertices? ==> |ops[k].bytes| <= max
    ensures var (done, last) := Packed(ops, max);
      && |last.indices| <= INIT_INDEX_BUFFER_SIZE
      && forall k :: 0 <= k < |done| ==> |done[k].indices| <= INIT_INDEX_BUFFER_SIZE
  {
    if ops != [] {
      FitsParts(ops[..|ops| - 1], max);
    }
  }

  // ---- Chunks ----

  /** An IOTypedArray: a chunk of a fixed capacity that takes all of what is uploaded or nothing. */
  datatype Chunk = Chunk(capacity: nat, data: seq<Byte>)
  {
    function Uploaded(bytes: seq<Byte>): (c: Chunk)
      ensures c.capacity == capacity
      ensures c.data == bytes <==> |bytes| <= capacity || bytes == []
    {
      if |bytes| <= capacity then Chunk(capacity, bytes) else Chunk(capacity, [])
    }
  }

  /** Every chunk can take `size` bytes. */
  predicate Wide(chunks: seq<Chunk>, size: nat) {
    forall k :: 0 <= k < |chunks| ==> chunks[k].capacity >= size
  }

  function DataAt(chunks: seq<Chunk>, k: nat): seq<Byte> {
    if k < |chunks| then chunks[k].data else []
  }

  /** The chunks after an upload to position `k`: an empty one leaves the chunk as it was. */
  function UploadedAt(chunks: seq<Chunk>, k: nat, bytes: seq<Byte>): seq<Chunk>
    requires k < |chunks|
  {
    if bytes == [] then chunks else chunks[k := chunks[k].Uploaded(bytes)]
  }

  /** The chunks with one at position `k`. */
  function Extended(chunks: seq<Chunk>, k: nat, capacity: nat): seq<Chunk> {
    if k < |chunks| then chunks else chunks + [Chunk(capacity, [])]
  }

  /** The first chunks hold `parts`, or nothing where a part is too large, the others what they held before. */
  ghost predicate Stored(chunks: seq<Chunk>, before: seq<Chunk>, parts: seq<seq<Byte>>) {
    && |before| <= |chunks| && |parts| <= |chunks|
    && (forall k :: 0 <= k < |before| ==> chunks[k].capacity == before[k].capacity)
    && (forall k :: 0 <= k < |chunks| ==>
          chunks[k].data == if k >= |parts| || parts[k] == [] then DataAt(before, k)
                            else if |parts[k]| <= chunks[k].capacity then parts[k] else [])
  }

  lemma StoredMore(chunks: seq<Chunk>, before: seq<Chunk>, parts: seq<seq<Byte>>, part: seq<Byte>)
    requires Stored(chunks, before, parts) && |parts| < |chunks|
    ensures Stored(UploadedAt(chunks, |parts|, part), before, parts + [part])
  {}

  lemma StoredExtended(chunks: seq<Chunk>, before: seq<Chunk>, parts: seq<seq<Byte>>, capacity: nat)
    requires Stored(chunks, before, parts)
    ensures Stored(Extended(chunks, |parts|, capacity), before, parts)
  {}

  /** Every part fits its chunk, and where there is none, nothing older is left. */
  predicate Intact(chunks: seq<Chunk>, before: seq<Chunk>, parts: seq<seq<Byte>>)
    requires |parts| <= |chunks|
  {
    forall k :: 0 <= k < |parts| ==>
      if parts[k] == [] then DataAt(before, k) == [] else |parts[k]| <= chunks[k].capacity
  }

  /** What the first `n` chunks hold. */
  function DataOf(chunks: seq<Chunk>, n: nat): (r: seq<seq<Byte>>)
    requires n <= |chunks|
    ensures |r| == n && forall k :: 0 <= k < n ==> r[k] == chunks[k].data
  {
    seq(n, i requires 0 <= i < n => chunks[i].data)
  }

  function JoinData(chunks: seq<Chunk>, n: nat): seq<Byte>
    requires n <= |chunks|
  {
    Join(DataOf(chunks, n))
  }

  lemma {:induction false} JoinGrows(a: seq<seq<Byte>>, b: seq<seq<Byte>>)
    requires |a| == |b| && forall k :: 0 <= k < |a| ==> |a[k]| <= |b[k]|
    ensures |Join(a)| <= |Join(b)|
    ensures |Join(a)| == |Join(b)| ==> forall k :: 0 <= k < |a| ==> |a[k]| == |b[k]|
  {
    if a != [] {
      JoinGrows(a[..|a| - 1], b[..|b| - 1]);
      assert forall k :: 0 <= k < |a| - 1 ==> a[..|a| - 1][k] == a[k] && b[..|b| - 1][k] == b[k];
    }
  }

  lemma IntactJoins(chunks: seq<Chunk>, before: seq<Chunk>, parts: seq<seq<Byte>>)
    requires Stored(chunks, before, parts) && Intact(chunks, before, parts)
    ensures JoinData(chunks, |parts|) == Join(parts)
  {
    assert DataOf(chunks, |parts|) == parts;
  }

  /** Where every part fits, what is joined can only be longer than the parts. */
  lemma StaleShows(chunks: seq<Chunk>, before: seq<Chunk>, parts: seq<seq<Byte>>)
    requires Stored(chunks, before, parts) && forall k :: 0 <= k < |parts| ==> |parts[k]| <= chunks[k].capacity
    requires JoinData(chunks, |parts|) == Join(parts)
    ensures Intact(chunks, before, parts)
  {
    JoinGrows(parts, DataOf(chunks, |parts|));
  }

  /** Where no part is empty, what is joined can only be shorter. */
  lemma LossShows(chunks: seq<Chunk>, before: seq<Chunk>, parts: seq<seq<Byte>>)
    requires Stored(chunks, before, parts) && forall k :: 0 <= k < |parts| ==> parts[k] != []
    requires JoinData(chunks, |parts|) == Join(parts)
    ensures Intact(chunks, before, parts)
  {
    JoinGrows(DataOf(chunks, |parts|), parts);
  }

  lemma OnlyPart(chunks: seq<Chunk>, before: seq<Chunk>)
    requires Stored(chunks, before, [[]])
    ensures JoinData(chunks, 1) == Join([[]]) <==> Intact(chunks, before, [[]])
  {
    assert DataOf(chunks, 1) == [chunks[0].data];
    JoinOne(chunks[0].data);
    JoinOne([]);
  }

  /**
   * The vertex chunks of a frame joined are the vertices written, in order, exactly if each segment fits
   * its chunk, or nothing was written and no earlier frame has left something in the first chunk.
   */
  lemma VertexStream(ops: seq<Op>, max: nat, chunks: seq<Chunk>, before: seq<Chunk>)
    requires Fits(ops, max)
    requires var (segments, last) := Packed(ops, max); Stored(chunks, before, VerticesOf(segments + [last]))
    ensures var (segments, last) := Packed(ops, max);
      JoinData(chunks, |segments| + 1) == AllVertices(ops) <==> Intact(chunks, before, VerticesOf(segments + [last]))
  {
    var (segments, last) := Packed(ops, max);
    var parts := VerticesOf(segments + [last]);
    FitsParts(ops, max);
    PackedLosesNothing(ops, max);
    PartsMore(segments, last);
    JoinMore(VerticesOf(segments), last.vertices);
    if Intact(chunks, before, parts) {
      IntactJoins(chunks, before, parts);
    } else if last.vertices == [] {
      assert parts == [[]];
      OnlyPart(chunks, before);
    } else if JoinData(chunks, |parts|) == Join(parts) {
      LossShows(chunks, before, parts);
    }
  }

  /** The index chunks of a frame joined are the indices written, under the same condition. */
  lemma IndexStream(ops: seq<Op>, max: nat, chunks: seq<Chunk>, before: seq<Chunk>)
    requires Fits(ops, max) && Wide(chunks, INIT_INDEX_BUFFER_SIZE)
    requires var (segments, last) := Packed(ops, max); Stored(chunks, before, IndicesOf(segments + [last]))
    ensures var (segments, last) := Packed(ops, max);
      JoinData(chunks, |segments| + 1) == AllIndices(ops) <==> Intact(chunks, before, IndicesOf(segments + [last]))
  {
    var (segments, last) := Packed(ops, max);
    var parts := IndicesOf(segments + [last]);
    FitsParts(ops, max);
    PackedLosesNothing(ops, max);
    PartsMore(segments, last);
    JoinMore(IndicesOf(segments), last.indices);
    if Intact(chunks, before, parts) {
      IntactJoins(chunks, before, parts);
    } else if JoinData(chunks, |parts|) == Join(parts) {
      StaleShows(chunks, before, parts);
    }
  }

  /** With chunks that are large enough, only a frame that writes no vertices can leave older ones behind. */
  lemma VerticesIntact(ops: seq<Op>, max: nat, chunks: seq<Chunk>, before: seq<Chunk>)
    requires Fits(ops, max) && Wide(chunks, max)
    requires |Packed(ops, max).0| < |chunks|
    ensures var (segments, last) := Packed(ops, max);
      Intact(chunks, before, VerticesOf(segments + [last])) <==> AllVertices(ops) != [] || DataAt(before, 0) == []
  {
    var (segments, last) := Packed(ops, max);
    FitsParts(ops, max);
    PackedLosesNothing(ops, max);
    PartsMore(segments, last);
    if last.vertices == [] {
      assert VerticesOf(segments + [last])[0] == last.vertices;
    }
  }

  /** What a frame of `ops` leaves in the chunks, up to position `pos`, which were `vbWas` and `ibWas` before it. */
  ghost predicate Rendered(ops: seq<Op>, max: nat, pos: nat, vbArr: seq<Chunk>, vbWas: seq<Chunk>,
                           ibArr: seq<Chunk>, ibWas: seq<Chunk>)
  {
    var (segments, last) := Packed(ops, max);
    && pos == |segments| < |vbArr| && pos < |ibArr|
    && Stored(vbArr, vbWas, VerticesOf(segments + [last]))
    && Stored(ibArr, ibWas, IndicesOf(segments + [last]))
    && (JoinData(vbArr, pos + 1) == AllVertices(ops) <==> Intact(vbArr, vbWas, VerticesOf(segments + [last])))
    && (JoinData(ibArr, pos + 1) == AllIndices(ops) <==> Intact(ibArr, ibWas, IndicesOf(segments + [last])))
    && (Wide(vbArr, max) ==>
          (JoinData(vbArr, pos + 1) == AllVertices(ops) <==> AllVertices(ops) != [] || DataAt(vbWas, 0) == []))
  }

  lemma FrameRendered(ops: seq<Op>, max: nat, pos: nat, vbArr: seq<Chunk>, vbWas: seq<Chunk>,
                      ibArr: seq<Chunk>, ibWas: seq<Chunk>)
    requires Fits(ops, max) && Wide(ibArr, INIT_INDEX_BUFFER_SIZE)
    requires var (segments, last) := Packed(ops, max);
      && pos == |segments| && Stored(vbArr, vbWas, VerticesOf(segments + [last]))
      && Stored(ibArr, ibWas, IndicesOf(segments + [last]))
    ensures Rendered(ops, max, pos, vbArr, vbWas, ibArr, ibWas)
  {
    VertexStream(ops, max, vbArr, vbWas);
    IndexStream(ops, max, ibArr, ibWas);
    if Wide(vbArr, max) {
      VerticesIntact(ops, max, vbArr, vbWas);
    }
  }

  class MeshBuffer {
    const vertexFormat: nat
    const vb: IOBuffer
    const ib: IOBuffer
    var vbArr: seq<Chunk>
    var ibArr: seq<Chunk>
    var bufferPos: nat
    ghost var done: seq<Segment>       // what has been flushed since `reset`
    ghost var vbBefore: seq<Chunk>     // the chunks as `reset` found them
    ghost var ibBefore: seq<Chunk>

    ghost function MaxSize(): nat
      reads this
    {
      MAX_VERTEX_BUFFER_SIZE * vertexFormat * SIZE_OF_FLOAT
    }

    ghost predicate Shape()
      reads this, vb, ib
    {
      && vb != ib && vb.buffer != ib.buffer && vb.Valid() && ib.Valid()
      && vertexFormat > 0 && vb.maxSize == MaxSize() && ib.maxSize == INIT_INDEX_BUFFER_SIZE
      && |vbArr| == |ibArr| > bufferPos
    }

    /** The index buffers are at least as large as a default mesh makes them. */
    ghost predicate Ready()
      reads this, vb, ib
    {
      && Shape()
      && vb.curPos <= vb.maxSize && !vb.outRange
      && ib.curPos <= ib.maxSize <= ib.buffer.Length && !ib.outRange
      && Wide(ibArr, ib.maxSize)
    }

    /** The vertex buffers are, too. */
    ghost predicate Roomy()
      reads this, vb
    {
      vb.maxSize <= vb.buffer.Length && Wide(vbArr, vb.maxSize)
    }

    /** The segment that waits in the staging buffers. */
    ghost function Last(): Segment
      requires Shape()
      reads this, vb, ib, vb.buffer, ib.buffer
    {
      Segment(vb.Contents(), ib.Contents())
    }

    /** The chunks hold what was flushed since `reset`. */
    ghost predicate Valid()
      reads this, vb, ib
    {
      && Ready() && bufferPos == |done|
      && Stored(vbArr, vbBefore, VerticesOf(done))
      && Stored(ibArr, ibBefore, IndicesOf(done))
    }

    constructor (vertexFormat: nat, indexSize: nat, vertexSize: nat)
      requires vertexFormat > 0
      ensures Shape() && bufferPos == 0 && Last() == Segment([], [])
      ensures fresh(vb) && fresh(ib) && fresh(vb.buffer) && fresh(ib.buffer)
      ensures this.vertexFormat == vertexFormat
      ensures vb.buffer.Length == vertexSize * vertexFormat * SIZE_OF_FLOAT && ib.buffer.Length == indexSize
      ensures vbArr == [Chunk(vb.buffer.Length, [])] && ibArr == [Chunk(indexSize, [])]
      ensures done == [] && vbBefore == vbArr && ibBefore == ibArr
      ensures indexSize >= INIT_INDEX_BUFFER_SIZE ==> Valid()
      ensures vertexSize >= MAX_VERTEX_BUFFER_SIZE ==> Roomy()
    {
      this.vertexFormat := vertexFormat;
      vb := new IOBuffer(vertexSize * vertexFormat * SIZE_OF_FLOAT);
      ib := new IOBuffer(indexSize);
      vbArr := [Chunk(vertexSize * vertexFormat * SIZE_OF_FLOAT, [])];
      ibArr := [Chunk(indexSize, [])];
      bufferPos := 0;
      done, vbBefore, ibBefore := [], vbArr, ibArr;
      new;
      vb.maxSize := MAX_VERTEX_BUFFER_SIZE * vertexFormat * SIZE_OF_FLOAT;
      ib.maxSize := INIT_INDEX_BUFFER_SIZE;
      if vertexSize >= MAX_VERTEX_BUFFER_SIZE {
        assert vertexSize * vertexFormat >= MAX_VERTEX_BUFFER_SIZE * vertexFormat;
      }
    }

    method UploadVB()
      requires Shape()
      modifies this`vbArr
      ensures Shape() && vbArr == UploadedAt(old(vbArr), bufferPos, vb.Contents())
    {
      if vb.curPos == 0 {
        return;
      }
      vbArr := vbArr[bufferPos := vbArr[bufferPos].Uploaded(vb.buffer[..vb.curPos])];
    }

    method UploadIB()
      requires Shape()
      modifies this`ibArr
      ensures Shape() && ibArr == UploadedAt(old(ibArr), bufferPos, ib.Contents())
    {
      if ib.curPos == 0 {
        return;
      }
      ibArr := ibArr[bufferPos := ibArr[bufferPos].Uploaded(ib.buffer[..ib.curPos])];
    }

    method Next()
      requires Shape()
      modifies this`bufferPos, this`vbArr, this`ibArr
      ensures Shape() && bufferPos == old(bufferPos) + 1
      ensures vbArr == Extended(old(vbArr), bufferPos, vb.buffer.Length)
      ensures ibArr == Extended(old(ibArr), bufferPos, ib.buffer.Length)
      ensures old(|vbArr|) <= bufferPos ==> vbArr == old(vbArr) + [Chunk(vb.buffer.Length, [])]
      ensures old(|ibArr|) <= bufferPos ==> ibArr == old(ibArr) + [Chunk(ib.buffer.Length, [])]
    {
      bufferPos := bufferPos + 1;
      if |ibArr| <= bufferPos {
        ibArr := ibArr + [Chunk(ib.buffer.Length, [])];
      }
      if |vbArr| <= bufferPos {
        vbArr := vbArr + [Chunk(vb.buffer.Length, [])];
      }
    }

    method Reset()
      requires Shape()
      modifies this`bufferPos, this`done, this`vbBefore, this`ibBefore, vb`curPos, ib`curPos
      ensures Shape() && bufferPos == 0 && Last() == Segment([], [])
      ensures done == [] && vbBefore == vbArr && ibBefore == ibArr
      ensures old(Ready()) ==> Valid()
    {
      bufferPos := 0;
      vb.Reset();
      ib.Reset();
      done, vbBefore, ibBefore := [], vbArr, ibArr;
    }

    /** Both staging buffers to the current chunks. */
    method Upload()
      requires Valid()
      modifies this`vbArr, this`ibArr
      ensures Ready() && Last() == old(Last())
      ensures Stored(vbArr, vbBefore, VerticesOf(done + [Last()]))
      ensures Stored(ibArr, ibBefore, IndicesOf(done + [Last()]))
      ensures old(Roomy()) ==> Roomy()
    {
      ghost var last := Last();
      StoredMore(vbArr, vbBefore, VerticesOf(done), last.vertices);
      StoredMore(ibArr, ibBefore, IndicesOf(done), last.indices);
      PartsMore(done, last);
      UploadVB();
      UploadIB();
    }

    /** The callback of a full vertex buffer. */
    method Flush()
      requires Valid() && vb.curPos > 0
      modifies this`bufferPos, this`vbArr, this`ibArr, this`done, vb`curPos, ib`curPos
      ensures Valid() && done == old(done) + [old(Last())] && Last() == Segment([], [])
      ensures vbBefore == old(vbBefore) && ibBefore == old(ibBefore) && (old(Roomy()) ==> Roomy())
    {
      ghost var last := Last();
      Upload();
      vb.Reset();
      ib.Reset();
      done := done + [last];
      StoredExtended(vbArr, vbBefore, VerticesOf(done), vb.buffer.Length);
      StoredExtended(ibArr, ibBefore, IndicesOf(done), ib.buffer.Length);
      Next();
    }

    /** `checkSpace` of the vertex buffer, whose needed length is computed before the callback. */
    method CheckVertexSpace(needSize: nat, needCopy: bool) returns (isFull: bool)
      requires Valid() && needSize <= vb.maxSize && (needCopy || Roomy())
      modifies this`bufferPos, this`vbArr, this`ibArr, this`done, vb, ib`curPos
      ensures Valid() && (vb.buffer == old(vb.buffer) || fresh(vb.buffer))
      ensures vbBefore == old(vbBefore) && ibBefore == old(ibBefore) && (old(Roomy()) ==> Roomy())
      ensures isFull <==> |old(Last()).vertices| + needSize > vb.maxSize
      ensures vb.curPos + needSize <= vb.maxSize && vb.curPos + needSize <= vb.buffer.Length
      ensures done == if isFull then old(done) + [old(Last())] else old(done)
      ensures Last() == if isFull then Segment([], []) else old(Last())
    {
      var needLen := vb.curPos + needSize;
      isFull := vb.maxSize > 0 && needLen > vb.maxSize;
      if isFull {
        Flush();
        vb.curPos := 0;
      }
      vb.Grow(needLen, needCopy);
    }

    /** One write. Without `needCopy`, a buffer that grows would lose what is staged. */
    method Draw(op: Op, needCopy: bool)
      requires Valid() && (needCopy || Roomy())
      requires op.Vertices? ==> |op.bytes| <= vb.maxSize
      requires op.Indices? ==> |Last().indices| + |op.bytes| <= ib.maxSize
      modifies this`bufferPos, this`vbArr, this`ibArr, this`done, vb, ib, vb.buffer, ib.buffer
      ensures Valid() && (vb.buffer == old(vb.buffer) || fresh(vb.buffer)) && ib.buffer == old(ib.buffer)
      ensures vbBefore == old(vbBefore) && ibBefore == old(ibBefore) && (old(Roomy()) ==> Roomy())
      ensures (done, Last()) == AddOp(old(done), old(Last()), op, vb.maxSize)
    {
      match op
      case Vertices(bytes) =>
        var isFull := CheckVertexSpace(|bytes|, needCopy);
        vb.WriteBytes(bytes);
        assert [] + bytes == bytes;
      case Indices(bytes) =>
        var isFull := ib.CheckSpace(|bytes|, needCopy);
        ib.WriteBytes(bytes);
    }

    method FinishFrame(ghost ops: seq<Op>)
      requires Valid() && (done, Last()) == Packed(ops, vb.maxSize) && Fits(ops, vb.maxSize)
      modifies this`vbArr, this`ibArr
      ensures Ready() && (old(Roomy()) ==> Roomy())
      ensures Rendered(ops, vb.maxSize, bufferPos, vbArr, vbBefore, ibArr, ibBefore)
    {
      Upload();
      FrameRendered(ops, vb.maxSize, bufferPos, vbArr, vbBefore, ibArr, ibBefore);
    }

    /**
     * One frame: everything drawn after a `reset`, then the last segment uploaded. The chunks hold the
     * packed segments, and joined they are the bytes written exactly if each segment fits its chunk, and no
     * older one is left where there is none. In a mesh of at least the default size each one fits.
     */
    method RenderFrame(ops: seq<Op>, needCopy: bool)
      requires Ready() && Fits(ops, vb.maxSize) && (needCopy || Roomy())
      modifies this, vb, ib, vb.buffer, ib.buffer
      ensures Ready() && vb.maxSize == old(vb.maxSize) && (old(Roomy()) ==> Roomy())
      ensures Rendered(ops, vb.maxSize, bufferPos, vbArr, old(vbArr), ibArr, old(ibArr))
    {
      Reset();
      assert ops[..0] == [];
      for i := 0 to |ops|
        invariant Valid() && vb.maxSize == old(vb.maxSize) && ib.buffer == old(ib.buffer)
        invariant vb.buffer == old(vb.buffer) || fresh(vb.buffer)
        invariant vbBefore == old(vbArr) && ibBefore == old(ibArr) && (old(Roomy()) ==> Roomy())
        invariant (done, Last()) == Packed(ops[..i], vb.maxSize)
      {
        assert ops[..i + 1][..i] == ops[..i];
        FitsPrefix(ops, i, vb.maxSize);
        Draw(ops[i], needCopy);
      }
      assert ops[..|ops|] == ops;
      FinishFrame(ops);
    }
  }

  /**
   * A mesh made with another vertex size stages up to the same maximum, but its first chunk takes
   * an upload exactly if it is not larger than that size.
   */
  method UploadOfFirstWrite(vertexFormat: nat, vertexSize: nat, bytes: seq<Byte>) returns (uploaded: seq<Byte>)
    requires vertexFormat > 0 && 0 < |bytes| <= MAX_VERTEX_BUFFER_SIZE * vertexFormat * SIZE_OF_FLOAT
    ensures uploaded == if |bytes| <= vertexSize * vertexFormat * SIZE_OF_FLOAT then bytes else []
  {
    var mesh := new MeshBuffer(vertexFormat, INIT_INDEX_BUFFER_SIZE, vertexSize);
    mesh.vb.Grow(|bytes|, true);
    mesh.vb.WriteBytes(bytes);
    assert mesh.vb.Contents() == bytes;
    mesh.UploadVB();
    uploaded := mesh.vbArr[0].data;
  }
}
