/**
 DMA segment lists. A mapped scatterlist is stored in pages of at most 32
 elements; a submission names one page and a byte range inside it. The flat
 list of DMA byte addresses is the reference the pages are compared with.
 */
module SegmentLists {
  import opened Prelude

  // bridgeOS rejects a descriptor page after 32 elements; a 4 KiB page would hold 254.
  const MAX_ELEMENTS: nat := 32
  // One past the largest size_t.
  const SIZE_LIMIT: int := 0x1_0000_0000_0000_0000

  datatype Segment = Segment(addr: nat, len: nat)
  datatype Chunk = Chunk(elements: seq<Segment>, dmaAddr: nat, dataOffset: nat, dataSize: nat)
  datatype SegmentList = SegmentList(chunks: seq<Chunk>, dataSize: nat)

  /** What one ring element asks the device to transfer. */
  datatype Submission =
    | Single(addr: nat, size: nat)
    | Range(page: Chunk, offset: nat, length: nat)

  // ---------------------------------------------------------------- reference

  function Bytes(addr: nat, len: nat): (b: seq<nat>)
    ensures |b| == len
  {
    seq(len, i requires 0 <= i => addr + i)
  }

  /** The DMA byte addresses of a segment sequence, in transfer order. */
  function Flat(segments: seq<Segment>): seq<nat> {
    if segments == [] then []
    else Flat(segments[..|segments| - 1]) + Bytes(segments[|segments| - 1].addr, segments[|segments| - 1].len)
  }

  function Total(segments: seq<Segment>): nat {
    if segments == [] then 0
    else Total(segments[..|segments| - 1]) + segments[|segments| - 1].len
  }

  /** The bytes the device moves for a submission. */
  function SubmissionBytes(sub: Submission): seq<nat> {
    match sub
    case Single(addr, size) => Bytes(addr, size)
    case Range(page, offset, length) =>
      var flat := Flat(page.elements);
      if offset + length <= |flat| then flat[offset..offset + length] else []
  }

  lemma {:induction false} FlatLength(segments: seq<Segment>)
    ensures |Flat(segments)| == Total(segments)
  {
    if segments != [] {
      FlatLength(segments[..|segments| - 1]);
    }
  }

  lemma {:induction false} FlatConcat(a: seq<Segment>, b: seq<Segment>)
    ensures Flat(a + b) == Flat(a) + Flat(b)
    ensures Total(a + b) == Total(a) + Total(b)
    decreases |b|
  {
    if b == [] {
      assert a + b == a;
    } else {
      var init := b[..|b| - 1];
      assert (a + b)[..|a + b| - 1] == a + init;
      FlatConcat(a, init);
      assert Flat(a + b) == (Flat(a) + Flat(init)) + Bytes(b[|b| - 1].addr, b[|b| - 1].len);
    }
  }

  // ------------------------------------------------------------- construction

  function ChunkCount(n: nat): nat {
    (n + MAX_ELEMENTS - 1) / MAX_ELEMENTS
  }

  function ChunkStart(c: nat): nat {
    c * MAX_ELEMENTS
  }

  function ChunkEnd(c: nat, n: nat): nat {
    Min(ChunkStart(c) + MAX_ELEMENTS, n)
  }

  /** What stops the construction at segment i, if anything; `pool(c)` is the page allocated for chunk c. */
  function Fault(sgl: seq<Segment>, pool: nat -> Option<nat>, i: nat): Option<int>
    requires i < |sgl|
  {
    if i % MAX_ELEMENTS == 0 && pool(i / MAX_ELEMENTS).None? then Some(ENOMEM)
    else if sgl[i].len == 0 then Some(EINVAL)
    else if Total(sgl[..i + 1]) >= SIZE_LIMIT then Some(EOVERFLOW)
    else None
  }

  /** None of the first n segments stops the construction. */
  ghost predicate Clean(sgl: seq<Segment>, pool: nat -> Option<nat>, n: nat)
    requires n <= |sgl|
  {
    forall i :: 0 <= i < n ==> Fault(sgl, pool, i).None?
  }

  /** Segment i is the first that stops the construction, and it does so with this error. */
  ghost predicate FirstFault(sgl: seq<Segment>, pool: nat -> Option<nat>, i: nat, error: int) {
    i < |sgl| && Clean(sgl, pool, i) && Fault(sgl, pool, i) == Some(error)
  }

  /** Chunk c holds exactly its 32-element slice of the first n segments. */
  ghost predicate ChunkHolds(chunk: Chunk, c: nat, sgl: seq<Segment>, n: nat)
    requires n <= |sgl|
  {
    && ChunkStart(c) < n
    && chunk.elements == sgl[ChunkStart(c)..ChunkEnd(c, n)]
    && chunk.dataOffset == Total(sgl[..ChunkStart(c)])
    && chunk.dataSize == Total(chunk.elements)
  }

  ghost predicate Represents(list: SegmentList, sgl: seq<Segment>) {
    && |list.chunks| == ChunkCount(|sgl|)
    && list.dataSize == Total(sgl)
    && forall c :: 0 <= c < |list.chunks| ==> ChunkHolds(list.chunks[c], c, sgl, |sgl|)
  }

  lemma ChunkIndex(i: nat)
    ensures ChunkStart(i / MAX_ELEMENTS) <= i < ChunkStart(i / MAX_ELEMENTS) + MAX_ELEMENTS
    ensures i % MAX_ELEMENTS == i - ChunkStart(i / MAX_ELEMENTS)
  {
  }

  lemma TotalMonotone(sgl: seq<Segment>, i: nat, j: nat)
    requires i <= j <= |sgl|
    ensures Total(sgl[..j]) == Total(sgl[..i]) + Total(sgl[i..j])
  {
    assert sgl[..j] == sgl[..i] + sgl[i..j];
    FlatConcat(sgl[..i], sgl[i..j]);
  }

  /** The chunks begun so far hold the first i segments, each in the page the pool gave for it. */
  ghost predicate Built(chunks: seq<Chunk>, sgl: seq<Segment>, pool: nat -> Option<nat>, i: nat)
    requires i <= |sgl|
  {
    && |chunks| == ChunkCount(|sgl|)
    && forall c :: 0 <= c < |chunks| && ChunkStart(c) < i ==>
         ChunkHolds(chunks[c], c, sgl, i) && pool(c) == Some(chunks[c].dmaAddr)
  }

  lemma BuiltStep(chunks: seq<Chunk>, placed: Chunk, sgl: seq<Segment>, pool: nat -> Option<nat>, i: nat)
    requires i < |sgl| && Built(chunks, sgl, pool, i)
    requires i / MAX_ELEMENTS < |chunks| && ChunkHolds(placed, i / MAX_ELEMENTS, sgl, i + 1)
    requires pool(i / MAX_ELEMENTS) == Some(placed.dmaAddr)
    ensures Built(chunks[i / MAX_ELEMENTS := placed], sgl, pool, i + 1)
  {
    EarlierChunks(i, |sgl|);
  }

  /** One pass of the construction loop: puts segment i into its chunk, or reports its fault. */
  method PlaceSegment(chunk: Chunk, dataSize: nat, sgl: seq<Segment>, i: nat, pool: nat -> Option<nat>)
    returns (r: Result<Chunk>)
    requires i < |sgl| && dataSize == Total(sgl[..i])
    requires i % MAX_ELEMENTS != 0 ==> ChunkHolds(chunk, i / MAX_ELEMENTS, sgl, i)
    ensures r.Err? ==> Fault(sgl, pool, i) == Some(r.error)
    ensures r.Ok? ==> Fault(sgl, pool, i).None? && ChunkHolds(r.value, i / MAX_ELEMENTS, sgl, i + 1)
    ensures r.Ok? ==> Some(r.value.dmaAddr) == if i % MAX_ELEMENTS == 0 then pool(i / MAX_ELEMENTS) else Some(chunk.dmaAddr)
  {
    var c := chunk;
    ghost var first := ChunkStart(i / MAX_ELEMENTS);
    ChunkIndex(i);
    if i % MAX_ELEMENTS == 0 {
      var page := pool(i / MAX_ELEMENTS);
      if page.None? {
        return Err(ENOMEM);
      }
      c := Chunk([], page.value, dataSize, 0);
    }
    assert c.elements == sgl[first..i];
    if sgl[i].len == 0 {
      return Err(EINVAL);
    }
    TotalMonotone(sgl, first, i);
    assert sgl[..i + 1] == sgl[..i] + [sgl[i]];
    if c.dataSize + sgl[i].len >= SIZE_LIMIT || dataSize + sgl[i].len >= SIZE_LIMIT {
      return Err(EOVERFLOW);
    }
    ghost var before := c;
    c := c.(dataSize := c.dataSize + sgl[i].len, elements := c.elements + [sgl[i]]);
    Appended(before, c, i / MAX_ELEMENTS, sgl, i);
    r := Ok(c);
  }

  /** Builds the descriptor pages of a mapped scatterlist, or reports the first fault. */
  method CreateSegmentList(poolReady: bool, sgl: seq<Segment>, listAllocated: bool, pool: nat -> Option<nat>)
    returns (r: Result<SegmentList>)
    ensures r.Ok? <==> poolReady && sgl != [] && listAllocated && Clean(sgl, pool, |sgl|)
    ensures r.Ok? ==> Represents(r.value, sgl)
    ensures r.Ok? ==> forall c :: 0 <= c < |r.value.chunks| ==> pool(c) == Some(r.value.chunks[c].dmaAddr)
    ensures !poolReady || sgl == [] ==> r == Err(EINVAL)
    ensures poolReady && sgl != [] && !listAllocated ==> r == Err(ENOMEM)
    ensures poolReady && sgl != [] && listAllocated && r.Err? ==>
              exists i: nat :: FirstFault(sgl, pool, i, r.error)
  {
    if !poolReady || sgl == [] {
      return Err(EINVAL);
    }
    if !listAllocated {
      return Err(ENOMEM);
    }
    var chunks := new Chunk[ChunkCount(|sgl|)](_ => Chunk([], 0, 0, 0));
    var dataSize := 0;
    for i := 0 to |sgl|
      invariant dataSize == Total(sgl[..i])
      invariant Clean(sgl, pool, i)
      invariant Built(chunks[..], sgl, pool, i)
    {
      var c := i / MAX_ELEMENTS;
      EarlierChunks(i, |sgl|);
      ChunkIndex(i);
      var placed := PlaceSegment(chunks[c], dataSize, sgl, i, pool);
      if placed.Err? {
        assert FirstFault(sgl, pool, i, placed.error);
        return Err(placed.error);
      }
      assert sgl[..i + 1][..i] == sgl[..i];
      StillClean(sgl, pool, i);
      BuiltStep(chunks[..], placed.value, sgl, pool, i);
      chunks[c] := placed.value;
      dataSize := dataSize + sgl[i].len;
    }
    assert sgl[..|sgl|] == sgl;
    r := Ok(SegmentList(chunks[..], dataSize));
  }

  lemma StillClean(sgl: seq<Segment>, pool: nat -> Option<nat>, i: nat)
    requires i < |sgl| && Clean(sgl, pool, i) && Fault(sgl, pool, i).None?
    ensures Clean(sgl, pool, i + 1)
  {
  }

  /** Chunks begun before segment i's chunk are full, so one more segment does not change them. */
  lemma EarlierChunks(i: nat, n: nat)
    requires i < n
    ensures forall c: nat :: ChunkStart(c) < i && c != i / MAX_ELEMENTS ==> ChunkEnd(c, i) == ChunkEnd(c, i + 1)
    ensures forall c: nat :: ChunkStart(c) < i + 1 ==> c == i / MAX_ELEMENTS || ChunkStart(c) < i
    ensures i / MAX_ELEMENTS < ChunkCount(n)
  {
  }

  /** Appending segment i to its chunk extends what the chunk holds. */
  lemma Appended(before: Chunk, after: Chunk, c: nat, sgl: seq<Segment>, i: nat)
    requires i < |sgl| && c == i / MAX_ELEMENTS
    requires before.elements == sgl[ChunkStart(c)..i] && before.dataSize == Total(before.elements)
    requires before.dataOffset == Total(sgl[..ChunkStart(c)])
    requires after == before.(elements := before.elements + [sgl[i]], dataSize := before.dataSize + sgl[i].len)
    ensures ChunkHolds(after, c, sgl, i + 1)
  {
    ChunkIndex(i);
    assert sgl[ChunkStart(c)..i + 1] == sgl[ChunkStart(c)..i] + [sgl[i]];
    FlatConcat(before.elements, [sgl[i]]);
    assert Total([sgl[i]]) == sgl[i].len;
  }

  // --------------------------------------------------------------- refinement

  /** The bytes of consecutive chunks, in order. */
  function FlatChunks(chunks: seq<Chunk>): seq<nat> {
    if chunks == [] then []
    else FlatChunks(chunks[..|chunks| - 1]) + Flat(chunks[|chunks| - 1].elements)
  }

  function Limit(chunk: Chunk): nat {
    chunk.dataOffset + chunk.dataSize
  }

  ghost predicate Follows(chunks: seq<Chunk>, c: nat)
    requires c < |chunks|
  {
    chunks[c].dataOffset == if c == 0 then 0 else Limit(chunks[c - 1])
  }

  /** Chunks of 1 to 32 elements whose ranges follow each other from 0 without gap or overlap up to `end`. */
  ghost predicate Consecutive(chunks: seq<Chunk>, end: nat) {
    && (forall c :: 0 <= c < |chunks| ==> 1 <= |chunks[c].elements| <= MAX_ELEMENTS)
    && (forall c :: 0 <= c < |chunks| ==> 0 < chunks[c].dataSize == Total(chunks[c].elements))
    && (forall c :: 0 <= c < |chunks| ==> Follows(chunks, c))
    && end == if chunks == [] then 0 else Limit(chunks[|chunks| - 1])
  }

  ghost predicate ListOk(list: SegmentList) {
    Consecutive(list.chunks, list.dataSize)
  }

  function ListBytes(list: SegmentList): seq<nat> {
    FlatChunks(list.chunks)
  }

  /** The flat stream up to segment n is the flat streams of the chunks that cover it. */
  lemma {:induction false} ChunksCover(list: SegmentList, sgl: seq<Segment>, k: nat)
    requires Represents(list, sgl) && k <= |list.chunks|
    ensures FlatChunks(list.chunks[..k]) == Flat(sgl[..Min(ChunkStart(k), |sgl|)])
  {
    if k == 0 {
      assert sgl[..0] == [] && list.chunks[..0] == [];
    } else {
      var lo, hi := ChunkStart(k - 1), ChunkEnd(k - 1, |sgl|);
      assert ChunkHolds(list.chunks[k - 1], k - 1, sgl, |sgl|);
      assert Min(ChunkStart(k - 1), |sgl|) == lo && Min(ChunkStart(k), |sgl|) == hi;
      assert list.chunks[k - 1].elements == sgl[lo..hi];
      hide Flat, FlatChunks, ChunkHolds;
      ChunksCover(list, sgl, k - 1);
      OneMoreChunk(list.chunks, sgl, k, lo, hi);
    }
  }

  lemma OneMoreChunk(chunks: seq<Chunk>, sgl: seq<Segment>, k: nat, lo: nat, hi: nat)
    requires 0 < k <= |chunks| && lo <= hi <= |sgl| && chunks[k - 1].elements == sgl[lo..hi]
    requires FlatChunks(chunks[..k - 1]) == Flat(sgl[..lo])
    ensures FlatChunks(chunks[..k]) == Flat(sgl[..hi])
  {
    assert chunks[..k][..k - 1] == chunks[..k - 1];
    assert sgl[..hi] == sgl[..lo] + sgl[lo..hi];
    FlatConcat(sgl[..lo], sgl[lo..hi]);
    hide Flat;
  }

  lemma {:induction false} NonEmptyTotal(segments: seq<Segment>)
    requires segments != [] && forall i :: 0 <= i < |segments| ==> 0 < segments[i].len
    ensures 0 < Total(segments)
  {
  }

  /** The size and place of one chunk of a list built from non-empty segments. */
  lemma ChunkFacts(list: SegmentList, sgl: seq<Segment>, c: nat)
    requires Represents(list, sgl) && c < |list.chunks| && forall i :: 0 <= i < |sgl| ==> 0 < sgl[i].len
    ensures 1 <= |list.chunks[c].elements| <= MAX_ELEMENTS
    ensures 0 < list.chunks[c].dataSize == Total(list.chunks[c].elements)
    ensures Follows(list.chunks, c)
    ensures c == |list.chunks| - 1 ==> Limit(list.chunks[c]) == list.dataSize
  {
    var chunk, n := list.chunks[c], |sgl|;
    assert ChunkHolds(chunk, c, sgl, n);
    assert forall i :: 0 <= i < |chunk.elements| ==> chunk.elements[i] == sgl[ChunkStart(c) + i];
    NonEmptyTotal(chunk.elements);
    TotalMonotone(sgl, ChunkStart(c), ChunkEnd(c, n));
    if c == 0 {
      assert sgl[..0] == [];
    } else {
      assert ChunkHolds(list.chunks[c - 1], c - 1, sgl, n);
      assert ChunkEnd(c - 1, n) == ChunkStart(c);
      TotalMonotone(sgl, ChunkStart(c - 1), ChunkStart(c));
    }
    if c == |list.chunks| - 1 {
      assert ChunkEnd(c, n) == n;
      assert sgl[..n] == sgl;
    }
  }

  /** A list built from non-empty segments partitions their bytes: nothing lost, moved or repeated. */
  lemma RepresentsFlat(list: SegmentList, sgl: seq<Segment>)
    requires Represents(list, sgl) && forall i :: 0 <= i < |sgl| ==> 0 < sgl[i].len
    ensures ListOk(list)
    ensures ListBytes(list) == Flat(sgl)
  {
    hide FlatChunks, Flat, Total;
    ChunksCover(list, sgl, |list.chunks|);
    assert list.chunks[..|list.chunks|] == list.chunks && sgl[..|sgl|] == sgl;
    RepresentsConsecutive(list, sgl);
  }

  lemma RepresentsConsecutive(list: SegmentList, sgl: seq<Segment>)
    requires Represents(list, sgl) && forall i :: 0 <= i < |sgl| ==> 0 < sgl[i].len
    ensures ListOk(list)
  {
    hide ChunkHolds;
    forall c | 0 <= c < |list.chunks|
      ensures 1 <= |list.chunks[c].elements| <= MAX_ELEMENTS
      ensures 0 < list.chunks[c].dataSize == Total(list.chunks[c].elements)
      ensures Follows(list.chunks, c)
      ensures c == |list.chunks| - 1 ==> Limit(list.chunks[c]) == list.dataSize
    {
      ChunkFacts(list, sgl, c);
    }
  }

  lemma ListLength(list: SegmentList)
    requires ListOk(list)
    ensures |ListBytes(list)| == list.dataSize
  {
    PrefixLength(list.chunks, list.dataSize, |list.chunks|);
    assert list.chunks[..|list.chunks|] == list.chunks;
  }

  lemma SliceOfSlice(s: seq<nat>, a: nat, b: nat, i: nat, j: nat)
    requires a <= b <= |s| && i <= j <= b - a
    ensures s[a..b][i..j] == s[a + i..a + j]
  {
    forall k | 0 <= k < j - i
      ensures s[a..b][i..j][k] == s[a + i..a + j][k]
    {
    }
  }

  lemma {:induction false} PrefixBytes(chunks: seq<Chunk>, k: nat)
    requires k <= |chunks|
    ensures FlatChunks(chunks[..k]) <= FlatChunks(chunks)
  {
    hide Flat;
    if k == |chunks| {
      assert chunks[..k] == chunks;
    } else {
      var init := chunks[..|chunks| - 1];
      PrefixBytes(init, k);
      assert init[..k] == chunks[..k];
    }
  }

  lemma {:induction false} PrefixLength(chunks: seq<Chunk>, end: nat, k: nat)
    requires Consecutive(chunks, end) && k <= |chunks|
    ensures |FlatChunks(chunks[..k])| == if k == 0 then 0 else Limit(chunks[k - 1])
  {
    if k > 0 {
      PrefixLength(chunks, end, k - 1);
      assert Follows(chunks, k - 1);
      assert chunks[..k][..k - 1] == chunks[..k - 1];
      FlatLength(chunks[k - 1].elements);
    }
  }

  /** Inside its range, a chunk resolves every offset to the same DMA byte as the whole stream. */
  lemma ChunkBytes(list: SegmentList, c: nat)
    requires ListOk(list) && c < |list.chunks|
    ensures Limit(list.chunks[c]) <= |ListBytes(list)| == list.dataSize
    ensures Flat(list.chunks[c].elements) == ListBytes(list)[list.chunks[c].dataOffset..Limit(list.chunks[c])]
  {
    hide Flat, Total;
    var chunks := list.chunks;
    assert Follows(chunks, c);
    ListLength(list);
    PrefixLength(chunks, list.dataSize, c);
    PrefixLength(chunks, list.dataSize, c + 1);
    PrefixBytes(chunks, c + 1);
    assert chunks[..c + 1][..c] == chunks[..c];
    TailOfPrefix(ListBytes(list), FlatChunks(chunks[..c]), Flat(chunks[c].elements));
  }

  lemma TailOfPrefix(all: seq<nat>, head: seq<nat>, tail: seq<nat>)
    requires head + tail <= all
    ensures tail == all[|head|..|head| + |tail|]
  {
    assert all[..|head + tail|] == head + tail;
  }

  lemma {:induction false} OffsetsGrow(list: SegmentList, c: nat, d: nat)
    requires ListOk(list) && c < d < |list.chunks|
    ensures Limit(list.chunks[c]) <= list.chunks[d].dataOffset
    decreases d
  {
    assert Follows(list.chunks, d);
    if c + 1 < d {
      OffsetsGrow(list, c, d - 1);
    }
  }

  // ----------------------------------------------------------------- selection

  predicate Inside(chunk: Chunk, offset: nat) {
    offset >= chunk.dataOffset && offset - chunk.dataOffset < chunk.dataSize
  }

  /** The first chunk at or after i that contains the offset; |chunks| when there is none. */
  function FindChunk(chunks: seq<Chunk>, offset: nat, i: nat): (c: nat)
    requires i <= |chunks|
    ensures i <= c <= |chunks|
    ensures c < |chunks| ==> Inside(chunks[c], offset)
    decreases |chunks| - i
  {
    if i == |chunks| || Inside(chunks[i], offset) then i else FindChunk(chunks, offset, i + 1)
  }

  lemma {:induction false} FindChunkFinds(chunks: seq<Chunk>, offset: nat, i: nat, d: nat)
    requires i <= d < |chunks| && Inside(chunks[d], offset)
    ensures FindChunk(chunks, offset, i) <= d
    decreases d - i
  {
    if i < d {
      FindChunkFinds(chunks, offset, i + 1, d);
    }
  }

  /** The submission for `size` bytes at `offset`, cut at the end of the chunk that holds the offset. */
  function NextRange(list: SegmentList, offset: nat, size: nat): Result<Submission> {
    if size == 0 || offset >= list.dataSize || size > list.dataSize - offset then Err(EINVAL)
    else
      var c := FindChunk(list.chunks, offset, 0);
      if c == |list.chunks| then Err(EINVAL)
      else
        var chunk := list.chunks[c];
        var inner := offset - chunk.dataOffset;
        Ok(Range(chunk, inner, Min(size, chunk.dataSize - inner)))
  }

  method SetNextSubmission(list: SegmentList, offset: nat, size: nat) returns (r: Result<Submission>)
    ensures r == NextRange(list, offset, size)
  {
    if size == 0 || offset >= list.dataSize || size > list.dataSize - offset {
      return Err(EINVAL);
    }
    var i := 0;
    while i < |list.chunks| && !Inside(list.chunks[i], offset)
      invariant 0 <= i <= |list.chunks|
      invariant FindChunk(list.chunks, offset, i) == FindChunk(list.chunks, offset, 0)
    {
      i := i + 1;
    }
    if i == |list.chunks| {
      return Err(EINVAL);
    }
    var inner := offset - list.chunks[i].dataOffset;
    r := Ok(Range(list.chunks[i], inner, Min(size, list.chunks[i].dataSize - inner)));
  }

  /** Every offset of the data lies in exactly one chunk. */
  lemma ExactlyOneChunk(list: SegmentList, offset: nat)
    requires ListOk(list) && offset < list.dataSize
    ensures exists c :: 0 <= c < |list.chunks| && Inside(list.chunks[c], offset)
    ensures forall c, d | 0 <= c < |list.chunks| && 0 <= d < |list.chunks| ::
              Inside(list.chunks[c], offset) && Inside(list.chunks[d], offset) ==> c == d
  {
    var c := ChunkAt(list, offset, |list.chunks| - 1);
    forall c, d | 0 <= c < d < |list.chunks| && Inside(list.chunks[c], offset)
      ensures !Inside(list.chunks[d], offset)
    {
      OffsetsGrow(list, c, d);
    }
  }

  lemma {:induction false} ChunkAt(list: SegmentList, offset: nat, last: nat) returns (c: nat)
    requires ListOk(list) && last < |list.chunks| && offset < Limit(list.chunks[last])
    ensures c <= last && Inside(list.chunks[c], offset)
  {
    assert Follows(list.chunks, last);
    if list.chunks[last].dataOffset <= offset {
      c := last;
    } else {
      c := ChunkAt(list, offset, last - 1);
    }
  }

  /**
   A request inside the data always succeeds, makes progress, and selects exactly
   the bytes of the stream that start at the requested offset; it stops short of
   the request only at the end of a chunk. Every other request is refused.
   */
  lemma NextRangeExact(list: SegmentList, offset: nat, size: nat)
    requires ListOk(list)
    ensures NextRange(list, offset, size).Ok? <==> 0 < size && offset + size <= list.dataSize
    ensures var r := NextRange(list, offset, size);
            r.Ok? ==>
              && r.value.Range?
              && 1 <= r.value.length <= size
              && offset + r.value.length <= |ListBytes(list)| == list.dataSize
              && SubmissionBytes(r.value) == ListBytes(list)[offset..offset + r.value.length]
              && r.value.page in list.chunks
              && (r.value.length < size ==> offset + r.value.length == Limit(r.value.page))
  {
    if 0 < size && offset + size <= list.dataSize {
      var d := ChunkAt(list, offset, |list.chunks| - 1);
      FindChunkFinds(list.chunks, offset, 0, d);
      var c := FindChunk(list.chunks, offset, 0);
      var chunk := list.chunks[c];
      ChunkBytes(list, c);
      FlatLength(chunk.elements);
      var inner := offset - chunk.dataOffset;
      var length := Min(size, chunk.dataSize - inner);
      SliceOfSlice(ListBytes(list), chunk.dataOffset, Limit(chunk), inner, inner + length);
    }
  }

  /** The bytes of the submissions that repeated selection produces from `offset` up to `end`. */
  function Covered(list: SegmentList, offset: nat, end: nat): seq<nat>
    decreases end - offset
  {
    if offset >= end then []
    else
      var r := NextRange(list, offset, end - offset);
      if r.Err? || r.value.length == 0 then []
      else SubmissionBytes(r.value) + Covered(list, offset + r.value.length, end)
  }

  /** Repeated selection covers exactly the requested range, in order, each byte once. */
  lemma {:induction false} CoverExact(list: SegmentList, offset: nat, end: nat)
    requires ListOk(list) && offset <= end <= list.dataSize
    ensures |ListBytes(list)| == list.dataSize
    ensures Covered(list, offset, end) == ListBytes(list)[offset..end]
    decreases end - offset
  {
    hide FlatChunks, SubmissionBytes, NextRange;
    ListLength(list);
    if offset < end {
      var k := CoverStep(list, offset, end);
      CoverExact(list, offset + k, end);
      SplitRange(ListBytes(list), offset, offset + k, end);
    }
  }

  /** One selection of a cover, and what it leaves to the next. */
  lemma CoverStep(list: SegmentList, offset: nat, end: nat) returns (k: nat)
    requires ListOk(list) && offset < end <= list.dataSize
    ensures 1 <= k <= end - offset && offset + k <= |ListBytes(list)|
    ensures Covered(list, offset, end) == ListBytes(list)[offset..offset + k] + Covered(list, offset + k, end)
  {
    hide FlatChunks, SubmissionBytes, NextRange;
    NextRangeExact(list, offset, end - offset);
    k := NextRange(list, offset, end - offset).value.length;
  }

  lemma SplitRange(s: seq<nat>, a: nat, b: nat, c: nat)
    requires a <= b <= c <= |s|
    ensures s[a..c] == s[a..b] + s[b..c]
  {
  }
}
