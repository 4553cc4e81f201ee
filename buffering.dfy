/**
  How `uploadFileByParts` cuts the chunks of its input stream into part
  bodies, apart from the requests it sends.

  The loop keeps a list `buffers` of chunks and their total length. A chunk
  that arrives while the total is below `chunkSize` is appended. A chunk that
  arrives once the total has reached `chunkSize` causes the buffered chunks to
  be concatenated and uploaded as one part, and is itself discarded. When the
  stream ends, whatever is still buffered (counted in chunks, not bytes)
  becomes one last part.

  `Scan` is that loop written as a function. `IsSplitOf` describes the
  same cutting without running the loop; `SegmentIsSplit` and `SplitUnique`
  show that the two agree, and the lemmas after them state what the cutting
  keeps and what it drops.
 */
module Buffering {
  import opened S3Api

  /** One chunk read from the stream. */
  type Chunk = seq<Byte>

  /** The total length of some chunks: what `totalBuffersLength` tracks. */
  function Sum(cs: seq<Chunk>): nat {
    if cs == [] then 0 else Sum(cs[..|cs| - 1]) + |cs[|cs| - 1]|
  }

  /** Concatenation of a list of sequences, as `Buffer.concat` does for chunks. */
  function Flatten<T>(xss: seq<seq<T>>): seq<T> {
    if xss == [] then [] else Flatten(xss[..|xss| - 1]) + xss[|xss| - 1]
  }

  lemma {:induction false} SumAppend(a: seq<Chunk>, b: seq<Chunk>)
    ensures Sum(a + b) == Sum(a) + Sum(b)
    decreases |b|
  {
    if b == [] {
      assert a + b == a;
    } else {
      assert (a + b)[..|a + b| - 1] == a + b[..|b| - 1];
      SumAppend(a, b[..|b| - 1]);
    }
  }

  /** A prefix of a list of chunks is no longer than the list. */
  lemma SumPrefix(p: seq<Chunk>, q: seq<Chunk>)
    requires p <= q
    ensures Sum(p) <= Sum(q)
  {
    assert q == p + q[|p|..];
    SumAppend(p, q[|p|..]);
  }

  lemma {:induction false} FlattenAppend<T>(a: seq<seq<T>>, b: seq<seq<T>>)
    ensures Flatten(a + b) == Flatten(a) + Flatten(b)
    decreases |b|
  {
    if b == [] {
      assert a + b == a;
    } else {
      var init, last := b[..|b| - 1], b[|b| - 1];
      assert (a + b)[..|a + b| - 1] == a + init;
      assert (a + b)[|a + b| - 1] == last;
      FlattenAppend(a, init);
      assert Flatten(b) == Flatten(init) + last;
      assert (Flatten(a) + Flatten(init)) + last == Flatten(a) + (Flatten(init) + last);
    }
  }

  /** The concatenated body is as long as the buffered chunks together. */
  lemma {:induction false} BodyLength(cs: seq<Chunk>)
    ensures |Flatten(cs)| == Sum(cs)
    decreases |cs|
  {
    if cs != [] {
      BodyLength(cs[..|cs| - 1]);
    }
  }

  /**
    The result of cutting a stream: the groups of chunks flushed inside the
    loop, the chunk that triggered each flush (and was discarded), and the
    chunks still buffered when the stream ended.
   */
  datatype Split = Split(groups: seq<seq<Chunk>>, dropped: seq<Chunk>, rest: seq<Chunk>)

  /**
    The buffering loop, continued from the buffered chunks `buffers` over the
    chunks still to arrive.
   */
  function Scan(buffers: seq<Chunk>, chunks: seq<Chunk>, chunkSize: int): (s: Split)
    ensures |s.groups| == |s.dropped|
    decreases |chunks|
  {
    if chunks == [] then Split([], [], buffers)
    else if Sum(buffers) < chunkSize then Scan(buffers + [chunks[0]], chunks[1..], chunkSize)
    else
      var s := Scan([], chunks[1..], chunkSize);
      Split([buffers] + s.groups, [chunks[0]] + s.dropped, s.rest)
  }

  /** One step of the buffering loop, reading the chunk at position `i`. */
  lemma ScanRead(buffers: seq<Chunk>, chunks: seq<Chunk>, i: nat, chunkSize: int)
    requires i < |chunks|
    ensures Sum(buffers) < chunkSize ==>
      Scan(buffers, chunks[i..], chunkSize) == Scan(buffers + [chunks[i]], chunks[i + 1..], chunkSize)
    ensures Sum(buffers) >= chunkSize ==>
      var s := Scan([], chunks[i + 1..], chunkSize);
      Scan(buffers, chunks[i..], chunkSize) == Split([buffers] + s.groups, [chunks[i]] + s.dropped, s.rest)
  {
    assert chunks[i..][0] == chunks[i] && chunks[i..][1..] == chunks[i + 1..];
  }

  /** A chunk read once the buffer is full closes the buffer as the next group, after those already closed. */
  lemma ScanFlushes(closed: seq<seq<Chunk>>, buffers: seq<Chunk>, chunks: seq<Chunk>, i: nat, chunkSize: int)
    requires i < |chunks| && Sum(buffers) >= chunkSize
    ensures closed + Scan(buffers, chunks[i..], chunkSize).groups
         == (closed + [buffers]) + Scan([], chunks[i + 1..], chunkSize).groups
    ensures Scan(buffers, chunks[i..], chunkSize).rest == Scan([], chunks[i + 1..], chunkSize).rest
  {
    ScanRead(buffers, chunks, i, chunkSize);
    var later := Scan([], chunks[i + 1..], chunkSize).groups;
    assert closed + ([buffers] + later) == (closed + [buffers]) + later;
  }

  /** The buffering loop over a whole stream, from an empty buffer. */
  function Segment(chunks: seq<Chunk>, chunkSize: int): (s: Split)
    ensures |s.groups| == |s.dropped|
  {
    Scan([], chunks, chunkSize)
  }

  /** Each group followed by the chunk that flushed it. */
  function Interleave(groups: seq<seq<Chunk>>, dropped: seq<Chunk>): seq<Chunk>
    requires |groups| == |dropped|
  {
    if groups == [] then []
    else groups[0] + [dropped[0]] + Interleave(groups[1..], dropped[1..])
  }

  /**
    Every chunk of `buffers` was appended while the total before it was below
    `chunkSize`; since lengths are not negative it is enough to say so of the
    last one.
   */
  ghost predicate Filling(buffers: seq<Chunk>, chunkSize: int) {
    buffers != [] ==> Sum(buffers[..|buffers| - 1]) < chunkSize
  }

  /** A group that was flushed: filled as above, and its total reached `chunkSize`. */
  ghost predicate Full(group: seq<Chunk>, chunkSize: int) {
    Filling(group, chunkSize) && Sum(group) >= chunkSize
  }

  /**
    `s` is a way of cutting `chunks` the loop could produce: the stream is the
    groups, each followed by its discarded trigger chunk, and then the leftover
    buffer; every group is full and the leftover buffer is still filling.
   */
  ghost predicate IsSplitOf(s: Split, chunks: seq<Chunk>, chunkSize: int) {
    && |s.groups| == |s.dropped|
    && Interleave(s.groups, s.dropped) + s.rest == chunks
    && (forall j :: 0 <= j < |s.groups| ==> Full(s.groups[j], chunkSize))
    && Filling(s.rest, chunkSize)
  }

  lemma InterleaveCons(g: seq<Chunk>, d: Chunk, groups: seq<seq<Chunk>>, dropped: seq<Chunk>)
    requires |groups| == |dropped|
    ensures Interleave([g] + groups, [d] + dropped) == g + [d] + Interleave(groups, dropped)
  {
    assert ([g] + groups)[1..] == groups && ([d] + dropped)[1..] == dropped;
  }

  /** Flushing a full buffer and discarding its trigger chunk keeps the description. */
  lemma FlushKeepsSplit(buffers: seq<Chunk>, trigger: Chunk, s: Split, chunks: seq<Chunk>, chunkSize: int)
    requires Full(buffers, chunkSize)
    requires IsSplitOf(s, chunks, chunkSize)
    ensures IsSplitOf(Split([buffers] + s.groups, [trigger] + s.dropped, s.rest), buffers + [trigger] + chunks, chunkSize)
  {
    var r := Split([buffers] + s.groups, [trigger] + s.dropped, s.rest);
    InterleaveCons(buffers, trigger, s.groups, s.dropped);
    forall j | 0 <= j < |r.groups|
      ensures Full(r.groups[j], chunkSize)
    {
      if j > 0 {
        assert r.groups[j] == s.groups[j - 1];
      }
    }
  }

  lemma {:induction false} ScanSplits(buffers: seq<Chunk>, chunks: seq<Chunk>, chunkSize: int)
    requires Filling(buffers, chunkSize)
    ensures IsSplitOf(Scan(buffers, chunks, chunkSize), buffers + chunks, chunkSize)
    decreases |chunks|
  {
    if chunks == [] {
      assert buffers + chunks == buffers;
    } else if Sum(buffers) < chunkSize {
      assert (buffers + [chunks[0]])[..|buffers|] == buffers;
      assert buffers + chunks == (buffers + [chunks[0]]) + chunks[1..];
      ScanSplits(buffers + [chunks[0]], chunks[1..], chunkSize);
    } else {
      ScanSplits([], chunks[1..], chunkSize);
      assert [] + chunks[1..] == chunks[1..];
      assert buffers + chunks == buffers + [chunks[0]] + chunks[1..];
      FlushKeepsSplit(buffers, chunks[0], Scan([], chunks[1..], chunkSize), chunks[1..], chunkSize);
    }
  }

  /** The loop cuts every stream in the way `IsSplitOf` describes. */
  lemma SegmentIsSplit(chunks: seq<Chunk>, chunkSize: int)
    ensures IsSplitOf(Segment(chunks, chunkSize), chunks, chunkSize)
  {
    ScanSplits([], chunks, chunkSize);
    assert [] + chunks == chunks;
  }

  /** A full group cannot end inside a buffer that is still filling. */
  lemma GroupNotInsideBuffer(g: seq<Chunk>, d: Chunk, tail: seq<Chunk>, buffers: seq<Chunk>, chunks: seq<Chunk>, chunkSize: int)
    requires Filling(buffers, chunkSize) && Full(g, chunkSize)
    requires g + [d] + tail == buffers + chunks
    ensures |g| >= |buffers|
  {
    if |g| < |buffers| {
      var all := buffers + chunks;
      assert g == all[..|g|];
      assert g <= buffers[..|buffers| - 1] by {
        assert buffers[..|buffers| - 1][..|g|] == all[..|g|];
      }
      SumPrefix(g, buffers[..|buffers| - 1]);
    }
  }

  /** A buffer that has reached `chunkSize` cannot sit before the last chunk of a filling group. */
  lemma BufferNotInsideGroup(g: seq<Chunk>, d: Chunk, tail: seq<Chunk>, buffers: seq<Chunk>, chunks: seq<Chunk>, chunkSize: int)
    requires Sum(buffers) >= chunkSize && Filling(g, chunkSize) && chunks != []
    requires g + [d] + tail == buffers + chunks
    ensures |g| <= |buffers|
  {
    if |g| > |buffers| {
      var all := buffers + chunks;
      assert buffers <= g[..|g| - 1] by {
        assert g[..|g| - 1][..|buffers|] == all[..|buffers|];
      }
      SumPrefix(buffers, g[..|g| - 1]);
    }
  }

  /** A leftover buffer that is still filling cannot hold a full buffer followed by more chunks. */
  lemma FullBufferNotLeftover(buffers: seq<Chunk>, chunks: seq<Chunk>, chunkSize: int)
    requires Filling(buffers + chunks, chunkSize) && chunks != []
    ensures Sum(buffers) < chunkSize
  {
    var all := buffers + chunks;
    assert buffers <= all[..|all| - 1] by {
      assert all[..|all| - 1][..|buffers|] == buffers;
    }
    SumPrefix(buffers, all[..|all| - 1]);
  }

  /** Dropping the first group and its trigger chunk leaves a description of what follows. */
  lemma SplitTail(s: Split, chunks: seq<Chunk>, chunkSize: int)
    requires IsSplitOf(s, chunks, chunkSize) && s.groups != []
    ensures var tail := Interleave(s.groups[1..], s.dropped[1..]) + s.rest;
      && chunks == s.groups[0] + [s.dropped[0]] + tail
      && IsSplitOf(Split(s.groups[1..], s.dropped[1..], s.rest), tail, chunkSize)
  {
    var s' := Split(s.groups[1..], s.dropped[1..], s.rest);
    forall j | 0 <= j < |s'.groups|
      ensures Full(s'.groups[j], chunkSize)
    {
      assert s'.groups[j] == s.groups[j + 1];
    }
  }

  lemma {:induction false} ScanUnique(s: Split, buffers: seq<Chunk>, chunks: seq<Chunk>, chunkSize: int)
    requires Filling(buffers, chunkSize)
    requires IsSplitOf(s, buffers + chunks, chunkSize)
    ensures s == Scan(buffers, chunks, chunkSize)
    decreases |chunks|
  {
    var all := buffers + chunks;
    if chunks == [] {
      if s.groups != [] {
        SplitTail(s, all, chunkSize);
        GroupNotInsideBuffer(s.groups[0], s.dropped[0], Interleave(s.groups[1..], s.dropped[1..]) + s.rest, buffers, chunks, chunkSize);
        assert false;
      }
      assert all == buffers;
    } else if Sum(buffers) < chunkSize {
      assert (buffers + [chunks[0]])[..|buffers|] == buffers;
      assert all == (buffers + [chunks[0]]) + chunks[1..];
      ScanUnique(s, buffers + [chunks[0]], chunks[1..], chunkSize);
    } else {
      if s.groups == [] {
        assert s.dropped == [] && s.rest == all;
        FullBufferNotLeftover(buffers, chunks, chunkSize);
        assert false;
      }
      var g, d := s.groups[0], s.dropped[0];
      var tail := Interleave(s.groups[1..], s.dropped[1..]) + s.rest;
      SplitTail(s, all, chunkSize);
      GroupNotInsideBuffer(g, d, tail, buffers, chunks, chunkSize);
      BufferNotInsideGroup(g, d, tail, buffers, chunks, chunkSize);
      assert g == all[..|g|] == buffers;
      assert d == all[|g|] == chunks[0];
      assert tail == all[|g| + 1..] == chunks[1..];
      var s' := Split(s.groups[1..], s.dropped[1..], s.rest);
      assert [] + chunks[1..] == chunks[1..];
      ScanUnique(s', [], chunks[1..], chunkSize);
      assert s.groups == [g] + s'.groups && s.dropped == [d] + s'.dropped;
    }
  }

  /** `IsSplitOf` determines the cut: the loop's is the only one. */
  lemma SplitUnique(s: Split, chunks: seq<Chunk>, chunkSize: int)
    requires IsSplitOf(s, chunks, chunkSize)
    ensures s == Segment(chunks, chunkSize)
  {
    assert [] + chunks == chunks;
    ScanUnique(s, [], chunks, chunkSize);
  }

  /** One body per group: the group's chunks concatenated. */
  function Bodies(groups: seq<seq<Chunk>>): seq<Body> {
    seq(|groups|, j requires 0 <= j < |groups| => Flatten(groups[j]))
  }

  lemma BodiesAppend(a: seq<seq<Chunk>>, b: seq<seq<Chunk>>)
    ensures Bodies(a + b) == Bodies(a) + Bodies(b)
  {
  }

  /**
    The part bodies of a stream that ends without error: one per flushed
    group, then one more for the leftover buffer if it holds any chunk.
   */
  function PlannedBodies(chunks: seq<Chunk>, chunkSize: int): seq<Body> {
    var s := Segment(chunks, chunkSize);
    Bodies(s.groups) + (if s.rest != [] then [Flatten(s.rest)] else [])
  }

  /** The chunks that end up in some part: the stream without the trigger chunks. */
  function Kept(chunks: seq<Chunk>, chunkSize: int): seq<Chunk> {
    var s := Segment(chunks, chunkSize);
    Flatten(s.groups) + s.rest
  }

  lemma {:induction false} FlattenBodies(groups: seq<seq<Chunk>>)
    ensures Flatten(Bodies(groups)) == Flatten(Flatten(groups))
    decreases |groups|
  {
    if groups != [] {
      var init := groups[..|groups| - 1];
      assert Bodies(groups) == Bodies(init) + [Flatten(groups[|groups| - 1])];
      FlattenBodies(init);
      FlattenAppend(Bodies(init), [Flatten(groups[|groups| - 1])]);
      FlattenAppend(Flatten(init), groups[|groups| - 1]);
      assert Flatten([Flatten(groups[|groups| - 1])]) == Flatten(groups[|groups| - 1]) by {
        assert [Flatten(groups[|groups| - 1])][..0] == [];
      }
    }
  }

  lemma FlattenCons<T>(x: seq<T>, xss: seq<seq<T>>)
    ensures Flatten([x] + xss) == x + Flatten(xss)
  {
    FlattenAppend([x], xss);
    assert Flatten([x]) == Flatten([x][..0]) + x;
  }

  lemma {:induction false} InterleaveMultiset(groups: seq<seq<Chunk>>, dropped: seq<Chunk>)
    requires |groups| == |dropped|
    ensures multiset(Interleave(groups, dropped)) == multiset(Flatten(groups)) + multiset(dropped)
    decreases |groups|
  {
    if groups != [] {
      InterleaveMultiset(groups[1..], dropped[1..]);
      assert groups == [groups[0]] + groups[1..];
      assert dropped == [dropped[0]] + dropped[1..];
      FlattenCons(groups[0], groups[1..]);
    }
  }

  /**
    The part bodies, concatenated, are the stream with every trigger chunk
    removed and nothing else changed: the stream is the kept chunks and the
    trigger chunks interleaved, and as a multiset it is the two together.
   */
  lemma PartsAreStreamWithoutTriggers(chunks: seq<Chunk>, chunkSize: int)
    ensures var s := Segment(chunks, chunkSize);
      && chunks == Interleave(s.groups, s.dropped) + s.rest
      && multiset(chunks) == multiset(Kept(chunks, chunkSize)) + multiset(s.dropped)
      && Flatten(PlannedBodies(chunks, chunkSize)) == Flatten(Kept(chunks, chunkSize))
  {
    var s := Segment(chunks, chunkSize);
    SegmentIsSplit(chunks, chunkSize);
    InterleaveMultiset(s.groups, s.dropped);
    var tail := if s.rest != [] then [Flatten(s.rest)] else [];
    FlattenAppend(Bodies(s.groups), tail);
    FlattenBodies(s.groups);
    FlattenAppend(Flatten(s.groups), s.rest);
    if s.rest == [] {
      assert Flatten(tail) == Flatten(s.rest) == [];
    } else {
      assert Flatten(tail) == Flatten(tail[..0]) + Flatten(s.rest);
    }
  }

  /**
    A part flushed inside the loop is at least `chunkSize` long and shorter
    than `chunkSize` plus the length of its last chunk; it is empty, and then
    holds no chunk at all, exactly when `chunkSize` is not positive.
   */
  lemma FlushedPartSize(chunks: seq<Chunk>, chunkSize: int, j: nat)
    requires j < |Segment(chunks, chunkSize).groups|
    ensures var g := Segment(chunks, chunkSize).groups[j];
      && PlannedBodies(chunks, chunkSize)[j] == Flatten(g)
      && |Flatten(g)| >= chunkSize
      && (g != [] ==> |Flatten(g)| < chunkSize + |g[|g| - 1]|)
      && (g == [] <==> chunkSize <= 0)
      && (Flatten(g) == [] <==> chunkSize <= 0)
  {
    var g := Segment(chunks, chunkSize).groups[j];
    SegmentIsSplit(chunks, chunkSize);
    assert Full(g, chunkSize);
    BodyLength(g);
  }

  /** Every chunk of the leftover buffer but the last arrived below `chunkSize`. */
  lemma LeftoverIsFilling(chunks: seq<Chunk>, chunkSize: int)
    ensures var r := Segment(chunks, chunkSize).rest;
      r != [] ==> Sum(r[..|r| - 1]) < chunkSize
  {
    SegmentIsSplit(chunks, chunkSize);
  }

  /** An empty stream yields no part body at all. */
  lemma EmptyStreamHasNoParts(chunkSize: int)
    ensures PlannedBodies([], chunkSize) == []
  {
  }

  /**
    A stream of one empty chunk yields one empty part, whatever the part
    size. With a positive part size it is the leftover part: the final part
    is counted in chunks, not bytes. Otherwise the chunk triggers the flush of
    the empty buffer inside the loop and is itself dropped.
   */
  lemma LoneEmptyChunkYieldsPart(chunkSize: int)
    ensures PlannedBodies([[]], chunkSize) == [[]]
    ensures chunkSize > 0 <==> Segment([[]], chunkSize).rest == [[]]
  {
    if chunkSize > 0 {
      assert Scan([], [[]], chunkSize) == Scan([[]], [], chunkSize);
      assert Flatten<Byte>([[]]) == Flatten<Byte>([]) + [];
    } else {
      var lone: seq<Chunk> := [[]];
      assert lone[1..] == [];
      assert Segment([[]], chunkSize) == Split([[]], [[]], []);
    }
  }

  /**
    A chunk that arrives once the buffer is full is lost: with chunks of
    lengths 2, 1, 1 and a part size of 2, the middle chunk is in no part.
   */
  lemma TriggerChunkIsLost()
    ensures var chunks: seq<Chunk> := [[1, 2], [3], [4]];
      && Segment(chunks, 2) == Split([[[1, 2]]], [[3]], [[4]])
      && PlannedBodies(chunks, 2) == [[1, 2], [4]]
      && Flatten(chunks) == [1, 2, 3, 4]
  {
    var chunks: seq<Chunk> := [[1, 2], [3], [4]];
    assert Sum([[1, 2]]) == 2 by {
      assert [[1, 2]][..0] == [];
    }
    calc {
      Segment(chunks, 2);
      Scan([[1, 2]], chunks[1..], 2);
      { assert chunks[1..][1..] == [[4]]; }
      Split([[[1, 2]]] + Scan([], [[4]], 2).groups, [[3]] + Scan([], [[4]], 2).dropped, Scan([], [[4]], 2).rest);
      { assert Scan([], [[4]], 2) == Scan([[4]], [], 2); }
      Split([[[1, 2]]], [[3]], [[4]]);
    }
    assert Flatten<Byte>([[1, 2]]) == [1, 2] by {
      assert [[1, 2]][..0] == [];
    }
    assert Flatten<Byte>([[4]]) == [4] by {
      assert [[4]][..0] == [];
    }
    assert chunks[..2][..1] == [[1, 2]];
    assert chunks[..2] == [[1, 2], [3]];
  }

  /**
    With a part size that is not positive every chunk triggers a flush of an
    empty buffer and is lost: each group is empty and nothing is kept.
   */
  lemma NonPositiveChunkSizeKeepsNothing(chunks: seq<Chunk>, chunkSize: int)
    requires chunkSize <= 0
    ensures var s := Segment(chunks, chunkSize);
      && s.groups == seq(|chunks|, _ => [])
      && s.dropped == chunks
      && s.rest == []
  {
    var s := Segment(chunks, chunkSize);
    SegmentIsSplit(chunks, chunkSize);
    var n := |s.groups|;
    forall j | 0 <= j < n
      ensures s.groups[j] == []
    {
      assert Full(s.groups[j], chunkSize);
      var g := s.groups[j];
    }
    EmptyGroupsInterleave(s.groups, s.dropped);
    assert s.groups == seq(|chunks|, _ => []);
  }

  lemma {:induction false} EmptyGroupsInterleave(groups: seq<seq<Chunk>>, dropped: seq<Chunk>)
    requires |groups| == |dropped|
    requires forall j :: 0 <= j < |groups| ==> groups[j] == []
    ensures Interleave(groups, dropped) == dropped
    decreases |groups|
  {
    if groups != [] {
      EmptyGroupsInterleave(groups[1..], dropped[1..]);
      assert dropped == [dropped[0]] + dropped[1..];
    }
  }
}
