/**
 The chunk framer and its inverse, as a reference model of the protocol library's `SplitChunks` and
 `Join...Outputs` helpers: the library itself is not part of the repository. A payload is cut into
 slices of at most `size` bytes; slice `i` of `n` is framed as seq `i`, total `n`, and `final` on the last
 slice only. Joining accepts the pieces in any order and puts the payloads back in seq order.
 */
module Chunking {
  import opened Wire
  import opened Sequences

  datatype Piece = Piece(chunk: Chunk, payload: Bytes)

  function Concat(parts: seq<Bytes>): Bytes {
    if parts == [] then [] else parts[0] + Concat(parts[1..])
  }

  /** The payload cut at multiples of `size`; an empty payload is one empty slice. */
  function Slices(data: Bytes, size: nat): (parts: seq<Bytes>)
    requires size > 0
    ensures |parts| >= 1
    ensures |parts| == 1 <==> |data| <= size
    ensures forall i :: 0 <= i < |parts| ==> |parts[i]| <= size
    decreases |data|
  {
    if |data| <= size then [data] else [data[..size]] + Slices(data[size..], size)
  }

  /** The largest number of pieces whose total fits the wire's `uint32`. */
  const MAX_CHUNKS: nat := UINT32_SIZE - 1

  /** How many slices a payload takes, said in its length. */
  lemma {:induction false} SliceCount(data: Bytes, size: nat, k: nat)
    requires size > 0 && k > 0
    ensures |Slices(data, size)| <= k <==> |data| <= size * k
    decreases |data|
  {
    if |data| <= size {
      assert size <= size * k;
    } else if k > 1 {
      SliceCount(data[size..], size, k - 1);
      assert size * k == size * (k - 1) + size;
    }
  }

  lemma SliceCountIs(data: Bytes, size: nat, k: nat)
    requires size > 0 && k > 0 && |data| > size
    ensures |Slices(data, size)| == k <==> size * (k - 1) < |data| <= size * k
  {
    SliceCount(data, size, k);
    if k > 1 {
      SliceCount(data, size, k - 1);
    } else {
      assert size * k == size;
    }
  }

  /** Every slice but the last is full. */
  lemma {:induction false} SlicesFull(data: Bytes, size: nat, i: nat)
    requires size > 0 && i < |Slices(data, size)| - 1
    ensures |Slices(data, size)[i]| == size
    decreases |data|
  {
    if i > 0 {
      SlicesFull(data[size..], size, i - 1);
    }
  }

  function Frame(parts: seq<Bytes>): (pieces: seq<Piece>) {
    seq(|parts|, i requires 0 <= i < |parts| =>
      Piece(Chunk(ToUint32(i), ToUint32(|parts|), i == |parts| - 1), parts[i]))
  }

  function Split(data: Bytes, size: nat): seq<Piece>
    requires size > 0
  {
    Frame(Slices(data, size))
  }

  /** Position of the first piece numbered `k`, or the length when there is none. */
  function Find(pieces: seq<Piece>, k: nat): (i: nat)
    ensures i <= |pieces|
    ensures i < |pieces| ==> pieces[i].chunk.num == k
    ensures i == |pieces| ==> forall j :: 0 <= j < |pieces| ==> pieces[j].chunk.num != k
  {
    if pieces == [] then 0
    else if pieces[0].chunk.num == k then 0
    else 1 + Find(pieces[1..], k)
  }

  /** A complete delivery in some order: totals agree with the count, every number occurs, final closes it. */
  predicate Joinable(pieces: seq<Piece>) {
    && 0 < |pieces| < UINT32_SIZE
    && (forall i :: 0 <= i < |pieces| ==> pieces[i].chunk.total == |pieces|)
    && (forall i :: 0 <= i < |pieces| ==> (pieces[i].chunk.final <==> pieces[i].chunk.num == |pieces| - 1))
    && (forall k :: 0 <= k < |pieces| ==> Find(pieces, k) < |pieces|)
  }

  /** The payloads numbered 0 to k - 1, in that order. */
  function Gather(pieces: seq<Piece>, k: nat): Bytes
    requires forall j :: 0 <= j < k ==> Find(pieces, j) < |pieces|
  {
    if k == 0 then [] else Gather(pieces, k - 1) + pieces[Find(pieces, k - 1)].payload
  }

  function Join(pieces: seq<Piece>): Option<Bytes> {
    if Joinable(pieces) then Some(Gather(pieces, |pieces|)) else None
  }

  lemma {:induction false} ConcatSnoc(parts: seq<Bytes>, last: Bytes)
    ensures Concat(parts + [last]) == Concat(parts) + last
  {
    if parts == [] {
      assert parts + [last] == [last];
    } else {
      assert (parts + [last])[1..] == parts[1..] + [last];
      ConcatSnoc(parts[1..], last);
    }
  }

  /** Cutting loses nothing: the slices concatenate to the payload. */
  lemma {:induction false} SlicesConcat(data: Bytes, size: nat)
    requires size > 0
    ensures Concat(Slices(data, size)) == data
    decreases |data|
  {
    if |data| <= size {
      assert Concat([data]) == data + Concat([]);
    } else {
      var parts := Slices(data, size);
      assert parts[1..] == Slices(data[size..], size);
      SlicesConcat(data[size..], size);
    }
  }

  /** Whenever the piece found for number j carries slice j, gathering rebuilds the slices in order. */
  lemma {:induction false} GatherIsConcat(pieces: seq<Piece>, parts: seq<Bytes>, k: nat)
    requires k <= |parts|
    requires forall j :: 0 <= j < k ==> Find(pieces, j) < |pieces| && pieces[Find(pieces, j)].payload == parts[j]
    ensures Gather(pieces, k) == Concat(parts[..k])
  {
    if k > 0 {
      GatherIsConcat(pieces, parts, k - 1);
      ConcatSnoc(parts[..k - 1], parts[k - 1]);
      assert parts[..k] == parts[..k - 1] + [parts[k - 1]];
    }
  }

  /** The same pieces in some order; framed pieces are pairwise distinct, so nothing is lost by this form. */
  ghost predicate Rearranged(arrived: seq<Piece>, sent: seq<Piece>) {
    && |arrived| == |sent|
    && (forall i :: 0 <= i < |arrived| ==> arrived[i] in sent)
    && (forall k :: 0 <= k < |sent| ==> sent[k] in arrived)
  }

  lemma PermutationRearranges(arrived: seq<Piece>, sent: seq<Piece>)
    requires multiset(arrived) == multiset(sent)
    ensures Rearranged(arrived, sent)
  {
    assert |arrived| == |multiset(arrived)| == |multiset(sent)| == |sent|;
    forall i | 0 <= i < |arrived| ensures arrived[i] in sent {
      assert arrived[i] in multiset(sent);
    }
    forall k | 0 <= k < |sent| ensures sent[k] in arrived {
      assert sent[k] in multiset(arrived);
    }
  }

  lemma FramedPiece(parts: seq<Bytes>, k: nat)
    requires k < |parts| < UINT32_SIZE
    ensures Frame(parts)[k] == Piece(Chunk(k, |parts|, k == |parts| - 1), parts[k])
  {
    assert ToUint32(k) == k && ToUint32(|parts|) == |parts|;
  }

  /** An arrived piece is determined by its number. */
  lemma ArrivedFraming(arrived: seq<Piece>, parts: seq<Bytes>, i: nat)
    requires |parts| < UINT32_SIZE && i < |arrived|
    requires Rearranged(arrived, Frame(parts))
    ensures arrived[i].chunk.num < |parts|
    ensures arrived[i] == Frame(parts)[arrived[i].chunk.num]
  {
    var k :| 0 <= k < |parts| && arrived[i] == Frame(parts)[k];
    FramedPiece(parts, k);
  }

  lemma FindNumbered(arrived: seq<Piece>, parts: seq<Bytes>, k: nat)
    requires k < |parts| < UINT32_SIZE
    requires Rearranged(arrived, Frame(parts))
    ensures Find(arrived, k) < |arrived| && arrived[Find(arrived, k)].payload == parts[k]
  {
    FramedPiece(parts, k);
    var j :| 0 <= j < |arrived| && arrived[j] == Frame(parts)[k];
    assert arrived[j].chunk.num == k;
    ArrivedFraming(arrived, parts, Find(arrived, k));
  }

  lemma RearrangedJoinable(arrived: seq<Piece>, parts: seq<Bytes>)
    requires 0 < |parts| < UINT32_SIZE
    requires Rearranged(arrived, Frame(parts))
    ensures Joinable(arrived)
  {
    forall i | 0 <= i < |arrived|
      ensures arrived[i].chunk.total == |arrived|
      ensures arrived[i].chunk.final <==> arrived[i].chunk.num == |arrived| - 1
    {
      ArrivedFraming(arrived, parts, i);
      FramedPiece(parts, arrived[i].chunk.num);
    }
    forall k | 0 <= k < |parts| ensures Find(arrived, k) < |arrived| {
      FindNumbered(arrived, parts, k);
    }
  }

  lemma JoinFramed(arrived: seq<Piece>, parts: seq<Bytes>)
    requires 0 < |parts| < UINT32_SIZE
    requires Rearranged(arrived, Frame(parts))
    ensures Join(arrived) == Some(Concat(parts))
  {
    RearrangedJoinable(arrived, parts);
    forall k | 0 <= k < |parts|
      ensures Find(arrived, k) < |arrived| && arrived[Find(arrived, k)].payload == parts[k]
    {
      FindNumbered(arrived, parts, k);
    }
    GatherIsConcat(arrived, parts, |parts|);
    assert parts[..|parts|] == parts;
  }

  /** Any rearrangement of a framed payload joins back to exactly that payload, if the pieces can be numbered. */
  lemma JoinAnyOrder(arrived: seq<Piece>, data: Bytes, size: nat)
    requires size > 0 && multiset(arrived) == multiset(Split(data, size))
    ensures Join(arrived) == if |data| <= size * MAX_CHUNKS then Some(data) else None
  {
    SliceCount(data, size, MAX_CHUNKS);
    PermutationRearranges(arrived, Split(data, size));
    if |data| <= size * MAX_CHUNKS {
      JoinFramed(arrived, Slices(data, size));
      SlicesConcat(data, size);
    }
  }

  /** The pieces are the framed slices of `raw`, cut up somehow, in some order. */
  ghost predicate Delivers(pieces: seq<Piece>, raw: Bytes) {
    exists parts :: DeliversParts(pieces, parts) && Concat(parts) == raw
  }

  ghost predicate DeliversParts(pieces: seq<Piece>, parts: seq<Bytes>) {
    0 < |parts| < UINT32_SIZE && multiset(pieces) == multiset(Frame(parts))
  }

  /** The payloads by number. */
  function PartsOf(pieces: seq<Piece>): (parts: seq<Bytes>)
    requires Joinable(pieces)
  {
    seq(|pieces|, k requires 0 <= k < |pieces| => pieces[Find(pieces, k)].payload)
  }

  lemma FoundIsFramed(pieces: seq<Piece>, k: nat)
    requires Joinable(pieces) && k < |pieces|
    ensures pieces[Find(pieces, k)] == Frame(PartsOf(pieces))[k]
  {
    FramedPiece(PartsOf(pieces), k);
  }

  lemma JoinableDelivers(pieces: seq<Piece>)
    requires Joinable(pieces)
    ensures DeliversParts(pieces, PartsOf(pieces))
  {
    var sent := Frame(PartsOf(pieces));
    forall k | 0 <= k < |sent| ensures sent[k] in pieces {
      FoundIsFramed(pieces, k);
    }
    forall i, j | 0 <= i < j < |sent| ensures sent[i] != sent[j] {
      FramedPiece(PartsOf(pieces), i);
      FramedPiece(PartsOf(pieces), j);
    }
    SameLength(sent, pieces);
  }

  /** Joining succeeds exactly on the complete deliveries, in whatever order, and yields what they deliver. */
  lemma JoinIff(pieces: seq<Piece>, raw: Bytes)
    ensures Join(pieces) == Some(raw) <==> Delivers(pieces, raw)
  {
    if Join(pieces) == Some(raw) {
      JoinableDelivers(pieces);
      var parts := PartsOf(pieces);
      GatherIsConcat(pieces, parts, |parts|);
      assert parts[..|parts|] == parts;
    }
    if Delivers(pieces, raw) {
      var parts :| DeliversParts(pieces, parts) && Concat(parts) == raw;
      PermutationRearranges(pieces, Frame(parts));
      JoinFramed(pieces, parts);
    }
  }
}
