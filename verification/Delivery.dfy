/**
 Delivery of one Execute result: the sender's whole-or-chunked loop, the strict arrival-order joiner, and the
 host's one-fragment-at-a-time rule.
 */
module Delivery {
  import opened Wire
  import opened Chunking

  /** The logical result both ends agree on. */
  datatype Logical = Logical(outcome: string, outputs: Bytes)

  // ----- The joiner

  datatype JoinError =
    | ResultLost | NotOneMessage | TotalZero | WrongTotal | TotalsDisagree | SeqGap
    | FinalMissing | FinalEarly | OutcomeEmpty | OutcomesDiffer | Unjoinable

  datatype JoinResult = Joined(result: Logical) | Rejected(error: JoinError)

  function Pieces(frags: seq<ExecuteResult>): (ps: seq<Piece>)
    requires AllChunked(frags)
  {
    seq(|frags|, i requires 0 <= i < |frags| => Piece(frags[i].chunk.value, frags[i].outputs))
  }

  function Payloads(frags: seq<ExecuteResult>): (ps: seq<Bytes>) {
    seq(|frags|, i requires 0 <= i < |frags| => frags[i].outputs)
  }

  predicate AllChunked(frags: seq<ExecuteResult>) {
    forall i :: 0 <= i < |frags| ==> frags[i].chunk.Some?
  }

  predicate Whole(frags: seq<ExecuteResult>) {
    |frags| == 1 && frags[0].chunk.None?
  }

  /** Fragment `i` of a delivery of `n`. */
  predicate FramedAs(f: ExecuteResult, i: nat, n: nat) {
    && f.chunk.Some? && n < UINT32_SIZE
    && f.chunk.value.num == i && f.chunk.value.total == n && (f.chunk.value.final <==> i == n - 1)
  }

  predicate OutcomesOk(frags: seq<ExecuteResult>)
    requires frags != []
  {
    && frags[0].outcome != ""
    && forall i :: 1 <= i < |frags| ==> frags[i].outcome == "" || frags[i].outcome == frags[0].outcome
  }

  /** One complete chunked delivery in seq order. */
  predicate Framed(frags: seq<ExecuteResult>) {
    && 0 < |frags| < UINT32_SIZE
    && (forall i :: 0 <= i < |frags| ==> FramedAs(frags[i], i, |frags|))
    && OutcomesOk(frags)
  }

  predicate Accepted(frags: seq<ExecuteResult>) {
    Whole(frags) || Framed(frags)
  }

  function LogicalOf(frags: seq<ExecuteResult>): Logical
    requires frags != []
  {
    Logical(frags[0].outcome, Concat(Payloads(frags)))
  }

  /** The defect each rejection reports is really there. */
  ghost predicate Defect(frags: seq<ExecuteResult>, error: JoinError) {
    match error
    case ResultLost => frags == []
    case NotOneMessage => frags != [] && !Whole(frags) && !AllChunked(frags)
    case TotalZero => frags != [] && AllChunked(frags) && frags[0].chunk.value.total == 0
    case WrongTotal => frags != [] && AllChunked(frags) && frags[0].chunk.value.total != ToUint32(|frags|)
    case TotalsDisagree => AllChunked(frags) &&
      exists i :: 1 <= i < |frags| && frags[i].chunk.value.total != frags[0].chunk.value.total
    case SeqGap => AllChunked(frags) && exists i :: 0 <= i < |frags| && frags[i].chunk.value.num != ToUint32(i)
    case FinalMissing => AllChunked(frags) && 0 < ToUint32(|frags|) &&
      !frags[ToUint32(|frags|) - 1].chunk.value.final
    case FinalEarly => AllChunked(frags) &&
      exists i :: 0 <= i < ToUint32(|frags|) - 1 && frags[i].chunk.value.final
    case OutcomeEmpty => frags != [] && frags[0].outcome == ""
    case OutcomesDiffer =>
      exists i :: 1 <= i < |frags| && frags[i].outcome != "" && frags[i].outcome != frags[0].outcome
    case Unjoinable => AllChunked(frags) && Join(Pieces(frags)) == None
  }

  lemma FramedJoins(frags: seq<ExecuteResult>)
    requires Framed(frags)
    ensures AllChunked(frags) && Join(Pieces(frags)) == Some(Concat(Payloads(frags)))
  {
    var ps, parts := Pieces(frags), Payloads(frags);
    forall i | 0 <= i < |frags| ensures ps[i] == Frame(parts)[i] {
      assert FramedAs(frags[i], i, |frags|);
      FramedPiece(parts, i);
    }
    assert ps == Frame(parts);
    JoinFramed(ps, parts);
  }

  /** The numbering loop: totals and seqs against `uint32` conversions of the length and the index. */
  method CheckNumbering(frags: seq<ExecuteResult>) returns (error: Option<JoinError>)
    requires frags != [] && AllChunked(frags)
    ensures error.Some? ==> Defect(frags, error.value)
    ensures error.None? ==> 0 < ToUint32(|frags|) && forall i :: 0 <= i < |frags| ==>
      frags[i].chunk.value.total == ToUint32(|frags|) && frags[i].chunk.value.num == ToUint32(i)
  {
    var total: Uint32 := 0;
    for i := 0 to |frags|
      invariant i > 0 ==> 0 < total == ToUint32(|frags|) == frags[0].chunk.value.total
      invariant forall j :: 0 <= j < i ==>
        frags[j].chunk.value.total == total && frags[j].chunk.value.num == ToUint32(j)
    {
      var chunk := frags[i].chunk.value;
      if i == 0 {
        total := chunk.total;
        if total == 0 {
          return Some(TotalZero);
        }
        if total != ToUint32(|frags|) {
          return Some(WrongTotal);
        }
      } else if chunk.total != total {
        return Some(TotalsDisagree);
      }
      if chunk.num != ToUint32(i) {
        return Some(SeqGap);
      }
    }
    return None;
  }

  method CheckFinal(frags: seq<ExecuteResult>, total: Uint32) returns (error: Option<JoinError>)
    requires AllChunked(frags) && 0 < total == ToUint32(|frags|)
    ensures error.Some? ==> Defect(frags, error.value)
    ensures error.None? <==>
      forall i :: 0 <= i < total ==> (frags[i].chunk.value.final <==> i == total - 1)
  {
    if !frags[total - 1].chunk.value.final {
      return Some(FinalMissing);
    }
    for i := 0 to total - 1
      invariant forall j :: 0 <= j < i ==> !frags[j].chunk.value.final
    {
      if frags[i].chunk.value.final {
        return Some(FinalEarly);
      }
    }
    return None;
  }

  method CheckOutcomes(frags: seq<ExecuteResult>) returns (error: Option<JoinError>)
    requires frags != []
    ensures error.Some? ==> Defect(frags, error.value)
    ensures error.None? <==> OutcomesOk(frags)
  {
    if frags[0].outcome == "" {
      return Some(OutcomeEmpty);
    }
    for i := 1 to |frags|
      invariant forall j :: 1 <= j < i ==> frags[j].outcome == "" || frags[j].outcome == frags[0].outcome
    {
      if frags[i].outcome != "" && frags[i].outcome != frags[0].outcome {
        return Some(OutcomesDiffer);
      }
    }
    return None;
  }

  lemma JoinableIsShort(frags: seq<ExecuteResult>)
    requires AllChunked(frags) && Join(Pieces(frags)).Some?
    ensures 0 < |frags| < UINT32_SIZE
  {
  }

  /** Within 32 bits the conversions change nothing, so the joiner's checks are the framing rule. */
  lemma ChecksAreFraming(frags: seq<ExecuteResult>)
    requires 0 < |frags| < UINT32_SIZE && AllChunked(frags) && OutcomesOk(frags)
    requires forall i :: 0 <= i < |frags| ==>
      frags[i].chunk.value.total == ToUint32(|frags|) && frags[i].chunk.value.num == ToUint32(i)
    requires forall i :: 0 <= i < |frags| ==> (frags[i].chunk.value.final <==> i == |frags| - 1)
    ensures Framed(frags)
  {
    assert ToUint32(|frags|) == |frags|;
    forall i | 0 <= i < |frags| ensures FramedAs(frags[i], i, |frags|) {
      assert ToUint32(i) == i;
    }
  }

  /** `joinExecuteResultFragments`: accepts exactly the whole or framed deliveries, and reports true defects. */
  method JoinExecuteResult(frags: seq<ExecuteResult>) returns (r: JoinResult)
    ensures r.Joined? <==> Accepted(frags)
    ensures r.Joined? ==> frags != [] && r.result == LogicalOf(frags)
    ensures r.Rejected? ==> Defect(frags, r.error)
  {
    if frags == [] {
      return Rejected(ResultLost);
    }
    if |frags| == 1 && frags[0].chunk.None? {
      assert Payloads(frags) == [frags[0].outputs];
      assert Concat([frags[0].outputs]) == frags[0].outputs + Concat([]);
      return Joined(Logical(frags[0].outcome, frags[0].outputs));
    }
    for i := 0 to |frags|
      invariant forall j :: 0 <= j < i ==> frags[j].chunk.Some?
    {
      if frags[i].chunk.None? {
        assert !FramedAs(frags[i], i, |frags|);
        return Rejected(NotOneMessage);
      }
    }
    r := JoinChunked(frags);
  }

  lemma FramedPassesChecks(frags: seq<ExecuteResult>)
    requires Framed(frags)
    ensures AllChunked(frags) && ToUint32(|frags|) == |frags|
    ensures forall i :: 0 <= i < |frags| ==>
      && frags[i].chunk.value.total == |frags|
      && frags[i].chunk.value.num == ToUint32(i)
      && (frags[i].chunk.value.final <==> i == |frags| - 1)
  {
    assert forall i :: 0 <= i < |frags| ==> FramedAs(frags[i], i, |frags|) && ToUint32(i) == i;
  }

  method JoinChunked(frags: seq<ExecuteResult>) returns (r: JoinResult)
    requires frags != [] && AllChunked(frags)
    ensures r.Joined? <==> Framed(frags)
    ensures r.Joined? ==> r.result == LogicalOf(frags)
    ensures r.Rejected? ==> Defect(frags, r.error)
  {
    ghost var framed := Framed(frags);
    if framed {
      FramedPassesChecks(frags);
      FramedJoins(frags);
    }
    var error := CheckNumbering(frags);
    if error.Some? {
      return Rejected(error.value);
    }
    error := CheckFinal(frags, frags[0].chunk.value.total);
    if error.Some? {
      return Rejected(error.value);
    }
    error := CheckOutcomes(frags);
    if error.Some? {
      return Rejected(error.value);
    }
    var outputs := Join(Pieces(frags));
    if outputs.None? {
      return Rejected(Unjoinable);
    }
    JoinableIsShort(frags);
    ChecksAreFraming(frags);
    FramedJoins(frags);
    return Joined(Logical(frags[0].outcome, outputs.value));
  }

  /** A later fragment may leave its outcome out or repeat the first one's; any other outcome spoils the delivery. */
  lemma LaterOutcomeIff(frags: seq<ExecuteResult>, i: nat, outcome: string)
    requires Accepted(frags) && 1 <= i < |frags|
    ensures Accepted(frags[i := frags[i].(outcome := outcome)]) <==> outcome == "" || outcome == frags[0].outcome
  {
    var changed := frags[i := frags[i].(outcome := outcome)];
    assert forall j :: 0 <= j < |frags| ==> FramedAs(frags[j], j, |frags|) && changed[j].chunk == frags[j].chunk;
    assert changed[i].outcome == outcome;
  }

  /** An unchunked message is only accepted on its own. */
  lemma WholeAmongOthers(frags: seq<ExecuteResult>, i: nat)
    requires |frags| > 1 && i < |frags| && frags[i].chunk.None?
    ensures !Accepted(frags)
  {
    assert !FramedAs(frags[i], i, |frags|);
  }

  // ----- What the framing rules out

  /** Accepted deliveries are prefix-free: no accepted delivery can be continued into another one. */
  lemma PrefixFree(a: seq<ExecuteResult>, b: seq<ExecuteResult>)
    requires Accepted(a) && Accepted(b) && a <= b
    ensures a == b
  {
    assert a[0] == b[0];
    assert Framed(a) ==> FramedAs(a[0], 0, |a|);
    assert Framed(b) ==> FramedAs(b[0], 0, |b|);
  }

  /** The length of an accepted delivery can be read off any of its messages. */
  lemma LengthFromAny(a: seq<ExecuteResult>, i: nat)
    requires Accepted(a) && i < |a|
    ensures |a| == if a[i].chunk.None? then 1 else a[i].chunk.value.total
    ensures i == if a[i].chunk.None? then 0 else a[i].chunk.value.num
  {
    assert Framed(a) ==> FramedAs(a[i], i, |a|);
  }

  /**
   Exactly once: of all the lists that can be made from the messages of an accepted delivery, by dropping,
   repeating and reordering them, only the delivery itself is accepted.
   */
  lemma OnlyItself(a: seq<ExecuteResult>, b: seq<ExecuteResult>)
    requires Accepted(a) && Accepted(b)
    requires forall i :: 0 <= i < |b| ==> b[i] in a
    ensures b == a
  {
    forall i | 0 <= i < |b| ensures |b| == |a| && b[i] == a[i] {
      var k :| 0 <= k < |a| && a[k] == b[i];
      LengthFromAny(a, k);
      LengthFromAny(b, i);
    }
  }

  /** No merge of two accepted deliveries is accepted, whatever the interleaving. */
  lemma InterleavingRejected(a: seq<ExecuteResult>, b: seq<ExecuteResult>, merged: seq<ExecuteResult>)
    requires Accepted(a) && Accepted(b)
    requires multiset(merged) == multiset(a) + multiset(b)
    ensures !Accepted(merged)
  {
    if Accepted(merged) {
      assert |merged| == |multiset(merged)| == |multiset(a)| + |multiset(b)| == |a| + |b|;
      assert merged[0] in multiset(merged);
      assert merged[0] in a || merged[0] in b;
      LengthFromAny(merged, 0);
      if merged[0] in a {
        var k :| 0 <= k < |a| && a[k] == merged[0];
        LengthFromAny(a, k);
      } else {
        var k :| 0 <= k < |b| && b[k] == merged[0];
        LengthFromAny(b, k);
      }
    }
  }

  // ----- The host's streaming rule

  /** The host keeps the next expected seq, the outcome recorded at seq 0, and the bytes so far. */
  datatype Stream =
    | Reading(next: nat, outcome: string, bytes: Bytes)
    | Complete(result: Logical)
    | Broken

  function Consume(st: Stream, f: ExecuteResult): Stream {
    if !st.Reading? || f.chunk.None? || f.chunk.value.num != st.next then Broken
    else
      var outcome := if st.next == 0 then f.outcome else st.outcome;
      var bytes := st.bytes + f.outputs;
      if f.chunk.value.final then Complete(Logical(outcome, bytes)) else Reading(st.next + 1, outcome, bytes)
  }

  function ConsumeAll(frags: seq<ExecuteResult>): Stream {
    if frags == [] then Reading(0, "", []) else Consume(ConsumeAll(frags[..|frags| - 1]), frags[|frags| - 1])
  }

  /** In seq order with the final flag on the last message only. */
  predicate InOrder(frags: seq<ExecuteResult>) {
    forall i :: 0 <= i < |frags| ==>
      && frags[i].chunk.Some? && frags[i].chunk.value.num == i
      && (frags[i].chunk.value.final <==> i == |frags| - 1)
  }

  predicate Unfinished(frags: seq<ExecuteResult>) {
    forall i :: 0 <= i < |frags| ==>
      frags[i].chunk.Some? && frags[i].chunk.value.num == i && !frags[i].chunk.value.final
  }

  lemma PayloadsSnoc(frags: seq<ExecuteResult>)
    requires frags != []
    ensures Concat(Payloads(frags)) == Concat(Payloads(frags[..|frags| - 1])) + frags[|frags| - 1].outputs
  {
    assert Payloads(frags) == Payloads(frags[..|frags| - 1]) + [frags[|frags| - 1].outputs];
    ConcatSnoc(Payloads(frags[..|frags| - 1]), frags[|frags| - 1].outputs);
  }

  lemma UnfinishedSnoc(front: seq<ExecuteResult>, last: ExecuteResult)
    ensures Unfinished(front + [last]) <==>
      Unfinished(front) && last.chunk.Some? && last.chunk.value.num == |front| && !last.chunk.value.final
  {
    var frags := front + [last];
    assert frags[|front|] == last;
    assert forall i :: 0 <= i < |front| ==> front[i] == frags[i];
  }

  lemma InOrderSnoc(front: seq<ExecuteResult>, last: ExecuteResult)
    ensures InOrder(front + [last]) <==>
      Unfinished(front) && last.chunk.Some? && last.chunk.value.num == |front| && last.chunk.value.final
  {
    var frags := front + [last];
    assert frags[|front|] == last;
    assert forall i :: 0 <= i < |front| ==> front[i] == frags[i];
  }

  ghost function Progress(frags: seq<ExecuteResult>): Stream {
    Reading(|frags|, if frags == [] then "" else frags[0].outcome, Concat(Payloads(frags)))
  }

  lemma {:induction false} ReadingMeans(frags: seq<ExecuteResult>)
    ensures ConsumeAll(frags).Reading? <==> Unfinished(frags)
    ensures Unfinished(frags) ==> ConsumeAll(frags) == Progress(frags)
  {
    if frags != [] {
      var front, last := frags[..|frags| - 1], frags[|frags| - 1];
      assert frags == front + [last];
      ReadingMeans(front);
      PayloadsSnoc(frags);
      UnfinishedSnoc(front, last);
    }
  }

  /** The streaming host completes exactly on the lists in order, with the outcome of seq 0. */
  lemma StreamCompletes(frags: seq<ExecuteResult>)
    ensures ConsumeAll(frags).Complete? <==> frags != [] && InOrder(frags)
    ensures frags != [] && InOrder(frags) ==> ConsumeAll(frags) == Complete(LogicalOf(frags))
  {
    if frags != [] {
      var front, last := frags[..|frags| - 1], frags[|frags| - 1];
      assert frags == front + [last];
      ReadingMeans(front);
      PayloadsSnoc(frags);
      InOrderSnoc(front, last);
    }
  }

  /**
   The joiner is the streaming rule plus agreement on totals and outcomes: what it accepts in chunks, the host
   completes with the same result, and it rejects only for a wrong total or a bad outcome what the host completes.
   */
  lemma JoinerRefinesStream(frags: seq<ExecuteResult>)
    ensures Framed(frags) <==>
      (&& ConsumeAll(frags).Complete?
       && |frags| < UINT32_SIZE && frags != []
       && (forall i :: 0 <= i < |frags| ==> frags[i].chunk.Some? && frags[i].chunk.value.total == |frags|)
       && OutcomesOk(frags))
    ensures Framed(frags) ==> ConsumeAll(frags) == Complete(LogicalOf(frags))
  {
    StreamCompletes(frags);
    if Framed(frags) {
      FramedPassesChecks(frags);
    }
    if InOrder(frags) && |frags| < UINT32_SIZE {
      assert forall i :: 0 <= i < |frags| && frags[i].chunk.value.total == |frags| ==>
        FramedAs(frags[i], i, |frags|);
    }
  }

  // ----- The sender

  const DEFAULT_MAX_CHUNK_BYTES: Uint32 := 4 * 1024 * 1024

  function ChunkSize(maxChunkBytes: Uint32): (size: nat)
    ensures size > 0
  {
    if maxChunkBytes == 0 then DEFAULT_MAX_CHUNK_BYTES else maxChunkBytes
  }

  /** What the spec's Execute handler came back with. */
  datatype Handled =
    | Failed
    | Nothing
    | Unencodable
    | Produced(outcome: string, comment: string, outputs: Bytes)

  function Chunked(outcome: string, comment: string, pieces: seq<Piece>): (ms: seq<ExecuteResult>) {
    seq(|pieces|, i requires 0 <= i < |pieces| =>
      ExecuteResult(outcome, comment, Some(pieces[i].chunk), pieces[i].payload))
  }

  /** All the messages of one result: whole when it fits, framed otherwise. */
  function Messages(h: Handled, maxChunkBytes: Uint32): seq<ExecuteResult> {
    if !h.Produced? then []
    else if |h.outputs| <= ChunkSize(maxChunkBytes) then [ExecuteResult(h.outcome, h.comment, None, h.outputs)]
    else Chunked(h.outcome, h.comment, Split(h.outputs, ChunkSize(maxChunkBytes)))
  }

  /** The configured limit, or 4 MiB. */
  predicate LimitIs(maxChunkBytes: Uint32, limit: nat) {
    && (maxChunkBytes > 0 ==> limit == maxChunkBytes)
    && (maxChunkBytes == 0 ==> limit == 4_194_304)
  }

  /** No message of a result is over the limit, and each carries the result's outcome and comment. */
  lemma MessagesSized(h: Handled, maxChunkBytes: Uint32)
    requires h.Produced?
    ensures LimitIs(maxChunkBytes, ChunkSize(maxChunkBytes))
    ensures forall i :: 0 <= i < |Messages(h, maxChunkBytes)| ==>
      && |Messages(h, maxChunkBytes)[i].outputs| <= ChunkSize(maxChunkBytes)
      && Messages(h, maxChunkBytes)[i].outcome == h.outcome
      && Messages(h, maxChunkBytes)[i].comment == h.comment
  {
    forall i | 0 <= i < |Messages(h, maxChunkBytes)|
      ensures |Messages(h, maxChunkBytes)[i].outputs| <= ChunkSize(maxChunkBytes)
      ensures Messages(h, maxChunkBytes)[i].outcome == h.outcome
      ensures Messages(h, maxChunkBytes)[i].comment == h.comment
    {
      if |h.outputs| > ChunkSize(maxChunkBytes) {
        MessageIs(h, maxChunkBytes, i);
      }
    }
  }

  /** How a result travels: whole exactly when it fits the limit, else in as many chunks as its length needs. */
  lemma MessageCount(h: Handled, maxChunkBytes: Uint32, limit: nat, k: nat)
    requires h.Produced? && LimitIs(maxChunkBytes, limit) && k > 0
    ensures Whole(Messages(h, maxChunkBytes)) <==> |h.outputs| <= limit
    ensures |h.outputs| > limit ==> AllChunked(Messages(h, maxChunkBytes))
    ensures |h.outputs| > limit ==>
      (|Messages(h, maxChunkBytes)| == k <==> limit * (k - 1) < |h.outputs| <= limit * k)
  {
    assert limit == ChunkSize(maxChunkBytes);
    if |h.outputs| > limit {
      assert |Messages(h, maxChunkBytes)| == |Slices(h.outputs, limit)|;
      SliceCountIs(h.outputs, limit, k);
    }
  }

  /** `specService.Execute`; the host takes `okSends` messages before a send fails. */
  method Execute(h: Handled, maxChunkBytes: Uint32, okSends: nat) returns (sent: seq<ExecuteResult>, ok: bool)
    ensures sent <= Messages(h, maxChunkBytes)
    ensures ok <==> h.Produced? && |Messages(h, maxChunkBytes)| <= okSends
    ensures ok ==> sent == Messages(h, maxChunkBytes)
    ensures !ok && h.Produced? ==> |sent| == okSends < |Messages(h, maxChunkBytes)|
    ensures forall i :: 0 <= i < |sent| ==> maxChunkBytes > 0 ==> |sent[i].outputs| <= maxChunkBytes
    ensures forall i :: 0 <= i < |sent| ==> maxChunkBytes == 0 ==> |sent[i].outputs| <= 4_194_304
    ensures forall i :: 0 <= i < |sent| ==> sent[i].outcome == h.outcome && sent[i].comment == h.comment
  {
    sent := [];
    if !h.Produced? {
      return [], false;
    }
    MessagesSized(h, maxChunkBytes);
    var size := if maxChunkBytes == 0 then DEFAULT_MAX_CHUNK_BYTES else maxChunkBytes;
    if |h.outputs| <= size {
      if okSends == 0 {
        return [], false;
      }
      return [ExecuteResult(h.outcome, h.comment, None, h.outputs)], true;
    }
    var frags := Chunked(h.outcome, h.comment, Split(h.outputs, size));
    for i := 0 to |frags|
      invariant sent == frags[..i] && i <= okSends
    {
      if i == okSends {
        return sent, false;
      }
      sent := sent + [frags[i]];
    }
    return sent, true;
  }

  /** What the sender puts on the wire, message by message. */
  lemma MessageIs(h: Handled, maxChunkBytes: Uint32, i: nat)
    requires h.Produced? && |h.outputs| > ChunkSize(maxChunkBytes)
    requires i < |Messages(h, maxChunkBytes)|
    ensures var parts := Slices(h.outputs, ChunkSize(maxChunkBytes));
      && |Messages(h, maxChunkBytes)| == |parts|
      && Messages(h, maxChunkBytes)[i] ==
        ExecuteResult(h.outcome, h.comment,
                      Some(Chunk(ToUint32(i), ToUint32(|parts|), i == |parts| - 1)), parts[i])
  {
  }

  lemma ChunkedTrip(h: Handled, maxChunkBytes: Uint32)
    requires h.Produced? && |h.outputs| > ChunkSize(maxChunkBytes)
    ensures var ms, parts := Messages(h, maxChunkBytes), Slices(h.outputs, ChunkSize(maxChunkBytes));
      && |ms| == |parts| > 1 && ms[0].outcome == h.outcome && Payloads(ms) == parts
      && (Accepted(ms) <==> h.outcome != "" && |parts| < UINT32_SIZE)
  {
    var ms, parts := Messages(h, maxChunkBytes), Slices(h.outputs, ChunkSize(maxChunkBytes));
    assert Payloads(ms) == parts;
    forall i | 0 <= i < |ms| ensures SentAs(ms[i], h.outcome, i, |ms|) {
      MessageIs(h, maxChunkBytes, i);
    }
    SentAccepted(ms, h.outcome);
  }

  predicate SentAs(m: ExecuteResult, outcome: string, i: nat, total: nat) {
    m.outcome == outcome && m.chunk == Some(Chunk(ToUint32(i), ToUint32(total), i == total - 1))
  }

  lemma SentFramed(m: ExecuteResult, outcome: string, i: nat, total: nat)
    requires i < total < UINT32_SIZE && SentAs(m, outcome, i, total)
    ensures FramedAs(m, i, total)
  {
  }

  lemma SentAccepted(ms: seq<ExecuteResult>, outcome: string)
    requires |ms| > 1 && forall i :: 0 <= i < |ms| ==> SentAs(ms[i], outcome, i, |ms|)
    ensures Accepted(ms) <==> outcome != "" && |ms| < UINT32_SIZE
  {
    if |ms| < UINT32_SIZE {
      forall i | 0 <= i < |ms| ensures FramedAs(ms[i], i, |ms|) {
        SentFramed(ms[i], outcome, i, |ms|);
      }
    }
    assert SentAs(ms[0], outcome, 0, |ms|);
  }

  /** A result that the sender can put across: it fits one message, or it has an outcome and few enough chunks. */
  predicate Deliverable(h: Handled, maxChunkBytes: Uint32) {
    var size := ChunkSize(maxChunkBytes);
    h.Produced? && (|h.outputs| <= size || (h.outcome != "" && |h.outputs| <= size * MAX_CHUNKS))
  }

  /** The sender and the joiner agree exactly on the deliverable results, and nothing is altered on the way. */
  lemma RoundTrip(h: Handled, maxChunkBytes: Uint32)
    requires h.Produced?
    ensures Accepted(Messages(h, maxChunkBytes)) <==> Deliverable(h, maxChunkBytes)
    ensures Messages(h, maxChunkBytes) != []
    ensures LogicalOf(Messages(h, maxChunkBytes)) == Logical(h.outcome, h.outputs)
  {
    var ms, parts := Messages(h, maxChunkBytes), Slices(h.outputs, ChunkSize(maxChunkBytes));
    SlicesConcat(h.outputs, ChunkSize(maxChunkBytes));
    if |h.outputs| <= ChunkSize(maxChunkBytes) {
      assert Payloads(ms) == parts;
    } else {
      ChunkedTrip(h, maxChunkBytes);
      SliceCount(h.outputs, ChunkSize(maxChunkBytes), MAX_CHUNKS);
    }
  }

  /** A send that fails midway leaves a stream the joiner rejects, for every result and chunk size. */
  lemma PartialDeliveryRejected(h: Handled, maxChunkBytes: Uint32, n: nat)
    requires h.Produced? && n < |Messages(h, maxChunkBytes)|
    ensures !Accepted(Messages(h, maxChunkBytes)[..n])
  {
    var ms := Messages(h, maxChunkBytes);
    if n > 0 {
      MessageIs(h, maxChunkBytes, n - 1);
      assert ms[..n][n - 1] == ms[n - 1];
      assert !FramedAs(ms[..n][n - 1], n - 1, n);
    }
  }
}
