/** The verdict of the concurrent-execute conformance case, and what it can and cannot miss. */
module Conformance {
  import opened Wire
  import opened Delivery
  import opened Sequences

  const MIN_CALLS := 3

  /** What one call's stream came to. */
  datatype CallOutcome = Got(result: Logical) | CallError | NothingGot

  predicate PairwiseDistinct(wants: seq<Logical>) {
    forall i, j :: 0 <= i < j < |wants| ==> wants[i] != wants[j]
  }

  method VerifyDistinctResults(wants: seq<Logical>) returns (ok: bool)
    ensures ok <==> PairwiseDistinct(wants)
  {
    for i := 0 to |wants|
      invariant forall k, j :: 0 <= k < i && k < j < |wants| ==> wants[k] != wants[j]
    {
      for j := i + 1 to |wants|
        invariant forall k :: i < k < j ==> wants[i] != wants[k]
      {
        if wants[i].outcome == wants[j].outcome && wants[i].outputs == wants[j].outputs {
          return false;
        }
      }
    }
    return true;
  }

  /** The calls the case reports: everything but its own result. */
  function Reported(wants: seq<Logical>, outcomes: seq<CallOutcome>): (bad: set<nat>)
    requires |wants| == |outcomes|
  {
    set i: nat | i < |wants| && outcomes[i] != Got(wants[i])
  }

  function DistinctResults(outcomes: seq<CallOutcome>): set<Logical> {
    set i | 0 <= i < |outcomes| && outcomes[i].Got? :: outcomes[i].result
  }

  /** The verdict loop: failures are collected in call order. */
  method Verdict(wants: seq<Logical>, outcomes: seq<CallOutcome>) returns (failures: seq<nat>)
    requires |wants| == |outcomes|
    ensures forall i :: i in failures <==> i in Reported(wants, outcomes)
    ensures |failures| == |Reported(wants, outcomes)|
    ensures forall j, k :: 0 <= j < k < |failures| ==> failures[j] < failures[k]
  {
    failures := [];
    ghost var bad: set<nat> := {};
    for i := 0 to |outcomes|
      invariant bad == set k: nat | k < i && outcomes[k] != Got(wants[k])
      invariant forall k :: k in failures <==> k in bad
      invariant |failures| == |bad|
      invariant forall j :: 0 <= j < |failures| ==> failures[j] < i
      invariant forall j, k :: 0 <= j < k < |failures| ==> failures[j] < failures[k]
    {
      var report := match outcomes[i]
        case CallError => true
        case NothingGot => true
        case Got(r) => !(r.outcome == wants[i].outcome && r.outputs == wants[i].outputs);
      if report {
        failures := failures + [i];
        bad := bad + {i};
      }
    }
    assert bad == Reported(wants, outcomes);
  }

  /** Cross-delivery: when call i receives the result meant for call f[i], the case passes iff nothing moved. */
  lemma PassesIffIdentity(wants: seq<Logical>, outcomes: seq<CallOutcome>, f: seq<nat>)
    requires |wants| == |outcomes| == |f| && PairwiseDistinct(wants)
    requires forall i :: 0 <= i < |f| ==> f[i] < |wants| && outcomes[i] == Got(wants[f[i]])
    ensures Reported(wants, outcomes) == {} <==> forall i :: 0 <= i < |f| ==> f[i] == i
    ensures Reported(wants, outcomes) == set i: nat | i < |f| && f[i] != i
  {
    forall i | 0 <= i < |f| ensures i in Reported(wants, outcomes) <==> f[i] != i {
      if f[i] != i {
        var lo, hi := if i < f[i] then i else f[i], if i < f[i] then f[i] else i;
        assert wants[lo] != wants[hi];
      }
    }
    if Reported(wants, outcomes) == {} {
      forall i | 0 <= i < |f| ensures f[i] == i {
        assert i !in Reported(wants, outcomes);
      }
    }
  }

  /** An injective image is as large as its source. */
  lemma {:induction false} InjectiveCount(wants: seq<Logical>, good: set<nat>, image: set<Logical>)
    requires forall i :: i in good ==> i < |wants| && wants[i] in image
    requires PairwiseDistinct(wants)
    ensures |good| <= |image|
    decreases |good|
  {
    if good != {} {
      var i :| i in good;
      forall j | j in good - {i} ensures wants[j] in image - {wants[i]} {
        var lo, hi := if i < j then i else j, if i < j then j else i;
        assert wants[lo] != wants[hi];
      }
      InjectiveCount(wants, good - {i}, image - {wants[i]});
    }
  }

  ghost function Below(n: nat): (all: set<nat>)
    ensures |all| == n
    ensures forall i: nat :: i in all <==> i < n
  {
    if n == 0 then {} else Below(n - 1) + {n - 1}
  }

  /** Whatever is delivered, at most as many calls pass unreported as there are distinct results. */
  lemma UnreportedBound(wants: seq<Logical>, outcomes: seq<CallOutcome>)
    requires |wants| == |outcomes| && PairwiseDistinct(wants)
    ensures |Reported(wants, outcomes)| >= |wants| - |DistinctResults(outcomes)|
  {
    var all := Below(|wants|);
    var bad := Reported(wants, outcomes);
    var good := all - bad;
    forall i | i in good ensures i < |wants| && wants[i] in DistinctResults(outcomes) {
      assert outcomes[i] == Got(wants[i]);
    }
    InjectiveCount(wants, good, DistinctResults(outcomes));
    assert bad <= all && |good| == |all| - |bad|;
  }

  /** One shared result slot, as in the defect the case was written for, fails all calls but at most one. */
  lemma SharedSlotFails(wants: seq<Logical>, outcomes: seq<CallOutcome>, slot: Logical)
    requires |wants| == |outcomes| >= MIN_CALLS && PairwiseDistinct(wants)
    requires forall i :: 0 <= i < |outcomes| ==> outcomes[i] == Got(slot)
    ensures |Reported(wants, outcomes)| >= |wants| - 1 > 0
  {
    assert outcomes[0] == Got(slot);
    assert DistinctResults(outcomes) == {slot};
    UnreportedBound(wants, outcomes);
  }

  /** What an Execute stream carries besides results (adapter events, invocations, heartbeats) is not looked at. */
  datatype ExecuteEvent = ResultEvent(result: ExecuteResult) | OtherEvent

  /** A stream that could not be opened, or its events up to a normal end or a receive error. */
  datatype ExecuteStream = OpenFailed | Stream(events: seq<ExecuteEvent>, eof: bool)

  function ResultOf(e: ExecuteEvent): Option<ExecuteResult> {
    if e.ResultEvent? then Some(e.result) else None
  }

  function Results(events: seq<ExecuteEvent>): seq<ExecuteResult> {
    Picked(events, ResultOf)
  }

  /** The result events, all of them and in order, carry `ms`; `pos` says where they are. */
  ghost predicate CarriedAt(events: seq<ExecuteEvent>, ms: seq<ExecuteResult>, pos: seq<nat>) {
    && |pos| == |ms|
    && (forall i :: 0 <= i < |pos| ==> pos[i] < |events| && events[pos[i]] == ResultEvent(ms[i]))
    && (forall i, j :: 0 <= i < j < |pos| ==> pos[i] < pos[j])
    && (forall k :: 0 <= k < |events| && events[k].ResultEvent? ==> k in pos)
  }

  ghost predicate Carries(events: seq<ExecuteEvent>, ms: seq<ExecuteResult>) {
    exists pos :: CarriedAt(events, ms, pos)
  }

  /** Draining keeps exactly what the stream carries. */
  lemma ResultsIff(events: seq<ExecuteEvent>, ms: seq<ExecuteResult>)
    ensures Results(events) == ms <==> Carries(events, ms)
  {
    if Results(events) == ms {
      var pos := PickedKept(events, ResultOf);
      assert CarriedAt(events, ms, pos);
    }
    if Carries(events, ms) {
      var pos :| CarriedAt(events, ms, pos);
      KeptIsPicked(events, ResultOf, ms, pos);
    }
  }

  /** The outcome a call's drained stream is reduced to. */
  function Outcome(stream: ExecuteStream): CallOutcome {
    if stream.Stream? && stream.eof && Accepted(Results(stream.events))
    then Got(LogicalOf(Results(stream.events)))
    else CallError
  }

  /** A call gets a result exactly when its stream ends normally and carries one accepted delivery of that result. */
  lemma OutcomeIff(stream: ExecuteStream, l: Logical)
    ensures Outcome(stream) == Got(l) <==>
      (&& stream.Stream? && stream.eof
       && exists ms :: Carries(stream.events, ms) && Accepted(ms) && LogicalOf(ms) == l)
  {
    if stream.Stream? {
      ResultsIff(stream.events, Results(stream.events));
      forall ms | Carries(stream.events, ms) ensures ms == Results(stream.events) {
        ResultsIff(stream.events, ms);
      }
    }
  }

  /** A second result message beside an unchunked one is always an error, wherever in the stream the two are. */
  lemma DoubledResultFails(stream: ExecuteStream, i: nat, j: nat)
    requires stream.Stream? && i < |stream.events| && j < |stream.events| && i != j
    requires stream.events[i].ResultEvent? && stream.events[j].ResultEvent? && stream.events[i].result.chunk.None?
    ensures Outcome(stream) == CallError
  {
    var ms := Results(stream.events);
    ResultsIff(stream.events, ms);
    var pos :| CarriedAt(stream.events, ms, pos);
    var x :| 0 <= x < |pos| && pos[x] == i;
    assert |pos| > 1 by {
      var y :| 0 <= y < |pos| && pos[y] == j;
    }
    assert stream.events[pos[x]] == ResultEvent(ms[x]);
    WholeAmongOthers(ms, x);
  }

  method Drive(stream: ExecuteStream) returns (oc: CallOutcome)
    ensures oc == Outcome(stream)
  {
    if stream.OpenFailed? {
      return CallError;
    }
    var fragments := [];
    for i := 0 to |stream.events|
      invariant fragments == Results(stream.events[..i])
    {
      assert stream.events[..i + 1][..i] == stream.events[..i];
      if stream.events[i].ResultEvent? {
        fragments := fragments + [stream.events[i].result];
      }
    }
    assert stream.events[..|stream.events|] == stream.events;
    if !stream.eof {
      return CallError;
    }
    var r := JoinExecuteResult(fragments);
    oc := match r case Joined(l) => Got(l) case Rejected(_) => CallError;
  }

  /**
   End to end: serve call i with the messages of call f[i]'s result, cut up at any chunk size and mixed with any other
   events; the case passes exactly when every call is served its own result.
   */
  lemma ServedCorrectlyIffPasses(results: seq<Handled>, maxChunkBytes: Uint32, f: seq<nat>,
                                 wants: seq<Logical>, streams: seq<ExecuteStream>, outcomes: seq<CallOutcome>)
    requires |results| == |f| == |wants| == |streams| == |outcomes| && PairwiseDistinct(wants)
    requires forall i :: 0 <= i < |results| ==>
      Deliverable(results[i], maxChunkBytes) && wants[i] == Logical(results[i].outcome, results[i].outputs)
    requires forall i :: 0 <= i < |f| ==>
      && f[i] < |results| && outcomes[i] == Outcome(streams[i])
      && streams[i].Stream? && streams[i].eof && Carries(streams[i].events, Messages(results[f[i]], maxChunkBytes))
    ensures Reported(wants, outcomes) == {} <==> forall i :: 0 <= i < |f| ==> f[i] == i
  {
    forall i | 0 <= i < |f| ensures outcomes[i] == Got(wants[f[i]]) {
      assert Deliverable(results[f[i]], maxChunkBytes);
      RoundTrip(results[f[i]], maxChunkBytes);
      ResultsIff(streams[i].events, Messages(results[f[i]], maxChunkBytes));
    }
    PassesIffIdentity(wants, outcomes, f);
  }

  /** End to end: a call whose stream failed, or ended normally but midway through a result, is always reported. */
  lemma BrokenStreamReported(wants: seq<Logical>, outcomes: seq<CallOutcome>, i: nat, stream: ExecuteStream,
                             h: Handled, maxChunkBytes: Uint32, n: nat)
    requires |wants| == |outcomes| && i < |outcomes| && outcomes[i] == Outcome(stream)
    requires stream.Stream? && stream.eof ==>
      h.Produced? && n < |Messages(h, maxChunkBytes)| && Carries(stream.events, Messages(h, maxChunkBytes)[..n])
    ensures i in Reported(wants, outcomes)
  {
    if stream.Stream? && stream.eof {
      PartialDeliveryRejected(h, maxChunkBytes, n);
      ResultsIff(stream.events, Messages(h, maxChunkBytes)[..n]);
    }
  }
}
