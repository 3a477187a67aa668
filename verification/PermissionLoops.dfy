/**
 The Permissions stream as a loop sees it, and the two loops' decision sequences. A stream is a finite list of
 events followed by an error; `okSends` is how many decisions the host accepts before a send fails.
 */
module PermissionLoops {
  import opened Wire
  import opened Sequences

  datatype PermissionEvent =
    | Request(id: Id)
    | Cancel(id: Id, reason: string)
    | ToolReply(fragment: ToolResult)
    | Other

  datatype RecvError = Eof | CanceledStatus | OkStatus | Broken

  datatype Stream = Stream(events: seq<PermissionEvent>, end: RecvError, okSends: nat)

  datatype LoopResult = Clean | RecvFailed | SendFailed

  /** Requests that the bridge loop acknowledges. */
  predicate Ackable(e: PermissionEvent) {
    e.Request? && e.id != ""
  }

  function BridgeAck(e: PermissionEvent): Option<Id> {
    if Ackable(e) then Some(e.id) else None
  }

  function DefaultAck(e: PermissionEvent): Option<Id> {
    if e.Request? then Some(e.id) else None
  }

  function BridgeAcks(events: seq<PermissionEvent>): seq<Id> {
    Picked(events, BridgeAck)
  }

  function DefaultAcks(events: seq<PermissionEvent>): seq<Id> {
    Picked(events, DefaultAck)
  }

  /** Decision k answers the request at `pos[k]`, and every request that `asks` is answered, in arrival order. */
  ghost predicate Answers(events: seq<PermissionEvent>, ids: seq<Id>, pos: seq<nat>, asks: PermissionEvent -> bool) {
    && |pos| == |ids|
    && (forall k :: 0 <= k < |pos| ==> pos[k] < |events| && asks(events[pos[k]]) && events[pos[k]] == Request(ids[k]))
    && (forall j, k :: 0 <= j < k < |pos| ==> pos[j] < pos[k])
    && (forall i :: 0 <= i < |events| && asks(events[i]) ==> i in pos)
  }

  /** The default decides on every request, with its own id. */
  lemma DefaultDecisions(events: seq<PermissionEvent>) returns (pos: seq<nat>)
    ensures Answers(events, DefaultAcks(events), pos, (e: PermissionEvent) => e.Request?)
  {
    pos := PickedKept(events, DefaultAck);
  }

  /** The bridge decides on every request with an id, with that id. */
  lemma BridgeDecisions(events: seq<PermissionEvent>) returns (pos: seq<nat>)
    ensures Answers(events, BridgeAcks(events), pos, (e: PermissionEvent) => e.Request? && e.id != "")
  {
    pos := PickedKept(events, BridgeAck);
  }

  function BridgeEnd(end: RecvError): LoopResult {
    if end.Broken? then RecvFailed else Clean
  }

  function DefaultEnd(end: RecvError): LoopResult {
    if end.Broken? || end.OkStatus? then RecvFailed else Clean
  }

  /** What is sent when at most `n` of the wanted decisions get through. */
  function Sent(wanted: seq<Id>, n: nat): seq<Id> {
    if |wanted| <= n then wanted else wanted[..n]
  }

  function BridgeResult(stream: Stream): LoopResult {
    if |BridgeAcks(stream.events)| > stream.okSends then SendFailed else BridgeEnd(stream.end)
  }

  function DefaultResult(stream: Stream): LoopResult {
    if |DefaultAcks(stream.events)| > stream.okSends then SendFailed else DefaultEnd(stream.end)
  }

  /** What goes out is what the budget allows, from the first decision on. */
  lemma SentIs(wanted: seq<Id>, n: nat)
    ensures Sent(wanted, n) <= wanted
    ensures |Sent(wanted, n)| == if |wanted| < n then |wanted| else n
  {
  }

  /** The loops return cleanly when every decision went out and the stream ended, was cancelled, or (bridge) was OK. */
  lemma CleanReturnIff(stream: Stream)
    ensures BridgeResult(stream) == Clean <==>
      |BridgeAcks(stream.events)| <= stream.okSends && stream.end in {Eof, CanceledStatus, OkStatus}
    ensures DefaultResult(stream) == Clean <==>
      |DefaultAcks(stream.events)| <= stream.okSends && stream.end in {Eof, CanceledStatus}
    ensures BridgeResult(stream) == SendFailed <==> |BridgeAcks(stream.events)| > stream.okSends
    ensures DefaultResult(stream) == SendFailed <==> |DefaultAcks(stream.events)| > stream.okSends
  {
  }

  lemma {:induction false} BridgeAcksPrefix(events: seq<PermissionEvent>, n: nat)
    requires n <= |events|
    ensures BridgeAcks(events[..n]) <= BridgeAcks(events)
    ensures n < |events| && Ackable(events[n]) ==> |BridgeAcks(events[..n])| < |BridgeAcks(events)|
  {
    if n == |events| {
      assert events[..n] == events;
    } else {
      var front := events[..|events| - 1];
      BridgeAcksPrefix(front, n);
      assert front[..n] == events[..n];
    }
  }

  lemma {:induction false} DefaultAcksPrefix(events: seq<PermissionEvent>, n: nat)
    requires n <= |events|
    ensures DefaultAcks(events[..n]) <= DefaultAcks(events)
    ensures n < |events| && events[n].Request? ==> |DefaultAcks(events[..n])| < |DefaultAcks(events)|
  {
    if n == |events| {
      assert events[..n] == events;
    } else {
      var front := events[..|events| - 1];
      DefaultAcksPrefix(front, n);
      assert front[..n] == events[..n];
    }
  }

  /** The permissionless default: one allow per request, empty ids included. */
  method RunUnimplementedPermissions(stream: Stream) returns (sent: seq<Id>, result: LoopResult)
    ensures sent == Sent(DefaultAcks(stream.events), stream.okSends)
    ensures result == DefaultResult(stream)
  {
    sent := [];
    var i := 0;
    while i < |stream.events|
      invariant 0 <= i <= |stream.events|
      invariant sent == DefaultAcks(stream.events[..i]) && |sent| <= stream.okSends
    {
      var ev := stream.events[i];
      assert stream.events[..i + 1][..i] == stream.events[..i];
      DefaultAcksPrefix(stream.events, i);
      if ev.Request? {
        if |sent| == stream.okSends {
          return sent, SendFailed;
        }
        sent := sent + [ev.id];
      }
      i := i + 1;
    }
    assert stream.events[..i] == stream.events;
    result := if stream.end.Eof? || stream.end.CanceledStatus? then Clean else RecvFailed;
  }

  /** The loops decide differently exactly when some request has an empty id. */
  lemma {:induction false} AcksAgree(events: seq<PermissionEvent>)
    ensures |BridgeAcks(events)| <= |DefaultAcks(events)|
    ensures BridgeAcks(events) == DefaultAcks(events) <==>
      (forall i :: 0 <= i < |events| && events[i].Request? ==> events[i].id != "")
  {
    if events != [] {
      var front, e := events[..|events| - 1], events[|events| - 1];
      AcksAgree(front);
      assert forall i :: 0 <= i < |front| ==> front[i] == events[i];
      assert BridgeAcks(front) <= BridgeAcks(events) && DefaultAcks(front) <= DefaultAcks(events);
      assert events == front + [e];
      assert |BridgeAcks(front)| == |DefaultAcks(front)| && BridgeAcks(events) == DefaultAcks(events) ==>
        BridgeAcks(front) == DefaultAcks(front);
    }
  }

  /** On streams whose request ids are all set, the two loops send the same decisions for every send budget. */
  lemma SameDecisionsOnEveryBudget(events: seq<PermissionEvent>)
    ensures (forall n: nat :: Sent(BridgeAcks(events), n) == Sent(DefaultAcks(events), n)) <==>
      (forall i :: 0 <= i < |events| && events[i].Request? ==> events[i].id != "")
  {
    AcksAgree(events);
    var n := |DefaultAcks(events)|;
    assert Sent(BridgeAcks(events), n) == BridgeAcks(events);
    assert Sent(DefaultAcks(events), n) == DefaultAcks(events);
  }

  /**
   On such streams they also return alike, except when every send succeeds and the stream ends with a receive error
   whose status is OK. Only a custom stream implementation can do that: a gRPC stream reports an OK end as EOF.
   */
  lemma SameReturnIff(stream: Stream)
    requires forall i :: 0 <= i < |stream.events| && stream.events[i].Request? ==> stream.events[i].id != ""
    ensures BridgeResult(stream) == DefaultResult(stream) <==>
      (!stream.end.OkStatus? || |BridgeAcks(stream.events)| > stream.okSends)
  {
    AcksAgree(stream.events);
  }
}
