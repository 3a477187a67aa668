/** One undisturbed Permissions loop of the class is a run of the protocol, so the protocol's theorems cover it. */
module BridgeLoopRun {
  import opened Wire
  import opened Sequences
  import opened BridgeProtocol
  import opened L = PermissionLoops
  import B = BridgeState
  import O = BridgeObject

  function ActionOf(ev: PermissionEvent): Option<Action> {
    match ev
    case Request(id) => if id == "" then None else Some(Grant(id))
    case Cancel(id, reason) => Some(Deny(id, reason))
    case ToolReply(f) => Some(Reply(f))
    case Other => None
  }

  function EventAction(ev: PermissionEvent): seq<Action> {
    if ActionOf(ev).Some? then [ActionOf(ev).value] else []
  }

  function EventActions(events: seq<PermissionEvent>): seq<Action> {
    Picked(events, ActionOf)
  }

  /** A grant grants, a cancellation denies and a reply replies, each to the call it names. */
  predicate RoutedAs(ev: PermissionEvent, a: Action) {
    match a
    case Grant(id) => ev == Request(id) && id != ""
    case Deny(id, reason) => ev == Cancel(id, reason)
    case Reply(f) => ev == ToolReply(f)
    case _ => false
  }

  /** Every event but an unknown one and a grant without an id is routed, in arrival order. */
  lemma EventsAreRouted(events: seq<PermissionEvent>) returns (pos: seq<nat>)
    ensures |pos| == |EventActions(events)|
    ensures forall i :: 0 <= i < |pos| ==> pos[i] < |events| && RoutedAs(events[pos[i]], EventActions(events)[i])
    ensures forall i, j :: 0 <= i < j < |pos| ==> pos[i] < pos[j]
    ensures forall k :: 0 <= k < |events| && events[k] != Other && events[k] != Request("") ==> k in pos
  {
    pos := PickedKept(events, ActionOf);
  }

  /** The closing half of `closeAll` number `k`, entry by entry. */
  ghost function CloseActions(k: nat, closed: seq<O.PendingToolCall>): seq<Action> {
    if closed == [] then []
    else CloseActions(k, Front(closed)) + [WriteClosed(k, Last(closed).name), CloseOne(k, Last(closed).name)]
  }

  lemma Assoc<T>(a: seq<T>, b: seq<T>, c: seq<T>)
    ensures a + (b + c) == a + b + c
  {
  }

  lemma EventStep(s: State, ev: PermissionEvent)
    ensures ActionOf(ev).None? ==> O.DispatchOne(s.sh, ev) == s.sh
    ensures ActionOf(ev).Some? ==>
      var a := ActionOf(ev).value; Enabled(s, a) && Step(s, a) == s.(sh := O.DispatchOne(s.sh, ev))
  {
  }

  lemma {:induction false} EventIsRun(run: seq<Action>, ev: PermissionEvent)
    requires IsRun(run)
    ensures IsRun(run + EventAction(ev))
    ensures After(run + EventAction(ev)) == After(run).(sh := O.DispatchOne(After(run).sh, ev))
  {
    EventStep(After(run), ev);
    if ActionOf(ev).Some? {
      Extend(run, ActionOf(ev).value);
    } else {
      assert run + EventAction(ev) == run;
    }
  }

  lemma {:induction false} DispatchIsRun(run: seq<Action>, events: seq<PermissionEvent>)
    requires IsRun(run)
    ensures IsRun(run + EventActions(events))
    ensures After(run + EventActions(events)) ==
      After(run).(sh := O.Dispatch(After(run).sh, events))
  {
    if events == [] {
      assert run + EventActions(events) == run;
    } else {
      DispatchIsRun(run, Front(events));
      EventIsRun(run + EventActions(Front(events)), Last(events));
      Assoc(run, EventActions(Front(events)), EventAction(Last(events)));
    }
  }

  ghost function Remaining(taken: set<Id>, closed: seq<O.PendingToolCall>): set<Id> {
    if closed == [] then taken else Remaining(taken, Front(closed)) - {Last(closed).name}
  }

  ghost predicate Distinct(closed: seq<O.PendingToolCall>) {
    forall i, j :: 0 <= i < j < |closed| ==> closed[i].name != closed[j].name
  }

  lemma {:induction false} StillRemaining(taken: set<Id>, closed: seq<O.PendingToolCall>, id: Id)
    requires id in taken && forall i :: 0 <= i < |closed| ==> closed[i].name != id
    ensures id in Remaining(taken, closed)
  {
    if closed != [] {
      StillRemaining(taken, Front(closed), id);
    }
  }

  lemma {:induction false} NoneRemaining(taken: set<Id>, closed: seq<O.PendingToolCall>, id: Id)
    requires exists i :: 0 <= i < |closed| && closed[i].name == id
    ensures id !in Remaining(taken, closed)
  {
    if Last(closed).name != id {
      var i :| 0 <= i < |closed| && closed[i].name == id;
      assert Front(closed)[i].name == id;
      NoneRemaining(taken, Front(closed), id);
    }
  }

  lemma {:induction false} RemainingWithin(taken: set<Id>, closed: seq<O.PendingToolCall>)
    ensures Remaining(taken, closed) <= taken
  {
    if closed != [] {
      RemainingWithin(taken, Front(closed));
    }
  }

  ghost predicate Covers(closed: seq<O.PendingToolCall>, taken: set<Id>) {
    forall id :: id in taken ==> exists i :: 0 <= i < |closed| && closed[i].name == id
  }

  lemma AllClosed(taken: set<Id>, closed: seq<O.PendingToolCall>)
    requires Covers(closed, taken)
    ensures Remaining(taken, closed) == {}
  {
    RemainingWithin(taken, closed);
    forall id | id in taken ensures id !in Remaining(taken, closed) {
      NoneRemaining(taken, closed, id);
    }
  }

  lemma {:induction false} ClosePair(run: seq<Action>, k: nat, id: Id)
    requires IsRun(run) && k < |After(run).batches|
    requires After(run).batches[k].marked == None && id in After(run).batches[k].todo
    ensures IsRun(run + [WriteClosed(k, id), CloseOne(k, id)])
    ensures var t := After(run + [WriteClosed(k, id), CloseOne(k, id)]);
      && t.sh == O.CloseOne(After(run).sh, id) && |t.batches| == |After(run).batches|
      && t.batches[k] == After(run).batches[k].(todo := After(run).batches[k].todo - {id})
  {
    Extend(run, WriteClosed(k, id));
    Extend(run + [WriteClosed(k, id)], CloseOne(k, id));
    assert run + [WriteClosed(k, id)] + [CloseOne(k, id)] == run + [WriteClosed(k, id), CloseOne(k, id)];
  }

  lemma {:induction false} ClosingIsRun(run: seq<Action>, k: nat, closed: seq<O.PendingToolCall>)
    requires IsRun(run) && k < |After(run).batches| && After(run).batches[k].marked == None
    requires Distinct(closed)
    requires forall i :: 0 <= i < |closed| ==> closed[i].name in After(run).batches[k].todo
    ensures IsRun(run + CloseActions(k, closed))
    ensures var t := After(run + CloseActions(k, closed));
      && t.sh == O.CloseMany(After(run).sh, closed) && |t.batches| == |After(run).batches|
      && t.batches[k].marked == None
      && t.batches[k].todo == Remaining(After(run).batches[k].todo, closed)
  {
    if closed == [] {
      assert run + CloseActions(k, closed) == run;
    } else {
      var front, id := Front(closed), Last(closed).name;
      ClosingIsRun(run, k, front);
      StillRemaining(After(run).batches[k].todo, front, id);
      ClosePair(run + CloseActions(k, front), k, id);
      Assoc(run, CloseActions(k, front), [WriteClosed(k, id), CloseOne(k, id)]);
    }
  }

  /** The run that `ToolCallBridge.Permissions` performs from the state after `run`. */
  ghost function LoopRun(run: seq<Action>, events: seq<PermissionEvent>, closed: seq<O.PendingToolCall>): seq<Action>
    requires IsRun(run)
  {
    run + EventActions(events) + [StreamEnd] + CloseActions(|After(run).batches|, closed)
  }

  /** The loop's actions make a run, which ends with the loop's own batch drained. */
  lemma {:induction false} LoopIsARun(run: seq<Action>, events: seq<PermissionEvent>, closed: seq<O.PendingToolCall>)
    requires IsRun(run) && Distinct(closed) && Covers(closed, O.Dispatch(After(run).sh, events).pending)
    requires forall i :: 0 <= i < |closed| ==> closed[i].name in O.Dispatch(After(run).sh, events).pending
    ensures IsRun(LoopRun(run, events, closed))
    ensures After(LoopRun(run, events, closed)).sh
      == O.CloseMany(B.TakeAll(O.Dispatch(After(run).sh, events)), closed)
    ensures var batches := After(LoopRun(run, events, closed)).batches;
      |batches| == |After(run).batches| + 1 && Last(batches).todo == {}
  {
    DispatchIsRun(run, events);
    var dispatched := run + EventActions(events);
    Extend(dispatched, StreamEnd);
    ClosingIsRun(dispatched + [StreamEnd], |After(run).batches|, closed);
    AllClosed(O.Dispatch(After(run).sh, events).pending, closed);
  }

  /**
   The class and the protocol in step: if the object's shared state is the one some run of the protocol reaches, then
   after a Permissions loop it is the one reached by that run followed by the loop's own actions.
   */
  method PermissionsInProtocol(bridge: O.ToolCallBridge, stream: Stream, ghost run: seq<Action>)
    returns (sent: seq<Id>, result: LoopResult, handled: nat, ghost longer: seq<Action>)
    requires bridge.Valid() && IsRun(run) && After(run).sh == bridge.model
    modifies bridge`pending, bridge`model, bridge.repr
    ensures bridge.Valid() && handled <= |stream.events|
    ensures sent == L.Sent(BridgeAcks(stream.events), stream.okSends) && result == BridgeResult(stream)
    ensures run + EventActions(stream.events[..handled]) + [StreamEnd] <= longer
    ensures IsRun(longer) && After(longer).sh == bridge.model
    ensures |After(longer).batches| == |After(run).batches| + 1 && Last(After(longer).batches).todo == {}
  {
    var closed: seq<O.PendingToolCall>;
    sent, result, handled, closed := bridge.Permissions(stream);
    assert Covers(closed, O.Dispatch(After(run).sh, stream.events[..handled]).pending) by {
      assert forall id :: id in bridge.registered ==> bridge.registered[id].name == id;
    }
    longer := LoopRun(run, stream.events[..handled], closed);
    LoopIsARun(run, stream.events[..handled], closed);
  }
}
