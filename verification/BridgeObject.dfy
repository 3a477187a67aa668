/** `ToolCallBridge` and its pending entries as mutable objects; each critical section refines its function. */
module BridgeObject {
  import opened Wire
  import opened PermissionLoops
  import B = BridgeState

  class PendingToolCall {
    var grant: bool
    var fragments: seq<ToolResult>
    var cancelled: Option<string>
    var err: bool
    var done: bool // the channel is closed
    ghost const name: Id // the request id it was registered under

    constructor (ghost requestId: Id)
      ensures View() == B.FRESH_ENTRY && name == requestId
    {
      name := requestId;
      grant, fragments, cancelled, err, done := false, [], None, false, false;
    }

    ghost function View(): B.Entry
      reads this
    {
      B.Entry(grant, fragments, cancelled, err, if done then 1 else 0)
    }

    /** `close(done)`: panics on a closed channel, hence the precondition. */
    method Close()
      requires !done
      modifies this`done
      ensures done
    {
      done := true;
    }
  }

  /** What one Permissions loop did, in order. */
  datatype LoopAct = Ack(id: Id) | Mark(id: Id)

  function WithCancelled(sh: B.Shared, id: Id, reason: string): B.Shared
    requires id in sh.entries
  {
    sh.(entries := sh.entries[id := sh.entries[id].(cancelled := Some(reason))])
  }

  function WithFragment(sh: B.Shared, f: ToolResult): B.Shared
    requires f.requestId in sh.entries
  {
    var e := sh.entries[f.requestId];
    sh.(entries := sh.entries[f.requestId := e.(fragments := e.fragments + [f])])
  }

  lemma CancelParts(sh: B.Shared, id: Id, reason: string)
    requires B.Listed(sh, id)
    ensures B.RouteCancel(sh, id, reason) == B.CloseDone(B.Remove(WithCancelled(sh, id, reason), id), id)
  {
    var t := WithCancelled(sh, id, reason);
    assert t.entries[id := B.RouteCancel(sh, id, reason).entries[id]] == B.RouteCancel(sh, id, reason).entries;
  }

  lemma ResultParts(sh: B.Shared, f: ToolResult)
    requires B.Listed(sh, f.requestId)
    ensures B.RouteResult(sh, f) ==
      var t := WithFragment(sh, f);
      if B.Terminal(f) then B.CloseDone(B.Remove(t, f.requestId), f.requestId) else t
  {
    var t, id := WithFragment(sh, f), f.requestId;
    assert t.entries[id := B.RouteResult(sh, f).entries[id]] == B.RouteResult(sh, f).entries;
  }

  /** Each acknowledgment directly followed by its mark. */
  function AckThenMark(ids: seq<Id>): seq<LoopAct> {
    if ids == [] then []
    else AckThenMark(ids[..|ids| - 1]) + [Ack(ids[|ids| - 1]), Mark(ids[|ids| - 1])]
  }

  /** Acknowledgment k and its mark are acts 2k and 2k + 1. */
  lemma {:induction false} AckBeforeMark(ids: seq<Id>, k: nat)
    requires k < |ids|
    ensures |AckThenMark(ids)| == 2 * |ids|
    ensures AckThenMark(ids)[2 * k] == Ack(ids[k]) && AckThenMark(ids)[2 * k + 1] == Mark(ids[k])
  {
    var n := |ids| - 1;
    if n > 0 {
      AckBeforeMark(ids[..n], if k < n then k else 0);
    }
  }

  function DispatchOne(sh: B.Shared, ev: PermissionEvent): B.Shared {
    match ev
    case Request(id) => if id == "" then sh else B.MarkGranted(sh, id)
    case Cancel(id, reason) => B.RouteCancel(sh, id, reason)
    case ToolReply(f) => B.RouteResult(sh, f)
    case Other => sh
  }

  /** The effect of the dispatched events, in arrival order. */
  function Dispatch(sh: B.Shared, events: seq<PermissionEvent>): B.Shared {
    if events == [] then sh
    else DispatchOne(Dispatch(sh, events[..|events| - 1]), events[|events| - 1])
  }

  function CloseOne(sh: B.Shared, id: Id): B.Shared {
    B.CloseDone(B.WriteErr(sh, id), id)
  }

  /** Second half of `closeAll` over a whole batch. */
  ghost function CloseMany(sh: B.Shared, entries: seq<PendingToolCall>): B.Shared {
    if entries == [] then sh
    else CloseOne(CloseMany(sh, entries[..|entries| - 1]), entries[|entries| - 1].name)
  }

  class ToolCallBridge {
    var pending: map<Id, PendingToolCall>
    var unsupportedSessions: set<Session>
    ghost var registered: map<Id, PendingToolCall> // every entry ever registered, by its id
    ghost var repr: set<PendingToolCall>

    ghost var model: B.Shared // the abstract state; Valid ties it to the fields

    ghost predicate Valid()
      reads this, repr
    {
      && model.pending == pending.Keys
      && model.unsupported == unsupportedSessions
      && model.entries.Keys == registered.Keys
      && (forall id :: id in registered ==>
           registered[id] in repr && registered[id].name == id && registered[id].View() == model.entries[id])
      && (forall id :: id in pending ==> id in registered && pending[id] == registered[id] && !pending[id].done)
    }

    constructor ()
      ensures Valid() && model == B.EMPTY_SHARED
    {
      pending, unsupportedSessions, registered, repr, model := map[], {}, map[], {}, B.EMPTY_SHARED;
    }

    method Register(requestId: Id) returns (entry: PendingToolCall)
      requires Valid() && requestId !in registered
      modifies this
      ensures Valid() && fresh(entry)
      ensures registered == old(registered)[requestId := entry] && repr == old(repr) + {entry}
      ensures model == B.Register(old(model), requestId)
    {
      entry := new PendingToolCall(requestId);
      pending := pending[requestId := entry];
      registered, repr := registered[requestId := entry], repr + {entry};
      model := B.Register(model, requestId);
    }

    method Remove(requestId: Id)
      requires Valid()
      modifies this`pending, this`model
      ensures Valid() && model == B.Remove(old(model), requestId)
    {
      pending := pending - {requestId};
      model := B.Remove(model, requestId);
    }

    method TakeGrant(requestId: Id) returns (granted: bool)
      requires Valid()
      modifies this`pending, this`model
      ensures Valid() && model == B.Remove(old(model), requestId)
      ensures granted == B.Granted(old(model), requestId)
    {
      granted := requestId in pending && pending[requestId].grant;
      pending := pending - {requestId};
      model := B.Remove(model, requestId);
    }

    method SessionUnsupported(session: Session) returns (known: bool)
      requires Valid()
      ensures known == (session in model.unsupported)
    {
      known := session in unsupportedSessions;
    }

    method CacheUnsupported(session: Session)
      requires Valid()
      modifies this`unsupportedSessions, this`model
      ensures Valid() && model == B.CacheSession(old(model), session)
    {
      unsupportedSessions := unsupportedSessions + {session};
      model := B.CacheSession(model, session);
    }

    method MarkGranted(requestId: Id)
      requires Valid()
      modifies this`model, repr
      ensures Valid() && model == B.MarkGranted(old(model), requestId)
    {
      if requestId in pending {
        pending[requestId].grant := true;
      }
      model := B.MarkGranted(model, requestId);
    }

    /** Drops a listed entry from the map and closes its channel. */
    method Resolve(requestId: Id)
      requires Valid() && requestId in pending
      modifies this`pending, this`model, pending[requestId]
      ensures Valid() && model == B.CloseDone(B.Remove(old(model), requestId), requestId)
    {
      var entry := pending[requestId];
      pending := pending - {requestId};
      entry.Close();
      model := B.CloseDone(B.Remove(model, requestId), requestId);
    }

    method SetCancelled(requestId: Id, reason: string)
      requires Valid() && requestId in pending
      modifies this`model, pending[requestId]
      ensures Valid()
      ensures requestId in old(model).entries && model == WithCancelled(old(model), requestId, reason)
    {
      var entry := pending[requestId];
      entry.cancelled := Some(reason);
      model := WithCancelled(model, requestId, reason);
    }

    method RouteCancel(requestId: Id, reason: string)
      requires Valid()
      modifies this`pending, this`model, repr
      ensures Valid() && model == B.RouteCancel(old(model), requestId, reason)
    {
      if requestId in pending {
        CancelParts(model, requestId, reason);
        SetCancelled(requestId, reason);
        Resolve(requestId);
      }
    }

    method Append(f: ToolResult)
      requires Valid() && f.requestId in pending
      modifies this`model, pending[f.requestId]
      ensures Valid()
      ensures f.requestId in old(model).entries && model == WithFragment(old(model), f)
    {
      var entry := pending[f.requestId];
      entry.fragments := entry.fragments + [f];
      model := WithFragment(model, f);
    }

    method RouteResult(f: ToolResult)
      requires Valid()
      modifies this`pending, this`model, repr
      ensures Valid() && model == B.RouteResult(old(model), f)
    {
      if f.requestId in pending {
        ResultParts(model, f);
        Append(f);
        if f.callError != "" || f.chunk.None? || f.chunk.value.final {
          Resolve(f.requestId);
        }
      }
    }

    /** A batch taken out of the map: distinct entries, none of them pending, open from position `from` on. */
    ghost predicate IsBatch(entries: seq<PendingToolCall>, from: nat)
      reads this
    {
      && (forall i :: 0 <= i < |entries| ==>
           && entries[i].name in registered && registered[entries[i].name] == entries[i]
           && entries[i].name !in pending)
      && (forall i :: from <= i < |entries| ==>
           entries[i].name in model.entries && model.entries[entries[i].name].closes == 0)
      && (forall i, j :: 0 <= i < j < |entries| ==> entries[i] != entries[j])
    }

    /** The map's entries, in the arbitrary order of a map iteration. */
    method Listed() returns (entries: seq<PendingToolCall>)
      requires Valid()
      ensures forall id :: id in pending ==> pending[id] in entries
      ensures forall i :: 0 <= i < |entries| ==> entries[i].name in pending && pending[entries[i].name] == entries[i]
      ensures forall i, j :: 0 <= i < j < |entries| ==> entries[i] != entries[j]
    {
      var rest := pending;
      entries := [];
      while rest != map[]
        invariant forall id :: id in rest ==> id in pending && rest[id] == pending[id]
        invariant forall id :: id in pending ==> id in rest || pending[id] in entries
        invariant forall i :: 0 <= i < |entries| ==>
          && entries[i].name in pending && pending[entries[i].name] == entries[i]
          && entries[i].name !in rest
        invariant forall i, j :: 0 <= i < j < |entries| ==> entries[i] != entries[j]
        decreases |rest|
      {
        var id :| id in rest;
        entries := entries + [rest[id]];
        rest := rest - {id};
      }
    }

    /** First half of `closeAll`. */
    method TakeAll() returns (entries: seq<PendingToolCall>)
      requires Valid()
      modifies this`pending, this`model
      ensures Valid() && model == B.TakeAll(old(model))
      ensures IsBatch(entries, 0)
      ensures forall id :: id in old(pending) ==> old(pending)[id] in entries
      ensures forall i :: 0 <= i < |entries| ==> entries[i].name in old(pending)
    {
      entries := Listed();
      pending := map[];
      model := B.TakeAll(model);
    }

    method CloseEntry(entry: PendingToolCall)
      requires Valid() && entry.name in registered && registered[entry.name] == entry
      requires entry.name !in pending && !entry.done
      modifies this`model, entry
      ensures Valid() && model == CloseOne(old(model), entry.name)
    {
      entry.err := true;
      entry.Close();
      model := CloseOne(model, entry.name);
    }

    method CloseNth(entries: seq<PendingToolCall>, i: nat)
      requires Valid() && IsBatch(entries, i) && i < |entries|
      modifies this`model, entries[i]
      ensures Valid() && IsBatch(entries, i + 1)
      ensures model == CloseOne(old(model), entries[i].name)
    {
      CloseEntry(entries[i]);
    }

    /** Second half of `closeAll`, run after the lock is released. */
    method CloseTaken(entries: seq<PendingToolCall>)
      requires Valid() && IsBatch(entries, 0)
      modifies this`model, entries
      ensures Valid() && model == CloseMany(old(model), entries)
    {
      var i := 0;
      while i < |entries|
        invariant 0 <= i <= |entries|
        invariant Valid() && IsBatch(entries, i)
        invariant model == CloseMany(old(model), entries[..i])
      {
        CloseNth(entries, i);
        assert entries[..i + 1][..i] == entries[..i];
        i := i + 1;
      }
      assert entries[..i] == entries;
    }

    /** The routing part of one loop iteration. */
    method Route(ev: PermissionEvent)
      requires Valid()
      modifies this`pending, this`model, repr
      ensures Valid() && model == DispatchOne(old(model), ev)
    {
      match ev
      case Request(id) => if id != "" { MarkGranted(id); }
      case Cancel(id, reason) => RouteCancel(id, reason);
      case ToolReply(f) => RouteResult(f);
      case Other =>
    }

    /** The receive loop of `Permissions`: an allow-grant is marked only once its acknowledgment went out. */
    method Receive(stream: Stream)
      returns (sent: seq<Id>, result: LoopResult, log: seq<LoopAct>, handled: nat)
      requires Valid()
      modifies this`pending, this`model, repr
      ensures Valid()
      ensures handled <= |stream.events|
      ensures sent == BridgeAcks(stream.events[..handled]) == Sent(BridgeAcks(stream.events), stream.okSends)
      ensures result == BridgeResult(stream)
      ensures result != LoopResult.SendFailed ==> handled == |stream.events|
      ensures log == AckThenMark(sent)
      ensures model == Dispatch(old(model), stream.events[..handled])
    {
      sent, log, handled := [], [], 0;
      while handled < |stream.events|
        invariant 0 <= handled <= |stream.events|
        invariant Valid()
        invariant sent == BridgeAcks(stream.events[..handled]) && |sent| <= stream.okSends
        invariant log == AckThenMark(sent)
        invariant model == Dispatch(old(model), stream.events[..handled])
      {
        var ev := stream.events[handled];
        assert stream.events[..handled + 1][..handled] == stream.events[..handled];
        BridgeAcksPrefix(stream.events, handled);
        if ev.Request? && ev.id != "" {
          if |sent| == stream.okSends {
            return sent, LoopResult.SendFailed, log, handled;
          }
          sent, log := sent + [ev.id], log + [Ack(ev.id)];
        }
        Route(ev);
        if ev.Request? && ev.id != "" {
          log := log + [Mark(ev.id)];
        }
        handled := handled + 1;
      }
      assert stream.events[..handled] == stream.events;
      result := if stream.end.Broken? then LoopResult.RecvFailed else LoopResult.Clean;
    }

    /** One Permissions loop running undisturbed: events in arrival order, then `closeAll`. */
    method Permissions(stream: Stream)
      returns (sent: seq<Id>, result: LoopResult, handled: nat, closed: seq<PendingToolCall>)
      requires Valid()
      modifies this`pending, this`model, repr
      ensures Valid() && handled <= |stream.events|
      ensures sent == Sent(BridgeAcks(stream.events), stream.okSends)
      ensures result == BridgeResult(stream)
      ensures result != LoopResult.SendFailed ==> handled == |stream.events|
      ensures model == CloseMany(B.TakeAll(Dispatch(old(model), stream.events[..handled])), closed)
      ensures forall i :: 0 <= i < |closed| ==>
        closed[i].name in Dispatch(old(model), stream.events[..handled]).pending
      ensures forall i, j :: 0 <= i < j < |closed| ==> closed[i].name != closed[j].name
      ensures forall id :: id in Dispatch(old(model), stream.events[..handled]).pending ==>
        id in registered && registered[id] in closed
    {
      var log: seq<LoopAct>;
      sent, result, log, handled := Receive(stream);
      closed := TakeAll();
      CloseTaken(closed);
    }
  }
}
