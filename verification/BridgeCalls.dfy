/**
 The code of `CallAdapterTool` on the bridge object, in the three pieces that its blocking wait leaves: up to the wait,
 and the two ways on from it. Each piece is a run of the protocol.
 */
module BridgeCalls {
  import opened Wire
  import opened BridgeProtocol
  import B = BridgeState
  import O = BridgeObject

  /** The object's shared state is the one the run reaches. */
  ghost predicate InStep(bridge: O.ToolCallBridge, run: seq<Action>)
    reads bridge, bridge.repr
  {
    bridge.Valid() && IsRun(run) && After(run).sh == bridge.model
  }

  lemma {:induction false} FreshId(run: seq<Action>, id: Id)
    requires IsRun(run) && id !in After(run).calls
    ensures id !in After(run).sh.entries && id !in After(run).sh.pending
  {
    InvHolds(run);
    assert id in After(run).sh.entries ==> EntryOk(After(run), id);
  }

  // ----- Up to the wait

  /** The return before the wait, if there is one. */
  function EarlyReturn(sh: B.Shared, session: Session, buildable: bool, sendOk: bool): Option<B.CallResult> {
    if session in sh.unsupported then Some(B.ToolError(B.HOST_UNSUPPORTED))
    else if !buildable then Some(B.InvalidCall)
    else if !sendOk then Some(B.SendError)
    else None
  }

  /** The caller's deadline, or its timeout, or 60 seconds from now. */
  function WaitsUntil(now: nat, timeout: int, deadline: Option<nat>): Option<nat> {
    if deadline.Some? then deadline else Some(now + if timeout > 0 then timeout else 60_000_000_000)
  }

  /** The check, and a call whose payload cannot be built. */
  lemma {:induction false} CheckRun(run: seq<Action>, begin: Action, buildable: bool) returns (longer: seq<Action>)
    requires IsRun(run) && begin.Begin? && begin.id !in After(run).calls
    ensures IsRun(longer) && run <= longer && After(longer).sh == After(run).sh && begin.id in After(longer).calls
    ensures After(longer).now == After(run).now
    ensures var c := After(longer).calls[begin.id];
      c.session == begin.session && c.timeout == begin.timeout && c.deadline == begin.deadline
    ensures After(longer).calls[begin.id].pc ==
      if begin.session in After(run).sh.unsupported then GaveUp(B.ToolError(B.HOST_UNSUPPORTED))
      else if buildable then Checked else GaveUp(B.InvalidCall)
  {
    Extend(run, begin);
    longer := run + [begin];
    if begin.session !in After(run).sh.unsupported && !buildable {
      Extend(longer, Reject(begin.id));
      longer := longer + [Reject(begin.id)];
    }
  }

  lemma {:induction false} EnrollRun(run: seq<Action>, id: Id, sendOk: bool) returns (longer: seq<Action>)
    requires IsRun(run) && At(After(run), id, Checked)
    ensures IsRun(longer) && run <= longer
    ensures var s := After(run); After(longer) == s.(
      sh := B.Register(s.sh, id), sends := s.sends + [id],
      calls := s.calls[id := s.calls[id].(pc := if sendOk then Sent else SendFailed)])
  {
    Extend(run, Enroll(id));
    Extend(run + [Enroll(id)], Send(id, sendOk));
    longer := run + [Enroll(id)] + [Send(id, sendOk)];
  }

  /** Registering and sending, and a send that fails. */
  lemma {:induction false} SendRun(run: seq<Action>, id: Id, sendOk: bool) returns (longer: seq<Action>)
    requires IsRun(run) && At(After(run), id, Checked)
    ensures IsRun(longer) && run <= longer && id in After(longer).calls
    ensures After(longer).calls[id].session == After(run).calls[id].session
    ensures After(longer).sh ==
      if sendOk then B.Register(After(run).sh, id) else B.Remove(B.Register(After(run).sh, id), id)
    ensures After(longer).calls[id].pc == if sendOk then Waiting else GaveUp(B.SendError)
    ensures sendOk ==> var c := After(run).calls[id];
      After(longer).calls[id].deadline == WaitsUntil(After(run).now, c.timeout, c.deadline)
  {
    var sent := EnrollRun(run, id, sendOk);
    var last := if sendOk then Arm(id) else DropFailed(id);
    Extend(sent, last);
    longer := sent + [last];
  }

  /** From the cache check to the wait, or to one of the returns before it. */
  method StartCall(bridge: O.ToolCallBridge, id: Id, session: Session, timeout: int, deadline: Option<nat>,
                   buildable: bool, sendOk: bool, ghost run: seq<Action>)
    returns (returned: Option<B.CallResult>, entry: Option<O.PendingToolCall>, ghost longer: seq<Action>)
    requires InStep(bridge, run) && id !in After(run).calls
    modifies bridge
    ensures InStep(bridge, longer) && run <= longer
    ensures returned == EarlyReturn(old(bridge.model), session, buildable, sendOk)
    ensures id in After(longer).calls && After(longer).calls[id].session == session
    ensures After(longer).calls[id].pc == if returned.Some? then GaveUp(returned.value) else Waiting
    ensures returned.Some? ==> id !in bridge.pending
    ensures returned.None? ==> id in bridge.registered && entry == Some(bridge.registered[id])
    ensures returned.None? ==> After(longer).calls[id].deadline == WaitsUntil(After(run).now, timeout, deadline)
  {
    FreshId(run, id);
    longer := CheckRun(run, Begin(id, session, timeout, deadline), buildable);
    var known := bridge.SessionUnsupported(session);
    if known {
      return Some(B.ToolError(B.HOST_UNSUPPORTED)), None, longer;
    }
    if !buildable {
      return Some(B.InvalidCall), None, longer;
    }
    longer := SendRun(longer, id, sendOk);
    var e := bridge.Register(id);
    if !sendOk {
      bridge.Remove(id);
      return Some(B.SendError), None, longer;
    }
    return None, Some(e), longer;
  }

  // ----- On from the wait

  /** The `select` saw the closed channel: `finishToolCall` reads the entry. */
  method FinishCall(bridge: O.ToolCallBridge, id: Id, entry: O.PendingToolCall, ghost run: seq<Action>)
    returns (result: B.CallResult, ghost longer: seq<Action>)
    requires InStep(bridge, run) && At(After(run), id, Waiting)
    requires id in bridge.registered && entry == bridge.registered[id] && entry.done
    ensures InStep(bridge, longer) && run <= longer
    ensures At(After(longer), id, Replied(result)) && result != B.IndexPanic
  {
    if entry.err {
      result := B.PermissionsClosed;
    } else if entry.cancelled.Some? {
      result := B.Denied(entry.cancelled.value);
    } else {
      result := B.Interpret(entry.fragments);
    }
    InvHolds(run);
    assert EntryOk(After(run), id);
    assert entry.View() == After(run).sh.entries[id];
    Extend(run, SelectDone(id));
    longer := run + [SelectDone(id)];
  }

  function ContextVerdict(sh: B.Shared, id: Id, err: B.ContextErr): B.CallResult {
    if B.Granted(sh, id) && err == B.DeadlineExceeded then B.ToolError(B.HOST_UNSUPPORTED) else B.ContextError(err)
  }

  lemma {:induction false} AbandonRun(run: seq<Action>, id: Id, err: B.ContextErr) returns (longer: seq<Action>)
    requires IsRun(run) && At(After(run), id, Waiting) && After(run).calls[id].ended == Some(err)
    ensures IsRun(longer) && run <= longer
    ensures At(After(longer), id, GaveUp(ContextVerdict(After(run).sh, id, err)))
    ensures var taken := B.Remove(After(run).sh, id);
      After(longer).sh == if B.Granted(After(run).sh, id) && err == B.DeadlineExceeded
        then B.CacheSession(taken, After(run).calls[id].session) else B.Remove(taken, id)
  {
    var select := SelectContext(id, err);
    Extend(run, select);
    var last := if B.Granted(After(run).sh, id) && err == B.DeadlineExceeded then Cache(id) else Leave(id);
    Extend(run + [select], last);
    longer := run + [select] + [last];
  }

  /** The `select` saw the end of the context. */
  method AbandonCall(bridge: O.ToolCallBridge, id: Id, session: Session, err: B.ContextErr, ghost run: seq<Action>)
    returns (result: B.CallResult, ghost longer: seq<Action>)
    requires InStep(bridge, run) && At(After(run), id, Waiting)
    requires After(run).calls[id].session == session && After(run).calls[id].ended == Some(err)
    modifies bridge`pending, bridge`unsupportedSessions, bridge`model
    ensures InStep(bridge, longer) && run <= longer
    ensures result == ContextVerdict(old(bridge.model), id, err)
    ensures At(After(longer), id, GaveUp(result)) && id !in bridge.pending
    ensures bridge.unsupportedSessions == old(bridge.unsupportedSessions)
      + if result == B.ToolError(B.HOST_UNSUPPORTED) then {session} else {}
  {
    longer := AbandonRun(run, id, err);
    var granted := bridge.TakeGrant(id);
    if granted && err == B.DeadlineExceeded {
      bridge.CacheUnsupported(session);
      return B.ToolError(B.HOST_UNSUPPORTED), longer;
    }
    bridge.Remove(id);
    return B.ContextError(err), longer;
  }
}
