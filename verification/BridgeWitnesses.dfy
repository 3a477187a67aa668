/** Runs that show what the theorems about the bridge leave open can really happen. */
module BridgeWitnesses {
  import opened Wire
  import opened Chunking
  import opened BridgeState
  import opened BridgeProtocol
  import opened BridgeTheorems

  // ----- A typed failure that is lost

  /** Two fragments, the second one final and a typed failure. */
  const LATE_FAILURE := [
    ToolResult("call", "ok", "", Some(Chunk(0, 2, false)), []),
    ToolResult("call", "", "boom", Some(Chunk(1, 2, true)), [])]

  lemma LateFailureJoins()
    ensures JoinOutputs(LATE_FAILURE) == Some([])
  {
    var ps := Pieces(LATE_FAILURE);
    assert ps == [Piece(Chunk(0, 2, false), []), Piece(Chunk(1, 2, true), [])];
    assert Find(ps, 0) == 0;
    assert ps[1..][0] == ps[1] && Find(ps[1..], 1) == 0;
    assert Gather(ps, 2) == Gather(ps, 1) == Gather(ps, 0) == [];
  }

  lemma {:induction false} ExtendDelivery(run: seq<Action>, a: Action, id: Id)
    requires !a.Enroll?
    ensures Delivered(run + [a], id)
      == Delivered(run, id) + if a.Reply? && a.fragment.requestId == id then [a.fragment] else []
  {
    assert Front(run + [a]) == run;
  }

  /** At time 0 a call, the only one so far, waits under the default deadline. */
  ghost predicate WaitsAlone(s: State, id: Id, session: Session) {
    && s.calls == map[id := Call(session, Waiting, false, 0, Some(DEFAULT_TOOL_CALL_TIMEOUT), None)]
    && s.now == 0 && Listed(s.sh, id)
  }

  lemma WaitingRun(id: Id, session: Session) returns (run: seq<Action>)
    ensures IsRun(run) && Delivered(run, id) == []
    ensures WaitsAlone(After(run), id, session) && After(run).sh.entries[id] == FRESH_ENTRY
  {
    var begin := [Begin(id, session, 0, None)];
    Extend([], begin[0]);
    assert [] + begin == begin;
    Extend(begin, Enroll(id));
    var enrolled := begin + [Enroll(id)];
    Extend(enrolled, Send(id, true));
    ExtendDelivery(enrolled, Send(id, true), id);
    var sent := enrolled + [Send(id, true)];
    Extend(sent, Arm(id));
    ExtendDelivery(sent, Arm(id), id);
    run := sent + [Arm(id)];
  }

  /** A run in which the host fails a call after its first chunk, and the call returns a success. */
  lemma LateFailureSucceeds() returns (run: seq<Action>)
    ensures IsRun(run) && Delivered(run, "call") == LATE_FAILURE
    ensures At(After(run), "call", Replied(Success("ok", [])))
  {
    var id, first, second := "call", Reply(LATE_FAILURE[0]), Reply(LATE_FAILURE[1]);
    var waiting := WaitingRun(id, "session");
    Extend(waiting, first);
    ExtendDelivery(waiting, first, id);
    Extend(waiting + [first], second);
    ExtendDelivery(waiting + [first], second, id);
    var replied := waiting + [first] + [second];
    LateFailureJoins();
    assert After(replied).sh.entries[id].fragments == LATE_FAILURE;
    Extend(replied, SelectDone(id));
    ExtendDelivery(replied, SelectDone(id), id);
    run := replied + [SelectDone(id)];
  }

  // ----- A host that answers and is cached all the same

  /** Non-terminal fragments leave the call waiting, granted as before. */
  lemma {:induction false} RepliesRun(run: seq<Action>, id: Id, session: Session, fs: seq<ToolResult>)
      returns (longer: seq<Action>)
    requires IsRun(run) && WaitsAlone(After(run), id, session) && Delivered(run, id) == []
    requires Quiet(fs) && forall i :: 0 <= i < |fs| ==> fs[i].requestId == id
    ensures IsRun(longer) && WaitsAlone(After(longer), id, session) && Delivered(longer, id) == fs
    ensures After(longer).sh.entries[id].grant == After(run).sh.entries[id].grant
  {
    if fs == [] {
      longer := run;
    } else {
      var front := RepliesRun(run, id, session, Front(fs));
      var a := Reply(Last(fs));
      Extend(front, a);
      ExtendDelivery(front, a, id);
      longer := front + [a];
      assert Front(fs) + [Last(fs)] == fs;
    }
  }

  /** A granted call that waits alone reaches its deadline and has its session cached. */
  lemma {:induction false} ExpiryRun(run: seq<Action>, id: Id, session: Session) returns (longer: seq<Action>)
    requires IsRun(run) && WaitsAlone(After(run), id, session) && After(run).sh.entries[id].grant
    ensures IsRun(longer) && Delivered(longer, id) == Delivered(run, id)
    ensures session in After(longer).sh.unsupported && After(longer).calls.Keys == {id}
  {
    var tick, end := Tick(DEFAULT_TOOL_CALL_TIMEOUT), ContextEnd(id, DeadlineExceeded);
    Extend(run, tick);
    ExtendDelivery(run, tick, id);
    Extend(run + [tick], end);
    ExtendDelivery(run + [tick], end, id);
    longer := CachingRun(run + [tick] + [end], id);
  }

  lemma {:induction false} CachingRun(run: seq<Action>, id: Id) returns (longer: seq<Action>)
    requires IsRun(run) && At(After(run), id, Waiting) && After(run).calls[id].ended == Some(DeadlineExceeded)
    requires Granted(After(run).sh, id)
    ensures IsRun(longer) && Delivered(longer, id) == Delivered(run, id)
    ensures After(run).calls[id].session in After(longer).sh.unsupported
    ensures After(longer).calls.Keys == After(run).calls.Keys
  {
    var select := SelectContext(id, DeadlineExceeded);
    Extend(run, select);
    ExtendDelivery(run, select, id);
    Extend(run + [select], Cache(id));
    ExtendDelivery(run + [select], Cache(id), id);
    longer := run + [select] + [Cache(id)];
  }

  /**
   However many non-terminal fragments the host has delivered to a granted call, the call's deadline caches the session,
   and another call is then turned away that would have passed the check in a run of its own.
   */
  lemma CachedByAnother(id: Id, other: Id, session: Session, fs: seq<ToolResult>) returns (run: seq<Action>)
    requires other != id && Quiet(fs) && forall i :: 0 <= i < |fs| ==> fs[i].requestId == id
    ensures IsRun(run) && Delivered(run, id) == fs && session in After(run).sh.unsupported
    ensures FoundCached(run, other) && At(After(run), other, GaveUp(ToolError(HOST_UNSUPPORTED)))
    ensures IsRun(Project(run, other)) && At(After(Project(run, other)), other, Checked)
  {
    var waiting := WaitingRun(id, session);
    Extend(waiting, Grant(id));
    ExtendDelivery(waiting, Grant(id), id);
    var replied := RepliesRun(waiting + [Grant(id)], id, session, fs);
    var cached := ExpiryRun(replied, id, session);
    var begin := Begin(other, session, 0, None);
    Extend(cached, begin);
    ExtendDelivery(cached, begin, id);
    run := cached + [begin];
    assert Front(run) == cached;
    ProjectionFollows(run, other);
  }
}
