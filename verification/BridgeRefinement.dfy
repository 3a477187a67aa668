/**
 The protocol refines a one-slot automaton per call. The automaton sees one event at a time, has no map, no
 channels and no batches, and resolves a call at the very moment a stream ends.
 */
module BridgeRefinement {
  import opened Wire
  import opened BridgeState
  import opened BridgeProtocol

  datatype Slot =
    | Absent
    | Open(granted: bool, got: seq<ToolResult>)
    | Answered(result: CallResult)
    | Dropped

  /** The effect on an open slot of an event about its call, or of the end of a stream. */
  ghost function React(slot: Slot, a: Action): Slot
    requires slot.Open?
  {
    match a
    case Grant(_) => slot.(granted := true)
    case Deny(_, reason) => Answered(Denied(reason))
    case Reply(f) =>
      if Terminal(f) then Answered(Interpret(slot.got + [f])) else slot.(got := slot.got + [f])
    case StreamEnd => Answered(PermissionsClosed)
    case DropFailed(_) => Dropped
    case SelectContext(_, _) => Dropped
    case _ => slot
  }

  ghost function Next(slot: Slot, a: Action, id: Id): Slot {
    if a == Enroll(id) then Open(false, [])
    else if slot.Open? && Concerns(a, id) then React(slot, a)
    else slot
  }

  ghost function SlotAfter(run: seq<Action>, id: Id): Slot {
    if run == [] then Absent else Next(SlotAfter(Front(run), id), Last(run), id)
  }

  ghost predicate Tracks(s: State, id: Id, slot: Slot) {
    match slot
    case Absent => id !in s.sh.entries
    case Open(granted, got) =>
      && id in s.sh.entries && id in s.sh.pending
      && s.sh.entries[id].grant == granted && s.sh.entries[id].fragments == got
    case Answered(result) =>
      && id in s.sh.entries && id !in s.sh.pending
      && (s.sh.entries[id].closes > 0 ==> Finish(s.sh.entries[id]) == result)
      && (s.sh.entries[id].closes == 0 ==> result == PermissionsClosed && BatchCount(s.batches, id) > 0)
    case Dropped => id in s.sh.entries && id !in s.sh.pending && id in s.calls && s.calls[id].abandoned
  }

  /** Steps about other calls leave a slot's view alone. */
  lemma TracksOther(s: State, a: Action, id: Id, slot: Slot)
    requires Enabled(s, a) && Tracks(s, id, slot) && !Concerns(a, id) && BatchCountFollows(s, a, id)
    ensures Tracks(Step(s, a), id, slot)
  {
  }

  lemma TracksOpen(s: State, a: Action, id: Id, slot: Slot)
    requires Enabled(s, a) && Tracks(s, id, slot) && slot.Open? && Concerns(a, id) && BatchCountFollows(s, a, id)
    requires EntryOk(s, id) && CallOk(s, id)
    ensures Tracks(Step(s, a), id, Next(slot, a, id))
  {
  }

  lemma TracksSettled(s: State, a: Action, id: Id, slot: Slot)
    requires Enabled(s, a) && Tracks(s, id, slot) && !slot.Open? && Concerns(a, id) && BatchCountFollows(s, a, id)
    requires id in s.sh.entries ==> EntryOk(s, id)
    requires id in s.calls ==> CallOk(s, id)
    requires a.CloseOne? ==> BatchOk(s, s.batches[a.batch])
    ensures Tracks(Step(s, a), id, Next(slot, a, id))
  {
  }

  /** Every run of the protocol is tracked by every call's automaton. */
  lemma {:induction false} SlotTracks(run: seq<Action>, id: Id)
    requires IsRun(run)
    ensures Tracks(After(run), id, SlotAfter(run, id))
  {
    if run != [] {
      var s, a, slot := After(Front(run)), Last(run), SlotAfter(Front(run), id);
      SlotTracks(Front(run), id);
      InvHolds(Front(run));
      BatchCountStep(s, a, id);
      if !Concerns(a, id) {
        TracksOther(s, a, id, slot);
      } else if slot.Open? {
        TracksOpen(s, a, id, slot);
      } else {
        TracksSettled(s, a, id, slot);
      }
    }
  }

  /** A call returning through `done` returns the automaton's answer: the two halves of `closeAll` look like one. */
  lemma {:induction false} RepliesAreAtomic(run: seq<Action>, id: Id)
    requires IsRun(run) && id in After(run).calls && After(run).calls[id].pc.Replied?
    ensures SlotAfter(run, id) == Answered(After(run).calls[id].pc.result)
  {
    SlotTracks(run, id);
    InvHolds(run);
    assert CallOk(After(run), id);
    assert EntryOk(After(run), id);
  }

  /** An answered call is never stranded: its channel is closed, or a running `closeAll` is about to close it. */
  lemma {:induction false} AnsweredIsNotStranded(run: seq<Action>, id: Id)
    requires IsRun(run) && SlotAfter(run, id).Answered?
    ensures id in After(run).sh.entries
    ensures After(run).sh.entries[id].closes == 1 || BatchCount(After(run).batches, id) == 1
  {
    SlotTracks(run, id);
    InvHolds(run);
    assert EntryOk(After(run), id);
  }

  /** The deadline verdict: host_unsupported exactly for an open, granted slot at a deadline. */
  lemma {:induction false} DeadlineVerdict(run: seq<Action>, id: Id, err: ContextErr)
    requires IsRun(run) && run != [] && Last(run) == SelectContext(id, err)
    ensures id in After(run).calls
    ensures var slot := SlotAfter(Front(run), id);
      After(run).calls[id].pc ==
        if err == DeadlineExceeded && slot.Open? && slot.granted then Caching else Leaving(err)
  {
    SlotTracks(Front(run), id);
  }
}
