/**
 `ToolCallBridge` as a concurrent protocol: any number of callers and Permissions loops, interleaved at the
 granularity of the mutex. `closeAll` is split where it leaves the lock, and the `select` of a waiting caller
 is a free choice between its two ready cases.
 */
module BridgeProtocol {
  import opened Wire
  import opened BridgeState

  /** Control point of one `CallAdapterTool`. `Replied` returned through `done`, `GaveUp` any other way. */
  datatype Pc =
    | Checked
    | Registered
    | Sent
    | Waiting
    | SendFailed
    | Caching
    | Leaving(err: ContextErr)
    | Replied(result: CallResult)
    | GaveUp(result: CallResult)
  {
    predicate Over() {
      Replied? || GaveUp?
    }
  }

  /**
   `abandoned` records that the caller itself took its entry out of the pending map. `deadline` and `ended` are the
   call's context: the instant at which it expires, if any, and the error it ended with.
   */
  datatype Call = Call(
    session: Session, pc: Pc, abandoned: bool, timeout: int, deadline: Option<nat>, ended: Option<ContextErr>)

  /** One running `closeAll`: what it took, what it still has to close, and the entry whose `err` it wrote. */
  datatype Batch = Batch(taken: set<Id>, todo: set<Id>, marked: Option<Id>)

  /** `sends` is the history of requests put on Execute streams; `now` is the time in nanoseconds. */
  datatype State = State(sh: Shared, batches: seq<Batch>, calls: map<Id, Call>, sends: seq<Id>, now: nat)

  const INITIAL := State(EMPTY_SHARED, [], map[], [], 0)

  const DEFAULT_TOOL_CALL_TIMEOUT: nat := 60_000_000_000

  /** How long a call on a context without a deadline may wait. */
  function ImposedWait(timeout: int): nat {
    if timeout > 0 then timeout else DEFAULT_TOOL_CALL_TIMEOUT
  }

  datatype Action =
    | Begin(id: Id, session: Session, timeout: int, deadline: Option<nat>) // cache check
    | Reject(id: Id)                       // payload cannot be built
    | Enroll(id: Id)                       // register
    | Send(id: Id, ok: bool)
    | Arm(id: Id)                          // a context without a deadline gets one
    | ContextEnd(id: Id, err: ContextErr)  // the caller cancels, or the deadline expires
    | DropFailed(id: Id)                   // remove after a failed send
    | SelectDone(id: Id)
    | SelectContext(id: Id, err: ContextErr) // takeGrant
    | Cache(id: Id)
    | Leave(id: Id)                        // remove after takeGrant
    | Grant(id: Id)                        // markGranted
    | Deny(id: Id, reason: string)         // routeCancel
    | Reply(fragment: ToolResult)          // routeResult
    | StreamEnd                            // closeAll, first half
    | WriteClosed(batch: nat, id: Id)      // closeAll, second half: err
    | CloseOne(batch: nat, id: Id)         // closeAll, second half: close(done)
    | Tick(elapsed: nat)                   // time passes

  /** The call an action is about; the end of a stream and the passing of time are about every call. */
  function Subject(a: Action): Option<Id> {
    match a
    case Reply(f) => Some(f.requestId)
    case StreamEnd => None
    case Tick(_) => None
    case _ => Some(a.id)
  }

  predicate Concerns(a: Action, id: Id) {
    Subject(a) == None || Subject(a) == Some(id)
  }

  predicate At(s: State, id: Id, pc: Pc) {
    id in s.calls && s.calls[id].pc == pc
  }

  predicate Enabled(s: State, a: Action) {
    match a
    case Begin(id, _, _, _) => id !in s.calls
    case Reject(id) => At(s, id, Checked)
    case Enroll(id) => At(s, id, Checked)
    case Send(id, _) => At(s, id, Registered)
    case DropFailed(id) => At(s, id, SendFailed)
    case SelectDone(id) => At(s, id, Waiting) && id in s.sh.entries && s.sh.entries[id].closes > 0
    case Arm(id) => At(s, id, Sent)
    case ContextEnd(id, e) =>
      && id in s.calls && !s.calls[id].pc.Over() && s.calls[id].ended.None?
      && (e == DeadlineExceeded ==> s.calls[id].deadline.Some? && s.calls[id].deadline.value <= s.now)
    case SelectContext(id, e) => At(s, id, Waiting) && s.calls[id].ended == Some(e)
    case Cache(id) => At(s, id, Caching)
    case Leave(id) => id in s.calls && s.calls[id].pc.Leaving?
    case Grant(_) => true
    case Deny(_, _) => true
    case Reply(_) => true
    case StreamEnd => true
    case WriteClosed(k, id) => k < |s.batches| && id in s.batches[k].todo && s.batches[k].marked.None?
    case CloseOne(k, id) => k < |s.batches| && s.batches[k].marked == Some(id)
    case Tick(_) => true
  }

  function Goto(s: State, id: Id, pc: Pc): State
    requires id in s.calls
  {
    s.(calls := s.calls[id := s.calls[id].(pc := pc)])
  }

  /** The caller removes its own entry, if it is still listed, and moves on. */
  function Withdraw(s: State, id: Id, pc: Pc): State
    requires id in s.calls
  {
    var c := s.calls[id];
    s.(sh := Remove(s.sh, id),
       calls := s.calls[id := c.(pc := pc, abandoned := c.abandoned || id in s.sh.pending)])
  }

  function Step(s: State, a: Action): State
    requires Enabled(s, a)
  {
    match a
    case Begin(id, session, timeout, deadline) =>
      var pc := if session in s.sh.unsupported then GaveUp(ToolError(HOST_UNSUPPORTED)) else Checked;
      s.(calls := s.calls[id := Call(session, pc, false, timeout, deadline, None)])
    case Reject(id) => Goto(s, id, GaveUp(InvalidCall))
    case Enroll(id) => Goto(s, id, Registered).(sh := Register(s.sh, id))
    case Send(id, ok) => Goto(s, id, if ok then Sent else SendFailed).(sends := s.sends + [id])
    case Arm(id) =>
      var c := s.calls[id];
      var deadline := if c.deadline.Some? then c.deadline else Some(s.now + ImposedWait(c.timeout));
      s.(calls := s.calls[id := c.(pc := Waiting, deadline := deadline)])
    case ContextEnd(id, e) => s.(calls := s.calls[id := s.calls[id].(ended := Some(e))])
    case DropFailed(id) => Withdraw(s, id, GaveUp(SendError))
    case SelectDone(id) => Goto(s, id, Replied(Finish(s.sh.entries[id])))
    case SelectContext(id, e) =>
      Withdraw(s, id, if Granted(s.sh, id) && e == DeadlineExceeded then Caching else Leaving(e))
    case Cache(id) =>
      Goto(s, id, GaveUp(ToolError(HOST_UNSUPPORTED))).(sh := CacheSession(s.sh, s.calls[id].session))
    case Leave(id) => Withdraw(s, id, GaveUp(ContextError(s.calls[id].pc.err)))
    case Grant(id) => s.(sh := MarkGranted(s.sh, id))
    case Deny(id, reason) => s.(sh := RouteCancel(s.sh, id, reason))
    case Reply(f) => s.(sh := RouteResult(s.sh, f))
    case StreamEnd =>
      s.(sh := TakeAll(s.sh), batches := s.batches + [Batch(s.sh.pending, s.sh.pending, None)])
    case WriteClosed(k, id) =>
      s.(sh := WriteErr(s.sh, id), batches := s.batches[k := s.batches[k].(marked := Some(id))])
    case CloseOne(k, id) =>
      s.(sh := CloseDone(s.sh, id),
         batches := s.batches[k := s.batches[k].(todo := s.batches[k].todo - {id}, marked := None)])
    case Tick(elapsed) => s.(now := s.now + elapsed)
  }

  /** A run is a sequence of actions, each enabled where it is taken. */
  ghost predicate IsRun(run: seq<Action>)
    decreases |run|, 0
  {
    run == [] || (IsRun(Front(run)) && Enabled(After(Front(run)), Last(run)))
  }

  ghost function After(run: seq<Action>): State
    requires IsRun(run)
    decreases |run|, 1
  {
    if run == [] then INITIAL else Step(After(Front(run)), Last(run))
  }

  function Front<T>(s: seq<T>): (r: seq<T>)
    requires s != []
    ensures |r| == |s| - 1
  {
    s[..|s| - 1]
  }

  function Last<T>(s: seq<T>): T
    requires s != []
  {
    s[|s| - 1]
  }

  lemma Extend(run: seq<Action>, a: Action)
    requires IsRun(run) && Enabled(After(run), a)
    ensures IsRun(run + [a]) && After(run + [a]) == Step(After(run), a)
  {
    assert Front(run + [a]) == run;
  }

  /** Every prefix of a run is a run. */
  lemma {:induction false} PrefixIsRun(run: seq<Action>, n: nat)
    requires IsRun(run) && n <= |run|
    ensures IsRun(run[..n])
  {
    if n == |run| {
      assert run[..n] == run;
    } else {
      PrefixIsRun(Front(run), n);
      assert Front(run)[..n] == run[..n];
    }
  }

  // ----- What every step keeps

  function BatchCount(batches: seq<Batch>, id: Id): nat {
    if batches == [] then 0
    else BatchCount(batches[1..], id) + if id in batches[0].todo then 1 else 0
  }

  lemma {:induction false} BatchCountSnoc(batches: seq<Batch>, b: Batch, id: Id)
    ensures BatchCount(batches + [b], id) == BatchCount(batches, id) + if id in b.todo then 1 else 0
  {
    if batches == [] {
      assert batches + [b] == [b];
    } else {
      assert (batches + [b])[1..] == batches[1..] + [b];
      BatchCountSnoc(batches[1..], b, id);
    }
  }

  lemma {:induction false} BatchCountUpdate(batches: seq<Batch>, k: nat, b: Batch, id: Id)
    requires k < |batches|
    ensures BatchCount(batches[k := b], id) + (if id in batches[k].todo then 1 else 0)
         == BatchCount(batches, id) + (if id in b.todo then 1 else 0)
  {
    if k == 0 {
      assert batches[0 := b][1..] == batches[1..];
    } else {
      assert batches[k := b][1..] == batches[1..][k - 1 := b];
      BatchCountUpdate(batches[1..], k - 1, b, id);
    }
  }

  lemma {:induction false} BatchCountMember(batches: seq<Batch>, k: nat, id: Id)
    requires k < |batches| && id in batches[k].todo
    ensures BatchCount(batches, id) > 0
  {
    if k > 0 {
      BatchCountMember(batches[1..], k - 1, id);
    }
  }

  /** How many parties could still close, have closed, or have dropped the entry. */
  function Owners(s: State, id: Id): nat
    requires id in s.sh.entries && id in s.calls
  {
    (if id in s.sh.pending then 1 else 0)
    + BatchCount(s.batches, id)
    + s.sh.entries[id].closes
    + (if s.calls[id].abandoned then 1 else 0)
  }

  /** Exactly one reason for being resolved, and a final fragment only at the end. */
  predicate Settled(e: Entry) {
    || (e.err && e.cancelled.None? && Quiet(e.fragments))
    || (!e.err && e.cancelled.Some? && Quiet(e.fragments))
    || (!e.err && e.cancelled.None? && EndsTerminal(e.fragments))
  }

  predicate Unsettled(e: Entry) {
    e.cancelled.None? && Quiet(e.fragments)
  }

  ghost predicate Resolution(s: State, id: Id)
    requires id in s.sh.entries
  {
    var e := s.sh.entries[id];
    && (e.closes > 0 ==> Settled(e))
    && (e.closes == 0 ==> Unsettled(e) && (e.err ==> BatchCount(s.batches, id) > 0))
  }

  ghost predicate EntryOk(s: State, id: Id)
    requires id in s.sh.entries
  {
    && id in s.calls
    && Owners(s, id) == 1
    && Resolution(s, id)
  }

  predicate InFlight(pc: Pc) {
    pc.Registered? || pc.Sent? || pc.Waiting? || pc.SendFailed?
  }

  /** Which entry a call has at each control point. */
  ghost predicate PlaceOk(s: State, id: Id)
    requires id in s.calls
  {
    var c := s.calls[id];
    && (c.pc.Checked? ==> id !in s.sh.entries)
    && (InFlight(c.pc) || c.pc.Replied? || c.pc.Caching? || c.pc.Leaving? ==> id in s.sh.entries)
    && (id in s.sh.pending ==> InFlight(c.pc))
    && (c.pc.Checked? || InFlight(c.pc) ==> !c.abandoned)
  }

  /** A reply is the reading of a closed entry. */
  ghost predicate ReplyOk(s: State, id: Id)
    requires id in s.calls
  {
    s.calls[id].pc.Replied? ==>
      && id in s.sh.entries && s.sh.entries[id].closes > 0
      && s.calls[id].pc.result == Finish(s.sh.entries[id])
  }

  /** A waiting call has a deadline, and a call leaves by its context only once that has ended. */
  predicate ContextOk(c: Call) {
    && (c.pc.Waiting? ==> c.deadline.Some?)
    && (c.pc.Caching? ==> c.ended == Some(DeadlineExceeded))
    && (c.pc.Leaving? ==> c.ended == Some(c.pc.err))
  }

  ghost predicate CallOk(s: State, id: Id)
    requires id in s.calls
  {
    PlaceOk(s, id) && ReplyOk(s, id) && ContextOk(s.calls[id])
  }

  ghost predicate BatchOk(s: State, b: Batch) {
    && b.todo <= b.taken <= s.sh.entries.Keys
    && (forall id :: id in b.taken && id !in b.todo ==> s.sh.entries[id].closes > 0 && s.sh.entries[id].err)
    && (b.marked.Some? ==> b.marked.value in b.todo && s.sh.entries[b.marked.value].err)
  }

  ghost predicate Inv(s: State) {
    && s.sh.pending <= s.sh.entries.Keys
    && (forall id :: id in s.sh.entries ==> EntryOk(s, id))
    && (forall id :: id in s.calls ==> CallOk(s, id))
    && (forall k :: 0 <= k < |s.batches| ==> BatchOk(s, s.batches[k]))
  }

  /** An entry whose channel is closed never changes again. */
  lemma ClosedEntryFrozen(s: State, a: Action, id: Id)
    requires Inv(s) && Enabled(s, a)
    requires id in s.sh.entries && s.sh.entries[id].closes > 0
    ensures id in Step(s, a).sh.entries && Step(s, a).sh.entries[id] == s.sh.entries[id]
  {
    assert EntryOk(s, id);
    match a
    case WriteClosed(k, other) => BatchCountMember(s.batches, k, other);
    case CloseOne(k, other) =>
      assert BatchOk(s, s.batches[k]);
      BatchCountMember(s.batches, k, other);
    case Enroll(other) => assert CallOk(s, other);
    case _ =>
  }

  /** How one step changes the number of closeAll batches that hold an entry. */
  ghost predicate BatchCountFollows(s: State, a: Action, id: Id)
    requires Enabled(s, a)
  {
    && BatchCount(Step(s, a).batches, id) == BatchCount(s.batches, id)
       + (if a.StreamEnd? && id in s.sh.pending then 1 else 0)
       - (if a.CloseOne? && a.id == id then 1 else 0)
    && ((a.WriteClosed? || a.CloseOne?) && a.id == id ==> BatchCount(s.batches, id) > 0)
  }

  lemma BatchCountStep(s: State, a: Action, id: Id)
    requires Inv(s) && Enabled(s, a)
    ensures BatchCountFollows(s, a, id)
  {
    var t := Step(s, a);
    match a
    case StreamEnd => BatchCountSnoc(s.batches, Last(t.batches), id);
    case WriteClosed(k, other) =>
      BatchCountUpdate(s.batches, k, t.batches[k], id);
      BatchCountMember(s.batches, k, other);
    case CloseOne(k, other) =>
      assert BatchOk(s, s.batches[k]);
      BatchCountUpdate(s.batches, k, t.batches[k], id);
      BatchCountMember(s.batches, k, other);
    case _ =>
  }

  lemma OwnersStep(s: State, a: Action, id: Id)
    requires Inv(s) && Enabled(s, a)
    requires id in Step(s, a).sh.entries
    ensures id in Step(s, a).calls && Owners(Step(s, a), id) == 1
  {
    BatchCountStep(s, a, id);
    if id in s.sh.entries {
      assert EntryOk(s, id) && CallOk(s, id);
      EntryOwnersStep(s, a, id);
    } else {
      NoEntryNoBatch(s, id);
      assert a == Enroll(id) && CallOk(s, id);
    }
  }

  lemma EntryOwnersStep(s: State, a: Action, id: Id)
    requires Enabled(s, a) && id in s.sh.entries && id in s.calls
    requires Owners(s, id) == 1 && PlaceOk(s, id) && BatchCountFollows(s, a, id)
    ensures id in Step(s, a).sh.entries && id in Step(s, a).calls
    ensures Owners(Step(s, a), id) == 1
  {
  }

  lemma ResolutionStep(s: State, a: Action, id: Id)
    requires Inv(s) && Enabled(s, a)
    requires id in Step(s, a).sh.entries
    ensures Resolution(Step(s, a), id)
  {
    BatchCountStep(s, a, id);
    if id in s.sh.entries {
      assert EntryOk(s, id);
      if a.CloseOne? && a.id == id {
        assert BatchOk(s, s.batches[a.batch]);
      }
      EntryResolutionStep(s, a, id);
    }
  }

  lemma EntryResolutionStep(s: State, a: Action, id: Id)
    requires Enabled(s, a) && id in s.sh.entries && id in s.calls
    requires Resolution(s, id) && Owners(s, id) == 1 && BatchCountFollows(s, a, id)
    requires a.CloseOne? && a.id == id ==> s.sh.entries[id].err
    ensures Resolution(Step(s, a), id)
  {
  }

  lemma {:induction false} NoEntryNoBatchIn(batches: seq<Batch>, id: Id)
    requires forall k :: 0 <= k < |batches| ==> id !in batches[k].todo
    ensures BatchCount(batches, id) == 0
  {
    if batches != [] {
      NoEntryNoBatchIn(batches[1..], id);
    }
  }

  lemma NoEntryNoBatch(s: State, id: Id)
    requires Inv(s) && id !in s.sh.entries
    ensures BatchCount(s.batches, id) == 0
  {
    forall k | 0 <= k < |s.batches| ensures id !in s.batches[k].todo {
      assert BatchOk(s, s.batches[k]);
    }
    NoEntryNoBatchIn(s.batches, id);
  }

  lemma PlaceStep(s: State, a: Action, id: Id)
    requires Enabled(s, a) && id in Step(s, a).calls
    requires id in s.sh.pending ==> id in s.sh.entries && s.sh.entries[id].closes == 0
    requires id in s.sh.entries ==> id in s.calls
    requires id in s.calls ==> PlaceOk(s, id)
    ensures PlaceOk(Step(s, a), id)
  {
  }

  lemma ReplyStep(s: State, a: Action, id: Id)
    requires Inv(s) && Enabled(s, a)
    requires id in Step(s, a).calls
    ensures ReplyOk(Step(s, a), id)
  {
    if id in s.calls && s.calls[id].pc.Replied? {
      assert CallOk(s, id);
      ClosedEntryFrozen(s, a, id);
    }
  }

  lemma ContextStep(s: State, a: Action, id: Id)
    requires Inv(s) && Enabled(s, a)
    requires id in Step(s, a).calls
    ensures ContextOk(Step(s, a).calls[id])
  {
    assert id in s.calls ==> CallOk(s, id);
  }

  lemma CallStep(s: State, a: Action, id: Id)
    requires Inv(s) && Enabled(s, a)
    requires id in Step(s, a).calls
    ensures CallOk(Step(s, a), id)
  {
    assert id in s.sh.entries ==> EntryOk(s, id);
    assert id in s.calls ==> CallOk(s, id);
    PlaceStep(s, a, id);
    ReplyStep(s, a, id);
    ContextStep(s, a, id);
  }

  /** A step keeps every entry and an `err` once written. */
  lemma ErrStays(s: State, a: Action, id: Id)
    requires Inv(s) && Enabled(s, a) && id in s.sh.entries
    ensures id in Step(s, a).sh.entries
    ensures s.sh.entries[id].err ==> Step(s, a).sh.entries[id].err
  {
    assert EntryOk(s, id) && CallOk(s, id);
  }

  /** A batch that a step does not work on stays in order. */
  lemma IdleBatchStep(s: State, a: Action, b: Batch)
    requires Inv(s) && Enabled(s, a) && BatchOk(s, b)
    ensures BatchOk(Step(s, a), b)
  {
    forall id | id in b.taken ensures id in Step(s, a).sh.entries {
      ErrStays(s, a, id);
    }
    forall id | id in b.taken && id !in b.todo
      ensures Step(s, a).sh.entries[id] == s.sh.entries[id]
    {
      ClosedEntryFrozen(s, a, id);
    }
    if b.marked.Some? {
      ErrStays(s, a, b.marked.value);
    }
  }

  lemma BatchStep(s: State, a: Action, k: nat)
    requires Inv(s) && Enabled(s, a)
    requires k < |Step(s, a).batches|
    ensures BatchOk(Step(s, a), Step(s, a).batches[k])
  {
    if k < |s.batches| {
      assert BatchOk(s, s.batches[k]);
      IdleBatchStep(s, a, s.batches[k]);
    }
  }

  lemma InvStep(s: State, a: Action)
    requires Inv(s) && Enabled(s, a)
    ensures Inv(Step(s, a))
  {
    var t := Step(s, a);
    forall id | id in t.sh.entries ensures EntryOk(t, id) {
      OwnersStep(s, a, id);
      ResolutionStep(s, a, id);
    }
    forall id | id in t.calls ensures CallOk(t, id) {
      CallStep(s, a, id);
    }
    forall k | 0 <= k < |t.batches| ensures BatchOk(t, t.batches[k]) {
      BatchStep(s, a, k);
    }
    assert a.StreamEnd? ==> BatchOk(s, Batch(s.sh.pending, s.sh.pending, None));
  }

  lemma {:induction false} InvHolds(run: seq<Action>)
    requires IsRun(run)
    ensures Inv(After(run))
  {
    if run != [] {
      InvHolds(Front(run));
      InvStep(After(Front(run)), Last(run));
    }
  }
}
