/** What holds of every run of the bridge protocol. */
module BridgeTheorems {
  import opened Wire
  import opened Chunking
  import opened BridgeState
  import opened BridgeProtocol

  // ----- Ownership and resolution

  /** Each entry has exactly one owner at any time, so no `done` channel is closed twice. */
  lemma {:induction false} EntryOwnedOnce(run: seq<Action>, id: Id)
    requires IsRun(run) && id in After(run).sh.entries
    ensures id in After(run).calls
    ensures Owners(After(run), id) == 1
    ensures After(run).sh.entries[id].closes <= 1
    ensures After(run).sh.entries[id].closes == 1 ==> id !in After(run).sh.pending
    ensures forall k :: 0 <= k < |After(run).batches| && id in After(run).batches[k].todo ==>
      id !in After(run).sh.pending && After(run).sh.entries[id].closes == 0
  {
    var s := After(run);
    InvHolds(run);
    assert EntryOk(s, id);
    forall k | 0 <= k < |s.batches| && id in s.batches[k].todo
      ensures id !in s.sh.pending && s.sh.entries[id].closes == 0
    {
      BatchCountMember(s.batches, k, id);
    }
  }

  /** A closed channel has exactly one cause, and no interleaving makes `finishToolCall` index an empty list. */
  lemma {:induction false} ClosedHasOneCause(run: seq<Action>, id: Id)
    requires IsRun(run) && id in After(run).sh.entries
    ensures After(run).sh.entries[id].closes > 0 <==>
      (Settled(After(run).sh.entries[id]) && BatchCount(After(run).batches, id) == 0)
    ensures id in After(run).calls && After(run).calls[id].pc.Replied? ==>
      After(run).calls[id].pc.result == Finish(After(run).sh.entries[id]) != IndexPanic
  {
    InvHolds(run);
    assert EntryOk(After(run), id);
    assert CallOk(After(run), id);
  }

  /** Pending keys belong to calls between `register` and return; a quiescent bridge holds nothing. */
  lemma {:induction false} NoLeak(run: seq<Action>)
    requires IsRun(run)
    ensures forall id :: id in After(run).sh.pending ==>
      id in After(run).calls && InFlight(After(run).calls[id].pc)
    ensures (forall id :: id in After(run).calls ==> After(run).calls[id].pc.Over()) ==>
      After(run).sh.pending == {}
  {
    var s := After(run);
    InvHolds(run);
    forall id | id in s.sh.pending ensures id in s.calls && InFlight(s.calls[id].pc) {
      assert EntryOk(s, id) && CallOk(s, id);
    }
  }

  /** Once a `closeAll` has finished its batch, every call it took can return, and only with a closed stream. */
  lemma {:induction false} StreamEndWakesCallers(run: seq<Action>, k: nat, id: Id)
    requires IsRun(run) && k < |After(run).batches|
    requires After(run).batches[k].todo == {} && id in After(run).batches[k].taken
    ensures id in After(run).calls && id in After(run).sh.entries
    ensures Finish(After(run).sh.entries[id]) == PermissionsClosed
    ensures At(After(run), id, Waiting) ==> Enabled(After(run), SelectDone(id))
    ensures After(run).calls[id].pc.Replied? ==> After(run).calls[id].pc.result == PermissionsClosed
  {
    var s := After(run);
    InvHolds(run);
    assert BatchOk(s, s.batches[k]);
    assert EntryOk(s, id) && CallOk(s, id);
  }

  // ----- Non-interference

  /** The run with every action about other calls deleted; stream ends and the clock stay. */
  function Project(run: seq<Action>, id: Id): seq<Action> {
    if run == [] then []
    else if Concerns(Last(run), id) then Project(Front(run), id) + [Last(run)]
    else Project(Front(run), id)
  }

  ghost predicate SameBatch(b: Batch, c: Batch, id: Id) {
    && (id in b.todo <==> id in c.todo)
    && (b.marked == Some(id) <==> c.marked == Some(id))
    && (c.marked.Some? ==> c.marked == Some(id))
  }

  /** Two states that call `id` cannot tell apart, where the second one contains nothing else. */
  ghost predicate SameView(s: State, p: State, id: Id) {
    && (id in s.calls <==> id in p.calls)
    && (id in s.calls ==> s.calls[id] == p.calls[id])
    && (id in s.sh.entries <==> id in p.sh.entries)
    && (id in s.sh.entries ==> s.sh.entries[id] == p.sh.entries[id])
    && (id in s.sh.pending <==> id in p.sh.pending)
    && s.now == p.now
    && |s.batches| == |p.batches|
    && (forall k :: 0 <= k < |s.batches| ==> SameBatch(s.batches[k], p.batches[k], id))
    && (id !in p.calls ==> p.sh.unsupported == {})
  }

  lemma OtherStepInvisible(s: State, p: State, a: Action, id: Id)
    requires SameView(s, p, id) && Enabled(s, a) && !Concerns(a, id)
    ensures SameView(Step(s, a), p, id)
  {
  }

  lemma OwnStepAgrees(s: State, p: State, a: Action, id: Id)
    requires SameView(s, p, id) && Enabled(s, a) && Concerns(a, id)
    requires !FailsFast(s, a)
    ensures Enabled(p, a)
    ensures SameView(Step(s, a), Step(p, a), id)
  {
  }

  predicate FailsFast(s: State, a: Action) {
    a.Begin? && a.session in s.sh.unsupported
  }

  /** The session was already cached when the call checked. */
  ghost predicate FoundCached(run: seq<Action>, id: Id)
    requires IsRun(run)
  {
    && run != []
    && (|| FoundCached(Front(run), id)
        || (Last(run).Begin? && Last(run).id == id && FailsFast(After(Front(run)), Last(run))))
  }

  /** The call was turned away by its cache check, which a run without the other calls lets it pass. */
  ghost predicate TurnedAway(s: State, p: State, id: Id) {
    && At(s, id, GaveUp(ToolError(HOST_UNSUPPORTED))) && id !in s.sh.entries
    && At(p, id, Checked) && id !in p.sh.entries
  }

  lemma TurnedAwayForGood(s: State, p: State, a: Action, id: Id)
    requires Enabled(s, a) && TurnedAway(s, p, id) && Concerns(a, id)
    requires a.WriteClosed? || a.CloseOne? ==> BatchOk(s, s.batches[a.batch])
    ensures Enabled(p, a) && TurnedAway(Step(s, a), Step(p, a), id)
  {
  }

  lemma TurnedAwayUnseen(s: State, p: State, a: Action, id: Id)
    requires Enabled(s, a) && TurnedAway(s, p, id) && !Concerns(a, id)
    ensures TurnedAway(Step(s, a), p, id)
  {
  }

  lemma OwnFailsFast(s: State, p: State, a: Action, id: Id)
    requires Inv(s) && SameView(s, p, id) && Enabled(s, a) && FailsFast(s, a) && a.id == id
    ensures Enabled(p, a) && TurnedAway(Step(s, a), Step(p, a), id)
  {
    assert id in s.sh.entries ==> EntryOk(s, id);
  }

  ghost predicate Follows(s: State, p: State, id: Id, found: bool) {
    if found then TurnedAway(s, p, id) else SameView(s, p, id)
  }

  lemma OtherFollows(s: State, p: State, a: Action, id: Id, found: bool)
    requires Enabled(s, a) && !Concerns(a, id) && Follows(s, p, id, found)
    ensures Follows(Step(s, a), p, id, found)
  {
    if found {
      TurnedAwayUnseen(s, p, a, id);
    } else {
      OtherStepInvisible(s, p, a, id);
    }
  }

  lemma OwnFollows(s: State, p: State, a: Action, id: Id, found: bool)
    requires Inv(s) && Enabled(s, a) && Concerns(a, id) && Follows(s, p, id, found)
    ensures Enabled(p, a) && Follows(Step(s, a), Step(p, a), id, found || FailsFast(s, a))
  {
    if found {
      TurnedAwayForGood(s, p, a, id);
    } else if FailsFast(s, a) {
      OwnFailsFast(s, p, a, id);
    } else {
      OwnStepAgrees(s, p, a, id);
    }
  }

  lemma {:induction false} ProjectionFollows(run: seq<Action>, id: Id)
    requires IsRun(run)
    ensures IsRun(Project(run, id))
    ensures Follows(After(run), After(Project(run, id)), id, FoundCached(run, id))
  {
    if run != [] {
      var a, s, p, found := Last(run), After(Front(run)), Project(Front(run), id), FoundCached(Front(run), id);
      ProjectionFollows(Front(run), id);
      if Concerns(a, id) {
        InvHolds(Front(run));
        OwnFollows(s, After(p), a, id, found);
        Extend(p, a);
      } else {
        OtherFollows(s, After(p), a, id, found);
      }
    }
  }

  /**
   In every interleaving, a call's own actions, the stream ends and the clock alone also make a run, and the call
   behaves in it exactly as in the whole run, its result included: unless, and only unless, another call had its
   session cached before it checked. Once a call has registered, nothing that others do can reach it.
   */
  lemma {:induction false} NonInterference(run: seq<Action>, id: Id)
    requires IsRun(run)
    ensures IsRun(Project(run, id))
    ensures SameView(After(run), After(Project(run, id)), id) <==> !FoundCached(run, id)
    ensures id in After(run).sh.entries ==> SameView(After(run), After(Project(run, id)), id)
  {
    ProjectionFollows(run, id);
  }

  // ----- Fragments and reassembly

  /** The fragments the host sent for `id` after the call registered, read off the run alone. */
  function Delivered(run: seq<Action>, id: Id): seq<ToolResult> {
    if run == [] then []
    else
      match Last(run)
      case Enroll(other) => if other == id then [] else Delivered(Front(run), id)
      case Reply(f) => Delivered(Front(run), id) + if f.requestId == id then [f] else []
      case _ => Delivered(Front(run), id)
  }

  /** A step adds to an entry exactly the fragment it dispatches to that entry while it is listed. */
  lemma FragmentsStep(s: State, a: Action, id: Id)
    requires Inv(s) && Enabled(s, a) && id in s.sh.entries
    ensures a != Enroll(id) && id in Step(s, a).sh.entries
    ensures id in Step(s, a).sh.pending ==> id in s.sh.pending
    ensures Step(s, a).sh.entries[id].fragments == s.sh.entries[id].fragments
      + if a.Reply? && a.fragment.requestId == id && id in s.sh.pending then [a.fragment] else []
  {
    assert EntryOk(s, id) && CallOk(s, id);
  }

  lemma EntryIsEnrolled(s: State, a: Action, id: Id)
    requires Enabled(s, a) && id !in s.sh.entries && id in Step(s, a).sh.entries
    ensures a == Enroll(id) && Step(s, a).sh.entries[id] == FRESH_ENTRY
  {
  }

  /** An entry holds the delivered fragments in arrival order: all of them while it is pending. */
  lemma {:induction false} FragmentsAreDelivered(run: seq<Action>, id: Id)
    requires IsRun(run) && id in After(run).sh.entries
    ensures After(run).sh.entries[id].fragments <= Delivered(run, id)
    ensures id in After(run).sh.pending ==> After(run).sh.entries[id].fragments == Delivered(run, id)
  {
    var s, a := After(Front(run)), Last(run);
    if id in s.sh.entries {
      FragmentsAreDelivered(Front(run), id);
      InvHolds(Front(run));
      FragmentsStep(s, a, id);
    } else {
      EntryIsEnrolled(s, a, id);
    }
  }

  lemma NoShorterTerminal(a: seq<ToolResult>, b: seq<ToolResult>, all: seq<ToolResult>)
    requires a <= all && b <= all && EndsTerminal(a) && EndsTerminal(b)
    ensures |a| >= |b|
  {
    assert Last(a) == all[|a| - 1];
    assert forall i :: 0 <= i < |b| - 1 ==> !Terminal(all[i]) by {
      assert forall i :: 0 <= i < |b| - 1 ==> Front(b)[i] == all[i];
    }
  }

  /** Two prefixes of one delivery that both end at their first terminal fragment are the same. */
  lemma FirstTerminalUnique(a: seq<ToolResult>, b: seq<ToolResult>, all: seq<ToolResult>)
    requires a <= all && b <= all && EndsTerminal(a) && EndsTerminal(b)
    ensures a == b
  {
    NoShorterTerminal(a, b, all);
    NoShorterTerminal(b, a, all);
    assert a == all[..|a|] && b == all[..|b|];
  }

  /** A call resolved by a reply holds exactly the delivery up to its first terminal fragment. */
  lemma {:induction false} ResolvedByFirstTerminal(run: seq<Action>, id: Id, arrived: seq<ToolResult>)
    requires IsRun(run) && id in After(run).sh.entries
    requires arrived <= Delivered(run, id) && EndsTerminal(arrived)
    requires After(run).sh.entries[id].closes > 0
    requires !After(run).sh.entries[id].err && After(run).sh.entries[id].cancelled.None?
    ensures After(run).sh.entries[id].fragments == arrived
  {
    InvHolds(run);
    assert EntryOk(After(run), id);
    FragmentsAreDelivered(run, id);
    FirstTerminalUnique(After(run).sh.entries[id].fragments, arrived, Delivered(run, id));
  }

  /** The fragments are the chunks of `data`, in any order that keeps the final one last. */
  ghost predicate CarriesChunks(arrived: seq<ToolResult>, data: Bytes, size: nat)
    requires size > 0
  {
    && |arrived| > 0
    && (forall i :: 0 <= i < |arrived| ==> arrived[i].chunk.Some? && arrived[i].callError == "")
    && multiset(Pieces(arrived)) == multiset(Split(data, size))
    && Last(arrived).chunk.value.final
  }

  lemma ChunksEndTerminal(arrived: seq<ToolResult>, data: Bytes, size: nat)
    requires size > 0 && CarriesChunks(arrived, data, size)
    ensures EndsTerminal(arrived)
  {
    var ps := Pieces(arrived);
    forall i | 0 <= i < |arrived| - 1 ensures !Terminal(arrived[i]) {
      if Terminal(arrived[i]) {
        OneFinalPiece(ps, Slices(data, size), i, |ps| - 1);
      }
    }
  }

  lemma FinalIsLast(ps: seq<Piece>, parts: seq<Bytes>, i: nat)
    requires parts != [] && multiset(ps) == multiset(Frame(parts))
    requires i < |ps| && ps[i].chunk.final
    ensures ps[i] == Last(Frame(parts))
  {
    PermutationRearranges(ps, Frame(parts));
    var k :| 0 <= k < |parts| && ps[i] == Frame(parts)[k];
  }

  /** A rearranged delivery has a single final piece, because nothing in it is duplicated. */
  lemma OneFinalPiece(ps: seq<Piece>, parts: seq<Bytes>, i: nat, j: nat)
    requires parts != [] && multiset(ps) == multiset(Frame(parts))
    requires i < |ps| && j < |ps| && ps[i].chunk.final && ps[j].chunk.final
    ensures i == j
  {
    FinalIsLast(ps, parts, i);
    FinalIsLast(ps, parts, j);
    if i != j {
      TwiceInMultiset(ps, i, j);
      OnceInFrame(parts);
    }
  }

  lemma TwiceInMultiset<T>(s: seq<T>, i: nat, j: nat)
    requires i < |s| && j < |s| && i != j && s[i] == s[j]
    ensures multiset(s)[s[i]] >= 2
  {
    var lo, hi := if i < j then i else j, if i < j then j else i;
    assert s == s[..lo] + [s[lo]] + s[lo + 1..hi] + [s[hi]] + s[hi + 1..];
  }

  lemma OnceInFrame(parts: seq<Bytes>)
    requires parts != []
    ensures multiset(Frame(parts))[Last(Frame(parts))] == 1
  {
    var sent := Frame(parts);
    assert sent == Front(sent) + [Last(sent)];
    assert forall k :: 0 <= k < |parts| - 1 ==> !Front(sent)[k].chunk.final;
    assert Last(sent) !in Front(sent);
  }

  /**
   Reassembly: a call resolved by the final chunk decodes exactly the bytes the host cut up, whatever the
   order of the other chunks and whatever the other calls do meanwhile. Its outcome is the one carried by the
   fragment that arrived first. Only a payload too long for 2^32 - 1 chunks fails.
   */
  lemma {:induction false} Reassembly(run: seq<Action>, id: Id, arrived: seq<ToolResult>, data: Bytes, size: nat)
    requires IsRun(run) && id in After(run).calls && After(run).calls[id].pc.Replied?
    requires id in After(run).sh.entries
    requires !After(run).sh.entries[id].err && After(run).sh.entries[id].cancelled.None?
    requires size > 0 && CarriesChunks(arrived, data, size) && arrived <= Delivered(run, id)
    ensures After(run).calls[id].pc == Replied(
      if |data| <= size * MAX_CHUNKS then Success(arrived[0].outcome, data) else ReassembleError)
  {
    InvHolds(run);
    assert CallOk(After(run), id);
    ChunksEndTerminal(arrived, data, size);
    ResolvedByFirstTerminal(run, id, arrived);
    JoinAnyOrder(Pieces(arrived), data, size);
    assert JoinOutputs(arrived) == Join(Pieces(arrived));
  }

  /**
   A call resolved by a reply reports a typed failure exactly when the failure is the first fragment to arrive,
   and then with that code unchanged. Behind a chunk it is lost: the call then succeeds exactly when the fragments,
   the failing one included, join.
   */
  lemma {:induction false} TypedFailureIffFirst(run: seq<Action>, id: Id, arrived: seq<ToolResult>)
    requires IsRun(run) && id in After(run).calls && After(run).calls[id].pc.Replied?
    requires id in After(run).sh.entries
    requires !After(run).sh.entries[id].err && After(run).sh.entries[id].cancelled.None?
    requires arrived <= Delivered(run, id) && EndsTerminal(arrived)
    ensures var result := After(run).calls[id].pc.result;
      && (result.ToolError? <==> arrived[0].callError != "")
      && (result.ToolError? ==> result == ToolError(arrived[0].callError) && |arrived| == 1)
      && (|arrived| > 1 && Last(arrived).callError != "" ==>
            match JoinOutputs(arrived)
            case Some(raw) => result == Success(arrived[0].outcome, raw)
            case None => result == ReassembleError)
  {
    InvHolds(run);
    assert CallOk(After(run), id);
    ResolvedByFirstTerminal(run, id, arrived);
    assert |arrived| > 1 ==> Front(arrived)[0] == arrived[0] && !Terminal(Front(arrived)[0]);
  }

  /** What resolves a call: a typed failure, an unchunked result or the final chunk; anything else is only kept. */
  lemma ReplyResolvesIff(s: State, f: ToolResult)
    requires Listed(s.sh, f.requestId)
    ensures var sh, id := Step(s, Reply(f)).sh, f.requestId;
      && id in sh.entries && sh.entries[id].fragments == s.sh.entries[id].fragments + [f]
      && (f.callError != "" || f.chunk.None? || f.chunk.value.final ==>
            id !in sh.pending && sh.entries[id].closes == s.sh.entries[id].closes + 1)
      && (f.callError == "" && f.chunk.Some? && !f.chunk.value.final ==>
            id in sh.pending && sh.entries[id].closes == s.sh.entries[id].closes)
  {
  }

  /** The result of every delivery that ends at its first terminal fragment, case by case. */
  lemma InterpretIs(arrived: seq<ToolResult>)
    requires EndsTerminal(arrived)
    ensures var result := Interpret(arrived);
      && (arrived[0].callError != "" ==> result == ToolError(arrived[0].callError))
      && (|arrived| == 1 && arrived[0].callError == "" && arrived[0].chunk.None? ==>
            result == Success(arrived[0].outcome, arrived[0].outputs))
      && (|arrived| > 1 && Last(arrived).chunk.None? ==> result == ReassembleError)
    ensures arrived[0].callError == "" && Last(arrived).chunk.Some? ==>
      && (forall i :: 0 <= i < |arrived| ==> arrived[i].chunk.Some?)
      && (forall raw :: Interpret(arrived) == Success(arrived[0].outcome, raw) <==> Delivers(Pieces(arrived), raw))
      && (Interpret(arrived) == ReassembleError <==> forall raw :: !Delivers(Pieces(arrived), raw))
  {
    assert forall i :: 0 <= i < |arrived| - 1 ==> arrived[i] == Front(arrived)[i] && !Terminal(arrived[i]);
    if arrived[0].callError == "" && Last(arrived).chunk.Some? {
      forall raw ensures Join(Pieces(arrived)) == Some(raw) <==> Delivers(Pieces(arrived), raw) {
        JoinIff(Pieces(arrived), raw);
      }
    }
  }

  /** A call resolved by a reply returns the reading of its delivery up to the first terminal fragment. */
  lemma {:induction false} ReplyIs(run: seq<Action>, id: Id, arrived: seq<ToolResult>)
    requires IsRun(run) && id in After(run).calls && After(run).calls[id].pc.Replied?
    requires id in After(run).sh.entries
    requires !After(run).sh.entries[id].err && After(run).sh.entries[id].cancelled.None?
    requires arrived <= Delivered(run, id) && EndsTerminal(arrived)
    ensures After(run).calls[id].pc == Replied(Interpret(arrived))
  {
    InvHolds(run);
    assert CallOk(After(run), id);
    ResolvedByFirstTerminal(run, id, arrived);
  }

  /** The ordinary reply: one unchunked message comes back as it was sent. */
  lemma {:induction false} WholeReply(run: seq<Action>, id: Id, f: ToolResult)
    requires IsRun(run) && id in After(run).calls && After(run).calls[id].pc.Replied?
    requires id in After(run).sh.entries
    requires !After(run).sh.entries[id].err && After(run).sh.entries[id].cancelled.None?
    requires [f] <= Delivered(run, id) && f.chunk.None? && f.callError == ""
    ensures After(run).calls[id].pc == Replied(Success(f.outcome, f.outputs))
  {
    ReplyIs(run, id, [f]);
    InterpretIs([f]);
  }

  // ----- Returns

  /** Why a call came back without a reply. */
  ghost predicate Cause(run: seq<Action>, id: Id, result: CallResult) {
    match result
    case SendError => Send(id, false) in run
    case InvalidCall => Reject(id) in run
    case ContextError(e) => SelectContext(id, e) in run && ContextEnd(id, e) in run
    case ToolError(code) => code == HOST_UNSUPPORTED && IsRun(run) && id in After(run).calls
      && After(run).calls[id].session in After(run).sh.unsupported
    case _ => false
  }

  /** The control point a step moves a call to, when it moves it. */
  lemma PcStep(s: State, a: Action, id: Id)
    requires Enabled(s, a) && id in Step(s, a).calls
    ensures id in s.calls ==> Step(s, a).calls[id].session == s.calls[id].session
    ensures id !in s.calls ==> a.Begin? && a.id == id
    ensures id in s.calls && s.calls[id].pc.Over() ==> Step(s, a).calls[id] == s.calls[id]
    ensures id in s.calls && Step(s, a).calls[id].pc != s.calls[id].pc ==>
      match Step(s, a).calls[id].pc
      case SendFailed => a == Send(id, false)
      case Leaving(e) => a == SelectContext(id, e) && s.calls[id].ended == Some(e)
      case GaveUp(r) =>
        || (r == SendError && s.calls[id].pc.SendFailed?)
        || (r == InvalidCall && a == Reject(id))
        || (r == ToolError(HOST_UNSUPPORTED) && s.calls[id].session in Step(s, a).sh.unsupported)
        || (s.calls[id].pc.Leaving? && r == ContextError(s.calls[id].pc.err))
      case _ => true
    ensures id !in s.calls ==>
      Step(s, a).calls[id].pc.Checked? ||
      (Step(s, a).calls[id].pc == GaveUp(ToolError(HOST_UNSUPPORTED)) && a.session in s.sh.unsupported)
    ensures s.sh.unsupported <= Step(s, a).sh.unsupported
    ensures id !in s.calls ==> Step(s, a).calls[id].ended.None?
    ensures id in s.calls && Step(s, a).calls[id].ended != s.calls[id].ended ==>
      Step(s, a).calls[id].ended.Some? && a == ContextEnd(id, Step(s, a).calls[id].ended.value)
  {
  }

  /** Every return without a reply has the cause it names. */
  lemma {:induction false} GaveUpHasCause(run: seq<Action>, id: Id)
    requires IsRun(run) && id in After(run).calls
    ensures After(run).calls[id].pc.SendFailed? ==> Send(id, false) in run
    ensures After(run).calls[id].ended.Some? ==> ContextEnd(id, After(run).calls[id].ended.value) in run
    ensures After(run).calls[id].pc.Leaving? ==>
      SelectContext(id, After(run).calls[id].pc.err) in run && ContextEnd(id, After(run).calls[id].pc.err) in run
    ensures After(run).calls[id].pc.GaveUp? ==> Cause(run, id, After(run).calls[id].pc.result)
  {
    var s := After(Front(run));
    PcStep(s, Last(run), id);
    if id in s.calls {
      GaveUpHasCause(Front(run), id);
      assert forall a :: a in Front(run) ==> a in run;
    }
    assert Last(run) in run;
  }

  lemma FailedSendStep(s: State, a: Action, id: Id)
    requires Enabled(s, a)
    requires a == Send(id, false) || At(s, id, SendFailed) || At(s, id, GaveUp(SendError))
    ensures At(Step(s, a), id, SendFailed) || At(Step(s, a), id, GaveUp(SendError))
  {
  }

  /** A call whose send failed never waits for a reply: it is on its way out with that error, or has returned it. */
  lemma {:induction false} FailedSendReturns(run: seq<Action>, id: Id)
    requires IsRun(run) && Send(id, false) in run
    ensures At(After(run), id, SendFailed) || At(After(run), id, GaveUp(SendError))
  {
    if Send(id, false) in Front(run) {
      FailedSendReturns(Front(run), id);
    }
    FailedSendStep(After(Front(run)), Last(run), id);
  }

  /** A call returns once: what it returned never changes. */
  lemma {:induction false} ReturnIsFinal(run: seq<Action>, n: nat, id: Id)
    requires IsRun(run) && n <= |run| && IsRun(run[..n])
    requires id in After(run[..n]).calls && After(run[..n]).calls[id].pc.Over()
    ensures id in After(run).calls && After(run).calls[id] == After(run[..n]).calls[id]
  {
    if n == |run| {
      assert run[..n] == run;
    } else {
      assert Front(run)[..n] == run[..n];
      ReturnIsFinal(Front(run), n, id);
      StaysOver(After(Front(run)), Last(run), id);
    }
  }

  lemma StaysOver(s: State, a: Action, id: Id)
    requires Enabled(s, a) && id in s.calls && s.calls[id].pc.Over()
    ensures id in Step(s, a).calls && Step(s, a).calls[id] == s.calls[id]
  {
  }

  /** When the call's context expires: at its own deadline, or at the one it is going to get. */
  function Expiry(s: State, c: Call): nat {
    if c.deadline.Some? then c.deadline.value else s.now + ImposedWait(c.timeout)
  }

  /** When a call that hears nothing more from the host or from its caller returns. */
  function ReturnTime(s: State, c: Call): nat {
    if c.pc.Over() || c.pc.SendFailed? || c.ended.Some? || Expiry(s, c) <= s.now then s.now else Expiry(s, c)
  }

  /** What such a call returns. */
  function Verdict(s: State, id: Id): CallResult
    requires id in s.calls
  {
    match s.calls[id].pc
    case GaveUp(r) => r
    case Replied(r) => r
    case SendFailed => SendError
    case Caching => ToolError(HOST_UNSUPPORTED)
    case Leaving(e) => ContextError(e)
    case _ =>
      var e := if s.calls[id].ended.Some? then s.calls[id].ended.value else DeadlineExceeded;
      if e == DeadlineExceeded && Granted(s.sh, id) then ToolError(HOST_UNSUPPORTED) else ContextError(e)
  }

  /** How many steps such a call is at most away from returning. */
  function StepsLeft(s: State, c: Call): nat {
    match c.pc
    case Checked => 7
    case Registered => 6
    case Sent => 5
    case Waiting => if c.ended.Some? then 2 else if Expiry(s, c) <= s.now then 3 else 4
    case SendFailed => 1
    case Caching => 1
    case Leaving(_) => 1
    case _ => 0
  }

  /** The next step of such a call: its own code, the clock, or the end of its context. */
  function WayOut(s: State, id: Id): Action
    requires id in s.calls && !s.calls[id].pc.Over()
  {
    var c := s.calls[id];
    match c.pc
    case Checked => Enroll(id)
    case Registered => Send(id, true)
    case Sent => Arm(id)
    case SendFailed => DropFailed(id)
    case Waiting =>
      if c.ended.Some? then SelectContext(id, c.ended.value)
      else if Expiry(s, c) <= s.now then ContextEnd(id, DeadlineExceeded)
      else Tick(Expiry(s, c) - s.now)
    case Caching => Cache(id)
    case Leaving(_) => Leave(id)
  }

  lemma WayOutStep(s: State, id: Id)
    requires id in s.calls && !s.calls[id].pc.Over() && ContextOk(s.calls[id])
    ensures Enabled(s, WayOut(s, id))
    ensures var t := Step(s, WayOut(s, id));
      && id in t.calls && !t.calls[id].pc.Replied?
      && StepsLeft(t, t.calls[id]) < StepsLeft(s, s.calls[id])
      && ReturnTime(t, t.calls[id]) == ReturnTime(s, s.calls[id])
  {
  }

  lemma WayOutKeepsVerdict(s: State, id: Id)
    requires id in s.calls && !s.calls[id].pc.Over() && Enabled(s, WayOut(s, id))
    requires PlaceOk(s, id)
    ensures id in Step(s, WayOut(s, id)).calls
    ensures Verdict(Step(s, WayOut(s, id)), id) == Verdict(s, id)
  {
  }

  /** Nothing but the call's own code, the clock and the end of its context. */
  predicate Alone(tail: seq<Action>, id: Id) {
    forall i :: 0 <= i < |tail| ==> OnItsOwn(tail[i], id)
  }

  predicate OnItsOwn(a: Action, id: Id) {
    match a
    case Tick(_) => true
    case Enroll(other) => other == id
    case Send(other, _) => other == id
    case Arm(other) => other == id
    case DropFailed(other) => other == id
    case SelectContext(other, _) => other == id
    case Cache(other) => other == id
    case Leave(other) => other == id
    case ContextEnd(other, e) => other == id && e == DeadlineExceeded
    case _ => false
  }

  lemma {:induction false} AloneExtend(run: seq<Action>, a: Action, longer: seq<Action>, id: Id)
    requires run + [a] <= longer && OnItsOwn(a, id) && Alone(longer[|run| + 1..], id)
    ensures run <= longer && Alone(longer[|run|..], id)
  {
    assert longer[|run|] == a;
    assert longer[|run|..] == [a] + longer[|run| + 1..];
  }

  /**
   A silent host cannot hang a call. From every reachable state at most seven steps, all of them the call's own code,
   the clock or the expiry of its deadline, return it: at once if its context has ended, and otherwise exactly at its
   deadline, the caller's or the imposed one; with host_unsupported if it is granted then, else with the context error.
   */
  lemma {:induction false} AlwaysCanReturn(run: seq<Action>, id: Id) returns (longer: seq<Action>)
    requires IsRun(run) && id in After(run).calls && !After(run).calls[id].pc.Replied?
    ensures run <= longer && |longer| - |run| <= StepsLeft(After(run), After(run).calls[id]) <= 7
    ensures Alone(longer[|run|..], id)
    ensures IsRun(longer) && At(After(longer), id, GaveUp(Verdict(After(run), id)))
    ensures After(longer).now == ReturnTime(After(run), After(run).calls[id])
    decreases StepsLeft(After(run), After(run).calls[id])
  {
    var s := After(run);
    if s.calls[id].pc.Over() {
      longer := run;
    } else {
      var a := WayOut(s, id);
      InvHolds(run);
      assert CallOk(s, id);
      WayOutStep(s, id);
      WayOutKeepsVerdict(s, id);
      Extend(run, a);
      longer := AlwaysCanReturn(run + [a], id);
      AloneExtend(run, a, longer, id);
    }
  }

  /** A step of the call's own code, as opposed to the host, the clock, its context and other calls. */
  predicate OwnCode(a: Action, id: Id) {
    match a
    case Begin(other, _, _, _) => other == id
    case Reject(other) => other == id
    case SelectDone(other) => other == id
    case ContextEnd(_, _) => false
    case Tick(_) => false
    case _ => OnItsOwn(a, id)
  }

  function CountOwn(run: seq<Action>, id: Id): nat {
    if run == [] then 0 else CountOwn(Front(run), id) + if OwnCode(Last(run), id) then 1 else 0
  }

  /** How much of its code a call has still to run. */
  function CodeLeft(s: State, id: Id): nat {
    if id !in s.calls then 6
    else
      match s.calls[id].pc
      case Checked => 5
      case Registered => 4
      case Sent => 3
      case Waiting => 2
      case SendFailed => 1
      case Caching => 1
      case Leaving(_) => 1
      case _ => 0
  }

  lemma CodeLeftStep(s: State, a: Action, id: Id)
    requires Enabled(s, a)
    ensures CodeLeft(Step(s, a), id) + (if OwnCode(a, id) then 1 else 0) <= CodeLeft(s, id)
  {
  }

  lemma EndedNotBlocked(s: State, id: Id)
    requires id in s.calls && !s.calls[id].pc.Over() && s.calls[id].ended.Some?
    ensures OwnCode(WayOut(s, id), id) && Enabled(s, WayOut(s, id))
  {
  }

  /**
   Whatever the scheduler does: a call runs at most six steps of its own in any run, and once its context has ended one
   of them is enabled in every state until it has returned.
   */
  lemma {:induction false} RunsOutOfSteps(run: seq<Action>, id: Id)
    requires IsRun(run)
    ensures CountOwn(run, id) + CodeLeft(After(run), id) <= 6
    ensures id in After(run).calls && After(run).calls[id].ended.Some? && !After(run).calls[id].pc.Over() ==>
      exists a :: OwnCode(a, id) && Enabled(After(run), a)
  {
    if run != [] {
      RunsOutOfSteps(Front(run), id);
      CodeLeftStep(After(Front(run)), Last(run), id);
      if id in After(run).calls && After(run).calls[id].ended.Some? && !After(run).calls[id].pc.Over() {
        EndedNotBlocked(After(run), id);
      }
    }
  }

  lemma DeadlineStep(s: State, a: Action, id: Id)
    requires Enabled(s, a) && id in s.calls
    ensures s.now <= Step(s, a).now && id in Step(s, a).calls
    ensures var c, d := s.calls[id], Step(s, a).calls[id];
      && d.timeout == c.timeout
      && (a != Arm(id) ==> d.deadline == c.deadline)
      && (a == Arm(id) ==> d.deadline == Some(Expiry(s, c)))
      && (d.ended == Some(DeadlineExceeded) && d.ended != c.ended ==> c.deadline.Some? && c.deadline.value <= s.now)
  {
  }

  /** Every call that waits has a deadline, and none meets it early. */
  lemma {:induction false} DeadlinesAreKept(run: seq<Action>, id: Id)
    requires IsRun(run) && id in After(run).calls
    ensures At(After(run), id, Waiting) ==> After(run).calls[id].deadline.Some?
    ensures After(run).calls[id].ended == Some(DeadlineExceeded) ==>
      After(run).calls[id].deadline.Some? && After(run).calls[id].deadline.value <= After(run).now
  {
    InvHolds(run);
    assert CallOk(After(run), id);
    if id in After(Front(run)).calls {
      DeadlinesAreKept(Front(run), id);
      DeadlineStep(After(Front(run)), Last(run), id);
    }
  }

  lemma ArmsOnce(s: State, a: Action, id: Id)
    requires Enabled(s, a) && id in s.calls
    requires a == Arm(id) || !(s.calls[id].pc.Checked? || s.calls[id].pc.Registered? || s.calls[id].pc.Sent?)
    ensures id in Step(s, a).calls
    ensures var pc := Step(s, a).calls[id].pc; !(pc.Checked? || pc.Registered? || pc.Sent?)
  {
  }

  lemma {:induction false} ArmedDeadline(run: seq<Action>, n: nat, id: Id)
    requires IsRun(run) && n < |run| && run[n] == Arm(id) && IsRun(run[..n])
    ensures id in After(run[..n]).calls && id in After(run).calls
    ensures After(run).calls[id].deadline == Some(Expiry(After(run[..n]), After(run[..n]).calls[id]))
    ensures var pc := After(run).calls[id].pc; !(pc.Checked? || pc.Registered? || pc.Sent?)
  {
    var s := After(Front(run));
    if n == |run| - 1 {
      assert run[..n] == Front(run);
    } else {
      assert Front(run)[..n] == run[..n];
      ArmedDeadline(Front(run), n, id);
    }
    DeadlineStep(s, Last(run), id);
    ArmsOnce(s, Last(run), id);
  }

  predicate Begins(a: Action, id: Id) {
    a.Begin? && a.id == id
  }

  lemma {:induction false} NotBegun(run: seq<Action>, id: Id)
    requires IsRun(run) && id !in After(run).calls
    ensures forall j :: 0 <= j < |run| ==> !Begins(run[j], id)
  {
    if run != [] {
      CallsStay(After(Front(run)), Last(run), id);
      NotBegun(Front(run), id);
      assert forall j :: 0 <= j < |run| - 1 ==> run[j] == Front(run)[j];
    }
  }

  lemma CallsStay(s: State, a: Action, id: Id)
    requires Enabled(s, a)
    ensures id in s.calls || Begins(a, id) <==> id in Step(s, a).calls
  {
  }

  /** The call is the one that `begin` started: its arguments are kept until they are used. */
  ghost predicate StartedBy(c: Call, begin: Action)
    requires begin.Begin?
  {
    && c.session == begin.session && c.timeout == begin.timeout
    && (begin.deadline.Some? || c.pc.Checked? || c.pc.Registered? || c.pc.Sent? ==> c.deadline == begin.deadline)
  }

  lemma StartedByStep(s: State, a: Action, id: Id, begin: Action)
    requires Enabled(s, a) && begin.Begin?
    requires (id in s.calls && StartedBy(s.calls[id], begin)) || (a == begin && begin.id == id)
    ensures id in Step(s, a).calls && StartedBy(Step(s, a).calls[id], begin)
    ensures id in s.calls ==> !Begins(a, id)
  {
  }

  /** Every call was begun once, and has the session, the timeout and the deadline it was begun with. */
  lemma {:induction false} CallWasBegun(run: seq<Action>, id: Id) returns (k: nat)
    requires IsRun(run) && id in After(run).calls
    ensures k < |run| && Begins(run[k], id) && StartedBy(After(run).calls[id], run[k])
    ensures forall j :: 0 <= j < |run| && Begins(run[j], id) ==> j == k
  {
    var s, a := After(Front(run)), Last(run);
    CallsStay(s, a, id);
    if id in s.calls {
      k := CallWasBegun(Front(run), id);
      assert run[k] == Front(run)[k];
    } else {
      NotBegun(Front(run), id);
      k := |run| - 1;
    }
    StartedByStep(s, a, id, run[k]);
    assert forall j :: 0 <= j < |run| - 1 ==> run[j] == Front(run)[j];
  }

  /**
   The deadline a call waits under, for good: the one its caller gave, otherwise the timeout its caller gave, or 60
   seconds, counted from the moment it starts to wait.
   */
  lemma {:induction false} DeadlineIsImposed(run: seq<Action>, n: nat, id: Id) returns (k: nat)
    requires IsRun(run) && n < |run| && run[n] == Arm(id) && IsRun(run[..n])
    ensures k < n && Begins(run[k], id) && forall j :: 0 <= j < n && Begins(run[j], id) ==> j == k
    ensures id in After(run).calls && After(run).calls[id].deadline ==
      if run[k].deadline.Some? then run[k].deadline
      else Some(After(run[..n]).now + if run[k].timeout > 0 then run[k].timeout else 60_000_000_000)
  {
    ArmedDeadline(run, n, id);
    k := CallWasBegun(run[..n], id);
    ArmsWhenSent(run, n, id);
  }

  lemma {:induction false} ArmsWhenSent(run: seq<Action>, n: nat, id: Id)
    requires IsRun(run) && n < |run| && run[n] == Arm(id) && IsRun(run[..n])
    ensures At(After(run[..n]), id, Sent)
  {
    PrefixIsRun(run, n + 1);
    assert run[..n + 1][..n] == run[..n] && Front(run[..n + 1]) == run[..n] && Last(run[..n + 1]) == Arm(id);
  }

  // ----- The session cache

  /** The position of the deadline that revealed a host without tool calls on `session`. */
  ghost predicate Reveals(run: seq<Action>, i: nat, session: Session) {
    && IsRun(run) && i < |run| && IsRun(run[..i])
    && run[i].SelectContext? && run[i].err == DeadlineExceeded
    && var s, id := After(run[..i]), run[i].id;
       && id in s.calls && s.calls[id].session == session
       && Granted(s.sh, id)
       && s.sh.entries[id].closes == 0
       && Quiet(Delivered(run[..i], id))
       && Grant(id) in run[..i]
       && s.calls[id].deadline.Some? && s.calls[id].deadline.value <= s.now
  }

  lemma {:induction false} GrantWasDispatched(run: seq<Action>, id: Id)
    requires IsRun(run) && id in After(run).sh.entries && After(run).sh.entries[id].grant
    ensures Grant(id) in run
  {
    var s := After(Front(run));
    if id in s.sh.entries && s.sh.entries[id].grant {
      GrantWasDispatched(Front(run), id);
    } else {
      assert Last(run) == Grant(id);
    }
  }

  /** What the deadline step saw, for a call on its way to the cache. */
  lemma {:induction false} DeadlineReveals(run: seq<Action>, id: Id)
    requires IsRun(run) && run != [] && Last(run) == SelectContext(id, DeadlineExceeded)
    requires Granted(After(Front(run)).sh, id)
    ensures Reveals(run, |run| - 1, After(run).calls[id].session)
  {
    var s := After(Front(run));
    InvHolds(Front(run));
    assert EntryOk(s, id);
    FragmentsAreDelivered(Front(run), id);
    GrantWasDispatched(Front(run), id);
    DeadlinesAreKept(Front(run), id);
    assert run[..|run| - 1] == Front(run);
  }

  lemma {:induction false} RevealsExtends(run: seq<Action>, i: nat, session: Session)
    requires IsRun(run) && run != [] && Reveals(Front(run), i, session)
    ensures Reveals(run, i, session)
  {
    assert Front(run)[..i] == run[..i];
  }

  lemma EntersCaching(s: State, a: Action, id: Id)
    requires Enabled(s, a) && !At(s, id, Caching) && At(Step(s, a), id, Caching)
    ensures a == SelectContext(id, DeadlineExceeded) && Granted(s.sh, id)
  {
  }

  lemma CachingKeepsSession(s: State, a: Action, id: Id)
    requires Enabled(s, a) && At(s, id, Caching) && At(Step(s, a), id, Caching)
    ensures Step(s, a).calls[id].session == s.calls[id].session
  {
  }

  lemma {:induction false} CachingWasRevealed(run: seq<Action>, id: Id) returns (i: nat)
    requires IsRun(run) && At(After(run), id, Caching)
    ensures Reveals(run, i, After(run).calls[id].session)
  {
    var s := After(Front(run));
    if At(s, id, Caching) {
      i := CachingWasRevealed(Front(run), id);
      CachingKeepsSession(s, Last(run), id);
      RevealsExtends(run, i, s.calls[id].session);
    } else {
      i := |run| - 1;
      EntersCaching(s, Last(run), id);
      DeadlineReveals(run, id);
    }
  }

  /** A session is cached only through a granted call that met its deadline with no terminal reply dispatched. */
  lemma {:induction false} CachedWasRevealed(run: seq<Action>, session: Session) returns (i: nat)
    requires IsRun(run) && session in After(run).sh.unsupported
    ensures Reveals(run, i, session)
  {
    var s := After(Front(run));
    if session in s.sh.unsupported {
      i := CachedWasRevealed(Front(run), session);
    } else {
      i := CachingWasRevealed(Front(run), Last(run).id);
    }
    RevealsExtends(run, i, session);
  }

  /** The call is about to cache its session, or the session is cached. */
  ghost predicate BoundForCache(s: State, id: Id, session: Session) {
    || session in s.sh.unsupported
    || (At(s, id, Caching) && s.calls[id].session == session)
  }

  lemma BoundForCacheStep(s: State, a: Action, id: Id, session: Session)
    requires Enabled(s, a) && BoundForCache(s, id, session)
    ensures BoundForCache(Step(s, a), id, session)
  {
  }

  /** What was revealed does reach the cache, through the call that met its deadline. */
  lemma {:induction false} RevealedIsCached(run: seq<Action>, i: nat, session: Session)
    requires Reveals(run, i, session)
    ensures BoundForCache(After(run), run[i].id, session)
  {
    if i == |run| - 1 {
      assert run[..i] == Front(run);
    } else {
      assert Front(run)[..i] == run[..i];
      RevealedIsCached(Front(run), i, session);
      BoundForCacheStep(After(Front(run)), Last(run), run[i].id, session);
    }
  }

  ghost predicate SomeBoundForCache(s: State, session: Session) {
    exists id :: BoundForCache(s, id, session)
  }

  lemma SomeBoundIff(s: State, session: Session)
    ensures (forall id :: !At(s, id, Caching)) ==>
      (session in s.sh.unsupported <==> SomeBoundForCache(s, session))
  {
    if session in s.sh.unsupported {
      assert BoundForCache(s, "", session);
    }
  }

  ghost predicate Revealed(run: seq<Action>, session: Session) {
    exists i: nat :: Reveals(run, i, session)
  }

  lemma {:induction false} BoundWasRevealed(run: seq<Action>, id: Id, session: Session)
    requires IsRun(run) && BoundForCache(After(run), id, session)
    ensures Revealed(run, session)
  {
    if session in After(run).sh.unsupported {
      var i := CachedWasRevealed(run, session);
    } else {
      var i := CachingWasRevealed(run, id);
    }
  }

  lemma {:induction false} RevealedIsBound(run: seq<Action>, session: Session) returns (id: Id)
    requires IsRun(run) && Revealed(run, session)
    ensures BoundForCache(After(run), id, session)
  {
    var i: nat :| Reveals(run, i, session);
    RevealedIsCached(run, i, session);
    id := run[i].id;
  }

  /**
   The cache, exactly: a session is cached, or a call is about to cache it, if and only if some granted call on it met
   its deadline with no terminal reply dispatched.
   */
  lemma {:induction false} CachedIffRevealed(run: seq<Action>, session: Session)
    requires IsRun(run)
    ensures SomeBoundForCache(After(run), session) <==> Revealed(run, session)
    ensures (forall id :: !At(After(run), id, Caching)) ==>
      (session in After(run).sh.unsupported <==> Revealed(run, session))
  {
    if Revealed(run, session) {
      var id := RevealedIsBound(run, session);
    }
    if SomeBoundForCache(After(run), session) {
      var id :| BoundForCache(After(run), id, session);
      BoundWasRevealed(run, id, session);
    }
    SomeBoundIff(After(run), session);
  }

  lemma CacheStep(s: State, a: Action)
    requires Enabled(s, a)
    ensures s.sh.unsupported <= Step(s, a).sh.unsupported
  {
  }

  /** The cache never shrinks. */
  lemma {:induction false} CacheGrows(run: seq<Action>, n: nat)
    requires IsRun(run) && n <= |run|
    ensures IsRun(run[..n]) && After(run[..n]).sh.unsupported <= After(run).sh.unsupported
  {
    PrefixIsRun(run, n);
    if n == |run| {
      assert run[..n] == run;
    } else {
      CacheGrows(Front(run), n);
      CacheStep(After(Front(run)), Last(run));
      assert Front(run)[..n] == run[..n];
    }
  }

  /** Turned away without an entry and without a send: nothing changes that any more. */
  lemma SilentForGood(s: State, a: Action, id: Id, result: CallResult)
    requires Enabled(s, a) && At(s, id, GaveUp(result)) && id !in s.sends && id !in s.sh.entries
    ensures At(Step(s, a), id, GaveUp(result)) && id !in Step(s, a).sends && id !in Step(s, a).sh.entries
  {
  }

  /** A call that checks the cache after its session was revealed returns host_unsupported and sends nothing. */
  lemma {:induction false} CachedCallFailsFast(run: seq<Action>, n: nat, id: Id, session: Session)
    requires IsRun(run) && n < |run| && run[n].Begin? && run[n].id == id && run[n].session == session
    requires IsRun(run[..n]) && session in After(run[..n]).sh.unsupported
    ensures At(After(run), id, GaveUp(ToolError(HOST_UNSUPPORTED)))
    ensures id !in After(run).sends && id !in After(run).sh.entries
  {
    var s := After(Front(run));
    if n == |run| - 1 {
      assert run[..n] == Front(run);
      InvHolds(Front(run));
      assert id in s.sh.entries ==> EntryOk(s, id);
      SendsAtMostOnce(Front(run), id);
    } else {
      assert Front(run)[..n] == run[..n];
      CachedCallFailsFast(Front(run), n, id, session);
      SilentForGood(s, Last(run), id, ToolError(HOST_UNSUPPORTED));
    }
  }

  /** The control points after the request went out. */
  predicate PastSend(pc: Pc) {
    pc.Sent? || pc.Waiting? || pc.SendFailed? || pc.Caching? || pc.Leaving? || pc.Replied?
  }

  lemma SendOnceStep(s: State, a: Action, id: Id)
    requires Enabled(s, a) && multiset(s.sends)[id] <= 1
    requires id in s.sends ==> id in s.calls && !s.calls[id].pc.Checked? && !s.calls[id].pc.Registered?
    requires id in s.calls && PastSend(s.calls[id].pc) ==> id in s.sends
    ensures multiset(Step(s, a).sends)[id] <= 1
    ensures id in Step(s, a).sends ==>
      id in Step(s, a).calls && !Step(s, a).calls[id].pc.Checked? && !Step(s, a).calls[id].pc.Registered?
    ensures id in Step(s, a).calls && PastSend(Step(s, a).calls[id].pc) ==> id in Step(s, a).sends
  {
    if a.Send? && a.id == id {
      assert id !in s.sends;
    }
  }

  /** A call puts at most one request on the wire, none before it registers, and waits only after it has. */
  lemma {:induction false} SendsAtMostOnce(run: seq<Action>, id: Id)
    requires IsRun(run)
    ensures multiset(After(run).sends)[id] <= 1
    ensures id in After(run).sends ==>
      id in After(run).calls && !After(run).calls[id].pc.Checked? && !After(run).calls[id].pc.Registered?
    ensures id in After(run).calls && PastSend(After(run).calls[id].pc) ==> id in After(run).sends
  {
    if run != [] {
      SendsAtMostOnce(Front(run), id);
      SendOnceStep(After(Front(run)), Last(run), id);
    }
  }
}
