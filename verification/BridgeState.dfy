/**
 The state that `ToolCallBridge` guards with its mutex, and the effect of each critical section on it. The
 transition system runs these functions as atomic steps; the class in `BridgeObject.dfy` implements them.

 Request ids are fresh, so an entry object is named by its request id: `entries` is every entry ever
 registered, `pending` the keys of the pending map.
 */
module BridgeState {
  import opened Wire
  import opened Chunking

  /** `closes` counts the close operations on the entry's `done` channel: a second one is a Go panic. */
  datatype Entry = Entry(
    grant: bool, fragments: seq<ToolResult>, cancelled: Option<string>, err: bool, closes: nat)

  const FRESH_ENTRY := Entry(false, [], None, false, 0)

  datatype Shared = Shared(pending: set<Id>, entries: map<Id, Entry>, unsupported: set<Session>)

  const EMPTY_SHARED := Shared({}, map[], {})

  /** A fragment that resolves its call: a typed failure, an unchunked result, or the final chunk. */
  predicate Terminal(f: ToolResult) {
    f.callError != "" || f.chunk.None? || f.chunk.value.final
  }

  predicate Quiet(fs: seq<ToolResult>) {
    forall i :: 0 <= i < |fs| ==> !Terminal(fs[i])
  }

  predicate EndsTerminal(fs: seq<ToolResult>) {
    |fs| > 0 && Terminal(fs[|fs| - 1]) && Quiet(fs[..|fs| - 1])
  }

  /** Lookup in the pending map. */
  predicate Listed(sh: Shared, id: Id) {
    id in sh.pending && id in sh.entries
  }

  function Register(sh: Shared, id: Id): Shared {
    sh.(pending := sh.pending + {id}, entries := sh.entries[id := FRESH_ENTRY])
  }

  function Remove(sh: Shared, id: Id): Shared {
    sh.(pending := sh.pending - {id})
  }

  /** What `takeGrant` reports; it also removes the id. */
  predicate Granted(sh: Shared, id: Id) {
    Listed(sh, id) && sh.entries[id].grant
  }

  function CacheSession(sh: Shared, session: Session): Shared {
    sh.(unsupported := sh.unsupported + {session})
  }

  function MarkGranted(sh: Shared, id: Id): Shared {
    if Listed(sh, id) then sh.(entries := sh.entries[id := sh.entries[id].(grant := true)]) else sh
  }

  function RouteCancel(sh: Shared, id: Id, reason: string): Shared {
    if !Listed(sh, id) then sh
    else
      var e := sh.entries[id];
      Remove(sh, id).(entries := sh.entries[id := e.(cancelled := Some(reason), closes := e.closes + 1)])
  }

  function RouteResult(sh: Shared, f: ToolResult): Shared {
    var id := f.requestId;
    if !Listed(sh, id) then sh
    else
      var e := sh.entries[id].(fragments := sh.entries[id].fragments + [f]);
      if Terminal(f) then Remove(sh, id).(entries := sh.entries[id := e.(closes := e.closes + 1)])
      else sh.(entries := sh.entries[id := e])
  }

  /** First half of `closeAll`: the map is emptied under the lock. */
  function TakeAll(sh: Shared): Shared {
    sh.(pending := {})
  }

  /** Second half of `closeAll`, outside the lock: `err` is written, then `done` is closed. */
  function WriteErr(sh: Shared, id: Id): Shared {
    if id in sh.entries then sh.(entries := sh.entries[id := sh.entries[id].(err := true)]) else sh
  }

  function CloseDone(sh: Shared, id: Id): Shared {
    if id in sh.entries
    then sh.(entries := sh.entries[id := sh.entries[id].(closes := sh.entries[id].closes + 1)])
    else sh
  }

  datatype ContextErr = DeadlineExceeded | Canceled

  /** What `CallAdapterTool` returns; `raw` is the outputs document handed to the JSON decoder. */
  datatype CallResult =
    | Success(outcome: string, raw: Bytes)
    | ToolError(code: string)
    | Denied(reason: string)
    | PermissionsClosed
    | ReassembleError
    | ContextError(err: ContextErr)
    | SendError
    | InvalidCall
    | IndexPanic

  const HOST_UNSUPPORTED := "host_unsupported"

  function Pieces(fs: seq<ToolResult>): (ps: seq<Piece>)
    requires forall i :: 0 <= i < |fs| ==> fs[i].chunk.Some?
  {
    seq(|fs|, i requires 0 <= i < |fs| => Piece(fs[i].chunk.value, fs[i].outputs))
  }

  /** The library's joiner; a message without framing cannot be part of a chunked delivery. */
  function JoinOutputs(fs: seq<ToolResult>): Option<Bytes> {
    if forall i :: 0 <= i < |fs| ==> fs[i].chunk.Some? then Join(Pieces(fs)) else None
  }

  /** The reading of a resolved call's fragments, with the unguarded `fragments[0]` kept visible as a panic. */
  function Interpret(fs: seq<ToolResult>): CallResult {
    if fs == [] then IndexPanic
    else if fs[0].callError != "" then ToolError(fs[0].callError)
    else if |fs| == 1 && fs[0].chunk.None? then Success(fs[0].outcome, fs[0].outputs)
    else
      match JoinOutputs(fs)
      case None => ReassembleError
      case Some(raw) => Success(fs[0].outcome, raw)
  }

  /** `finishToolCall`. */
  function Finish(e: Entry): CallResult {
    if e.err then PermissionsClosed
    else if e.cancelled.Some? then Denied(e.cancelled.value)
    else Interpret(e.fragments)
  }
}
