# Verified model of the Criteria Go adapter SDK

A Dafny model of the parts of the SDK where several operations have to agree, with proofs about every run and
every input:

- **The tool-call bridge** (`Bridge*.dfy`). Blocking adapter tool calls wait on a channel while Permissions loops
  route grants, denials and result fragments into a shared map, deadlines race with replies, and a dying stream
  resolves everything that is pending. `BridgeState` gives the effect of each critical section, `BridgeProtocol`
  interleaves callers and loops at the granularity of the mutex (with `closeAll` split where it leaves the lock, and
  its `err` write and its close as separate steps), `BridgeTheorems` proves what holds of every run, `BridgeRefinement`
  shows that each call sees a one-slot automaton in which `closeAll` is a single event, `BridgeObject` is the
  bridge as a class whose methods implement the critical sections, `BridgeLoopRun` and `BridgeCalls` show that a
  Permissions loop and the pieces of a tool call on that object are runs of the protocol, and `BridgeWitnesses` holds
  runs that show what can go wrong.
- **Result delivery** (`Sequences`, `Chunking`, `Delivery`, `Conformance`). The sender's whole-or-chunked loop, the strict
  arrival-order joiner, the host's streaming rule, and the verdict of the concurrent-execute conformance case.
- **The manifest pipeline** (`Text`, `Patterns`, `AdapterSpec`, `Manifest`, `StrictManifest`, `Publishing`). Spec
  validation, derivation into the keyed Info form, the manifest document, the strict validator with its regular
  expressions, and which specs pass from one end to the other.
- **The loops** (`PermissionLoops`, `Backoff`). The two Permissions loops' decision sequences and the reconnect
  backoff in 64-bit arithmetic.

`dafny verify dfyconfig.toml` checks the whole project.

## What the proofs brought out

- The backoff closed form `min(initial * 2^n, cap)` holds exactly when `initial <= cap < 2^62` ns
  (`Backoff.ClosedFormIff`). A sleep exceeds the cap exactly when it is the first one or follows a connection and the
  initial delay does (`Backoff.ExceedsCapIff`). From 2^62 on, in either delay, a doubling wraps to a negative one
  (`Backoff.DelaysPositiveIff`).
- A result survives the trip exactly when it fits one message, or its outcome is non-empty and its outputs are at most
  2^32 - 1 chunk sizes long (`Delivery.RoundTrip`). An unchunked one is accepted even with an empty outcome.
- The field types `bool` and `list_string` are part of the SDK's own vocabulary (`adapterhost/spec.go:26-32`), yet no
  spec that uses them passes the strict validator (`Publishing.SdkTypesNotPublishable`, `Publishing.RetypedIff`), even
  if nothing else is wrong with it (`Publishing.BoolFlagRefused`); the model follows the code.
- A trailing slash leaves no trace in a platform document. Platforms can be read back exactly when they all have an arch
  (`Publishing.PlatformReadBackIff`, `Publishing.PlatformsReadBackIff`).
- A `call_error` that arrives behind a chunk is lost: the call succeeds if the fragments join
  (`BridgeTheorems.TypedFailureIffFirst`), as in the run of `BridgeTheorems.LateFailureSucceeds`.
- The only way calls influence each other is the session cache: a call behaves as if it were alone exactly when its
  session was not cached before it checked (`BridgeTheorems.NonInterference`). `BridgeWitnesses.CachedByAnother` is a
  run in which it was.
- The documented capability gate is a grant with no result message before the deadline (`adapterhost/toolcall.go:209-212`).
  The code caches the session of a granted call at its deadline whenever no delivered fragment was terminal, however
  many there were, so a host that is in the middle of a chunked answer is marked as predating tool calls
  (`BridgeTheorems.CachedIffRevealed`, `BridgeWitnesses.CachedByAnother`); the model follows the code.
- The bridge's loop treats a receive error with status OK as a normal end, the permissionless default does not
  (`PermissionLoops.SameReturnIff`). Only a custom stream can produce one: a gRPC stream reports an OK end as EOF.

## Modelling decisions

- Request ids are fresh. An entry is therefore named by its request id, and the id is fixed at the cache check.
- The chunk framer and joiner of the protocol library are not part of the repository. `Chunking` is a reference model
  of them: slices of at most the chunk size, seq from 0, agreeing totals, `final` on the last; the joiner accepts any
  order, needs every number once, and refuses lists of 2^32 pieces or more. The framing is the one asserted in
  `adapterhost/profile_test.go:712-744`. Chunking is needed when the outputs are longer than the chunk size.
- Channel closes are counted, and `fragments[0]` on an empty list is a visible result value, so that the absence of a
  double close and of an index panic are theorems and not preconditions.
- A stream is a finite list of events and a closing error; failing sends are a budget. Example files are a map from
  path to contents. The history of connection attempts is a parameter.
- Time is a step of the protocol: a clock that only advances, deadlines as instants on it, and the end of a context as
  an event of its own. `DeadlineExceeded` needs the deadline to have passed; cancellation can come at any time. Results
  about returning say what the call can do by itself; that the scheduler lets it is not part of the model.
- JSON is the identity on documents; a successful call returns the raw outputs document.

## Model

| member | source | states |
|---|---|---|
| `Chunking.SlicesConcat` | adapterhost/profile_test.go:712-744 | cutting a payload at any chunk size loses no byte |
| `Chunking.SliceCount` | adapterhost/profile_test.go:712-744 | a payload takes at most k chunks iff it is at most k chunk sizes long |
| `Chunking.SlicesFull` | adapterhost/profile_test.go:712-744 | every chunk but the last has exactly the chunk size |
| `Chunking.JoinAnyOrder` | adapterhost/toolcall_test.go:295-342 | every rearrangement of a framed payload joins to exactly that payload, and only a payload longer than 2^32 - 1 chunks is refused |
| `Chunking.JoinIff` | adapterhost/toolcall_test.go:295-342 | the joiner succeeds iff the pieces are, in some order, the framing of some list of fewer than 2^32 slices, and then yields their concatenation |
| `BridgeProtocol.ClosedEntryFrozen` | adapterhost/toolcall.go:464-508 | no step of any actor changes an entry whose channel is closed |
| `BridgeProtocol.BatchCountStep` | adapterhost/toolcall.go:496-508 | how each step moves entries into and out of `closeAll` batches |
| `BridgeProtocol.InvStep` | adapterhost/toolcall.go:378-508 | every atomic step keeps the ownership, resolution, control-point, context and batch invariants |
| `BridgeProtocol.InvHolds` | adapterhost/toolcall.go:378-508 | the invariants hold after every run, in every interleaving |
| `BridgeTheorems.EntryOwnedOnce` | adapterhost/toolcall.go:378-508 | an entry is in exactly one of: pending map, one closing batch, closed, abandoned; so no channel is closed twice |
| `BridgeTheorems.ClosedHasOneCause` | adapterhost/toolcall.go:466-528 | closed means exactly one of stream error, denial, or a delivery ending at its only terminal fragment; finishing never indexes an empty list |
| `BridgeTheorems.NoLeak` | adapterhost/toolcall.go:280-323 | pending keys belong to calls between register and return; a quiescent bridge is empty |
| `BridgeTheorems.StreamEndWakesCallers` | adapterhost/toolcall.go:494-508 | when a `closeAll` is done, each call it took can return, and a reply can only be the closed-stream error |
| `BridgeTheorems.NonInterference` | adapterhost/toolcall.go:254-323 | a call's own actions, the stream ends and the clock make a run by themselves, and the call's whole view of it, result included, is the same as in the full run iff its session was not already cached when it checked; for a call that has registered it always is |
| `BridgeTheorems.FragmentsStep` | adapterhost/toolcall.go:478-492 | a step adds to an entry exactly the fragment it dispatches to it while it is pending |
| `BridgeTheorems.FragmentsAreDelivered` | adapterhost/toolcall.go:478-492 | an entry holds its delivered fragments in arrival order, all of them while pending |
| `BridgeTheorems.ResolvedByFirstTerminal` | adapterhost/toolcall.go:487-491 | a call resolved by a reply holds the delivery up to and including the first terminal fragment |
| `BridgeTheorems.Reassembly` | adapterhost/toolcall.go:510-547 | for every payload, chunk size and order of the non-final chunks, amid any other traffic, a call resolved by the final chunk returns the original bytes and the first-arriving outcome; only a payload longer than 2^32 - 1 chunks fails |
| `BridgeTheorems.ReplyResolvesIff` | adapterhost/toolcall.go:480-492 | a reply to a pending call is kept, and closes its channel iff it is a typed failure, unchunked, or the final chunk |
| `BridgeTheorems.InterpretIs` | adapterhost/toolcall.go:522-547 | the result of every delivery up to its first terminal fragment: typed failure, lone unchunked message as it is, unchunked message behind chunks refused, chunks joined iff they are a complete delivery |
| `BridgeTheorems.ReplyIs` | adapterhost/toolcall.go:510-547 | a call resolved by a reply returns that result, in every run |
| `BridgeTheorems.WholeReply` | adapterhost/toolcall.go:530-533 | a call answered by one unchunked message returns its outcome and outputs |
| `BridgeTheorems.TypedFailureIffFirst` | adapterhost/toolcall.go:525-547 | a typed failure is reported iff it is the first fragment, with its code unchanged; behind a chunk it is lost, and the call succeeds iff the fragments join |
| `BridgeWitnesses.LateFailureSucceeds` | adapterhost/toolcall.go:487-547 | a run in which a final chunk carrying a call_error turns into a success |
| `BridgeTheorems.GaveUpHasCause` | adapterhost/toolcall.go:271-322 | every return without a reply names something that happened: failed send, invalid call, the end of the context with that error, or a cached session |
| `BridgeTheorems.FailedSendReturns` | adapterhost/toolcall.go:290-293 | a call whose send failed never waits, and returns the send error |
| `BridgeTheorems.AlwaysCanReturn` | adapterhost/toolcall.go:295-322 | from every reachable state the call's own steps, the clock and its deadline return it in at most seven steps: at once if its context has ended, else exactly at its own or imposed deadline, with host_unsupported if granted and the context error otherwise |
| `BridgeTheorems.RunsOutOfSteps` | adapterhost/toolcall.go:260-323 | in every run a call takes at most six steps of its own code, and from the end of its context until its return one of them is always enabled |
| `BridgeTheorems.DeadlineIsImposed` | adapterhost/toolcall.go:295-306 | a call waits, for the rest of the run, under the deadline its caller passed, else under the timeout its caller passed (60s by default) counted from the start of the wait |
| `BridgeTheorems.CallWasBegun` | adapterhost/toolcall.go:260-306 | every call was begun exactly once and keeps the session, timeout and deadline it was begun with |
| `BridgeTheorems.DeadlinesAreKept` | adapterhost/toolcall.go:295-322 | every waiting call has a deadline, and no context reports DeadlineExceeded before it |
| `BridgeTheorems.SendsAtMostOnce` | adapterhost/toolcall.go:282-293 | a call puts at most one request on the wire, none before it has registered, and has put one there whenever it waits or was answered |
| `BridgeTheorems.ReturnIsFinal` | adapterhost/toolcall.go:260-323 | what a call returned never changes later in the run |
| `BridgeTheorems.CachedWasRevealed` | adapterhost/toolcall.go:311-319 | a session is cached only through a call on it that was granted and met DeadlineExceeded, at or after its deadline, while open, with no terminal reply dispatched |
| `BridgeTheorems.CachedIffRevealed` | adapterhost/toolcall.go:311-319 | a session is cached, or a call is on its way to cache it, iff such a deadline is in the run |
| `BridgeWitnesses.CachedByAnother` | adapterhost/toolcall.go:311-319 | for any number of non-terminal fragments, a run in which a granted call receives them all, meets its deadline and has its session cached, and in which another call is turned away that passes the check in a run of its own |
| `BridgeTheorems.CacheGrows` | adapterhost/toolcall.go:412-417 | the unsupported set never shrinks along a run |
| `BridgeTheorems.CachedCallFailsFast` | adapterhost/toolcall.go:271-273 | a call that checks the cache after its session entered it returns host_unsupported, registers nothing and sends nothing |
| `BridgeRefinement.SlotTracks` | adapterhost/toolcall.go:455-508 | every run of the protocol is tracked, for every call, by a one-slot automaton with an atomic stream end |
| `BridgeRefinement.RepliesAreAtomic` | adapterhost/toolcall.go:308-310 | a reply returned through the channel is that automaton's answer, so the split `closeAll` is indistinguishable from an atomic one |
| `BridgeRefinement.AnsweredIsNotStranded` | adapterhost/toolcall.go:494-508 | an answered call's channel is closed, or exactly one running `closeAll` still holds it |
| `BridgeRefinement.DeadlineVerdict` | adapterhost/toolcall.go:311-321 | the deadline resolves to host_unsupported iff the slot is open and granted and the error is DeadlineExceeded |
| `BridgeObject.PendingToolCall.constructor` | adapterhost/toolcall.go:378-379 | a new entry is ungranted, empty and open |
| `BridgeObject.PendingToolCall.Close` | adapterhost/toolcall.go:475-475 | closes an open channel; closing twice is excluded by its precondition |
| `BridgeObject.ToolCallBridge.constructor` | adapterhost/toolcall.go:247-252 | an empty, valid bridge |
| `BridgeObject.ToolCallBridge.Register` | adapterhost/toolcall.go:378-384 | adds a fresh entry and leaves every other one alone |
| `BridgeObject.ToolCallBridge.Remove` | adapterhost/toolcall.go:387-391 | drops the id and nothing else |
| `BridgeObject.ToolCallBridge.TakeGrant` | adapterhost/toolcall.go:395-401 | reports the grant of a listed entry and drops the id |
| `BridgeObject.ToolCallBridge.SessionUnsupported` | adapterhost/toolcall.go:405-410 | answers membership in the cache |
| `BridgeObject.ToolCallBridge.CacheUnsupported` | adapterhost/toolcall.go:413-417 | adds the session to the cache |
| `BridgeObject.ToolCallBridge.MarkGranted` | adapterhost/toolcall.go:456-462 | marks the listed entry, ignores unknown ids |
| `BridgeObject.ToolCallBridge.RouteCancel` | adapterhost/toolcall.go:466-476 | resolves the listed entry with the denial and closes it once, ignores unknown ids |
| `BridgeObject.ToolCallBridge.RouteResult` | adapterhost/toolcall.go:480-492 | appends the fragment to the listed entry and resolves it on a terminal one |
| `BridgeObject.ToolCallBridge.TakeAll` | adapterhost/toolcall.go:497-503 | empties the map into a batch of distinct, open entries covering it exactly |
| `BridgeObject.ToolCallBridge.CloseTaken` | adapterhost/toolcall.go:504-507 | writes the error and closes every entry of the batch, each once |
| `BridgeObject.ToolCallBridge.Receive` | adapterhost/toolcall.go:427-452 | one allow per request with a non-empty id, in arrival order, each mark directly after its acknowledgment; events take effect in arrival order |
| `BridgeObject.AckBeforeMark` | adapterhost/toolcall.go:436-446 | each grant is marked directly after its acknowledgment |
| `BridgeObject.ToolCallBridge.Permissions` | adapterhost/toolcall.go:425-453 | the receive loop followed by `closeAll` over exactly what was pending |
| `BridgeLoopRun.LoopIsARun` | adapterhost/toolcall.go:425-453 | dispatching events and closing the batch is a run of the protocol that drains its batch |
| `BridgeLoopRun.EventsAreRouted` | adapterhost/toolcall.go:435-451 | a grant with an id grants, a cancellation denies and a reply replies, each to the call it names, all of them in arrival order |
| `BridgeLoopRun.PermissionsInProtocol` | adapterhost/toolcall.go:425-453 | a bridge object whose state some run reaches is, after its Permissions loop, in the state that run extended by the loop's actions reaches, so the protocol's theorems hold of the object |
| `BridgeCalls.StartCall` | adapterhost/toolcall.go:271-306 | the code before the wait, on the object, is a run of the protocol that ends in the one early return that applies, with nothing left pending, or waiting until the deadline its arguments give |
| `BridgeCalls.FinishCall` | adapterhost/toolcall.go:308-310 | reading the closed entry is the protocol's reply, and never an index panic |
| `BridgeCalls.AbandonCall` | adapterhost/toolcall.go:311-322 | the code after the end of the context is a run that drops the id, caches the session iff granted at a deadline, and returns accordingly |
| `PermissionLoops.RunUnimplementedPermissions` | adapterhost/service.go:93-113 | one allow per request, in order, up to the first failing send, and the resulting return |
| `PermissionLoops.DefaultDecisions` | adapterhost/service.go:104-110 | the k-th decision carries the id of the k-th request, and every request is decided |
| `PermissionLoops.BridgeDecisions` | adapterhost/toolcall.go:436-445 | the same for the bridge, for the requests with an id |
| `PermissionLoops.CleanReturnIff` | adapterhost/toolcall.go:428-434 | when each loop returns cleanly, and when with the send error |
| `PermissionLoops.AcksAgree` | adapterhost/service.go:93-113 | the default and the bridge decide alike iff no request has an empty id |
| `PermissionLoops.SameDecisionsOnEveryBudget` | adapterhost/toolcall.go:425-453 | the same for every point at which sends start to fail |
| `PermissionLoops.SameReturnIff` | adapterhost/toolcall.go:428-434 | on such streams the loops return alike, except for a receive error with status OK after all sends went through |
| `Delivery.CheckNumbering` | adapterhost/conformance.go:272-288 | totals and seqs match the 32-bit conversions of length and index, or a true defect is reported |
| `Delivery.CheckFinal` | adapterhost/conformance.go:290-298 | the final flag is on the last fragment only |
| `Delivery.CheckOutcomes` | adapterhost/conformance.go:303-311 | outcome on fragment 0, later ones empty or equal |
| `Delivery.LaterOutcomeIff` | adapterhost/conformance.go:303-311 | changing the outcome of a later fragment keeps a delivery accepted iff the new one is empty or the first one's |
| `Delivery.WholeAmongOthers` | adapterhost/conformance.go:262-266 | an unchunked message among others is never accepted |
| `Delivery.JoinExecuteResult` | adapterhost/conformance.go:251-318 | accepts exactly a lone unchunked message or one complete delivery in order, with its outcome and payloads; each rejection names a defect that is present |
| `Delivery.PrefixFree` | adapterhost/conformance.go:251-318 | no accepted delivery is a proper prefix of another |
| `Delivery.OnlyItself` | adapterhost/conformance.go:251-318 | of all lists made by dropping, repeating and reordering the messages of an accepted delivery, only itself is accepted |
| `Delivery.InterleavingRejected` | adapterhost/conformance.go:251-318 | no merge of two accepted deliveries is accepted |
| `Delivery.StreamCompletes` | adapterhost/conformance.go:243-250 | the one-at-a-time host completes exactly on lists in seq order with a single closing final flag |
| `Delivery.JoinerRefinesStream` | adapterhost/conformance.go:243-250 | the batch joiner accepts a chunked list iff the streaming host completes it and totals and outcomes agree, with the same result |
| `Delivery.Execute` | adapterhost/spec.go:526-566 | sends the whole message sequence of a result, or the prefix before the failing send, and nothing without a result; no message is over the configured limit (4 MiB by default), and each carries outcome and comment |
| `Delivery.MessageCount` | adapterhost/spec.go:542-560 | a result goes out whole iff it fits the limit, and otherwise in k chunks iff its length is over k - 1 and at most k limits |
| `Delivery.RoundTrip` | adapterhost/spec.go:542-565 | what is sent is accepted iff the outputs fit one message, or the outcome is set and they are at most 2^32 - 1 chunk sizes long; it always carries the original outcome and outputs |
| `Delivery.PartialDeliveryRejected` | adapterhost/spec.go:560-564 | every proper prefix left by a failing send is rejected |
| `Conformance.VerifyDistinctResults` | adapterhost/conformance.go:323-332 | accepts iff the expected results are pairwise distinct |
| `Conformance.Verdict` | adapterhost/conformance.go:187-200 | reports exactly the calls that did not get their own result, each once and in call order |
| `Conformance.PassesIffIdentity` | adapterhost/conformance.go:73-94 | under a cross-delivery f the reported calls are those f moves, so the case passes iff f is the identity |
| `Conformance.UnreportedBound` | adapterhost/conformance.go:187-200 | unreported calls never outnumber the distinct results delivered |
| `Conformance.SharedSlotFails` | adapterhost/conformance.go:110-113 | a shared result slot fails all calls but at most one |
| `Conformance.Drive` | adapterhost/conformance.go:211-241 | a stream is reduced to the logical result of its result events if it opens and ends normally, and to an error otherwise |
| `Conformance.ResultsIff` | adapterhost/conformance.go:219-234 | draining keeps exactly the result events, all of them and in order |
| `Conformance.OutcomeIff` | adapterhost/conformance.go:211-241 | a call gets a result iff its stream opens, ends normally and carries one accepted delivery of it |
| `Conformance.DoubledResultFails` | adapterhost/conformance.go:243-266 | an unchunked result beside any other result message is an error, wherever the two are in the stream |
| `Conformance.ServedCorrectlyIffPasses` | adapterhost/conformance.go:114-206 | end to end: when the result events of each stream, among any other events, are the messages of some call's result, the case passes iff every call is served its own |
| `Conformance.BrokenStreamReported` | adapterhost/conformance.go:187-200 | a call whose stream failed, or ended midway through a delivery, is always reported |
| `Text.ParsePrint` | internal/strictmanifest/strictmanifest.go:179-181 | parsing a printed number gives it back, for every number |
| `Text.PrintParse` | internal/strictmanifest/strictmanifest.go:179-181 | every numeral without leading zeros is the printing of its value |
| `Text.AtoiIff` | adapterhost/manifest.go:161-168 | trimming and parsing gives a number iff the string is white space, an optional sign and digits denoting it in 64 bits, and white space |
| `Patterns.NameDecided` | internal/strictmanifest/strictmanifest.go:174-174 | the recogniser decides the name pattern's language |
| `Patterns.OsDecided` | internal/strictmanifest/strictmanifest.go:175-175 | same for the os pattern |
| `Patterns.ArchDecided` | internal/strictmanifest/strictmanifest.go:176-176 | same for the arch pattern |
| `Patterns.EnvDecided` | internal/strictmanifest/strictmanifest.go:177-177 | same for the environment pattern |
| `Patterns.SchemeDecided` | internal/strictmanifest/strictmanifest.go:178-178 | a scan decides whether some prefix matches the URL scheme pattern |
| `Patterns.TypeDecided` | internal/strictmanifest/strictmanifest.go:182-182 | same for the field type pattern |
| `Patterns.TypesAre` | internal/strictmanifest/strictmanifest.go:182-182 | the accepted types are the five listed ones |
| `Patterns.Alphabets` | internal/strictmanifest/strictmanifest.go:174-178 | the character classes of the patterns, character by character |
| `Patterns.VersionDecided` | internal/strictmanifest/strictmanifest.go:181-181 | cutting at dots decides the version pattern |
| `Patterns.VersionIsPrinted` | internal/strictmanifest/strictmanifest.go:107-109 | accepted versions are exactly the canonical printings of triples of naturals, as in section 2 of Semantic Versioning 2.0.0 |
| `Patterns.VersionUnique` | internal/strictmanifest/strictmanifest.go:107-109 | a version string determines its triple |
| `AdapterSpec.CheckSchema` | adapterhost/spec.go:329-338 | passes iff names are distinct and types set; an error names a present defect |
| `AdapterSpec.CheckSecrets` | adapterhost/spec.go:340-346 | passes iff secret names are distinct |
| `AdapterSpec.CheckExamples` | adapterhost/spec.go:347-357 | passes iff every example is named and has exactly one payload form |
| `AdapterSpec.Validate` | adapterhost/spec.go:311-359 | passes iff the declarative spec rules hold; an error names a present defect |
| `AdapterSpec.ValidIffNoDefect` | adapterhost/spec.go:311-359 | a spec is valid iff it has none of the defects an error can name |
| `AdapterSpec.AdapterSchemaProto` | adapterhost/spec.go:451-466 | builds the keyed form, unset for an empty schema |
| `AdapterSpec.BuildSecretMap` | adapterhost/spec.go:470-479 | builds the keyed secrets |
| `AdapterSpec.ResolveExamples` | adapterhost/spec.go:485-502 | inlines all examples, with the contents of the declared file or else the declared text, or fails iff a declared file is unreadable |
| `AdapterSpec.SupportedFeatures` | adapterhost/spec.go:364-384 | the override verbatim, or the verbs whose handlers are set, in table order |
| `AdapterSpec.FeaturesInOrder` | adapterhost/spec.go:364-384 | without an override the verbs come in the order of the table |
| `AdapterSpec.AdvertisedIff` | adapterhost/spec.go:361-384 | without an override each of the five verbs is advertised iff its handler is set |
| `AdapterSpec.FeaturesDetermineHandlers` | adapterhost/spec.go:361-384 | without an override the feature list determines which handlers are set |
| `AdapterSpec.DeriveInfo` | adapterhost/spec.go:410-440 | succeeds iff the spec is valid and its files readable, with every field of the Info response in place |
| `AdapterSpec.SchemaMapLossless` | adapterhost/spec.go:455-465 | one entry per declared field, all five attributes intact |
| `AdapterSpec.SchemaMapInjective` | adapterhost/spec.go:446-466 | the keyed form determines the declared fields up to order |
| `AdapterSpec.SecretMapInjective` | adapterhost/spec.go:468-479 | the keyed secrets determine the declared secrets up to order |
| `Manifest.PlatformsFromStrings` | adapterhost/manifest.go:148-159 | each platform string is cut at its first slash |
| `Manifest.SchemaFromProto` | adapterhost/manifest.go:170-182 | the document has the same field names, each with all five attributes carried over; an unset schema becomes an empty one |
| `Manifest.SecretsFromMap` | adapterhost/manifest.go:188-194 | exactly one required entry per secret, in some order |
| `Manifest.ProtocolVersionRead` | adapterhost/manifest.go:161-168 | a printed 64-bit version is read as itself through any surrounding white space |
| `Manifest.ProtocolVersionIff` | adapterhost/manifest.go:161-168 | the version is the number the string spells, and 2 for strings that spell none |
| `Manifest.BuildManifest` | adapterhost/manifest.go:123-144 | the document carries every part of the Info response, the protocol version parsed |
| `StrictManifest.ValidatePlatforms` | internal/strictmanifest/strictmanifest.go:119-133 | the first platform problem: none at all, or the first bad os or arch |
| `StrictManifest.ValidateFields` | internal/strictmanifest/strictmanifest.go:159-169 | passes iff every field type matches, else names a field that does not |
| `StrictManifest.ValidateEnvironments` | internal/strictmanifest/strictmanifest.go:148-152 | the first environment that is neither a star nor a match |
| `StrictManifest.ValidateManifest` | internal/strictmanifest/strictmanifest.go:100-157 | passes iff all rules hold, stated over the patterns' languages, and otherwise reports the first broken rule in the order of the checks |
| `StrictManifest.ValidIffNoneBroken` | internal/strictmanifest/strictmanifest.go:100-157 | a document is valid iff none of the rules is broken at any place of it |
| `Publishing.PublishableIff` | internal/strictmanifest/strictmanifest.go:100-157 | a valid spec's manifest passes iff a predicate on the spec alone holds |
| `Publishing.EmitAndCheck` | adapterhost/manifest.go:36-47 | the pipeline from spec to strict verdict succeeds iff the spec is valid, readable and publishable |
| `Publishing.SdkTypesNotPublishable` | adapterhost/spec.go:26-32 | no spec using `bool` or `list_string` in any schema is publishable |
| `Publishing.RetypedIff` | adapterhost/spec.go:26-32 | a field of a publishable spec, in any schema, may be given another SDK type iff that is neither `bool` nor `list_string` |
| `Publishing.BoolFlagRefused` | adapterhost/spec.go:26-32 | a valid, readable spec that a `bool` field alone keeps from passing |
| `Publishing.PlatformRejoins` | adapterhost/manifest.go:148-159 | joining os and arch gives the platform string back iff it has a slash |
| `Publishing.EmptyArchAmbiguous` | adapterhost/manifest.go:151-156 | every platform string without an arch shares its document with another one |
| `Publishing.SlashAmbiguous` | adapterhost/manifest.go:151-156 | `js` and `js/` give the same document |
| `Publishing.PlatformReadBackIff` | adapterhost/manifest.go:148-159 | a platform string is determined by its document iff some slash in it is followed by something |
| `Publishing.EmittedSays` | adapterhost/manifest.go:123-194 | the manifest of a valid spec carries each of its declarations in its own place: one field per declared field with all five attributes, one required entry per secret |
| `Publishing.ManifestDeterminesSpec` | adapterhost/manifest.go:123-194 | valid specs with equal manifests agree on every emitted part, schemas and secrets up to order, and platforms when all of one spec have an arch |
| `Publishing.PlatformsReadBackIff` | adapterhost/manifest.go:148-159 | a manifest determines its spec's platforms iff they all have an arch |
| `Backoff.Reconnect` | adapterhost/serve_remote.go:79-98 | for every history, the first sleep and those after a connection are the initial delay, every other one is the capped double of the one before; defaults 1s and 30s |
| `Backoff.ScheduleClosedForm` | adapterhost/serve_remote.go:88-98 | k attempts after the start or a connection such a schedule sleeps min(initial * 2^k, cap) |
| `Backoff.SinceIs` | adapterhost/serve_remote.go:90-94 | the count of doublings goes back to the start or the last connection, and no further |
| `Backoff.ClosedFormIff` | adapterhost/serve_remote.go:95-97 | all sleeps follow min(initial * 2^n, cap) iff initial <= cap < 2^62 |
| `Backoff.DelaysPositiveIff` | adapterhost/serve_remote.go:95-97 | every delay is positive iff initial and cap are both below 2^62; an initial delay from 2^62 on is negative after one doubling |
| `Backoff.HistoryClosedForm` | adapterhost/serve_remote.go:79-98 | the closed form over whole connection histories, defaults applied |
| `Backoff.DefaultBackoff` | adapterhost/serve_remote.go:79-86 | with neither delay configured the sleeps are 1s doubling up to 30s |
| `Backoff.SleepsBounded` | adapterhost/serve_remote.go:88-98 | sleeps stay between initial and cap and never shrink between connections |
| `Backoff.ExceedsCapIff` | adapterhost/serve_remote.go:88-97 | a sleep exceeds the cap iff it is the first one or follows a connection, and the initial delay exceeds the cap |

## Left out

- BridgeObject.ToolCallBridge.Permissions: states one loop running undisturbed, because a method cannot be interrupted;
  interleavings with callers and other loops are in the transition system.
- The blocking wait of `CallAdapterTool` (its `select` and timers) exists only as protocol steps: `BridgeCalls` has the
  code before and after it as methods, each running undisturbed.
- BridgeLoopRun.PermissionsInProtocol: one loop running undisturbed, for the same reason.
- Delivery.JoinExecuteResult: that lists of 2^32 or more fragments are rejected rests on the reference joiner, because
  the library's own joiner is not part of the repository.
- Conformance.Verdict: the final sorting of the rendered failure texts is not modelled.
- BridgeTheorems.AlwaysCanReturn: says what a call can do, not that a scheduler lets it, because fairness is not modelled.
- Canonical JSON, argument digests, the request payload, and JSON decoding of outputs and manifests.
- Random id generation, heartbeats, scheduler fairness and error texts.
- gRPC, go-plugin, TLS dialing, the handshake frame, process exit and standard output.
- Secrets helpers, the lifecycle verbs themselves, the single-connection listener and the log handler: they would
  add easy members only.
