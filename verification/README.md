# Verified models of the proxy's converters, configuration sync and scheduler

An LLM gateway translates between chat protocols, keeps its configuration in step with a
center, and chooses an endpoint and a key for every request. This project models those three
parts in Dafny and proves what each is for.

**Protocol conversion.** `StreamConverter` is the converter object with its block counters, open
flags and index map; a stream of OpenAI chunks becomes Anthropic events and back. A client reads a
stream by folding it into a reply (`ClientReply`); an Anthropic stream folds into a message.
`StreamRoundTrip`, `StreamShape`, `StreamDelivery`, `StreamVersusWhole` and `StreamFraming` compare those folds.
`Request` and `RequestRoundTrip` do the same for whole requests.

**Configuration sync.** A bundle is six tables under natural keys. `BundleMerge` (with `RowMerge`,
`ChainCompare`, `Chains`, `LapiMerge`) is the merge that compares route chains and renames; `NodeKeys` and
`ChainIdentity` say which endpoints are one node and what that makes of a chain, `MergeReport` what the report
tells; `SyncMerge` is the local-wins union. `SyncProtocol` is the versioned protocol as a state machine over its
steps, and `SyncNode` the imperative node whose every history is a run of it. `ApplyBundle` and
`ApplyTransaction` are the transaction that turns a bundle into rows, over tables with surrogate ids
and cascading deletes (`Upserts`, `Store`); `ApplyTheorems` and `ApplyTwice` say what it keeps, `BundleExport`
reads a bundle back from the tables. `Migration` merges duplicate rows when natural keys are
introduced.

**Scheduling.** `Fsm` is the table-driven machine with its timer; `Endpoint` and `PlatformKey` are the
two entities built on it. `Scheduler` picks an endpoint, `KeyPool` and `KeyRotation` rotate over keys,
`Counters` holds the window counters, and `KeyRetry` is the gateway's retry loop over keys.

Code that updates fields is a class whose methods are proved against specification functions
(`OnChunk`, `Next`, `NextKey`, `MergeAll`, ...); the theorems are about those functions, so that each
of them holds of the imperative code. The clock, upstream answers, generated identifiers, token hashes
and the URL normalisation of the migration are parameters.

## Results

- **Stream round trip** (`RoundTrip`): for *every* chunk stream, text survives, the finish reason
  survives when it is one of the four of `FinishSurvives`, and the calls come back with id, name and
  full arguments, numbered by opening order, **if and only if** the fragments are disciplined: each call
  index opens once and arguments arrive at or after the opening (or before any opening).
- **Block shape**, for every chunk stream, whatever comes after a finish: the Anthropic output starts the
  message once and first and numbers blocks 0, 1, 2, ... **iff** nothing starts after a finish that came right
  after text; it is balanced **iff** the calls between two finishes share one index and nothing starts after
  the last finish, and strictly sequential **iff**, besides, no text follows a call before its finish. The
  text deltas always spell the input text, and every argument reaches the block of its own call **iff**
  arguments only come for indices that have opened.
- **Streamed equals whole** (`StreamedIsWhole`): a client that reads the converted events has the named calls
  of the whole message, all calls **iff** every one is named; **request round trip** (`RoundTripIff`).
- **Sync safety** (`SyncSafety`, `NodeIsSafe`): over every interleaving of edits on both sides with sync
  rounds, whenever the dirty flag is off after the first applied round, the local definitions are some
  center version between the last good one and the current one.
- **No row is lost by a merge** (`MergeKeepsRows`, `SyncNode.Node.SyncOnce`): a merge keeps every local row and
  takes exactly the center's other rows; apart from edits only a pull changes or removes a local row.
- **After a failed push** whose version was rewound the next round merges again; without the rewind every later
  poll skips **iff** nothing touches the center (`UnrewoundPushIsStuck`).
- **Merge**: it succeeds **iff** no input name is the first new name of an incomparable pair, then drops
  nothing, takes each chain from one side, and is absorbed by a second merge. Its report is empty **iff** the
  local side has nothing that the center lacks (`EmptyIff`). A common name compares as the same **iff** its chains
  have the same models on the same addresses, up to blanks, trailing slashes and the case of scheme and host.
- **Apply**: commits **iff** the bundle is committable, else changes nothing; row ids, metrics and
  bindings are as promised. (`Commits`, of which the theorems speak, is what a successful
  `Database.ApplyBundle` ensures.) The union merge can be applied **iff** no node that only the center has
  takes a used order index and no token hash occurs both with and without surrounding blanks. After a commit
  the tables read back as the bundle, bindings aside, **iff** no credential row without a hash remains and no
  hash has surrounding blanks (`ReadsBackIff`). `MergeWitnesses` holds bundles on which the merges fail.
- **Migration**: unique keys afterwards, every counter conserved, references follow the survivor and none is new,
  every credential is there and under the address it had.
- **Scheduling**: exact waiting time, invariants over every run, rotation without starvation, counters
  that agree with the request log, a retry loop that tries each key at most once and leaves on each what the
  status of its answer calls for.

## Where the code and its comments differ

- `internal/bundle/merge.go:162-165` says that the result always passes validation. The name allocation at
  lines 404-416 does not look at names sorted later, so it holds exactly under `RenameFree`
  (`MergeTheorems.MergeSucceedsIff`).
- With two call indices the block that opened first gets no stop, as the stop is looked up under the index
  of the call that opens next (`StreamShape.TwoCallsUnbalanced`, `BalancedIff`).
- A finish stops an open text block without moving on, so that a block after it reuses the index
  (`StreamShape.TextAfterFinish`, `ShapedIff`).
- `internal/bundle/merge.go:102` says that an empty report means that both ends agree. It does not see what only
  the center has (`MergeReport.EmptyButDifferent`), nor the columns of a public name.
- `internal/bundle/bundle.go:304` calls the node key the address and the model; as it joins them by a hash,
  an address with a hash can collide with another one (`NodeKeys.HashCollides`).
- `internal/service/sync.go:164-167` says that local edits are merged and not overwritten. An edit that falls
  between the decision to pull and the pull is (`SyncProtocol.LateEditIsLost`).
- The pool alignment is overwritten by the caller's own marking (`Endpoint.AlignmentOverwritten`).
- `internal/entity/key.go:283-288` calls a key that is put down pinned until a success or a repaired row. As
  long as only time passes that holds for every key with a stored row, whatever state it was in: the stored
  failure type keeps it out (`PlatformKey.PinnedIff`). A key without a stored row that was cooling keeps its
  timer and comes back with it. A stored key that was cooling can also come back: its old timer fires before
  its row is loaded again, and a late temporary failure of a request in flight then overwrites the permanent
  one (`PlatformKey.PinnedThroughFailuresIff`).
- The session cursor that reaches the sweep threshold is swept at once (`KeyRotation.NewSessionKeptIff`),
  so the cursor maximum of 10000 is never reached by session cursors (`TableBounded`).
- A block for one model does apply to the synthetic key of a pool without credentials, although a comment calls
  it exempt (`KeyRetry.SyntheticKeyShutOut`); a success does not lift it (`KeyRetry.Gateway.Accept`).
- Applying a bundle again finds the row of a listed credential **iff** the credential has a token or its hash was
  already stored on a platform that stays; otherwise a row without a hash stays behind and another is added
  (`ApplyTwice.SecondCommitFindsIff`). While such a row remains, an export fails (`UnhashedLeftIff`).
- `ApplyBundle` first derives a platform's availability from its token and then resets it for all.

## Model

| member | source | states |
|---|---|---|
| StreamConverter.Converter.constructor | internal/apiformat/convert_stream.go:36-45 | a new converter has sent nothing |
| StreamConverter.Converter.ProcessRole | internal/apiformat/convert_stream.go:473-476 | first assistant role starts the message; events and fields are those of the specification |
| StreamConverter.Converter.ProcessText | internal/apiformat/convert_stream.go:479-508 | text opens a text block once and is sent to it |
| StreamConverter.Converter.ProcessCall | internal/apiformat/convert_stream.go:530-590 | a fragment with an id and a name closes what is open and starts a block, no other does; arguments go to the block of their call |
| StreamConverter.Converter.ProcessToolCalls | internal/apiformat/convert_stream.go:511-591 | all fragments of a chunk, in order, after the message has started |
| StreamConverter.Converter.ProcessFinish | internal/apiformat/convert_stream.go:594-639 | stops for the open block, then the stop reason and the end |
| StreamConverter.Converter.OpenaiChunkToAnthropic | internal/apiformat/convert_stream.go:444-642 | events and new converter state of one chunk |
| StreamConverter.Converter.AnthropicChunkToOpenAI | internal/apiformat/convert_stream.go:167-336 | frames and call numbering of one event |
| StreamRoundTrip.RoundTrip | internal/apiformat/convert_stream.go:167-642 | any chunk stream converted there and back: same text, same finish up to the mapping, same calls iff disciplined, numbered by opening order |
| StreamRoundTrip.FinishSurvives | internal/apiformat/convert_stream.go:614-624 | a finish reason comes back unchanged iff it is empty, stop, length or tool_calls |
| StreamRoundTrip.ReasonsToldApart | internal/apiformat/convert_stream.go:294-306 | which finish and stop reasons are told apart in each direction |
| StreamRoundTrip.LinkCall | internal/apiformat/convert_stream.go:511-591 | one fragment keeps both sides' calls in step, and equal as long as the fragments are disciplined |
| StreamShape.ShapedIff | internal/apiformat/convert_stream.go:444-642 | for every chunk stream: message start once and before any block, blocks numbered 0, 1, 2, ..., iff nothing starts after a finish that came right after text (what goes into the blocks: `StreamDelivery`) |
| StreamShape.ShapedToFinish | internal/apiformat/convert_stream.go:444-642 | with no finish before the last chunk this always holds |
| StreamShape.TextAfterFinish | internal/apiformat/convert_stream.go:594-612 | text after a finish that ended text starts a second block under the same index |
| StreamShape.BalancedIff | internal/apiformat/convert_stream.go:530-612 | for every chunk stream: each started block is stopped exactly once iff the calls between two finishes share one index and nothing starts after the last finish |
| StreamShape.SequentialIff | internal/apiformat/convert_stream.go:479-612 | for every chunk stream: blocks come one after another iff, besides, no text follows a call before the next finish |
| StreamShape.TwoCallsUnbalanced | internal/apiformat/convert_stream.go:545-556 | two calls in one chunk leave a block without a stop |
| StreamDelivery.TextIsDelivered | internal/apiformat/convert_stream.go:479-508 | for every chunk stream the text deltas spell the input text, and each goes to the block started last, a text block |
| StreamDelivery.ArgumentsDeliveredIff | internal/apiformat/convert_stream.go:511-591 | every opening gets a tool block with its id and name, and all arguments reach the block of their own call, started before, iff they only come for indices that have opened |
| StreamDelivery.OrphanArguments | internal/apiformat/convert_stream.go:576-590 | arguments before any opening go to a block that never starts |
| StreamDelivery.StartCarriesId | internal/apiformat/convert_stream.go:473-528 | the message starts once, under the identifier of the first chunk with a role, text or calls |
| StreamDelivery.RoleComesFirst | internal/apiformat/convert_stream.go:167-200 | of a stream that starts its message first and once, the first frame alone carries the role and the identifier |
| StreamDelivery.DoneIff | internal/apiformat/convert_stream.go:324-325 | the closing frame is sent iff the message ends, and last if that comes last |
| StreamVersusWhole.AnthropicToOpenAIResponse | internal/apiformat/convert_response.go:44-140 | texts joined or null, tool blocks as calls in order, finish reason mapped |
| StreamVersusWhole.FinishSame | internal/apiformat/convert_response.go:88-101 | both tables of stop reasons agree |
| StreamVersusWhole.StreamedIsWhole | internal/apiformat/convert_stream.go:167-336 | converting events and folding gives the finish of the folded message and its named calls with all arguments, hence all its calls iff every tool block is named, and its text iff no block starts with text |
| StreamFraming.WriteConverted | internal/apiformat/convert_stream.go:131-149 | the frames written for one converted text |
| StreamFraming.FramesSurviveIff | internal/apiformat/convert_stream.go:131-149 | joined events come out as the same frames iff none is empty or contains the separator |
| Request.OpenaiToAnthropicRequest | internal/apiformat/convert_request.go:456-596 | the converted request: last system message, turns, tools, tool choice |
| Request.ConvertContentArray | internal/apiformat/convert_request.go:599-641 | content parts become blocks, an empty result one empty text |
| Request.AddCalls | internal/apiformat/convert_request.go:515-546 | non-empty texts, then one tool block per call |
| Request.ConvertTools | internal/apiformat/convert_request.go:569-585 | tools become specifications, in order |
| Request.AnthropicToOpenAIRequest | internal/apiformat/convert_request.go:66-262 | the request converted the other way |
| Request.ConvertTurn | internal/apiformat/convert_request.go:103-220 | a string stays a string, anything but a string or blocks keeps the role alone, and blocks become messages |
| Request.ConvertBlocks | internal/apiformat/convert_request.go:115-213 | tool results become messages and hide the rest of the turn; else one message |
| RequestRoundTrip.PlainTextIs | internal/apiformat/convert_request.go:79-102 | the plain text of a content: a string itself, of parts the texts one after another, else nothing |
| Request.ConvertSpecs | internal/apiformat/convert_request.go:233-254 | specifications become tools, in order |
| RequestRoundTrip.DataURLIff | internal/apiformat/convert_request.go:644-652 | a parsed data address is printed as it was iff its media type is non-empty and free of the base64 mark |
| RequestRoundTrip.FirstMarkSplits | internal/apiformat/convert_request.go:644-652 | the first mark separates media type and data, whatever marks the data hold |
| RequestRoundTrip.UnmarkedImage | internal/apiformat/convert_request.go:265-292 | an address without the mark comes back as a PNG |
| RequestRoundTrip.UntypedImage | internal/apiformat/convert_request.go:265-292 | so does one with the mark and no media type |
| RequestRoundTrip.ImageIff | internal/apiformat/convert_request.go:265-292 | an image part survives iff its address is good |
| RequestRoundTrip.PartsIff | internal/apiformat/convert_request.go:599-641 | a part list survives iff it is at most one text and then at least one good image |
| RequestRoundTrip.StringIsOneBlock | internal/apiformat/convert_request.go:109-213 | a string converts as one text block does; blocks convert as a string iff they are texts that join to it |
| RequestRoundTrip.MessageIff | internal/apiformat/convert_request.go:110-213 | one message comes back, unchanged iff it is good |
| RequestRoundTrip.ToolBack | internal/apiformat/convert_request.go:478-492 | a tool message becomes a result in a user turn and comes back as a tool message with the plain text of its content |
| RequestRoundTrip.MessagesIff | internal/apiformat/convert_request.go:456-566 | the message list survives iff a system message is alone, first and plain and the others are good |
| RequestRoundTrip.ToolsIff | internal/apiformat/convert_request.go:569-585 | the tools survive iff each is a function that states its description and its parameters |
| RequestRoundTrip.ChoiceIff | internal/apiformat/convert_request.go:655-680 | a tool choice survives iff it is auto, required, none or a named function |
| RequestRoundTrip.RoundTripIff | internal/apiformat/convert_request.go:66-680 | a request is unchanged by conversion there and back iff it round-trips part by part |
| RequestRoundTrip.RoundTripGives | internal/apiformat/convert_request.go:66-680 | what comes back of any request: the model asked for, a maximum of 32768 where none was given, auto for an unknown choice |
| ChainCompare.IsSubsequence | internal/bundle/merge.go:152-160 | the scan says yes iff an order-preserving embedding exists |
| ChainCompare.GreedyIffEmbeds | internal/bundle/merge.go:152-160 | greedy matching is sound and complete |
| ChainCompare.EmbedsAntisymmetric | internal/bundle/merge.go:152-160 | chains that embed in each other are equal |
| ChainCompare.SameMultiset | internal/bundle/merge.go:528-543 | the counting comparison is multiset equality |
| ChainCompare.CompareNodes | internal/bundle/merge.go:509-525 | the level of two chains |
| ChainCompare.CompareMirrored | internal/bundle/merge.go:509-525 | swapping the sides exchanges the subchain levels and keeps the others |
| ChainCompare.SubchainIsShorter | internal/bundle/merge.go:509-525 | a subchain level means that the other chain is strictly longer |
| NodeKeys.NormalIs | internal/bundle/bundle.go:309-321 | the normalised address is what is left without surrounding blanks and trailing slashes, with scheme and host in lower case |
| NodeKeys.SameNormalIff | internal/bundle/bundle.go:309-321 | two addresses have the same normal form iff they are equal up to surrounding blanks, trailing slashes and the case of scheme and host |
| NodeKeys.NodesEqualIff | internal/bundle/bundle.go:309-321 | two endpoints are one node iff their normal forms, followed by a hash and the model, are the same text |
| NodeKeys.PlainNodesEqualIff | internal/bundle/bundle.go:309-321 | on addresses without a hash: iff address, up to those, and model are the same |
| NodeKeys.HashCollides | internal/bundle/bundle.go:309-321 | two different endpoints that are one node |
| ChainIdentity.SameNodesIff | internal/bundle/merge.go:509-525 | a common name compares as the same iff its chains have the same endpoints in the same order |
| RowMerge.AddRows | internal/bundle/merge.go:211-240 | rows under a known key replace or give way in place, new ones are appended and reported, and so are the keys under which rows differ |
| RowMerge.MergeRows | internal/bundle/merge.go:211-360 | the merged table of one kind of row, the keys that only the local side has and the conflicts |
| RowMerge.MergedIs | internal/bundle/merge.go:211-360 | the center's rows patched by the rule, then the rows only the local side has |
| RowMerge.MergedKeys | internal/bundle/merge.go:211-360 | the keys are united and unique and every row comes from a side |
| RowMerge.MergedAbsorbs | internal/bundle/merge.go:211-360 | merging the result again with the same center gives it back |
| Chains.GroupChain | internal/bundle/merge.go:546-555 | the chain of every name in order of its indices |
| Chains.SortIs | internal/bundle/merge.go:546-555 | sorting orders a chain and keeps its routes |
| Chains.RenumberChains | internal/bundle/merge.go:558-573 | all chains, by name, each numbered from 0 |
| Chains.ChainAfterRenumber | internal/bundle/merge.go:558-573 | renumbering keeps the order of every chain |
| Chains.ChainsDetermineRoutes | internal/bundle/merge.go:558-573 | the numbered list is determined by the chains alone |
| LapiMerge.AllocateName | internal/bundle/merge.go:404-416 | the first free candidate; it terminates and is not taken |
| LapiProofs.CandidateText | internal/bundle/merge.go:404-416 | a new name is the name, a mark and a number in digits, from 2 on |
| LapiMerge.FilterChain | internal/bundle/merge.go:482-494 | routes to known endpoints stay in order, the others are reported |
| LapiMerge.KeptOrDropped | internal/bundle/merge.go:482-494 | every route of a chain is either kept, if its endpoint is known, or reported |
| LapiMerge.Collector.EmitEntry | internal/bundle/merge.go:418-431 | a row and its filtered chain are stored under a name |
| LapiMerge.Collector.Add | internal/bundle/merge.go:433-477 | what one name contributes at every comparison level |
| LapiMerge.Collector.AddBoth | internal/bundle/merge.go:466-476 | incomparable chains: the center keeps the name, the local one is renamed |
| LapiMerge.MergeEach | internal/bundle/merge.go:433-477 | all names in sorted order |
| LapiMerge.MergeLapisAndChains | internal/bundle/merge.go:373-480 | the merged names, numbered chains and reports |
| LapiProofs.TidyAll | internal/bundle/merge.go:404-477 | the entries are one per name and one more per incomparable name, under unique names |
| LapiProofs.FlattenChain | internal/bundle/merge.go:418-431 | the routes of a name are the chain of its entry |
| LapiCollision.CandidateBase | internal/bundle/merge.go:404-416 | new names of different base names never coincide |
| LapiCollision.FirstCandidateFree | internal/bundle/merge.go:404-416 | a later name that is a first candidate is allocated before it is processed |
| LapiCollision.Collides | internal/bundle/merge.go:404-416 | then two entries share a name |
| LapiCollision.NoMarkerRenameFree | internal/bundle/merge.go:404-416 | names without the marker never collide |
| BundleMerge.CheckRows | internal/bundle/bundle.go:180-220 | one pass accepts iff every row is good and no key repeats |
| BundleMerge.Validate | internal/bundle/bundle.go:180-289 | accepts iff natural keys are unique and non-empty and every reference resolves |
| BundleMerge.ValidIff | internal/bundle/bundle.go:180-289 | valid means: every key is there and its own, and everything a row refers to is listed |
| BundleMerge.Merge | internal/bundle/merge.go:166-208 | succeeds iff the merged bundle is valid, returns it, and reports local-only rows, conflicts, decisions and what it dropped |
| BundleMerge.DroppedIff | internal/bundle/merge.go:180-198 | of any two bundles exactly the endpoints without a platform and the bindings without an endpoint or a credential in the result are dropped |
| BundleMerge.DroppedReported | internal/bundle/merge.go:180-198 | and their keys, and no others, are reported |
| MergeReport.TableReported | internal/bundle/merge.go:211-360 | under either rule a table reports exactly the keys that only the local side has and those of the local rows that differ from the center's, in the local order |
| MergeReport.EmptyIff | internal/bundle/merge.go:102-111 | the report is empty iff every local row is a center row and every local name is a center name with an equal or contained chain |
| MergeReport.EmptyButDifferent | internal/bundle/merge.go:102-111 | two different bundles with an empty report |
| MergeReport.ReportDecides | internal/bundle/merge.go:433-477 | the report decides on exactly the names that the local side has: that the center lacks it, or how the chains compare, with a new name iff neither lies inside the other |
| MergeTheorems.MergeSucceedsIff | internal/bundle/merge.go:166-208 | of two valid bundles: valid result iff no input name is a first new name; no row is dropped in any case |
| MergeTheorems.MergeSucceedsWithoutMarker | internal/bundle/merge.go:166-208 | it succeeds on all valid bundles whose names lack the marker |
| MergeTheorems.ChainsFromOneSide | internal/bundle/merge.go:373-494 | every name's row and whole chain come from one side, in that side's order, numbered 0..n-1, and a renamed one from the local side |
| ChainIdentity.CommonName | internal/bundle/merge.go:433-477 | a name that both sides have: the longer chain stays if the other lies inside it, else both stay, the local one under a new name |
| ChainIdentity.DifferentChainsKept | internal/bundle/merge.go:144-160 | chains of one length that differ in one address or model never compare as the same, and both are in the result |
| MergeTheorems.NoOtherNames | internal/bundle/merge.go:373-494 | there are no other names and no routes under them |
| MergeTheorems.RowsAbsorbed | internal/bundle/merge.go:211-360 | the four row tables absorb a second merge |
| MergeTheorems.Absorption | internal/bundle/merge.go:166-208 | merging the result again with the same center changes nothing and renames nothing, under either rule |
| SyncMerge.EqualRowsEqualViews | internal/service/sync_merge.go:55-88 | rows compare equal iff they agree with timestamps cut to the second |
| SyncMerge.SameSecondIff | internal/service/sync_merge.go:55-60 | timestamps compare equal iff they lie in the same second |
| SyncMerge.HasKey | internal/service/sync_merge.go:269-321 | the search finds a key iff some row has it |
| SyncMerge.KeepLocal | internal/service/sync_merge.go:92-115 | local rows stay, those the center lacks are counted |
| SyncMerge.MergeTable | internal/service/sync_merge.go:92-254 | one table's union, its counts, and whether it adds to the center |
| SyncMerge.MergeBundles | internal/service/sync_merge.go:92-254 | the union of all tables with its summary |
| SyncMerge.UnionKeys | internal/service/sync_merge.go:92-254 | keys stay unique; a center row enters iff its key is new |
| SyncMerge.UnionTable | internal/service/sync_merge.go:92-254 | the union is the center overridden by the local rows, and the flag is set iff that differs from the center |
| SyncMerge.MergeIsOverride | internal/service/sync_merge.go:92-254 | the same for whole bundles, definitions and bindings: it adds to the center iff the result differs from it |
| SyncMerge.MergeIdempotent | internal/service/sync_merge.go:92-254 | a repeated merge with an unchanged center leaves every row as it was |
| SyncMerge.UnionDistinctOrderIff | internal/service/sync_merge.go:226-251 | order indices stay distinct iff no center-only node takes a used one |
| SyncProtocol.StepPreservesInv | internal/service/sync.go:147-320 | every step of the protocol keeps the invariant |
| SyncProtocol.RunKeepsInv | internal/service/sync.go:147-320 | so does every run |
| SyncProtocol.SyncSafety | internal/service/sync_dirty.go:164-177 | clean and applied: local definitions are a center version from last good to current; in sync: the current one |
| SyncProtocol.MergeKeepsRows | internal/service/sync.go:259-270 | from every reachable state a merge that applies keeps every local row as it is and takes from one later center version exactly the rows whose keys no local row has |
| SyncProtocol.RowsOnlyLostByPull | internal/service/sync.go:147-320 | apart from edits only a pull that was decided on changes or removes a local row |
| SyncProtocol.LateEditIsLost | internal/service/sync.go:205-222 | an edit between the decision to pull and the pull is overwritten, and the node, still dirty, skips from there on |
| SyncProtocol.FailedPushIsRetried | internal/service/sync.go:287-299 | after a failed and rewound push, and any edits and restarts, the next round merges again (or waits for a forced one in manual mode) |
| SyncProtocol.UnrewoundPushIsStuck | internal/service/sync.go:287-299 | after a failed push and any edits, restarts and polls the next poll skips, even a forced one, iff the version was not rewound, the push left the center alone and nobody edited it since the merge |
| SyncNode.Node.constructor | internal/service/sync_dirty.go:30-60 | a node starts in an initial state of the protocol |
| SyncNode.Node.MarkedEdit | internal/service/sync_dirty.go:119-125 | an edit with its mark is one protocol step |
| SyncNode.Node.EditAtCenter | internal/service/sync.go:791-838 | a center edit, such as a pushed replacement, makes a new version |
| SyncNode.Node.ClearEdgeDirtyIfUnchanged | internal/service/sync_dirty.go:73-79 | clears the flag iff no edit happened since |
| SyncNode.Node.ChooseAction | internal/service/sync.go:147-190 | reads the version and decides; undisturbed it skips on the current version, waits in manual mode unless forced, merges if dirty and pulls if clean |
| SyncNode.Node.PullBundleOrNone | internal/service/sync.go:197-222 | a network error stores nothing |
| SyncNode.Node.PullApplyBundle | internal/service/sync.go:215-240 | a pull round follows the protocol to its end and, undisturbed, stores the current version or leaves everything as it was |
| SyncNode.Node.StorePulled | internal/service/sync.go:223-240 | what was pulled is stored as it is, or dropped with an error, within the protocol |
| SyncNode.Node.ExportMergeApply | internal/service/sync.go:259-270 | on success every local row is kept as it is, every center row enters whose key no local row has, and nothing else; otherwise nothing changes |
| SyncNode.Node.FinishRound | internal/service/sync.go:273-285 | nothing to add: the flag is cleared if nothing was edited; else the local definitions are pushed, and without a failure the node is clean and on the version it made |
| SyncNode.Node.ApplyMergeRound | internal/service/sync.go:247-320 | a merge round follows the protocol to its end; undisturbed it joins local and center row by row and makes the join the next center version or leaves the center alone |
| SyncNode.Node.PullMergeBundle | internal/service/sync.go:196-204 | the same from the decision to merge on |
| SyncNode.Node.PushBack | internal/service/sync.go:286-319 | a push succeeds or fails within the protocol; undisturbed it keeps the local definitions and makes them the current version |
| SyncNode.Node.ClearAndAlign | internal/service/sync.go:304-319 | after a push the node is clean unless it was edited meanwhile, and then pulls what it pushed |
| SyncNode.Node.Push | internal/service/sync.go:325-348 | a successful push makes the pushed definitions a center version |
| SyncNode.Node.FailPush | internal/service/sync.go:287-300 | a failed push rewinds the stored version |
| SyncNode.Node.SyncOnce | internal/service/sync.go:168-211 | a whole round, interleaved with edits anywhere, is a run of the protocol that reads the version; undisturbed a dirty node keeps all its rows and takes the center's other rows, a clean one ends on the current version unless something fails, and a node that is up to date or held by manual mode stays as it is |
| SyncNode.NodeIsSafe | internal/service/sync_dirty.go:164-177 | whatever a node has gone through, it satisfies sync safety |
| Upserts.Store | internal/db/bundle_apply.go:145-188 | an item updates the row of its key or inserts one under a new id |
| Upserts.Mirror | internal/db/bundle_apply.go:145-218 | afterwards the table holds exactly the items; known keys keep their ids |
| Store.CascadeLinks | internal/db/migrate_natural_keys.go:30-71 | cascading deletes leave no dangling reference |
| Store.CascadeKeeps | internal/db/migrate_natural_keys.go:30-71 | nothing else goes: a row stays iff its platform does, a pair iff both its rows do |
| Store.UnkeyedRowsRepeat | internal/db/migrate_natural_keys.go:285-291 | rows without an address or a model are not told apart |
| ApplyBundle.ApplyPlatforms | internal/db/bundle_apply.go:145-218 | platforms are exactly the listed ones, ids kept, dependants of deleted ones gone |
| ApplyBundle.ApplyCredentials | internal/db/bundle_apply.go:220-299 | listed credentials stored under their hash, unlisted hashed ones deleted |
| ApplyBundle.ApplyRapis | internal/db/bundle_apply.go:324-426 | endpoints are exactly the listed ones, ids kept |
| ApplyBundle.SyncBindings | internal/db/credential.go:120-183 | an endpoint's bindings become exactly the wanted set |
| ApplyBundle.SyncAllBindings | internal/db/bundle_apply.go:309-401 | every listed endpoint is bound to the credentials that serve it, others are untouched |
| ApplyBundle.ApplyLapis | internal/db/bundle_apply.go:428-479 | names are exactly the listed ones, ids kept |
| ApplyBundle.ApplyOrders | internal/db/bundle_apply.go:481-501 | the chains are the listed ones; fails iff a name repeats an order index |
| ApplyTransaction.Database.ApplyBundle | internal/db/bundle_apply.go:115-533 | commits iff the bundle is committable, otherwise changes nothing; a commit is the current and the last good version |
| ApplyTransaction.CommittableIs | internal/db/bundle_apply.go:115-143 | committable: valid, with a platform, readable tokens that match their hashes, and distinct order indices |
| ApplyTransaction.RoutesKnown | internal/db/bundle_apply.go:485-497 | every route of a valid bundle finds its name and endpoint |
| ApplyTheorems.NamesAndPlatformsKept | internal/db/bundle_apply.go:115-533 | after a commit platforms and names are exactly the listed ones and what was there keeps its id |
| ApplyTheorems.RapisKept | internal/db/bundle_apply.go:301-426 | so are the endpoints, by address and model |
| ApplyTheorems.MetricsKept | internal/db/bundle_apply.go:115-533 | statistics survive, unchanged, exactly when both their rows survive |
| ApplyTheorems.BindingsApplied | internal/db/bundle_apply.go:305-401 | an endpoint is bound to a credential iff it is on its platform and a binding names the endpoint with that credential's hash, or no binding names the endpoint; a pair that was bound keeps its flag |
| ApplyTheorems.CredentialsKept | internal/db/bundle_apply.go:220-299 | listed credentials are stored as they are under their hash and keep their ids, unlisted hashed ones are gone, unhashed ones of kept platforms stay, and no failure stays |
| ApplyTwice.SecondCommitFindsIff | internal/db/bundle_apply.go:238-276 | committing twice keeps the row of a listed credential iff it has a token or its hash was stored on a platform that stays; both rows then hold it |
| ApplyTwice.ApplyBlankTwice | internal/db/bundle_apply.go:238-276 | two commits of a concrete bundle to an empty database leave one credential twice |
| ApplyTwice.UnhashedLeftIff | internal/db/bundle_apply.go:238-299 | a commit leaves rows without a hash iff it keeps one on a platform that stays or adds one |
| BundleExport.ExportBundle | internal/db/bundle_export.go:28-266 | lists all tables under natural keys; fails only on a credential without a hash or an invalid result |
| BundleExport.ExportedRapis | internal/db/bundle_export.go:28-266 | of any node each endpoint is listed as its row and its platform's row have it, and no other |
| BundleExport.ExportedCredentials | internal/db/bundle_export.go:28-266 | and each credential |
| BundleExport.ReadsBackIff | internal/db/bundle_apply.go:115-533 | after a commit the tables read back as the bundle, bindings aside, iff no row without a hash remains and no hash has surrounding blanks; what is read is valid |
| ApplyMerged.RenumberedDistinct | internal/bundle/merge.go:558-573 | renumbered chains never repeat an order index |
| ApplyMerged.MergeCommits | internal/bundle/merge.go:166-208 | what the chain-comparing merge produces can always be applied |
| ApplyMerged.UnionValidIff | internal/service/sync_merge.go:92-254 | the union of valid bundles is valid iff no token hash occurs both with and without blanks |
| ApplyMerged.UnionCommitsIff | internal/service/sync_merge.go:226-251 | it can be applied iff, besides, no center-only node takes a used order index |
| MergeWitnesses.MergeFails | internal/bundle/merge.go:404-416 | two valid bundles whose merge is not valid, under either rule |
| MergeWitnesses.UnionRepeatsIndex | internal/service/sync_merge.go:226-251 | two valid bundles whose union is valid but repeats an order index |
| MergeWitnesses.UnionRepeatsHash | internal/service/sync_merge.go:124-146 | two valid bundles whose union lists one hash twice and is not valid |
| Migration.Repoint | internal/db/migrate_natural_keys.go:593-601 | references to the duplicate become references to the survivor, which keeps its own |
| Migration.AddMetrics | internal/db/migrate_natural_keys.go:602-654 | its counters are added name by name, and the later time of last use stays |
| Migration.TotalKept | internal/db/migrate_natural_keys.go:602-654 | totals over any list with both endpoints or neither are unchanged |
| Migration.MergePreserves | internal/db/migrate_natural_keys.go:593-669 | merging two endpoints of a group keeps group totals and references, and a new reference has the value of the duplicate |
| Migration.Migration.MergeRAPIRefs | internal/db/migrate_natural_keys.go:593-669 | one duplicate is merged away |
| Migration.Migration.MergeDuplicateRAPIs | internal/db/migrate_natural_keys.go:546-590 | ends with unique (platform, model), each duplicate gone in favour of a smaller id; platforms, credentials and the other endpoints as they were |
| Migration.Migration.MergePlatforms | internal/db/migrate_natural_keys.go:671-733 | ends with unique normalised addresses; every credential and every endpoint is there, on a platform whose address is the normalised one of its platform before; orders, bindings and counters as they were |
| Migration.Migration.MergeOnePair | internal/db/migrate_natural_keys.go:690-733 | one platform fewer; every credential and every endpoint is there, on a platform with the address it had; orders, bindings and counters as they were |
| Migration.Migration.Run | internal/db/migrate_natural_keys.go:216-234 | the three passes end with both keys unique and keep group totals and references; every credential and every remaining endpoint is on the normalised address it had before, and an endpoint or a platform only goes in favour of a smaller one of its group |
| Migration.OneSurvivor | internal/db/migrate_natural_keys.go:216-234 | every group with non-empty model and address has one survivor |
| Migration.TotalIs | internal/db/migrate_natural_keys.go:602-654 | a total is the sum of each counter and the latest time of last use |
| Migration.SurvivorSums | internal/db/migrate_natural_keys.go:216-234 | each counter of the survivor is the sum over the whole group, and its last use the latest |
| Fsm.LookupIs | internal/fsm/fsm.go:168-180 | the lookup returns an edge of the table iff there is one |
| Fsm.Machine.constructor | internal/fsm/fsm.go:67-73 | a machine starts without timer and edges |
| Fsm.Machine.Add | internal/fsm/fsm.go:77-83 | an edge goes to the end of the table |
| Fsm.Machine.SetTimer | internal/fsm/fsm.go:101-105 | sets the wake-up time only |
| Fsm.Machine.Match | internal/fsm/fsm.go:168-180 | the loop finds the first matching edge |
| Fsm.Machine.Fire | internal/fsm/fsm.go:120-137 | takes that edge or stays |
| Fsm.Machine.Advance | internal/fsm/fsm.go:142-164 | a due timer is consumed and fires its event, an undue one does nothing |
| Endpoint.TableIs | internal/entity/rapi.go:54-79 | the registered table is the transition function |
| Endpoint.RAPI.constructor | internal/entity/rapi.go:47-51 | a new endpoint is healthy |
| Endpoint.RAPI.CoolDown | internal/entity/rapi.go:228-253 | the failure count, the backoff and an announced retry time decide the timer |
| Endpoint.RAPI.OnSuccess | internal/entity/rapi.go:83-88 | one transition of the specification |
| Endpoint.RAPI.OnSessionFailure | internal/entity/rapi.go:91-95 | one transition of the specification |
| Endpoint.RAPI.OnPlatformFailure | internal/entity/rapi.go:98-102 | one transition of the specification |
| Endpoint.RAPI.OnAllKeysUnavailable | internal/entity/rapi.go:109-118 | cools down or invalidates, and says whether it was the first to invalidate |
| Endpoint.RAPI.Invalidate | internal/entity/rapi.go:123-128 | one transition of the specification |
| Endpoint.RAPI.Revalidate | internal/entity/rapi.go:131-135 | one transition of the specification |
| Endpoint.RAPI.Advance | internal/entity/rapi.go:138-142 | one transition of the specification |
| Endpoint.RAPI.AlignCooldownTo | internal/entity/rapi.go:154-163 | one transition of the specification |
| Endpoint.RAPI.Pickable | internal/entity/rapi.go:175-191 | says whether the endpoint can serve, and if not exactly when it will |
| Endpoint.NextKeepsInv | internal/entity/rapi.go:228-317 | no timer when healthy, a timer when cooling or platform-failed; only Revalidate leaves Invalidated |
| Endpoint.InvOverRuns | internal/entity/rapi.go:54-317 | the same over every sequence of calls |
| Endpoint.BackoffPositive | internal/entity/rapi.go:228-253 | a cooldown is positive and at most the maximum |
| Endpoint.BackoffMonotone | internal/entity/rapi.go:228-253 | more failures never shorten it |
| Endpoint.BackoffIs | internal/entity/rapi.go:228-253 | the default, twice, four times, ... up to 64 times that, and at most the maximum |
| Endpoint.TicksKeepReady | internal/fsm/fsm.go:142-164 | recovery ticks up to a time do not change who is ready then |
| Endpoint.ReadyFrom | internal/entity/rapi.go:175-191 | an endpoint that is not ready becomes ready exactly at its recovery time |
| Endpoint.ReadyAfter | internal/entity/rapi.go:54-253 | from which time on an endpoint can serve after any call in any state, and how many failures then count against it |
| Endpoint.AlignmentOverwritten | internal/gateway/gateway.go:1113-1188 | from every state the final status ignores the pool's recovery time: its own doubled backoff if healthy or cooling, unchanged if down or withdrawn |
| PlatformKey.KeyTableIs | internal/entity/key.go:55-95 | the registered table is the transition function |
| PlatformKey.Key.SyncRow | internal/entity/key.go:98-115 | row facts in their order of precedence; a usable row revives the key |
| PlatformKey.Key.OnSuccess | internal/entity/key.go:118-123 | one transition of the specification; a stored key's failure type becomes 0 if it takes an edge |
| PlatformKey.Key.OnSessionFailure | internal/entity/key.go:128-150 | cools down with its timer, writes failure type 1 for a stored key if asked to, and says whether the key was healthy |
| PlatformKey.Key.OnPlatformFailure | internal/entity/key.go:280-291 | the timer is left alone and a stored key gets failure type 2 |
| PlatformKey.Key.Advance | internal/entity/key.go:176-180 | one transition of the specification |
| PlatformKey.Key.AlignCooldownTo | internal/entity/key.go:246-256 | one transition of the specification |
| PlatformKey.Key.Pickable | internal/entity/key.go:199-215 | says whether the key can serve, and if not exactly when it will |
| PlatformKey.KeyInvOverRuns | internal/entity/key.go:55-315 | over every sequence of calls a timer exists only when cooling or platform-failed, and always when cooling |
| PlatformKey.SyncedIffUsable | internal/entity/entity.go:230-238 | a reconciled key is live iff its row is usable; an unusable row never recovers by time |
| PlatformKey.KeyReadyAfter | internal/entity/key.go:55-291 | from which time on a key can serve after any call in any state |
| PlatformKey.PinnedIff | internal/entity/key.go:280-291 | over all runs of ticks and visits a key put down from any live state stays out iff its row is stored or it has no timer that runs out while the row allows it |
| PlatformKey.PinnedThroughFailuresIff | internal/entity/key.go:259-291 | with late failures in between, a stored key stays out over all runs iff it had no such timer |
| Counters.BucketsAgree | internal/scheduler/scheduler.go:609-639 | with a clock that never runs back each bucket equals the count and token sum of the logged requests of its window |
| Counters.ThresholdExceeded | internal/scheduler/scheduler.go:846-890 | the six checks |
| Counters.ThresholdDecidesTheLog | internal/scheduler/scheduler.go:846-890 | exceeded iff some set limit is reached by the log of its current window |
| Counters.RangesSplitTheDay | internal/scheduler/scheduler.go:837-844 | a range and its complement, overnight or not, split the day |
| Counters.RangeInMinutes | internal/scheduler/scheduler.go:837-844 | on the minutes of the day: a range holds its start and not its end, runs over midnight if it ends before it starts, and is empty if both are the same |
| Counters.FirstRule | internal/scheduler/scheduler.go:802-829 | the first rule whose range holds the time |
| Counters.ComputeCost | internal/scheduler/scheduler.go:802-829 | the rule's cost, else the high cost past a limit, else the base cost |
| Scheduler.Manager.Entity | internal/scheduler/scheduler.go:734-741 | creates an endpoint on demand without changing any status |
| Scheduler.Manager.MarkSuccess | internal/scheduler/scheduler.go:575-581 | only that endpoint moves, by its transition |
| Scheduler.Manager.MarkFailure | internal/scheduler/scheduler.go:587-594 | only that endpoint moves, by its transition |
| Scheduler.Manager.MarkPlatformFailure | internal/scheduler/scheduler.go:599-606 | only that endpoint moves, by its transition |
| Scheduler.Manager.MarkAllKeysUnavailable | internal/scheduler/scheduler.go:335-341 | only that endpoint moves; says whether it was invalidated now |
| Scheduler.Manager.InvalidateRAPI | internal/scheduler/scheduler.go:313-318 | only that endpoint moves, by its transition |
| Scheduler.Manager.RevalidateRAPI | internal/scheduler/scheduler.go:323-328 | only that endpoint moves, by its transition |
| Scheduler.Manager.RecordRequest | internal/scheduler/scheduler.go:609-639 | the three buckets of one endpoint, started over in a new window |
| Scheduler.Manager.PickAvailable | internal/scheduler/scheduler.go:259-307 | a ready, enabled and available row of least cost, order and format rank, the first of equals; else the earliest recovery |
| Scheduler.RightMeans | internal/scheduler/scheduler.go:259-307 | no other such row is cheaper, or as cheap with a smaller order, or equal in both and alone native |
| Scheduler.SortStable | internal/scheduler/scheduler.go:259-290 | a stable sort that is a permutation of the rows |
| Scheduler.WaitIsExact | internal/scheduler/scheduler.go:259-307 | a failed pick keeps failing before its time and succeeds at every time from it on; zero means never by time alone |
| KeyPool.KeyManager.MarkKeyFailure | internal/scheduler/scheduler.go:504-538 | only that key moves, by its transition, and its stored failure type is written as the effect says |
| KeyPool.KeyManager.MarkKeyPlatformFailure | internal/scheduler/scheduler.go:545-552 | only that key moves, by its transition; the row of a stored live key gets failure type 2 |
| KeyPool.KeyManager.MarkKeySuccess | internal/scheduler/scheduler.go:564-570 | only that key moves, by its transition, and its stored failure type is cleared |
| KeyPool.KeyManager.Visit | internal/scheduler/scheduler.go:426-442 | reconciles a key with its row and asks it |
| KeyPool.KeyManager.EvictCursors | internal/scheduler/scheduler.go:464-499 | stale session cursors go; over the maximum also the least recently used ones |
| KeyPool.KeyManager.Bump | internal/scheduler/scheduler.go:412-424 | the cursor's count, which then grows by one |
| KeyPool.KeyManager.SharedCursorIff | internal/scheduler/scheduler.go:448-456 | requests share a cursor iff they use one platform and, with cursors per session, have the same session or none |
| KeyPool.KeyManager.PickAvailableKey | internal/scheduler/scheduler.go:397-446 | the first usable key in index order from the cursor on, else the earliest recovery; only scanned keys are touched |
| KeyPool.ByIndexIs | internal/scheduler/scheduler.go:397-446 | sorting by index keeps the rows |
| KeyPool.RotationKeeps | internal/scheduler/scheduler.go:412-446 | rotation keeps the rows and starts at the cursor |
| KeyRotation.PickedIsUsable | internal/scheduler/scheduler.go:397-446 | a key whose row is unusable is never picked |
| KeyRotation.KeysHardDead | internal/entity/entity.go:247-276 | dead iff the pool is non-empty and no row is usable, and then the first row gives the reason |
| KeyRotation.HardDeadNeverWaits | internal/entity/entity.go:247-276 | such a pool yields an error with zero retry time |
| KeyRotation.NoStarvation | internal/scheduler/scheduler.go:397-446 | a key that stays usable is picked within as many successive calls on its cursor as there are keys; in between others may use and sweep the table as long as the cursor stays |
| KeyRotation.EachOnce | internal/scheduler/scheduler.go:397-446 | likewise, if all stay usable each is picked exactly once |
| KeyRotation.NewSessionKeptIff | internal/scheduler/scheduler.go:412-474 | a new session cursor survives its first call iff the table is below the sweep threshold |
| KeyRotation.FullTablePinsSession | internal/scheduler/scheduler.go:412-474 | over any run of calls of such a session, others in between, every call starts at the first key as long as the table stays full |
| KeyRotation.PlatformCursorsStay | internal/scheduler/scheduler.go:464-499 | platform cursors are never evicted and only their own calls move them |
| KeyRotation.TableBounded | internal/scheduler/scheduler.go:464-499 | in every run fewer than 1024 session cursors exist |
| KeyRotation.SweepIs | internal/scheduler/scheduler.go:464-499 | from 1024 cursors on those of sessions unused for ten minutes go, and above 10000 the least recently used ones |
| KeyRotation.UsedCursorStays | internal/scheduler/scheduler.go:412-499 | a call stamps its cursor, and one used within ten minutes is only swept from a table of 10000 or more |
| KeyRetry.Gateway.BlockKeyForModel | internal/gateway/gateway.go:531-546 | blocks one pair until its expiry and says whether it is new |
| KeyRetry.Gateway.UnblockKeyForModel | internal/gateway/gateway.go:550-562 | unblocks one pair and no other |
| KeyRetry.Gateway.IsBlocked | internal/gateway/gateway.go:568-611 | answers for now and forgets only expired pairs |
| KeyRetry.Gateway.FilterBlockedKeys | internal/gateway/gateway.go:616-625 | the keys that are not blocked, in their order |
| KeyRetry.Gateway.Penalize | internal/gateway/gateway.go:933-1105 | the failed key, its stored failure type and its block are what the status calls for: 401 puts it down (2), an account status too unless billing (1) or a 403 mismatch (block), a mismatch of 400, 404 or 422 blocks, any other status cools (1), a network error cools and stores nothing; no other key changed |
| KeyRetry.Gateway.Impose | internal/gateway/gateway.go:972-1105 | the same at once: until when the key cools or is blocked |
| KeyRetry.Gateway.ImposeStatus | internal/gateway/gateway.go:984-1105 | the same for an answer with a status |
| KeyRetry.Gateway.ImposeAccount | internal/gateway/gateway.go:1005-1060 | the same for 402, 403, 409, 423 and 451 |
| KeyRetry.Gateway.NextKeyFor | internal/gateway/gateway.go:921-943 | picks the first usable key of the rotation among those that are not blocked, never one that was tried; without a pick every listed key is unusable |
| KeyRetry.Gateway.Accept | internal/gateway/gateway.go:962-970 | a success clears cooldown, stored failure and block, this pair's only; a block of the synthetic key stays |
| KeyRetry.Gateway.TryOne | internal/gateway/gateway.go:950-1107 | one attempt: a success ends the loop and clears the key, a failure leaves what its answer calls for |
| KeyRetry.Gateway.Round | internal/gateway/gateway.go:902-1107 | a pass ends the loop or shrinks the set of untried keys |
| KeyRetry.PoolIs | internal/gateway/gateway.go:912-923 | the pool is its rows, or one key of the platform that has no stored row and is always allowed |
| KeyRetry.Gateway.TryKeyForRAPI | internal/gateway/gateway.go:902-1107 | ends with a success of the last attempt, which clears that key, or with every key unusable or blocked; tries each key at most once and none while blocked; every tried key and its stored failure type are left as the status of its answer calls for, all others as they were |
| KeyRetry.AtMostOnce | internal/gateway/gateway.go:902-1107 | distinct keys of the pool: no more attempts than keys |
| KeyRetry.SpentStays | internal/entity/key.go:199-215 | a key that was tried stays unusable until the horizon, whatever scans happen |
| KeyRetry.PutDownPersists | internal/gateway/gateway.go:984-1060 | a stored key that answered 401, or an account status without billing or a 403 mismatch, is of no use to requests that load its row afterwards |
| KeyRetry.SyntheticKeyShutOut | internal/gateway/gateway.go:612-625 | while the synthetic key is blocked nothing is tried |

## Left out

- Gemini conversions and the request fields that are copied as they are: lossy or trivial.
- JSON text and line framing of event streams: the model starts from decoded events; contents and arguments are strings, unknown fields and usage figures are absent, generated identifiers are parameters.
- Reprinting of tool arguments: any function `reprint`; a call survives iff its arguments are a fixed point.
- BundleMerge.Merge: conflicts are listed by table and key, without the differing fields and display labels; the wording of validation errors is absent.
- ApplyBundle.SyncBindings: the `key_ids` column that the code derives from the bindings and keeps beside them is absent.
- Hashing of chain signatures: a node sequence is its own signature. Blank trimming covers the blanks up to U+00FF, lowering of scheme and host the letters A to Z.
- SyncProtocol.SyncSafety: it speaks of the definitions that an apply is given; the tables read back as these exactly under the condition of `BundleExport.ReadsBackIff`. Bindings are not part of them, since an apply materialises empty ones; the pending version shown to the user and the merge summary are not stored.
- BundleExport.ExportBundle: the rows are listed in any order; bindings, which an export lists too, and decryption errors are absent.
- PlatformKey.PinnedIff: requests visit a key with its current row; one that still holds a row loaded before the put-down is a `Sync` call, which these runs exclude. Writes to the store do not fail.
- SyncNode.Node.ExportMergeApply: export, merge and apply are one step, as the code does not lock edits out in between.
- SyncNode.Node.Push: replacing the center's rows is one atomic step that makes a version, its failure an arbitrary center change; a manual push is an edit at the center.
- ApplyTransaction.Database.ApplyBundle: encryption, timestamps, the display columns, the key blocks and token cache tables and SQL errors other than constraint violations.
- Upserts, Store and ApplyBundle work on values: the tables are maps and each stage returns the new database; only the transaction object is updated in place.
- Migration.Migration.Run: groups are merged one pair at a time; the credential step, table rebuilds and request logs are absent, last-used texts are times, and URL normalisation is any function.
- Endpoint.RAPI.CoolDown: times are unbounded, so a shift of a huge base duration does not overflow; the reason texts, entry times, persisted flags and notifications are absent.
- Scheduler.Manager.PickAvailable: the manager is split into endpoints (`Manager`) and keys with cursors (`KeyManager`), and library sorts are written out; mutexes, wait queues and the timing of the recovery loop are absent, its ticks are arbitrary.
- KeyPool.KeyManager.Bump: the cursor is unbounded and does not wrap around at 64 bits.
- Counters.BucketsAgree: counts are unbounded integers.
- KeyRetry.Gateway.TryKeyForRAPI: one call runs alone, its clock does not run back, and no cooldown or block that it sets expires before a horizon that it does not outlive; upstream answers are a script, and storage of blocks is absent.
- The pool marking method itself: its effect is the function `Endpoint.PoolExhausted`; the platform entity and its probes are not part of this model.
