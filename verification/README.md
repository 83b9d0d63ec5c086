# A model of the Executa executors

This project models the parts of Executa in which many things happen at once or
in which values pass through several hands, and proves what they keep, preserve
or undo. Dafny is its only language; `dafny verify dfyconfig.toml` checks all of
it.

JavaScript runs everything between two `await`s as one step, and a promise takes
its first settlement and ignores the others. Asynchronous code is therefore
modelled as a state machine: an `Event` is one such step, `Next` is its effect,
and `Exec` is a run, so that a statement about every list of events is one about
every interleaving. What comes from outside (ids, random parts, the clock, the
answers of other executors, the order in which messages arrive) is a parameter or
an event. Code that updates an object in place is also written as a class whose
methods carry out the same steps on its fields.

| Modules | What they model |
|---|---|
| `Values`, `Arithmetic` | JSON documents and parameters; facts about division |
| `JobQueue`, `QueueSafety`, `QueueStop`, `QueueClean`, `QueueReduce`, `QueueLoss`, `QueueHistory`, `QueuerClass` | the bounded job queue, whose jobs remove themselves |
| `Executor`, `JsonRpc`, `Requests`, `Proxy` | dispatching, requests and errors, and chains of clients and servers |
| `Protocol`, `RpcClasses` | many clients and servers over a network that reorders, duplicates and loses messages |
| `Walk`, `WalkOrder`, `WalkLaws`, `WalkTwice` | delegating the code nodes of a document |
| `Peers`, `Schema`, `Delegation`, `DelegatorClass` | choosing a peer, caching its validators, cancelling a job |
| `Pipeline`, `Pointer`, `Capabilities`, `WorkerPeer` | the methods of the worker |
| `Address`, `AddressLaws`, `AddressForms`, `TcpUtil`, `Uid`, `Reconnect` | addresses, identifiers, and the reconnecting WebSocket client |

## Where the code and its documentation part

The model follows the code. Each of these has a lemma in the table below.

- `Queuer.stop` is documented to reject all outstanding jobs. It iterates over the
  live queue, which each rejection shortens, so it rejects every other job
  (src/base/Queuer.ts:208-217).
- `Queuer.cancel` takes a job off the queue and never settles its promise, so that its
  caller waits forever, unless a reduction still holds the job
  (src/base/Queuer.ts:119-127).
- `Queuer.reduce` is documented to return the amount by which the queue was
  reduced. Jobs whose dispatch failed leave the queue uncounted
  (src/base/Queuer.ts:162-181).
- `Client.stop` rejects the outstanding requests but leaves them in its map, where
  a request whose response never comes stays for good (src/base/Client.ts:226-231).
- A `DirectClient` gets its responses as JSON text, since its `send` does not ask
  for objects. An error is then no longer a `JsonRpcError`, and each further hop
  takes it for an internal error and prefixes its message once more
  (src/direct/DirectClient.ts:30-34, src/base/JsonRpcError.ts:90-118).
- `query` reads its language from the position of the query itself
  (src/base/Executor.ts:347-351).
- The walk need not end if a peer returns the node it was given inside another
  code node; CHANGELOG.md:745 records an infinite loop of this kind.
- Walking twice need not be walking once, even with an idempotent delegate: a code
  node at the key `type` of an object may turn into the name of a code type, which
  makes a code node of the object. The exact condition is proved.
- `Delegator.call` leaves its entry in the map of jobs when the peer throws
  (src/base/Delegator.ts:307-310).
- A `Peer.update` between the two halves of `Peer.capable` may leave validators of the
  previous manifest in the cache, until the next update (src/base/Delegator.ts:118-146).
  Exactly when is proved.
- `pipe` takes each call apart before it awaits the previous one, so a call that is
  not iterable fails the pipeline with its own error, even behind a call that fails
  with another (src/base/Worker.ts:190-193).
- The JSON Pointer branch of `query` cites section 4 of RFC 6901, but replaces only
  the first escape of each kind in a token, and looks up an empty key before a
  pointer with a leading slash (src/base/Worker.ts:113-125).
- The worker declares no `query` without a language, although the method has a default
  for it, so that such a call is never delegated (src/base/Worker.ts:44-53,
  src/base/Worker.ts:111).
- The capabilities that the worker declares accept an `encode` with a destination
  and an `execute` of a node that is not an object, which it cannot do
  (src/base/Worker.ts:36-74).
- Addresses that end with a bare slash do not parse, although README.md:59 gives
  one (src/base/Transports.ts:302). Deparsing is documented as the inverse of
  parsing, but can give such an address.
- A scheme of more than five letters is not rejected: its last five letters are taken
  for the scheme (src/base/Transports.ts:302).
- `uid.parse` expects eight digits for the time, where `uid.generate` writes at
  least ten (src/base/uid.ts:63, src/base/uid.ts:81).

## Model

| member | source | states |
|---|---|---|
| `QueueSafety.QueueSafety` | src/base/Queuer.ts:74-218 | in every run in which no call brings the id of a job that is on the queue or still to be dispatched, over any interleaving of calls, cancellations, cleaning, stops, settlements and overlapping reductions: the queue stays within `queueLength`, keeps the order of acceptance, and every accepted job is in exactly one of queued, settling, settled, cancelled but unsettled |
| `QueueSafety.StepKeeps` | src/base/Queuer.ts:74-218 | one step, whichever it is, keeps the invariant behind that |
| `QueueSafety.RemoveOne` | src/base/Queuer.ts:97-127 | a wrapper of a job that the queue has first among those with its id, if at all, cuts that job's ticket off the queue and no other |
| `QueueStop.StopHalves` | src/base/Queuer.ts:209-218 | one `stop` rejects exactly the jobs at even positions and keeps those at odd positions, in order |
| `QueueStop.StopTimesLaw` | src/base/Queuer.ts:209-218 | k stops with no arrivals leave exactly floor(n / 2^k) jobs: every 2^k-th one |
| `QueueClean.CleanIsFilter` | src/base/Queuer.ts:187-194 | `clean` rejects the stale jobs, each with the message for it, and only they leave the queue |
| `QueueClean.CleanRemovesPrefix` | src/base/Queuer.ts:187-194 | in every reachable state the queue is sorted by date, so what `clean` removes is a prefix; cleaning again at the same time changes nothing |
| `QueueClean.StopMeetsItsComment` | src/base/Queuer.ts:208-218 | rejecting over a snapshot, as in `clean`, would reject every job and empty the queue; `stop` does the same if and only if at most one job is queued |
| `QueueClean.RejectEachLaw` | src/base/Queuer.ts:101-104 | rejecting a list of jobs one by one takes exactly their ids off the queue and offers each its rejection |
| `QueueHistory.JobsAreCalls` | src/base/Queuer.ts:84-106 | over every run the accepted jobs are those of the calls that found room, in order, each with the id and the request of its call, and dated at the time of that call |
| `QueueHistory.CleanByAge` | src/base/Queuer.ts:187-194 | over every run `clean` rejects a queued job as stale, and takes it off, if and only if the time that passed since its own call has reached `queueStale` seconds |
| `QueueReduce.ReduceRefinesFilter` | src/base/Queuer.ts:164-182 | one undisturbed `reduce`, with any arrivals during its awaits, leaves the snapshot jobs that gave no value or a capability error, in order, then the arrivals; every other promise gets its own answer; the count returned is the number of defined results, which is the documented reduction if and only if no dispatch failed |
| `QueueReduce.ReductionInvariant` | src/base/Queuer.ts:164-182 | the same at every `await` in between |
| `QueueReduce.SettledForever` | src/base/Queuer.ts:90-105 | a promise settles at most once, whatever the ids |
| `QueueReduce.DuplicateIdLosesAJob` | src/base/Queuer.ts:97-127 | a run with two queued jobs of one id in which a job is dropped without being settled or cancelled |
| `QueueLoss.WrapperExactly` | src/base/Queuer.ts:97-127 | a wrapper loses a job if and only if the first queued job with its id is another one |
| `QueueLoss.JobsLostExactly` | src/base/Queuer.ts:74-218 | over every run, whatever the ids: each accepted job is accounted for at all times if and only if no reduction settles a job while another with its id is first on the queue, and no `stop` comes on a queue where an even position repeats the id of an odd one before it; calls, cancellations, cleaning and settlements never lose a job |
| `QueueLoss.StopExactly` | src/base/Queuer.ts:209-218 | `stop` loses no job if and only if none at an even position has the id of one at an odd position before it |
| `QueueLoss.CancelledNeverSettles` | src/base/Queuer.ts:97-127 | the promise of a cancelled job that is not settling, and that no reduction holds, never settles: its caller waits forever |
| `QueueLoss.HeldCanSettle` | src/base/Queuer.ts:166-179 | the promise of a job that a reduction still holds can be settled by it, cancelled or not |
| `QueuerClass.Queuer.Call` | src/base/Queuer.ts:74-113 | appends the job, or refuses it when the queue is full; keeps the invariant if the id is not in use |
| `QueuerClass.Queuer.Cancel` | src/base/Queuer.ts:119-127 | takes the first job with the id off the queue and says whether there was one |
| `QueuerClass.Queuer.Offer` | src/base/Queuer.ts:97-104 | the synchronous half of a wrapper: the queue is cut before the promise settles |
| `QueuerClass.Queuer.Settle` | src/base/Queuer.ts:97-104 | the half after the `await`: only the first settlement counts |
| `QueuerClass.Queuer.Clean` | src/base/Queuer.ts:187-194 | the loop over the snapshot is the step `Clean`, which filters, and keeps the invariant |
| `QueuerClass.Queuer.Stop` | src/base/Queuer.ts:212-218 | the loop over the live queue is the step `Stop`, which keeps the jobs at odd positions, and the invariant |
| `QueuerClass.Queuer.StartReduce` | src/base/Queuer.ts:164-166 | takes the snapshot |
| `QueuerClass.Queuer.ResumeReduce` | src/base/Queuer.ts:167-181 | one answer, and the count when the snapshot is exhausted |
| `Executor.DispatchIsIdempotent` | src/base/Executor.ts:334-392 | normalising parameters by name and position is idempotent: what a proxy passes on, with the same claims, dispatches to the same call |
| `Executor.OnlyClaimsDiffer` | src/base/Executor.ts:334-392 | which claims are among the parameters decides nothing but the claims of the call |
| `Executor.DispatchByName` | src/base/Executor.ts:334-392 | dispatch undoes the named call of every typed method |
| `Executor.DispatchByPosition` | src/base/Executor.ts:334-392 | the same by position, exactly unless it is a `query` in another language than its query text |
| `Executor.RefusedExactly` | src/base/Executor.ts:334-392 | a call is refused if and only if its method is none of the eleven, or a required parameter is given neither by name nor by position; the refusal names the method, or the first such parameter |
| `Proxy.CallReaches` | src/base/Server.ts:82-120 | over any chain, a call is refused by the first server or reaches the executor once with the same arguments and the claims of the innermost server, and the outcome crosses every hop back |
| `Proxy.ThroughLaw` | src/base/JsonRpcError.ts:90-132 | the error at the end of any chain in closed form: a capability error keeps class and message over any mix of hops, any other has one prefix for each stringified hop but the outermost |
| `Proxy.ResultsPass` | src/base/Client.ts:201-212 | results cross any number of hops unchanged |
| `Proxy.RefusalsReachCaller` | src/base/JsonRpcError.ts:90-107 | over one direct hop the caller is told -32601 and the name of an unknown method, -32602 and the name of the first missing parameter |
| `Proxy.FailuresReachCaller` | src/base/JsonRpcError.ts:109-132 | a capability error of the executor's method reaches the caller as one, with its message; any other error as -32000 with the prefix, and its trace |
| `Proxy.Transparency` | src/base/Server.ts:82-120 | a chain gives what its outermost hop alone, with the claims of the innermost server, gives, if and only if no inner hop is stringified or the executor's own method does not fail other than by incapacity (no client of the repository makes a hop that is not stringified; the classes allow one) |
| `Proxy.DirectTransparency` | src/direct/DirectClient.ts:30-34 | the same for n > 1 direct hops, with the exact error when it fails |
| `Proxy.SuccessIsDirect` | src/direct/DirectClient.ts:30-34 | a call that succeeds gives, at any distance, what calling the executor with the claims of the innermost server gives |
| `Protocol.RequestsAreUnanswered` | src/base/Client.ts:100-231 | in every run with fresh ids the pending requests are exactly the ids called of which no response ever reached the client, whether it was expected, a duplicate or late, and also after `stop`; a response settles a promise only if a server computed it for that id |
| `Protocol.QuietMeansAnswered` | src/base/Client.ts:100-215 | when nothing was lost and nothing is in flight, no request is pending and every promise is settled |
| `Protocol.SettledForever` | src/base/Client.ts:106-115 | promises, and what callers see of them, never change once settled |
| `Protocol.StopKeepsEntries` | src/base/Client.ts:226-231 | a run after which a stopped client still has an entry although nothing is in flight |
| `Protocol.PromisesGetOutcomes` | src/base/Client.ts:195-214 | in every run with fresh ids a promise that a response settles gets the outcome that some executor gave for that very request, as it crosses one hop |
| `Protocol.ResponsesAreServed` | src/base/Server.ts:98-121 | every response computed in a run carries the outcome of the executor that served a request with its id |
| `Protocol.StopSettlesAll` | src/base/Client.ts:226-231 | stopping settles every promise that is still open, as stopped, and changes nothing else |
| `Protocol.StepKeeps` | src/base/Client.ts:100-231 | one step of any client, server or of the network keeps the invariant behind these |
| `RpcClasses.Client.Call` | src/base/Client.ts:100-116 | records the request under its id and hands it to `send`; keeps the invariant if the id is new |
| `RpcClasses.Client.Notified` | src/base/Client.ts:132-144 | caches the most recent notifications, in order, up to the limit |
| `RpcClasses.Client.Receive` | src/base/Client.ts:169-215 | settles and forgets the request of a response with a known id; caches a notification with its first argument; anything else changes nothing |
| `RpcClasses.Client.Stop` | src/base/Client.ts:226-231 | the loop rejects every unsettled pending promise and changes nothing else; keeps the invariant |
| `RpcClasses.Server.Receive` | src/base/Server.ts:70-121 | throws without an executor; gives the response for a request, error or not, under the request's id; passes the message and the node of a notification on and returns nothing |
| `Requests.CreateRestores` | src/base/JsonRpcRequest.ts:47-112 | a request object, and its JSON text, is hydrated to the method, parameters and id it was made from |
| `Requests.RequestIsRead` | src/base/JsonRpcRequest.ts:61-112 | any object with a textual method, or the text of one, is read to that method, its id, and its parameters, the last entry with a key counting; without an id it is a notification |
| `Requests.PositionsAreRead` | src/base/Server.ts:88-90 | parameters in an array become those of the positions 0, 1, 2 and so on |
| `Requests.OddParametersAreRead` | src/base/Server.ts:88-90 | text in their place becomes its characters by position; numbers, booleans and null become no parameters |
| `Requests.MethodIsRequired` | src/base/JsonRpcRequest.ts:79-93 | without a method, or with one that is not text, the answer is the error -32600 under the empty id, and says which |
| `Requests.OthersAreRefused` | src/base/JsonRpcRequest.ts:61-112 | text that is no JSON is answered with -32700, a value that is no object with -32600 |
| `Requests.NullIsRefused` | src/base/JsonRpcRequest.ts:79-80 | the text `null` is answered with the internal error -32000 |
| `Requests.RequestIsAnswered` | src/base/Server.ts:82-120 | the answer to a request carries what dispatching it with the claims of the server gave, a result or an error, under its id; a notification has none |
| `Requests.CapabilityErrorsAreMarked` | src/base/JsonRpcError.ts:109-132 | a capability error has the code -32005 on the wire and is one again for the client, whether or not it came as text |
| `RpcClasses.DirectCall` | src/direct/DirectClient.ts:30-34 | one direct hop settles its own promise as one stringified hop says, and leaves nothing pending |
| `WalkLaws.Terminates` | src/base/Manager.ts:140-165 | if every transformed code node has fewer code nodes below its root than the original contained, the walk ends, at some depth and any greater one, with the modelled result |
| `WalkLaws.NestingNeverEnds` | src/base/Manager.ts:140-165 | the condition is needed: with a peer that wraps the node it is given, no depth is enough |
| `WalkLaws.DelegatesInPreorder` | src/base/Manager.ts:126-165 | nodes are delegated in depth-first pre-order, those of the results included, each after the ones before it |
| `WalkLaws.VisitAgrees` | src/base/Manager.ts:140-165 | the recursion agrees with a worklist on what is delegated, for any list of nodes and any remaining work |
| `WalkOrder.ArrayInOrder` | src/base/Manager.ts:151-155 | an array is walked from its first part to its last: what is delegated, and the result, is that of the first part and then that of the second, which is not begun if the first aborts |
| `WalkOrder.ArrayOfOne` | src/base/Manager.ts:151-155 | the walk of an array of one node is the walk of that node |
| `WalkOrder.ObjectInOrder` | src/base/Manager.ts:157-163 | the entries of an object are walked in their order as well, and keep their keys and places |
| `WalkOrder.ObjectOfOne` | src/base/Manager.ts:157-163 | the walk of a single entry is that of its value |
| `WalkOrder.PrimitiveStays` | src/base/Manager.ts:148-149 | primitives, the names of the code types among them, stay as they are |
| `WalkOrder.CodeIsDelegated` | src/base/Manager.ts:80-90 | a node is delegated if and only if its type, the last entry with that key, is CodeChunk or CodeExpression; the walk then goes on below its result |
| `WalkOrder.ProseStays` | src/base/Manager.ts:53-64 | a document in which no object has one of these types comes back unchanged, and nothing is delegated |
| `WalkLaws.FailureStopsTheWalk` | src/base/Manager.ts:80-90 | a failure other than incapacity ends the walk with that failure, and the nodes delegated are exactly the first ones, up to the failing one, of those that would have been |
| `WalkLaws.FailuresAccounted` | src/base/Manager.ts:80-90 | an aborted walk aborts with the failure of its last delegation, the only one that failed |
| `WalkLaws.NoPeerNoChange` | src/base/Manager.ts:53-64 | if every delegation is beyond the peers, each node whose type is code is tried once, in the order of the document, and the document comes back unchanged |
| `WalkTwice.GentleIsIdempotent` | src/base/Manager.ts:140-165 | with a delegate that never fails, is idempotent, and gives nothing with code nodes strictly inside, walking any document twice is walking it once if and only if delegating changes none of the objects that the first walk made code nodes |
| `WalkTwice.WalkIsIdempotent` | src/base/Manager.ts:140-165 | the same for a single document, asking this of the delegate only at the code nodes of the document and of what it becomes; the result of the first walk is the document with its outermost code nodes replaced |
| `WalkTwice.PromotedIsCode` | src/base/Manager.ts:157-163 | the walk makes a code node of an object that was none exactly if its type is a code node that turns into the name of a code type |
| `WalkTwice.TypeNameBreaksIdempotence` | src/base/Manager.ts:140-165 | a document that the second walk delegates again, and one with the same result elsewhere for which it does not |
| `Peers.CacheAgreement` | src/base/Delegator.ts:91-146 | after any completed calls of `capable` and `update`, `capable` answers whether some schema that the current manifest lists accepts the parameters |
| `Schema.ParamsAreAnObject` | src/base/Delegator.ts:141-144 | parameters are accepted exactly if an object with these entries, in any order, is |
| `Schema.TypeAccepts` | src/base/Delegator.ts:137-144 | the keyword `type` accepts the values of the JSON type it names |
| `Schema.SameInAnyOrder` | src/base/Delegator.ts:137-144 | `const` and `enum` do not regard the order of the entries of an object |
| `Schema.SameBothWays` | src/base/Delegator.ts:137-144 | nor which side is compared with which |
| `Schema.SameIsEqual` | src/base/Delegator.ts:137-144 | and regard everything else |
| `Peers.AgreementKept` | src/base/Delegator.ts:91-146 | after such calls the cached validators are those of the current manifest |
| `Peers.ListsMany` | src/base/Delegator.ts:133-145 | of several schemas listed for a method one that accepts is enough |
| `Peers.AgreementThroughout` | src/base/Delegator.ts:72-146 | for any peer, the fetching of its manifest included: the cache agrees with the manifest at all times if and only if no call goes on with a manifest that lists its method, not cached yet, differently from the current one, and none fetches a manifest that lists a cached method differently |
| `Peers.AgreementInTheEnd` | src/base/Delegator.ts:72-146 | once the peer has its manifest: however calls and updates overlap, the cache agrees with the manifest if and only if no call since the last update compiled schemas from a manifest that lists its method differently |
| `Peers.UpdateDuringCapable` | src/base/Delegator.ts:118-146 | a run in which an update in the middle of `capable` breaks that |
| `Peers.Peer.GoOn` | src/base/Delegator.ts:124-145 | the loop answers by the validators, compiled at most once; the cache agrees afterwards exactly if the manifest given is still current for the method |
| `Peers.Peer.DoUpdate` | src/base/Delegator.ts:91-94 | takes the manifest and forgets the validators, so that they agree again |
| `Peers.Peer.IsCapable` | src/base/Delegator.ts:118-146 | a completed call answers by the current manifest, and the cache agrees with it |
| `Delegation.CancelRouting` | src/base/Delegator.ts:284-316 | in every interleaving with fresh job ids, the map of jobs says exactly which jobs were delegated to which peer and have not finished successfully; that peer was the first capable and connectable one of those on the list when the call began, in the order of the list; no cancellation goes to another peer |
| `Delegation.PeersByAge` | src/base/Delegator.ts:320-343 | over every run the list holds exactly the ids that were added and not removed since, each with the object made for it last, and the one added earlier stands first |
| `Delegation.CallsBegan` | src/base/Delegator.ts:299-301 | in every run each call goes through the peers that were on the list when it began, one for one and in that order |
| `Delegation.CallGoesOn` | src/base/Delegator.ts:300-313 | a peer that is not capable or not connectable is passed over for the next, and one that is both runs the job |
| `Delegation.BrokenByError` | src/base/Delegator.ts:301-302 | in every run only an error while asking breaks a call off |
| `Delegation.ErrorEndsCall` | src/base/Delegator.ts:301-302 | an error while a peer is asked or connected to ends the call for good: no further peer is asked, and no job recorded |
| `Delegation.JobsAreLatest` | src/base/Delegator.ts:299-316 | when job ids are reused one call after the other, `jobs[j]` is p exactly if the latest delegated call with j went to p and has not returned |
| `Delegation.CancelReachesRunningPeer` | src/base/Manager.ts:74-98 | when a job id is reused one child after the other, cancelling while a child runs sends the cancellation to the peer that runs it and to no other, whatever happens before that peer says that it can cancel |
| `Delegation.ThrowLeavesEntry` | src/base/Delegator.ts:303-311 | after a peer threw, a cancellation before the next delegation is addressed to that peer |
| `Delegation.StepKeeps` | src/base/Delegator.ts:284-343 | one step of any call, cancellation or change of peers keeps the invariant behind these |
| `DelegatorClass.Delegator.AddPeer` | src/base/Delegator.ts:320-337 | a new peer replaces one with its id in place, or comes last |
| `DelegatorClass.Delegator.RemovePeer` | src/base/Delegator.ts:341-343 | takes the peer with the id out and keeps the order of the others |
| `DelegatorClass.Delegator.BeginCall` | src/base/Delegator.ts:299-301 | the call goes through the peers there are now, in order |
| `DelegatorClass.Delegator.OnCapable` | src/base/Delegator.ts:301-302 | on to connecting, or to the next peer |
| `DelegatorClass.Delegator.OnConnected` | src/base/Delegator.ts:302-307 | records the job and runs it, or goes on to the next peer |
| `DelegatorClass.Delegator.OnAnswer` | src/base/Delegator.ts:307-311 | a result releases the job, an error does not |
| `DelegatorClass.Delegator.BeginCancel` | src/base/Delegator.ts:284-287 | asks the peer recorded for the job, if any |
| `DelegatorClass.Delegator.OnCanCancel` | src/base/Delegator.ts:287-292 | passes the cancellation on to that peer if it can cancel |
| `Pipeline.PipeConcat` | src/base/Worker.ts:186-194 | a pipeline of xs and ys invokes what that of xs and then that of ys invoke, nothing after a failure; and it gives the outcome of that composition if and only if xs succeeds, or fails because a call is not iterable, or every call of ys is iterable |
| `Pipeline.FailureStays` | src/base/Worker.ts:190-193 | once a promise of a pipeline is rejected nothing more is invoked, and the rejection is passed on unless a later call is not iterable |
| `Pipeline.LaterCallReplacesFailure` | src/base/Worker.ts:190-193 | a failing call followed by a number: the composition fails with the one, the pipeline with the other |
| `Pipeline.FlattenPreserves` | src/base/Worker.ts:186-194 | inlining nested pipelines at any depth never changes the methods invoked, provided the value entering each of them is defined; it gives the same outcome if and only if every inlined call is iterable, or the pipeline failed with that error anyway |
| `Pipeline.FlattenPreservesDefined` | src/base/Worker.ts:186-194 | the proviso always holds if no method returns `undefined` |
| `Pipeline.FlattenReachesBadCall` | src/base/Worker.ts:190-193 | a pipeline whose outcome inlining changes |
| `Pipeline.FlattenBehindUndefined` | src/base/Executor.ts:386-391 | where `undefined` enters a nested pipeline, inlining still gives the same if and only if the first call left is refused for its missing node too, or some call is not iterable even without inlining and nothing is invoked before |
| `Pipeline.FlattenIsFlat` | src/base/Worker.ts:186-194 | nothing is left to inline |
| `Pipeline.FlattenNeedsAValue` | src/base/Executor.ts:386-391 | a pipeline that inlining changes because `undefined` enters the nested one |
| `Pipeline.ValueIsFirstArgument` | src/base/Executor.ts:374-391 | the value in the pipe is the method's first argument, unless the call names that argument itself |
| `Pipeline.PositionOverrides` | src/base/Worker.ts:190-193 | a call that gives position 0 itself does not depend on the value in the pipe |
| `Pipeline.NameAlone` | src/base/Worker.ts:191 | the name of a method alone is a call without parameters |
| `Pipeline.NamelessFails` | src/base/Worker.ts:190-193 | an array that does not begin with the name of a method fails as an unknown method, and invokes nothing |
| `Pipeline.CallsAreNested` | src/base/Worker.ts:186-194 | a pipeline that a step starts is smaller than the step, so the interpreter ends |
| `Pointer.UnescapeUndoesEscape` | src/base/Worker.ts:116-118 | the code's unescaping undoes the escaping of section 4 of RFC 6901 if and only if the token has at most one slash and at most one tilde |
| `Pointer.PathIsTokens` | src/base/Worker.ts:114-118 | the path read from joined escaped tokens is those tokens if and only if each is of that kind |
| `Pointer.QueryLooksUpTokens` | src/base/Worker.ts:113-125 | querying it is looking the tokens up one by one |
| `Pointer.LookUpDescends` | src/base/Worker.ts:119-125 | tokens are looked up one after the other, each in what those before it found, until something is missing or null |
| `Pointer.LookUpOne` | src/base/Worker.ts:119-125 | one token is one property, which null does not have |
| `Pointer.LeadingSlash` | src/base/Worker.ts:114-118 | a leading slash puts an empty key before the path |
| `Pointer.LeadingSlashFindsNothing` | src/base/Worker.ts:119-125 | so such a pointer finds nothing in a node without that key |
| `Pointer.Query` | src/base/Worker.ts:113-125 | the loop looks the path up token by token, ends at the first missing one, and throws at a null |
| `Capabilities.DecodeIsSound` | src/base/Worker.ts:28-88 | parameters that the declared schema accepts never lead `decode` to a capability error |
| `Capabilities.QueryIsSound` | src/base/Worker.ts:44-136 | nor `query` |
| `Capabilities.EncodeIsSoundWithoutDest` | src/base/Worker.ts:36-102 | they lead `encode` to one if and only if a destination is given, by name or as positional 1 |
| `Capabilities.ExecuteIsSoundForObjects` | src/base/Worker.ts:56-180 | and `execute` if and only if the node is not an object |
| `Capabilities.TextIsAccepted` | src/base/Worker.ts:56-74 | such a node is accepted: any text |
| `Capabilities.DeclarationIsSound` | src/base/Worker.ts:23-180 | whatever the method: parameters that the declaration accepts lead to a capability error exactly in these two cases |
| `WorkerPeer.DecodeAccepts` | src/base/Worker.ts:28-34 | the schema of `decode` accepts exactly a textual source with the format json |
| `WorkerPeer.EncodeAccepts` | src/base/Worker.ts:36-42 | that of `encode` exactly a node with the format json |
| `WorkerPeer.QueryAccepts` | src/base/Worker.ts:44-53 | that of `query` exactly a node and a textual query in one of the four languages |
| `WorkerPeer.ExecuteAccepts` | src/base/Worker.ts:56-75 | that of `execute` exactly a node and nothing else, which is a JavaScript code expression if it is an object |
| `WorkerPeer.WorkerIsCapable` | src/base/Worker.ts:23-79 | a peer with the worker's manifest answers that it is capable of exactly these calls |
| `WorkerPeer.WorkerRefuses` | src/base/Worker.ts:85-136 | of calls by name, `decode` refuses exactly what is not declared, `encode` that and destinations, `query` exactly undeclared languages, but not a call without one |
| `WorkerPeer.WorkerExecutes` | src/base/Worker.ts:152-180 | a node is executed exactly if it is a code expression in JavaScript, in any capitals, outside of a session, or fails with a TypeError on a language that is not text; nothing is compiled, built, begun or ended |
| `Capabilities.LowerCaseAt` | src/base/Worker.ts:160 | lower case changes the capitals of ASCII and nothing else |
| `AddressLaws.RoundTrip` | src/base/Transports.ts:289-351 | for the five schemes, any host without colon or slash and any port, parsing the URL of an address gives the address back, its path without a leading slash (none for tcp), through the leftmost greedy match and the elided default port |
| `AddressLaws.RoundTripExactly` | src/base/Transports.ts:289-351 | it does so if and only if the host is not empty and the path that should come back, if any, is not empty and holds no line terminator |
| `AddressLaws.ParsedRoundTrips` | src/base/Transports.ts:289-351 | text that parses with a known scheme is deparsed to a URL that parses to the same address, its path without a leading slash, if and only if the scheme is tcp or the path is not a bare slash; otherwise the URL does not parse |
| `AddressLaws.TwoSlashesDoNotRoundTrip` | src/base/Transports.ts:302-350 | `http://a//` parses to an address whose URL does not parse |
| `AddressLaws.MatchesAreSound` | src/base/Transports.ts:302-304 | whatever text is matched, the host is not empty and holds neither colon nor slash, and a path is not empty and holds no line terminator |
| `AddressLaws.UrlMatches` | src/base/Transports.ts:302-304 | how the regular expression, matched by backtracking, takes such a URL apart |
| `AddressLaws.TrailingSlashRejected` | src/base/Transports.ts:302-306 | no such URL that ends with a bare slash parses, with or without a port |
| `AddressLaws.NoMatch` | src/base/Transports.ts:302-304 | the search fails at every starting position of a text in which no path can end behind a host or a port |
| `Values.ParsePrinted` | src/base/Transports.ts:309 | a printed port parses to itself |
| `AddressForms.NumberIsPort` | src/base/Transports.ts:296-299 | the text of a number is taken for a port exactly from 10 to 99999 |
| `AddressForms.PartsAreKept` | src/base/Transports.ts:312-325 | parts that are given are kept, the others are those of the defaults, and a missing port is that of the scheme |
| `AddressForms.SchemelessParses` | src/base/Transports.ts:301-325 | a host, with or without a port and a path, is completed by the defaults |
| `AddressForms.SearchSkips` | src/base/Transports.ts:302 | the expression is not anchored: colons and slashes at the start of a text are skipped |
| `AddressForms.LongSchemeIsCut` | src/base/Transports.ts:302 | of a scheme of five letters or more the last five are taken for it |
| `TcpUtil.Parse` | src/base/Transports.ts:289-326 | the assignments, part by part, give the parsed address for every kind of initializer |
| `TcpUtil.Deparse` | src/base/Transports.ts:333-351 | the appended URL is the deparsed address; for a known scheme and a host without colon or slash it parses to that address again if and only if the host is not empty and the path that should come back, if any, is not empty and holds no line terminator |
| `TcpUtil.Expand` | src/tcp/util.ts:63-99 | the addresses are exactly the given one (unless the wildcard), for a domain name or the wildcard the global one, the local network's and this machine's, in that order, with plain schemes where near |
| `TcpUtil.NearUrl` | src/tcp/util.ts:66-74 | near the server https becomes http on port 8000 and wss becomes ws on port 9000; other schemes and ports stay |
| `TcpUtil.IPIsFour` | src/tcp/util.ts:82 | what is taken for an IP address is four groups of digits separated by dots |
| `TcpUtil.FourGroups` | src/tcp/util.ts:82 | and everything of that form is |
| `TcpUtil.ExpandAddress` | src/tcp/util.ts:55-102 | the URLs are exactly those of these addresses; for a known scheme and proper local, global and default hosts each parses to the address it was made from, if and only if the scheme is tcp or the path was not parsed to a bare slash; otherwise none of them parses |
| `Uid.IdsSortExactly` | src/base/uid.ts:54-67 | of two ids of one family the earlier comes first, whatever the random parts, if and only if their times have equally many digits, or the leading digits of the longer one are not smaller than the shorter one |
| `Uid.IdsSortByTime` | src/base/uid.ts:54-67 | within 16^10 milliseconds of the epoch they always do |
| `Uid.OrderFailsAtBound` | src/base/uid.ts:54-67 | at that bound the order is reversed |
| `Uid.PaddedHex` | src/base/uid.ts:63 | k digits hold every number below 16^k, and the padded form reads as the number |
| `Uid.PrefixDivides` | src/base/uid.ts:63 | dropping k hexadecimal digits divides by 16^k |
| `Uid.ParseInvertsEightDigits` | src/base/uid.ts:74-93 | `parse` inverts the form with eight digits, counting the time from 1500000000000 milliseconds |
| `Uid.ParseIsExact` | src/base/uid.ts:74-93 | and accepts nothing but that form |
| `Uid.FamilyComesFirst` | src/base/uid.ts:55-65 | an identifier starts with its two-letter code; longer codes are cut, single letters doubled, and no code is uu |
| `Uid.ParseRejectsGenerated` | src/base/uid.ts:54-93 | it rejects every id that `generate` can produce, at any time |
| `Reconnect.ReconnectBound` | src/ws/WebSocketClient.ts:88-209 | in every order of events `isRetrying` only moves from undefined to true to false, the retry body runs at most once, and the sockets made are at most the explicit starts, one, and one for each attempt |
| `Reconnect.BoundIsReached` | src/ws/WebSocketClient.ts:88-209 | for every number of retries there is a run that makes as many |
| `Reconnect.StartEnds` | src/ws/WebSocketClient.ts:145-188 | an open start resolves for good when its socket opens, or closes after a stop; it rejects when authentication fails, or when the socket fails or closes with no retrying to begin or wait for |
| `Reconnect.RetryBegins` | src/ws/WebSocketClient.ts:88-103 | the first close or failure begins the retrying, with a new socket, and the start waits for it |
| `Reconnect.RetryEnds` | src/ws/WebSocketClient.ts:102-125 | the waiting start resolves with the first attempt that opens, and rejects after the last one failed; either way retrying is over |
| `Reconnect.StepKeeps` | src/ws/WebSocketClient.ts:88-233 | one step keeps the invariant behind these, and every promise already settled |
| `Reconnect.WebSocketClient.DoRetryConnect` | src/ws/WebSocketClient.ts:88-125 | starts the retry loop unless it is going on; keeps the invariant if there was none before |
| `Reconnect.WebSocketClient.DoStart` | src/ws/WebSocketClient.ts:133-144 | makes a socket |
| `Reconnect.WebSocketClient.DoSend` | src/ws/WebSocketClient.ts:199-209 | makes one only if there is none yet |
| `Reconnect.WebSocketClient.HandleOpen` | src/ws/WebSocketClient.ts:145-148 | resolves the start |
| `Reconnect.WebSocketClient.HandleClose` | src/ws/WebSocketClient.ts:153-178 | resolves, retries, waits or rejects, by the flags and the code |
| `Reconnect.WebSocketClient.HandleError` | src/ws/WebSocketClient.ts:180-188 | retries or rejects |

## Left out

- JSON text, JSON Schema compilation, JMESPath and `eval` are functions given from
  outside: a parsed text, the acceptance of a schema and the properties of a value
  are values of the model. Only the schema keywords that the worker uses are defined.
- The schemas of a manifest are taken to compile; `additionalProperties` and the
  other keywords are those of `Schema.Schema`.
- Parameters that are present as keys with the value `undefined`, such as the
  `session`, `claims` and `job` that `Executor.execute` always passes
  (src/base/Executor.ts:250): in the model they are missing. Whether
  `additionalProperties: false` rejects such keys depends on the validator.
- Numbers: times, dates and ports are unbounded, where JavaScript has doubles.
- Letter case: `toLowerCase` is modelled for ASCII letters, which is all that a
  match with the two language names can depend on but for the Kelvin sign and its like.
- Request ids that are not strings, and parameters or ids of a wrong type, which the
  request constructor takes as they are (src/base/JsonRpcRequest.ts:91-93).
- Object keys that look like array indices, which JavaScript enumerates before the
  others, and `__proto__`.
- A delegated code node whose result is `undefined`, and primitives other than those
  of JSON, in the walk.
- What `Worker.execute` writes into a node: only whether it can execute it is modelled.
- A pipeline step whose method is not a string is dispatched as an unknown method
  with an empty name, so the name in its error is not modelled.
- The text of the errors that JavaScript itself throws.
- `reduce` is a loop in the code and a sequence of steps in the model, one for each
  stretch between two `await`s; `call` of the delegator likewise.
- Cached manifests of clients, and the choice of transport and address in
  `Peer.connect`: whether a peer could be connected to is an event.
- A pipeline that fails because of a call that is not iterable does so before the
  calls ahead of it are done. Which methods they invoke is modelled, but not that
  they do so while the caller already goes on.
- The steps inside `p-retry`: it is taken to make `retries` + 1 attempts, at any times.
- Subclasses that override `stop` without calling the base one
  (src/tcp/TcpClient.ts:55-58, src/ws/WebSocketClient.ts:229-233).
- Notifications to a delegator, logging, intervals and timers, which repeat steps
  that the model allows at any time.
- The local and global IP addresses, and their caches, are parameters of `Expand`.
- The codec of the WebSocket protocol header, notification levels, the connection
  registry and the listener's timeout: they would only add easy members.
- Sockets, pipes, child processes, HTTP routes, token checks, discovery,
  configuration, the command line and src/vsock/VsockServer.c: input and output.
