# Verified models of ds4

These Dafny modules model the parts of ds4 whose correctness is hardest to see by reading:
the distributed inference protocol, the disk cache of checkpoints, the crawl manifest parser,
the two streaming hashes and the filter for thinking text.  Each is stated against an
independent definition: a grammar, a one-shot hash, a queue, a set of complete routes, a single
sorted order.

`dafny verify dfyconfig.toml` checks the whole project.

## Distributed inference

| files | what they model |
|---|---|
| `PrefillRing`, `PrefillPipeline`, `PrefillFaults`, `PrefillSafety`, `PrefillLiveness`, `PrefillOverlap` | the threads of pipelined prefill as interleaved critical sections over bounded FIFO channels: producer, sender, result reader, and in every worker a receiver, an evaluator and a relay; evaluations, connections and sockets may fail anywhere, and threads end when theirs is gone |
| `TokenHash` | the rolling 64-bit hash of the token prefix; FNV-1a, but from a start constant of its own |
| `WorkerSession` | a worker's sessions, its handlers for WORK and snapshot frames, and the slice evaluator's bookkeeping: resetting forgets the timeline, evaluating continues it where it ends |
| `Acceptance`, `AcceptanceRuns`, `AcceptanceProgress` | the network as sets of frames with fresh connection identities, with loss, restarts and replays |
| `RouteSearch`, `RoutePlan`, `RouteBlob` | registration checks, backtracking search, the plan and its wire form with the three readers of it |
| `PlanCache` | registry, generation counter and the session's cached plan, one step per critical section |
| `KvFormat`, `KvCodec`, `KvReading`, `KvFile`, `KvNode`, `KvSnapshot`, `KvTopology`, `KvRegistration` | splitting a saved session over a route and merging it again, with nodes that stamp what they write with their own runtime |

Four promises hold only under a condition, and the condition is proved exact:

* A worker's valid hash is that of its timeline after every frame, except when a reset fails:
  ds4_distributed.c:7444-7452 returns the error with the old hash still marked valid, after
  ds4.c:25165-25183 has forgotten the timeline (`WorkerSession.HashIsSafe`).  Acceptance is safe
  all the same (`AcceptanceRuns.AcceptedMeansEvaluated`): a session that holds nothing only goes on
  at position 0.
* Saving, loading elsewhere and saving again gives the same file exactly when the new nodes run
  with the sizes of the old ones (`KvTopology.SaveLoadSave`), because a node writes its own sizes
  into its header.  Registration at ds4_distributed.c:4233-4243 admits workers with which no save
  goes through (`KvRegistration.LargerWorkerContextCannotSave`).
* Storing a checkpoint keeps the cache within budget when the trailer does not outgrow its
  estimate (`KvStore.BudgetNeedsEstimate`): room is made for the estimate, and the size is checked
  against the whole budget after the trailer is written.
* Rewriting the trailer of an existing file makes no room at all (`KvStore.RewriteNeedsRoom`).

In pipelined prefill a worker's error result ends the attempt like a broken socket does
(ds4_distributed.c:3368-3373), and the model follows that.

## Cache, parser, hashes, filter

| files | what they model |
|---|---|
| `KvEvict`, `KvStore`, `KvLookup`, `KvHeader` | the byte budget, the eviction pass, storing a checkpoint, the search for the longest cached prefix, and the file header |
| `ShaBlocks`, `Sha1`, `Sha256`, `Sha1Example`, `Sha256Example` | the streaming contexts against sections 5.1.1, 6.1.2 and 6.2.2 of FIPS 180-4, with the constants of sections 4.2.2 and 5.3.3 proved to be roots of primes, and the published examples |
| `Utf8`, `JsonGrammar`, `JsonLexis`, `JsonParse`, `JsonSpelling`, `JsonReader` | sections 2 to 7 of RFC 8259 as parse trees, restricted to well-formed UTF-8, paired surrogates and depth 128, what the characters of a string mean, and the cursor parser |
| `PageSource`, `CrawlManifest`, `CrawlExtractor`, `CrawlReport` | the walkers that pick page text out of a manifest, the byte budget, and what a written manifest comes to |
| `CrawlBody` | the bounded printer of the request body |
| `Evidence` | matching of quotations up to white space |
| `ThinkFilter`, `ThinkShown` | the streaming filter for `<think>` tags, and what a reader sees of it: colours and lines |
| `Wrappers`, `Bytes` | optional results, bytes, words and the two wire orders |

A class stands for a C structure that is updated in place.  A method mirrors the branches and loops of its
C function, and its `ensures` ties the new state to a function of the old; the lemmas then say
what that function means.

## Model

| member | source | states |
|---|---|---|
| `PrefillRing.FillKeepsQueue` | ds4_distributed.c:3152-3169 | writing the acquired slot of a ring that is not full changes nothing the sender can see |
| `PrefillRing.EnqueueAppends` | ds4_distributed.c:3171-3187 | queueing appends exactly the filled slot to the queue and keeps tail = head + queued modulo the slots |
| `PrefillRing.ReleaseDropsOldest` | ds4_distributed.c:3260-3263 | releasing drops exactly the oldest queued slot |
| `PrefillRing.SenderRing.AcquireSlot` | ds4_distributed.c:3152-3169 | hands out the tail slot, outside the queue, only when the ring is neither full nor stopped |
| `PrefillRing.SenderRing.EnqueueSlot` | ds4_distributed.c:3171-3187 | the in-place ring becomes the value ring with the slot appended, or is untouched once stopped |
| `PrefillRing.SenderRing.ReleaseSlot` | ds4_distributed.c:3260-3263 | the in-place ring becomes the value ring without its oldest slot |
| `PrefillSafety.RelayNeverFaults` | ds4_distributed.c:6425-6620 | as long as nothing failed in a worker, a relay never meets a result other than the oldest one announced to it |
| `PrefillFaults.WorkerStepKeepsFaultInv` | ds4_distributed.c:6425-6784 | whatever failed, no frame is counted twice, a worker whose upstream socket is there has lost none, and threads only end under a lost socket |
| `PrefillSafety.StepKeepsInv` | ds4_distributed.c:3152-3419 | every step of producer, sender, reader or any worker thread, and every failure of a socket, evaluation or connection, keeps the whole pipeline invariant |
| `PrefillLiveness.BufferDiscipline` | ds4_distributed.c:3206-3341 | in every reachable state, failures included: completed and submitted chunks at most a window apart, ring indices consistent, chunks sent in order with contiguous ids, the producer's slot never the one being sent |
| `PrefillLiveness.StepAdvances` | ds4_distributed.c:3513-3720 | one whole-system measure grows with every step of every thread and every failure |
| `PrefillLiveness.EveryRunIsBounded` | ds4_distributed.c:3513-3720 | every interleaving has at most a bounded number of steps |
| `PrefillLiveness.NothingComesUp` | ds4_distributed.c:6615-6617 | when nothing can move and the coordinator has nothing to read from a socket that is there, then every socket down the route is there and no result is under way |
| `PrefillLiveness.NoDeadlock` | ds4_distributed.c:3268-3419 | in every reachable state, whatever failed on the way (first hop, worker-to-worker sockets, evaluations, connections), some thread can move without a further failure until the call has returned |
| `PrefillLiveness.EverythingWentThrough` | ds4_distributed.c:7673-7732 | once all results are accepted and no worker failed, every worker evaluated every chunk and holds nothing back |
| `PrefillLiveness.FailureFreeRunFinishes` | ds4_distributed.c:3513-3720 | a failure-free run can always go on without a failure until the call returned success with every result accepted and every worker drained, for any window, ring, queue and socket sizes of at least one |
| `PrefillOverlap.EveryNodeCanBeBusy` | ds4_distributed.c:3513-3720 | there is a run without failures in which coordinator and workers all compute at once, each a different chunk, if and only if there are more chunks than workers, the flow window is wider than the route is long, and each worker may have as many requests pending as there are workers behind it |
| `TokenHash.UpdateToken` | ds4_distributed.c:1495-1502 | the byte-by-byte loop computes the update of one 32-bit token |
| `TokenHash.UpdateTokens` | ds4_distributed.c:1504-1507 | the span loop computes the fold of the update |
| `TokenHash.SpanIsFnv` | ds4_distributed.c:1495-1507 | the hash of a span is FNV-1a, from the given state, over the four bytes of each token, least significant first |
| `TokenHash.XorBit` | ds4_distributed.c:1498 | a bit of the exclusive or is set exactly when the two bits differ |
| `TokenHash.UpdateIsBijection` | ds4_distributed.c:1495-1502 | for a fixed token the update has a two-sided inverse on 64-bit states |
| `TokenHash.UpdateInjectiveInToken` | ds4_distributed.c:1495-1502 | for a fixed state different 32-bit tokens give different states |
| `TokenHash.SpansCompose` | ds4_distributed.c:1504-1511 | hashing a span in two parts is hashing it whole |
| `TokenHash.DivergencePersists` | ds4_distributed.c:1504-1511 | different states stay different after any common suffix |
| `TokenHash.OneTokenDiffers` | ds4_distributed.c:1509-1511 | equal-length histories that differ in exactly one token always hash differently |
| `WorkerSession.ExecuteKeepsHash` | ds4_distributed.c:7433-7497 | a WORK frame keeps valid hash = hash of the timeline, unless its reset fails; then exactly when no hash was recorded or it was the hash of the empty timeline |
| `WorkerSession.HashIsSafe` | ds4_distributed.c:7444-7452 | whatever the accelerator answers, the hash stays honest if and only if the frame asks for no reset or nothing but the start hash is recorded |
| `WorkerSession.FailedResetCanBreakTheHash` | ds4.c:25165-25183 | a concrete live session and frame, past every check, in which a failed reset forgets the timeline and leaves its hash marked valid |
| `WorkerSession.ExecuteKeepsSession` | ds4_distributed.c:7433-7497 | every WORK frame that names the start hash for position 0, failed resets included, leaves an honest hash or a session that holds nothing |
| `WorkerSession.ExecuteIsGuarded` | ds4.c:25244-25277 | work is done only on a timeline with the hash, and past position 0 the length, that the coordinator named, and leaves that timeline plus the span, with the named result hash |
| `WorkerSession.ScreenExactly` | ds4_distributed.c:7193-7262 | a frame passes the checks if and only if model, layers, span, input, output, vocabulary, result hash and route entry all agree |
| `WorkerSession.GoodFrameIsCarriedOut` | ds4.c:25261-25273 | a frame for the live timeline it names, and a reset frame for position 0, is always carried out when the evaluator answers well, and the timeline grows by its tokens |
| `WorkerSession.Worker.GetSession` | ds4_distributed.c:6786-6809 | finds the session or adds a fresh one, and touches no other |
| `WorkerSession.Worker.ProcessWork` | ds4_distributed.c:7148-7497 | the whole handler: rejections change nothing, accepted frames change exactly their session; a frame that passes the checks, names the live timeline and is evaluated always leaves that timeline plus its tokens |
| `WorkerSession.Worker.HandleSnapshotLoad` | ds4_distributed.c:6972-7142 | which answer each header, each run of chunk frames and each answer of the evaluator gets, and what becomes of every session; no session ends up with a dishonest hash |
| `WorkerSession.Worker.ReadChunks` | ds4_distributed.c:7048-7100 | the payload is put together exactly when every frame is a well-sized chunk of this request, up to the announced size |
| `WorkerSession.WholeIsJoined` | ds4_distributed.c:7048-7100 | a payload that arrived whole is the data of the first chunks in order, each of this request and as long as it declares |
| `WorkerSession.ChunksArrive` | ds4_distributed.c:7048-7100 | good chunks that add up to the announced size are always put together to their data in order |
| `WorkerSession.Worker.ClearSessions` | ds4_distributed.c:6820-6833 | no session survives |
| `Acceptance.ChunkBoundsAreBounds` | ds4_distributed.c:3513-3720 | the chunk loop cuts the prompt into contiguous non-empty chunks that cover it, all but the last exactly as long as the cap |
| `Acceptance.StepKeepsInv` | ds4_distributed.c:6706-6779 | sending, forwarding, evaluating, relaying, accepting, resets, restarts, snapshot loads and losses all keep the network invariant |
| `Acceptance.OneIndexPerConnection` | ds4_distributed.c:6706-6779 | on one connection a request has one route index |
| `Acceptance.HandledIsGuarded` | ds4_distributed.c:7148-7497 | a frame that is carried out is carried out by the process its route entry names, on a timeline that matches the coordinator's |
| `AcceptanceRuns.AcceptedMeansEvaluated` | ds4_distributed.c:3343-3417 | in every run, failed resets included, an accepted chunk was evaluated for every route entry by a process listening at its address with its layers, on a timeline with the coordinator's prefix hash and, past position 0, its length |
| `AcceptanceRuns.AcceptedInOrder` | ds4_distributed.c:3343-3417 | results are accepted strictly in order, each for its own request id, and all earlier ones are sound too |
| `AcceptanceRuns.SomeRunAccepts` | ds4_distributed.c:3343-3417 | there are runs that accept a chunk |
| `AcceptanceProgress.EveryChunkCanBeAccepted` | ds4_distributed.c:3513-3720 | for every contiguous route whose processes fit their entries, every prompt, start, chunk cap and whether the workers are reset or loaded with the prefix first, some run accepts every chunk |
| `AcceptanceRuns.SomeRunBreaksAHash` | ds4_distributed.c:7444-7452 | there are runs in which a failed reset leaves a worker with a dishonest hash |
| `AcceptanceRuns.OneTokenDivergenceIsNeverEvaluated` | ds4_distributed.c:7433-7497 | in every run no worker ever evaluates a span on a timeline that differs from the coordinator's in exactly one token, or, past position 0, in length |
| `RouteSearch.AdmittedIsOk` | ds4_distributed.c:4166-4252 | an admitted worker has a sane layer range, its output head only on the last layer, and a valid port |
| `RouteSearch.AdmittedExactly` | ds4_distributed.c:4166-4252 | a Hello is admitted if and only if model, name, layer count, quantisation, flags, range, context and port are right, and is registered with what it says |
| `RouteSearch.ChainIsCompleteRoute` | ds4_distributed.c:1944-1989 | a chain found by the recursion is, position by position, a contiguous cover up to the last layer that ends in logits |
| `RouteSearch.CompleteRouteIsChain` | ds4_distributed.c:1944-1989 | the converse: every such cover is a chain of the recursion |
| `RouteSearch.ChainRises` | ds4_distributed.c:1954-1989 | starts rise strictly along a chain, so no worker occurs twice |
| `RouteSearch.RoomForOneMore` | ds4_distributed.c:1954-1972 | why the path array of n entries is never overrun |
| `RouteSearch.Search.Run` | ds4_distributed.c:1954-1989 | the backtracking search succeeds exactly when a chain exists, returns the first one in list order, and otherwise reports the furthest layer any acceptable chain reaches and leaves the path as it was |
| `RoutePlan.BuildPlan` | ds4_distributed.c:2201-2312 | for every registry and every sorted order of it: a complete valid plan, or the one error that applies, with the missing layer being the furthest frontier; no worker is planned exactly when the coordinator can do everything itself |
| `RoutePlan.PreferredIsBest` | ds4_distributed.c:1931-1942 | wherever a complete route could also go on with another worker, the planned one has output if that one has, and among equals in this it reaches at least as far |
| `RoutePlan.EntriesNameWorkers` | ds4_distributed.c:2135-2171 | every entry of a plan has the host, port, layers and output flag of a registered worker |
| `RoutePlan.WritePlan` | ds4_distributed.c:2135-2199 | the entries and bytes of a chain, or which limit they break |
| `RoutePlan.ExistsSame` | ds4_distributed.c:2222-2224 | sorting the workers does not change whether a route exists |
| `RoutePlan.PlannedRouteIsAccepted` | ds4_distributed.c:2261-2312 | the validator accepts every plan with workers, entry i decodes to plan entry i and nothing else, and the return target decodes to upstream and nothing else |
| `RouteBlob.TakeEntryInverse` | ds4_distributed.c:2135-2171 | reading one entry gives a value exactly on that value's encoding |
| `RouteBlob.TakeReturnInverse` | ds4_distributed.c:2173-2199 | the same for the final destination record |
| `RouteBlob.RecordsAre` | ds4_distributed.c:2135-2199 | where the numbers of both records stand, most significant byte first |
| `RouteBlob.Validate` | ds4_distributed.c:6119-6217 | accepts a blob exactly when it is the encoding of a valid contiguous route of the given length |
| `RouteBlob.GetEntry` | ds4_distributed.c:5999-6050 | gives exactly the entry at the index, whatever follows it, and fails otherwise |
| `RouteBlob.GetReturnTarget` | ds4_distributed.c:6052-6117 | gives exactly the final destination at the end of the blob, and fails otherwise |
| `RouteBlob.ReadsWhatWasWritten` | ds4_distributed.c:5999-6217 | every entry and the destination of an encoded route read back as what was put in, and as nothing else |
| `RouteBlob.OneReading` | ds4_distributed.c:6119-6217 | an accepted blob is the encoding of exactly one route |
| `PlanCache.CurrentKeeps` | ds4_distributed.c:1889-1909 | a registration drops exactly the stale ones for the same slice of the same host |
| `PlanCache.NoSecondRegistration` | ds4_distributed.c:1889-1909 | what stays differs from the new worker in host, model, first or last layer or output flag, and everything that does stays |
| `PlanCache.Coordinator.AddWorker` | ds4_distributed.c:1883-1914 | the registry becomes the new entry followed by the ones not stale, under the next generation; nothing happens while shutting down |
| `PlanCache.Coordinator.RemoveWorker` | ds4_distributed.c:4095-4118 | the first entry of a connection goes, and only then the generation rises |
| `PlanCache.Coordinator.ForgetRouteWorkers` | ds4_distributed.c:2102-2133 | the registry without the workers struck for the entries of the plan, and the generation rises if any was |
| `PlanCache.StrikingCounts` | ds4_distributed.c:2091-2100 | for one entry, one worker goes that agrees with it in host, port, layers and output flag, if there is one, and none that does not |
| `PlanCache.ForgettingCounts` | ds4_distributed.c:2102-2133 | for a whole plan, of the workers with given host, port, layers and output flag as many go as entries name them, as far as there are any |
| `PlanCache.UnnamedStays` | ds4_distributed.c:2102-2133 | a worker that no entry of the plan names stays registered |
| `PlanCache.Coordinator.BuildRoutePlan` | ds4_distributed.c:2201-2304 | plan and generation come from one and the same registry |
| `PlanCache.CurrentPlanIsForgotten` | ds4_distributed.c:2102-2133 | forgetting a plan that is still current always removes at least one worker |
| `PlanCache.StepKeepsInv` | ds4_distributed.c:4332-4348 | every critical section of a session call, registration, removal or shutdown keeps the cache invariant |
| `PlanCache.PlanIsNeverStale` | ds4_distributed.c:5504-5689 | over every interleaving: a plan marked ready under the present generation is a complete valid route of registered workers, and work sent right after the check uses such a plan |
| `PlanCache.EveryChangeCounts` | ds4_distributed.c:2102-2131 | no step changes the registry without raising the generation |
| `PlanCache.PlanIsReused` | ds4_distributed.c:4332-4348 | while calls go well and no worker comes or goes, a current plan is kept and never built again |
| `PlanCache.FailedRouteIsReplaced` | ds4_distributed.c:5504-5689 | after a route failure whose rebuild and replay succeed, the next call evaluates with the new plan at once |
| `KvFormat.Mul64Exact` | ds4_distributed.c:699-704 | the division test detects exactly the products over 64 bits |
| `KvFormat.StateBytesExact` | ds4_distributed.c:4597-4609 | the chain of checked products fails exactly when the whole product is too large |
| `KvFormat.LayerBytesExact` | ds4_distributed.c:4611-4654 | the checked size of a layer is the exact size, and fails only when 64 bits cannot hold it |
| `KvFormat.LayerSizeIs` | ds4_distributed.c:4597-4654 | that size written out for uncompressed layers, for ratio 4 with its indexer, and for other ratios |
| `KvFormat.TakeWordsInverse` | ds4_distributed.c:591-609 | reading little-endian words undoes writing them, with nothing else accepted |
| `KvFormat.WordStandsAt` | ds4_distributed.c:591-609 | number k of a run stands in the four bytes from 4k on, least significant first |
| `KvFormat.TakePartsInverse` | ds4_distributed.c:611-647 | cutting a run of tensors by their sizes undoes joining them |
| `KvFile.PayloadFile.ReadBytes` | ds4_distributed.c:571-589 | the cursor and the remaining count advance together, and short files fail |
| `KvFile.PayloadFile.ReadWords` | ds4_distributed.c:601-609 | a counted read of bounded words gives exactly the words at the cursor |
| `KvCodec.SessionInverse` | ds4_distributed.c:4793-4817 | the loader's reading of a session file is the session it encodes, and of no other bytes |
| `KvCodec.SessionFileIs` | ds4_distributed.c:4793-4817 | where name, version, numbers, tokens, logits, row counts and tensors of a session file stand |
| `KvReading.SessionIsRead` | ds4_distributed.c:5212-5320 | a session file is read if and only if the numbers in it agree with the model, with one another and with its length, and the context has room |
| `KvCodec.ShardInverse` | ds4_distributed.c:4679-4791 | parsing a layer payload undoes writing it, and accepts nothing else |
| `KvCodec.ShardFileIs` | ds4_distributed.c:4819-4876 | where everything in a layer payload stands |
| `KvReading.ShardIsRead` | ds4_distributed.c:4679-4791 | a layer payload is read if and only if it names the layers asked for and its numbers agree with the model, with one another and with its length |
| `KvSnapshot.ValidateRoute` | ds4_distributed.c:4878-4905 | accepts exactly the contiguous covers of all layers that start at layer 0 |
| `KvSnapshot.PrepareShard` | ds4_distributed.c:4985-5029 | copies exactly the tensors of a node's layers behind a header for them |
| `KvSnapshot.LoadShards` | ds4_distributed.c:5322-5365 | over the whole route every node gets exactly its layers until one refuses, and if none does the file is used up exactly |
| `KvSnapshot.Load` | ds4_distributed.c:5212-5378 | succeeds exactly on the encoding of a session the coordinator can take, followed by nothing, when every node takes its layers; if one refuses, exactly the nodes before it have taken theirs |
| `KvNode.TakeOfShard` | ds4.c:22808-22990 | a node takes a well-formed payload of its layers exactly when it fits its context, window, row caps and the timeline, and keeps just what it says |
| `KvReading.NodeTakes` | ds4.c:22808-22990 | the same condition on the bytes of any payload, number by number |
| `KvNode.CompCapIsLargest` | ds4.c:10913-10930 | the row bound in a header is the largest of the layers' own bounds, which the least compression ratio gives |
| `KvNode.FitsNode` | ds4.c:22836-22904 | layers written by one node fit another if and only if the other has at least the context, the same raw window and room for one more token |
| `KvNode.TakenIsOk` | ds4.c:22672-22706 | what a node took it can write again, under its own runtime |
| `KvNode.HeaderTellsRuntime` | ds4.c:22690-22706 | two nodes write the same header if and only if context, prefill cap and raw cap are the same |
| `KvTopology.ParseShard` | ds4_distributed.c:4679-4791 | the in-place parser agrees with the decoder on all bytes |
| `KvTopology.ExpectedBytes` | ds4_distributed.c:4769-4782 | the 64-bit sum of layer sizes is exact or reported as overflow |
| `KvTopology.SessionFromShards` | ds4_distributed.c:5079-5210 | payloads that parse under one layout are the layers of one session |
| `KvTopology.Save` | ds4_distributed.c:5079-5210 | succeeds exactly when the payloads are the layers of one session, and then writes that session in the single-node format |
| `KvTopology.SaveLoadSave` | ds4_distributed.c:5079-5378 | for any two routes with any runtimes: the first save goes through if and only if its nodes share their sizes, and then writes the single-node file; the load goes through if and only if every new node has room, and gives each exactly its layers; the second save goes through if and only if the new nodes share their sizes, and writes the same file if and only if these are the first ones |
| `KvTopology.LoadTakes` | ds4_distributed.c:5212-5378 | what nodes of one runtime saved loads on any route exactly when every node has room, and leaves each with exactly its layers |
| `KvTopology.SaveNeedsOneLayout` | ds4_distributed.c:4656-4669 | a save goes through if and only if all nodes serialise under one layout, for the coordinator's timeline |
| `KvTopology.SaveNeedsOneRuntime` | ds4.c:22690-22706 | and nodes do so if and only if they run with the same context, prefill cap and raw cap |
| `KvRegistration.LargerWorkerContextCannotSave` | ds4_distributed.c:4233-4243 | a worker that registration admits with another context than the coordinator's has a larger one, and every save over a route with it fails |
| `KvRegistration.AdmittedWorkerCannotSave` | ds4_distributed.c:4233-4243 | a concrete admitted worker with a larger context, holding its layers of a one-token timeline, whose cluster cannot save |
| `KvEvict.FileSizeFits` | ds4_kvstore.c:748-789 | fits exactly when header, text, payload, trailer and 1% headroom rounded up stay within 64 bits and the budget |
| `KvEvict.SlackIsOnePercent` | ds4_kvstore.c:748-789 | under a limit a file fits if and only if a hundredth of it stays free |
| `KvHeader.FileIsThatLong` | ds4_kvstore.c:748-789 | the sum that is checked is the length of what is written |
| `KvEvict.Store.PickVictim` | ds4_kvstore.c:549-564 | the entry with the least score, then the oldest use, then the first place |
| `KvEvict.Store.Evict` | ds4_kvstore.c:538-584 | deletes exactly the shortest prefix of the order (score, last use, position) that makes the rest fit, stopping at the first file that cannot be deleted; nothing that goes scores above anything that stays, nor equally with a later use |
| `KvEvict.CutIsShortest` | ds4_kvstore.c:547-584 | that prefix suffices and no shorter one does |
| `KvEvict.OneOrder` | ds4_kvstore.c:549-564 | every listing has exactly one order of deletion |
| `KvStore.StoreLivePrefix` | ds4_kvstore.c:902-1102 | the whole store by way of the size check and the eviction: when it succeeds, and which files are left; with deletions succeeding the total stays within budget if the trailer keeps its estimate |
| `KvStore.RewriteTrailer` | ds4_kvstore.c:860-899 | an existing compatible file gets a new trailer behind its payload, and no other file changes |
| `KvStore.TotalLeft` | ds4_kvstore.c:544-584 | after the first k items of the order are deleted, the files of the directory add up to the sizes of the rest |
| `KvStore.BudgetNeedsEstimate` | ds4_kvstore.c:1002-1087 | whatever the cache held, storing keeps the budget if and only if the written trailer does not outgrow the estimate, or no other file could have stayed beside the new one |
| `KvStore.RewriteNeedsRoom` | ds4_kvstore.c:860-899 | whatever else is in a cache within budget, rewriting a trailer keeps the budget if and only if the file does not grow, or no other file could be beside it and it fits alone |
| `KvStore.RewriteCanBreakTheBudget` | ds4_kvstore.c:983-992 | a concrete cache within budget that a rewritten trailer takes over it |
| `KvLookup.FindTextPrefix` | ds4_kvstore.c:1167-1190 | the first among the candidates with the longest text, then the most tokens; -1 exactly when there is none |
| `KvLookup.OneBest` | ds4_kvstore.c:1167-1190 | that index is unique |
| `KvLookup.LongestPrefixIsFound` | ds4_kvstore.c:1167-1190 | whenever a usable entry is named by the hash of a text the prompt starts with, an entry is found whose text is at least as long |
| `KvLookup.FoundIsPrefix` | ds4_kvstore.c:1167-1190 | an entry found is named by the hash of a prefix of the prompt, and is usable |
| `KvLookup.TryLoad` | ds4_kvstore.c:1192-1267 | loads exactly when header, hash, byte prefix and token count all agree; then stored text plus suffix is the prompt; exactly when the session is lost, the file deleted or its hit counted |
| `KvLookup.TryLoadText` | ds4_kvstore.c:1192-1267 | search and load in one: what is loaded is a prefix of the prompt, and an unchanged file of the entry found always loads |
| `KvLookup.LoadedPromptRendersBack` | ds4_kvstore.c:662-675 | for token-text keys the effective prompt renders back to the prompt, given that tokenising keeps text |
| `KvHeader.FieldsAreReadBack` | ds4_kvstore.c:370-417 | every header field is read back as it was written, the reason as far as this version knows it |
| `KvHeader.FieldsAreAt` | ds4_kvstore.c:370-392 | where each field of a header stands |
| `KvHeader.ReadHeader` | ds4_kvstore.c:394-417 | a header is read exactly when magic, version and payload format fit, tokens are not zero and the quantisation is 2 or 4 |
| `KvHeader.Touch` | ds4_kvstore.c:462-479 | counting a hit changes hits and time of use and nothing else in the file, except that an unknown reason is lost |
| `Sha1.OrIsEnough` | ds4_kvstore.c:216-230 | the code's `or` forms of choice and majority are the standard's |
| `Sha1.Context.Transform` | ds4_kvstore.c:203-243 | the in-place block function is the compression function |
| `Sha1.Context.Update` | ds4_kvstore.c:255-270 | absorbing more bytes makes the context stand for the longer message |
| `Sha1.Context.Final` | ds4_kvstore.c:272-287 | below 2^61 bytes the digest is the one-shot digest of the padded message |
| `Sha1.Streamed` | ds4_kvstore.c:298-305 | however a message is cut into updates, the digest is that of the whole message |
| `Sha1Example.DigestOfAbc` | ds4_kvstore.c:203-305 | the definition gives the published digest of "abc" |
| `ShaBlocks.OneMoreZero` | ds4_kvstore.c:272-280 | the padding loop adds exactly the zero bytes of the standard |
| `Sha256.ConstantsAreRoots` | ds4_context_blob.c:30-40 | the round constants and initial words are the fraction bits of cube and square roots of the first primes |
| `Sha256.Context.Transform` | ds4_context_blob.c:42-77 | the in-place block function is the compression function |
| `Sha256.Context.Update` | ds4_context_blob.c:88-97 | absorbing more bytes makes the context stand for the longer message |
| `Sha256.PaddedBlocks` | ds4_context_blob.c:99-112 | one or two more blocks, exactly as the length field fits |
| `Sha256.Context.Final` | ds4_context_blob.c:99-119 | below 2^61 bytes the digest is the one-shot digest of the padded message |
| `Sha256.Streamed` | ds4_context_blob.c:121-126 | however a message is cut into updates, the digest is that of the whole message |
| `Sha256Example.DigestOfAbc` | ds4_context_blob.c:42-126 | the definition gives the published digest of "abc" |
| `Utf8.RawLengthIsEncoding` | ds4_crawl_grounding.c:130-167 | the byte-range tests accept only encodings of scalar values |
| `Utf8.EncodingHasRawLength` | ds4_crawl_grounding.c:130-201 | and accept every one of them, with its length and code point |
| `Utf8.LeadLengthIsRawLength` | ds4_crawl_grounding.c:468-481 | on well-formed text the short test gives the same length |
| `Utf8.PublishedExamples` | ds4_crawl_grounding.c:169-201 | the encoder gives the examples of section 7 of RFC 3629 |
| `JsonLexis.TakeUnitSound` | ds4_crawl_grounding.c:209-303 | a character taken off a string is one of the grammar |
| `JsonLexis.TakeUnitComplete` | ds4_crawl_grounding.c:209-303 | every character of the grammar is taken, paired surrogates included |
| `JsonSpelling.SpellingIsRead` | ds4_crawl_grounding.c:209-303 | every spelling of a code point (itself, its escape letter, its four digits in either case, or its two surrogates) is read as the UTF-8 encoding of that code point |
| `JsonSpelling.CharacterIsSpelled` | ds4_crawl_grounding.c:209-303 | every character that is read is such a spelling |
| `JsonSpelling.StringIsRead` | ds4_crawl_grounding.c:209-303 | a string is read as the text of the code points it spells, however each is spelled |
| `JsonSpelling.StringIsSpelled` | ds4_crawl_grounding.c:209-303 | nothing else is read as a string |
| `JsonLexis.TakeNumberSound` | ds4_crawl_grounding.c:377-422 | a number taken is one of the grammar |
| `JsonLexis.TakeNumberComplete` | ds4_crawl_grounding.c:377-422 | every number of the grammar is taken whole |
| `JsonParse.ValueSound` | ds4_crawl_grounding.c:307-455 | what is parsed is spelled by a tree of the grammar within depth 128 |
| `JsonParse.ValueComplete` | ds4_crawl_grounding.c:307-455 | every tree of the grammar within depth 128 is parsed back from its spelling |
| `JsonParse.AcceptsExactlyJson` | ds4_crawl_grounding.c:706-715 | the acceptor recognises exactly the language |
| `JsonParse.NestingBound` | ds4_crawl_grounding.c:307-345 | arrays in arrays are accepted up to 129 deep, and no deeper |
| `JsonParse.OneReading` | ds4_crawl_grounding.c:307-455 | a text has one parse tree |
| `JsonReader.Reader.ParseString` | ds4_crawl_grounding.c:209-303 | the cursor parser accepts and decodes strings as the grammar does |
| `JsonReader.Reader.ParseNumber` | ds4_crawl_grounding.c:377-422 | the cursor parser accepts numbers as the grammar does |
| `JsonReader.Reader.ParseValue` | ds4_crawl_grounding.c:435-455 | the cursor parser accepts values as the grammar does and stops behind them |
| `JsonReader.Reader.ParseArray` | ds4_crawl_grounding.c:307-336 | the same for arrays, with the depth test |
| `JsonReader.Reader.ParseObject` | ds4_crawl_grounding.c:338-375 | the same for objects |
| `PageSource.BudgetIsExact` | ds4_crawl_grounding.c:483-513 | the joined source is within budget, well-formed, a prefix of the whole, without dangling separator, and truncated exactly when the whole is too long |
| `PageSource.NothingLongerFits` | ds4_crawl_grounding.c:483-513 | no other cut behind a whole character that meets the budget is longer |
| `CrawlManifest.DecodedIsText` | ds4_crawl_grounding.c:169-201 | decoded strings are well-formed UTF-8 |
| `CrawlManifest.AddsUp` | ds4_crawl_grounding.c:581-595 | adding pages one by one gives the budgeted join of the kept ones, or nothing when one is rejected |
| `CrawlExtractor.Extractor.AppendPage` | ds4_crawl_grounding.c:483-513 | the in-place append agrees with the specification of one more page |
| `CrawlExtractor.Extractor.ParsePage` | ds4_crawl_grounding.c:515-596 | the page walker accepts what the generic parser accepts, except a NUL in succeeded content, and gathers that page |
| `CrawlExtractor.Extractor.ParsePages` | ds4_crawl_grounding.c:598-627 | the same for the pages array |
| `CrawlExtractor.Extractor.ParseRootObject` | ds4_crawl_grounding.c:629-675 | the same for the root object |
| `CrawlExtractor.Extract` | ds4_crawl_grounding.c:677-732 | the whole call computes the meaning of the manifest on every input |
| `CrawlExtractor.ExtractionIsExact` | ds4_crawl_grounding.c:677-732 | a JSON manifest is invalid only for a NUL in succeeded content; otherwise the result is the budgeted join of the non-blank succeeded pages |
| `CrawlExtractor.NotJsonIsInvalid` | ds4_crawl_grounding.c:706-719 | every other text is invalid |
| `CrawlReport.WrittenManifestIsRead` | ds4_crawl_grounding.c:515-732 | for any pages given in code points and any way of escaping them: the manifest written for them is invalid exactly when a succeeded page has a NUL, and otherwise gives the budgeted join of the succeeded pages that are not all white space |
| `CrawlReport.LastStringCounts` | ds4_crawl_grounding.c:528-565 | of members with the same name the last string counts; other values and other names are passed over |
| `Evidence.NormalizeWs` | ds4_crawl_grounding.c:766-793 | the loop computes the normal form, which is never longer |
| `Evidence.NormalizeIsIdempotent` | ds4_crawl_grounding.c:766-793 | the result has no outer, doubled or odd white space, and normalising again changes nothing |
| `Evidence.NormalizeKeepsWords` | ds4_crawl_grounding.c:766-793 | the words of the text and their order stay |
| `Evidence.NormalFormIsContained` | ds4_crawl_grounding.c:984-992 | the normal form of any stretch of a text stands in the normal form of the text |
| `Evidence.CountEvidence` | ds4_crawl_grounding.c:977-995 | total counts the non-blank quotations, found those whose normal form stands in the source, so found never exceeds total |
| `Evidence.VerbatimQuotesAreFound` | ds4_crawl_grounding.c:984-994 | every non-blank verbatim quotation is counted as found |
| `CrawlBody.AppendChar` | ds4_crawl_client.c:111-139 | one character is appended exactly when its escape and the terminator fit |
| `CrawlBody.BuildUrlBody` | ds4_crawl_client.c:142-174 | built exactly when the escaped length plus eleven fits, and then it is the escaped body with its terminator |
| `CrawlBody.EscapeReadsBack` | ds4_crawl_client.c:111-139 | the escaped form of a well-formed URL is a string of the grammar that decodes to it |
| `CrawlBody.BodyIsAcceptedForUtf8` | ds4_crawl_client.c:142-174 | the parser accepts the body if and only if the URL is well-formed UTF-8, and its string then decodes to the URL |
| `CrawlBody.BodyIsSpelled` | ds4_crawl_client.c:142-174 | the body is the escaped URL as the one member "url" of an object |
| `ThinkFilter.CutAnywhere` | ds4_cli.c:332-376 | passing over a piece and then over what it left undecided with the next is passing over both at once |
| `ThinkFilter.ChunkingDoesNotShow` | ds4_cli.c:332-384 | however a reply is cut into tokens, the same characters, grey marks and line breaks appear |
| `ThinkFilter.HeldIsShort` | ds4_cli.c:361-370 | at most seven characters are ever held back, and none after the end |
| `ThinkFilter.ShowsTheText` | ds4_cli.c:332-376 | every character outside a tag is shown, once and in order |
| `ThinkShown.GreyIsThinking` | ds4_cli.c:310-384 | on a coloured terminal a shown character is grey exactly when the last tag before it opens, or the mode at the start when there is none; colours never change without need and are off in the end |
| `ThinkShown.BreaksEndThinking` | ds4_cli.c:332-384 | the reader sees the text without its tags, with one more line break at each closing tag that does not follow a line end |
| `ThinkShown.NoColourUnasked` | ds4_cli.c:310-324 | without colours none is ever switched |
| `ThinkFilter.Printer.Process` | ds4_cli.c:332-376 | the printer with its 16-byte buffer does what the filter says |
| `ThinkFilter.Printer.FinishReply` | ds4_cli.c:378-384 | the end of the reply shows what was held back and leaves grey |

## Left out

- Sockets, DNS, listeners, timeouts, telemetry, environment settings and profiling: a channel is a FIFO with a failure step.
- The job queue, the pending list and the worker registry are linked lists in C and sequences here; splicing of nodes and freeing are not modelled.
- Allocation failures and the failure to duplicate a first-hop connection.
- What the accelerator computes, and the narrowing of compressed rows to 16 bits on some backends: of ds4.c only the timeline, the checks and the headers of layer slices are modelled; a node gives back the tensor bytes it took.
- KvSnapshot.Load: what the nodes hold when a file turns out to be cut short or to have bytes left over.
- WorkerSession.Worker.HandleSnapshotLoad: length fields of the header are one flag, and reading and writing the temporary file succeeds or fails as a whole.
- KvStore.StoreLivePrefix: the refusals before a payload is staged (cache disabled, too few tokens, live timeline elsewhere) are one answer of the session; files that are no readable checkpoints do not count towards the total.
- PrefillLiveness.NoDeadlock: a socket buffers at least one whole frame, and a relay takes a whole result before it writes it on; the C code streams it through a buffer while holding its write lock (ds4_distributed.c:6560-6608).
- PrefillPipeline: telemetry bytes and payload kinds in result frames; a result is its request id, or an error.  Frames that are no protocol frames at all are not sent.
- PlanCache.PlanIsNeverStale: the generation counter does not wrap at 2^64.
- RoutePlan.BuildPlan: the library sort is any arrangement of the registry that its comparison allows.
- KvTopology.Save: the row-count arrays indexed by layer are sequences appended in route order.
- KvEvict.Store.Evict: the decaying score is an abstract real that stays the same during one pass, and the sum of file sizes does not wrap.
- Reason codes, boundary trimming and continued stores: they would only add easy members.
- Sha1.Context.Final: the hexadecimal form of a digest and of file names.
- JsonReader.Reader.ParseString: growth of the string buffer and error texts.
- CrawlExtractor.Extract: a missing manifest, which the C code reports as empty; a C string cannot hold the byte 0, the model's text may.
- Evidence.CountEvidence: the parse of the verifier's reply and its floating-point accuracy score.
- 8-bit and 16-bit activation transport, GPU kernels, tokenisation and sampling.
- Agent, server, bench and command-line front ends.
