# Verified models of the code runner

Dafny models of the stateful parts of the code runner, server and worker, with proofs
of what they promise. Each module follows one component of the Go code. Objects whose
methods change their fields are classes whose methods are proved against functions;
protocols of several goroutines are machines whose steps interleave freely, and what
is stated about them holds in every run.

- **Smooth weighted round-robin** (`Words`, `Iteration`, `SmoothWeights`,
  `WeightedRR`). Arithmetic is int64 with wrap-around and truncated division. From
  nodes freshly added with positive weights, every window of `totalWeight` calls gives
  each node exactly its weight, and the wait for a node is bounded. The theorems ask
  that the number of nodes times the total weight fit an int64, which is also shown to
  keep every intermediate value in range.
- **Delivery of requests** (`Delivery`, `DeliveryHistory`, `DeliveryGuarantees`,
  `DeliveryAcks`, `DeliveryRetries`, `DeliveryProgress`, `DeliveryExamples`,
  `ClientManager`, `ManagerSteps`, `BalancerSteps`). The calls of `Execute` and `ExecuteSync`, the `Run` loop of each
  client, ACKs and closing connections, one step at a time. Writing a synchronous
  request and waiting for its result are two steps, tracking is two (look the table
  up, store in it) and draining is two (detach the table, collect it), as in the
  source. Request ids are unique. The client manager's methods are proved to be the
  machine's steps, and the node list of the power-of-two-choices balancer to follow its
  counts. That nothing is ever lost, or nothing acknowledged is sent again, is false of
  the code; the model gives runs that do so and says exactly when a run does.
- **Prompt building** (`Replacing`, `TagPatterns`, `TagRewriting`, `TagCounting`,
  `PromptSections`, `PromptWording`, `PromptStructure`, `PromptGuarantees`,
  `OpeningTags`, `PromptOpenings`, `PromptContents`, `Characters`,
  `Decimals`). The four rewriting passes with a
  hand-written matcher that is proved to decide the patterns' grammar, under full case
  folding (the long s and the Kelvin sign fold into the names), and the tags that a
  rendered prompt then holds. The wording of the fixed sections is the shipped one.
- **Rate limiting** (`RateLimit`, `RateBounds`, `RatePacing`, `RateTraces`,
  `RateMaximum`). Two fixed windows an address and the janitor. One reading of a clock
  that never goes back per operation, and operations that do not overlap.
- **Container pool** (`ContainerPool`). Acquire, release, repair and close of one
  language's slots as interleaved steps, and the same as methods of an object whose
  effects are runs of the machine.
- **Power of two choices** (`P2CBalance`). Draws, loads and clock readings are
  parameters; the averages are over the reals, with an exponential of which only its
  laws are used.
- **Worker connection** (`WorkerConnection`). The critical sections of connect,
  reconnect and Close by any number of goroutines.
- **Synchronous results** (`SyncRouting`, `SyncDelivery`). `SendSync` and the read loop,
  whose look-up and send are separate steps, and the two machines joined: what the
  delivery machine leaves open of a wait is what happens on the connection. Request
  ids are unique.
- **Session store** (`SessionStore`, `SessionHistory`). Logs of lines, meta files and
  the cache of metas; over runs, the lookup of a meta and the filling of the cache are
  two steps, so are the cleaning goroutine's test and its deletion, and a restart
  empties the cache. The JSON codec is a parameter that returns what it was given and
  writes one non-empty line that does not end in a carriage return.

`Runs` says what a run of a machine is; `Options` and `Ids` hold what several modules
share.

## Where the code and its comments differ

- The comment in `updateWeight` speaks of keeping half of the current weight; the code
  scales it by the ratio of the weights, and so does the model.
- The balancer's README describes an older weighted round-robin whose `Remove` left
  the total alone and a P2C balancer without a global lock; the model follows the code.

## Findings

- A request is lost without a trace when its client's connection fails between the
  successful send and the look-up of the table, between that look-up and the store
  once the table was collected, or when a redispatch fails (`LosesExactly`,
  `LostExactlySo`, `ARequestCanBeLost`).
- The caller of a synchronous request gets an error although the request was written,
  and may be executing, exactly when the wait for its result ended without one that
  can be read (`ErrorAfterWrite`, `ARejectedRequestCanBeWritten`). An error for an
  asynchronous request does mean that it was not written (`OutcomesAreHonest`).
- An ACK that finds nothing in its client's table, because it overtakes the tracking or
  comes after the table was drained, ends nothing. A run dispatches an acknowledged
  request again exactly when an ACK missed it so and it was then redispatched
  (`RepeatedExactlySo`), possibly to the client whose connection failed
  (`AnAckedRequestCanGoToTheDeadClient`).
- In slow traffic the rule against starvation makes P2C take the heavier of two nodes
  every time: the lighter one is never taken exactly when the heavier is stale at the
  first call and each later call comes more than a second after the one before
  (`LighterStarvesIffSlow`; call by call, `HeavierIsTakenIffStale`). Calls two seconds
  apart do it (`TheLighterCanStarve`).
- More than the rate limit can pass within one window length, exactly when a window
  begins in it and the counts before and after add up to more (`LimitExceededIff`). The
  most that can pass is known for all positive limits (`MostIsExact`), and with it the
  limits under which the plain limit can be exceeded at all (`ExceededIff`). Twice the
  limit itself can pass exactly when
  `2*perMinute <= perDay < 1440*perMinute` for the minute, and exactly when
  `perMinute < perDay <= 720*perMinute` for the day (`DoubleIff`): the window has to
  begin with a request that the other limit refuses.
- `GetMeta` fills the cache outside the session's lock. The cache disagrees with the
  disk afterwards exactly when the session was deleted, cleaned, created anew or
  touched since the lookup read it (`FillAgreesIffUntouched`), and each of these can
  happen (`ADeletedSessionCanBeCached`, `ARecreatedSessionCanBeCachedOld`,
  `ARenewedSessionCanBeCachedOld`).
- The chat and confirm handlers look a session up, or create it, before they append
  (`internal/agent/handler/chat.go:137-182`, `internal/agent/handler/confirm.go:43`).
  If a cleaning or a deletion falls in between, the append leaves a log without a meta
  file, which no cleaning removes; otherwise it renews the session
  (`AppendRenewsOrOrphans`, `AnAppendCanOrphan`).
- The cleaning goroutine tests a session without its lock and deletes it afterwards. A
  session renewed in between is deleted although it is alive, exactly as
  `AliveIsCleanedIffRenewed` says (`ARenewedSessionCanBeCleaned`).
- A second result for one request stops the server's read loop exactly when the first
  is unread (`ArrivalBlocksIff`), and for good if its caller has given up
  (`BlockedForGood`, `TheReaderCanBeBlockedForGood`).
- A worker's socket stays open with nobody to close it exactly when a connect replaces
  it (`ForgottenExactlySo`); one reading goroutine never does that
  (`NoSocketIsForgotten`), two can (`TwoReadersForgetASocket`). The repository's own
  worker dials once and reads with one goroutine
  (`internal/application/service/client/service.go:25-72`), so no caller in it does.
- Text that ends in the beginning of an opening tag passes neutralizing unchanged, and
  the wrapper's own bracket then completes the tag; the prompt holds no opening tags
  but the builder's own exactly when neither the article nor a block's code ends so
  (`OwnOpeningsOnlyIff`, `NeutralizeKeepsEnd`, `ATextCanEndOpen`). Closing tags are not affected
  (`ClosingTagsInAnySpelling`).

## Model

| member | source | states |
|---|---|---|
| WeightedRoundRobin.WeightedRR.Add | internal/infrastructure/balanceStrategy/weightedRRBalance/weightedRR.go:23-33 | the node goes to the end with nothing owed, and the stored total stays the sum of the weights as an int64 |
| WeightedRoundRobin.WeightedRR.Remove | internal/infrastructure/balanceStrategy/weightedRRBalance/weightedRR.go:35-46 | the first node of that id goes, the others keep their order, and a missing id changes nothing; the total follows, for every int64 wrap |
| WeightedRoundRobin.WeightedRR.UpdateWeight | internal/infrastructure/balanceStrategy/weightedRRBalance/weightedRR.go:48-61 | the node gets the weight and its debt is rescaled by truncated division; where the old weight is zero the division fails with the total already changed |
| WeightedRoundRobin.WeightedRR.RaiseAll | internal/infrastructure/balanceStrategy/weightedRRBalance/weightedRR.go:72-80 | the loop of Next over the nodes: each gets its weight more, and the best seen is the first largest of those raised |
| WeightedRoundRobin.WeightedRR.Next | internal/infrastructure/balanceStrategy/weightedRRBalance/weightedRR.go:63-87 | one step of the smooth machine: all are raised, the first largest is charged the total; nothing for an empty list |
| SmoothWeights.BestIsFirstMaximum | internal/infrastructure/balanceStrategy/weightedRRBalance/weightedRR.go:72-80 | the node charged is the first of those with the largest raised value |
| SmoothWeights.CallConservesDebt | internal/infrastructure/balanceStrategy/weightedRRBalance/weightedRR.go:63-87 | a call changes neither the sum of the weights nor the sum of what is owed |
| SmoothWeights.PickIsPositive | internal/infrastructure/balanceStrategy/weightedRRBalance/weightedRR.go:72-84 | with a zero sum the picked node has at least 1 before it is charged |
| SmoothWeights.CallStaysInRange | internal/infrastructure/balanceStrategy/weightedRRBalance/weightedRR.go:74-84 | no intermediate value of a call leaves int64 when the number of nodes times the total fits |
| SmoothWeights.RunMoves | internal/infrastructure/balanceStrategy/weightedRRBalance/weightedRR.go:63-87 | after k calls a node has k times its weight less the total per pick, from any balanced start |
| SmoothWeights.CurIsWhatIsOwed | internal/infrastructure/balanceStrategy/weightedRRBalance/weightedRR.go:63-87 | from any balanced nodes `curWeight` is what was owed at first plus k*weight - total*picks, and lies in [1-total, (n-1)*(total-1)] |
| SmoothWeights.PrefixQuota | internal/infrastructure/balanceStrategy/weightedRRBalance/weightedRR.go:63-87 | from any balanced nodes a node has after k calls at most (what it was owed at first + k*weight)/total picks, rounded up |
| SmoothWeights.ExactFairness | internal/infrastructure/balanceStrategy/weightedRRBalance/weightedRR.go:63-87 | after exactly total calls every node was picked exactly weight times and the nodes are as they began |
| SmoothWeights.Periodic | internal/infrastructure/balanceStrategy/weightedRRBalance/weightedRR.go:63-87 | the machine repeats with period total |
| SmoothWeights.EveryWindowIsFair | internal/infrastructure/balanceStrategy/weightedRRBalance/weightedRR.go:63-87 | any total consecutive calls, wherever they begin, give a node exactly weight picks |
| SmoothWeights.PickedAmongNext | internal/infrastructure/balanceStrategy/weightedRRBalance/weightedRR.go:63-87 | from any balanced nodes a node is among the next d picks whenever d*weight exceeds n*(total-1), at every point of a run |
| SmoothWeights.BoundedGap | internal/infrastructure/balanceStrategy/weightedRRBalance/weightedRR.go:63-87 | so the wait for a node is at most n*(total-1)/weight + 1 calls, also after nodes were added in the middle of a run |
| WeightedRoundRobin.AddKeepsBalance | internal/infrastructure/balanceStrategy/weightedRRBalance/weightedRR.go:23-33 | adding a positive weight keeps the invariant that fairness rests on |
| WeightedRoundRobin.RemoveKeepsZeroSumIff | internal/infrastructure/balanceStrategy/weightedRRBalance/weightedRR.go:35-46 | removing a node keeps the zero sum exactly when the node owes and is owed nothing |
| WeightedRoundRobin.RemovedKeepsTheOthers | internal/infrastructure/balanceStrategy/weightedRRBalance/weightedRR.go:35-46 | the list after a removal, told by position: without the first node of that name, or unchanged |
| WeightedRoundRobin.RescaledWithinRatio | internal/infrastructure/balanceStrategy/weightedRRBalance/weightedRR.go:55-57 | the rescaled debt is the old one times weight/old weight rounded towards zero, with its sign |
| Words.QuotientTruncates | internal/infrastructure/balanceStrategy/weightedRRBalance/weightedRR.go:55-57 | division leaves less than the divisor, with the sign of what is divided, whatever the signs |
| Words.I64Wraps | internal/infrastructure/balanceStrategy/weightedRRBalance/weightedRR.go:23-87 | an int64 differs from the exact value by a multiple of 2 to the 64th |
| Delivery.StepKeeps | internal/application/service/server/service.go:29-119 | every step of every interleaving of Execute, ExecuteSync and Run keeps the invariant that ties calls, tables, queues, loops and registry together |
| DeliveryGuarantees.Classification | internal/application/service/server/service.go:29-117 | in every reachable state each request is in exactly one place; one sent and not acknowledged is past its send or with a redispatching call, in a live table, queued, or dropped |
| DeliveryGuarantees.OutcomesAreHonest | internal/application/service/server/service.go:29-73 | an error for an asynchronous request means that it was never written; for a synchronous one, that it was written exactly when its wait ended without a result; confirmed means written and acknowledged; only asynchronous requests are dropped |
| DeliveryGuarantees.ErrorAfterWrite | internal/infrastructure/websocket/server/client.go:87-114 | over a whole run the caller got an error for a request that was written if and only if some step ended the wait for its result without one |
| DeliveryGuarantees.LosesExactly | internal/application/service/server/service.go:38-50 | a step loses a request if and only if it is a track on a detached or collected table or a redispatch that failed at its pick or send |
| DeliveryGuarantees.EndIsFinal | internal/application/service/server/service.go:29-117 | a request that was answered, rejected, confirmed or dropped stays so |
| DeliveryGuarantees.LostExactlySo | internal/application/service/server/service.go:29-117 | over a whole run a request ends up dropped if and only if one of these steps occurred for it |
| DeliveryRetries.RejectedExactlySo | internal/domain/server/service/clientManager.go:80-105 | over a whole run a request is rejected if and only if a step of its own call found the balancer empty, picked a closed client as the call's third try, or reported a dispatch that failed |
| DeliveryRetries.DroppedExactlySo | internal/application/service/server/service.go:29-117 | the twin for a request dropped, step by step, with the same three ends of a redispatch and the two of tracking |
| DeliveryProgress.NoCallIsStuck | internal/application/service/server/service.go:29-73 | in every reachable state a call that has not returned can go on: with any client of the balancer, with a write or a wait that ends either way |
| DeliveryProgress.AnyClientCanFail | internal/infrastructure/websocket/server/client.go:116-166 | a client that was added can be marked closed at any time, and its reading can fail while it is read |
| DeliveryProgress.LeftExactlySo | internal/application/service/server/service.go:99-117 | the loop of a client is over if and only if it has removed its client, which it does once |
| DeliveryProgress.LoopGoesOn | internal/application/service/server/service.go:99-117 | a loop that redispatches can go on, or the call that it waits for can |
| DeliveryProgress.IdleMeansSettled | internal/application/service/server/service.go:29-117 | when the server has nothing left to do, every request has ended or is in the table of a client that is being read |
| DeliveryGuarantees.RedispatchIsBounded | internal/application/service/server/service.go:103-113 | no client redispatches a request twice, so its chain is at most as long as the number of clients ever added |
| DeliveryGuarantees.InFlightIsExact | internal/application/service/server/service.go:32-40 | the balancer's ids are the registered clients' ids, and each count is the number of calls that got the client and have not called Done |
| DeliveryGuarantees.QuietCountsAreZero | internal/application/service/server/service.go:38-40 | with no call between pick and report every count is 0 again |
| DeliveryGuarantees.NoLiveClientIsRemoved | internal/domain/server/service/clientManager.go:54-69 | a client leaves the registry only when closed or when its own loop ends |
| DeliveryExamples.ARequestCanBeLost | internal/application/service/server/service.go:48-50 | a reachable state where a request was sent, never acknowledged, and is nowhere: the connection failed between send and track |
| DeliveryExamples.AnAckedRequestCanGoToTheDeadClient | internal/application/service/server/service.go:86-113 | a reachable state where an acknowledged request is being sent again, to the client whose connection failed |
| DeliveryExamples.ARejectedRequestCanBeWritten | internal/infrastructure/websocket/server/client.go:102-113 | a reachable state where the caller of a synchronous request has its error and the request was written |
| DeliveryAcks.AckEndsIffTracked | internal/domain/server/service/clientManager.go:124-133 | a request is still under way after an ACK if and only if the acknowledging client's table did not hold it |
| DeliveryAcks.ConfirmedExactlySo | internal/domain/server/service/clientManager.go:124-133 | over a run a request is confirmed if and only if one of its ACKs found it in the client's table |
| DeliveryAcks.UnderwayAfterAck | internal/application/service/server/service.go:38-50 | over a run a written and acknowledged asynchronous request is still under way if and only if no ACK found it and no step lost it |
| DeliveryAcks.RedispatchedThoughAcked | internal/application/service/server/service.go:103-113 | a request being redispatched was acknowledged if and only if an ACK for it missed the table before; none had found it |
| DeliveryAcks.RepeatedExactlySo | internal/application/service/server/service.go:86-113 | a run dispatches an acknowledged request again if and only if an ACK missed it, none found it up to then, and then it was redispatched |
| DeliveryAcks.CollectedThoughAcked | internal/domain/server/service/clientManager.go:136-150 | draining queues exactly what the table holds, and a request there was acknowledged if and only if an ACK missed it |
| DeliveryHistory.StepKeepsSentness | internal/application/service/server/service.go:38-50 | each step keeps what is known of sends and ACKs at every place a request can be |
| DeliveryHistory.StepKeepsHistory | internal/application/service/server/service.go:99-117 | each step keeps that a client that redispatched a request is no longer live and has no more of it |
| DeliveryHistory.StepKeepsAccounts | internal/infrastructure/balanceStrategy/p2cBalance/p2c.go:76-130 | each step keeps the balancer's count equal to the calls holding the client |
| ClientManager.Manager.AddClient | internal/domain/server/service/clientManager.go:46-52 | the client is registered, gets a new empty table and a balancer node with nothing in flight |
| ClientManager.Manager.RemoveClient | internal/domain/server/service/clientManager.go:54-69 | unknown ids fail; an unclean close marks the client closed and removes nothing; otherwise it leaves registry and balancer |
| ClientManager.Manager.TryClient | internal/domain/server/service/clientManager.go:82-101 | one pass of the retry loop: an unregistered or closed node is evicted, any other gets a request more |
| ClientManager.Manager.GetClientByBalance | internal/domain/server/service/clientManager.go:80-105 | the client returned is registered and not closed; the failed tries evicted one dead node each, at most three; no live node goes and no other count changes |
| ClientManager.Manager.Done | internal/domain/server/service/clientManager.go:107-109 | the count of the node goes down by one; an unknown id changes nothing |
| ClientManager.Manager.TrackRequest | internal/domain/server/service/clientManager.go:112-121 | the attached table gets the request; without one nothing is recorded |
| ClientManager.Manager.AcknowledgeRequest | internal/domain/server/service/clientManager.go:124-133 | exactly the acknowledged id leaves the client's table |
| ClientManager.Manager.DrainPending | internal/domain/server/service/clientManager.go:136-150 | the table is detached and each of its requests is returned exactly once, in some order |
| ManagerSteps.AddClientStep | internal/domain/server/service/clientManager.go:46-52 | AddClient takes the manager from what the machine's state says to what it says after its step |
| ManagerSteps.PickStep | internal/domain/server/service/clientManager.go:80-105 | one try of GetClientByBalance is the machine's pick, and yields the client exactly when the machine goes on to send to it |
| ManagerSteps.GetClientSteps | internal/domain/server/service/clientManager.go:80-105 | GetClientByBalance as a whole is the machine's picks of one call: closed clients but for the last, three at most, and the client returned is where the call goes on to send |
| ManagerSteps.DoneStep | internal/domain/server/service/clientManager.go:107-109 | Done is the machine's report |
| ManagerSteps.TrackStep | internal/domain/server/service/clientManager.go:112-121 | TrackRequest is the machine's look-up followed, if it found a table, by its store |
| ManagerSteps.AcknowledgeStep | internal/domain/server/service/clientManager.go:124-133 | AcknowledgeRequest is the machine's ACK |
| ManagerSteps.DrainSteps | internal/domain/server/service/clientManager.go:136-150 | DrainPending is the machine's detaching and collecting, in some order it allows |
| ManagerSteps.LeaveStep | internal/domain/server/service/clientManager.go:54-69 | RemoveClient is the machine's leave |
| BalancerSteps.StepInFlight | internal/infrastructure/balanceStrategy/p2cBalance/p2c.go:26-130 | in every step of the machine the node list that the balancer's functions give agrees with the machine's counts |
| BalancerSteps.NodesCountHolders | internal/infrastructure/balanceStrategy/p2cBalance/p2c.go:26-130 | after any run the balancer has exactly one node for each registered client and no other, whose `inflight` is the number of calls between its pick and their report |
| Replacing.ReplaceAll | internal/agent/prompt/sections.go:29-34 | one pass replaces the leftmost non-overlapping matches and copies the rest |
| Replacing.FirstMatchReplaced | internal/agent/prompt/sections.go:29-34 | what a pass writes is the text before the first match, its replacement, and the pass over what follows the match |
| TagPatterns.MatcherDecidesLanguage | internal/agent/prompt/sections.go:23-26 | the matcher's length is the only one for which the text's beginning is a tag of the pattern, stated as a grammar |
| TagRewriting.NeutralizeReservedTags | internal/agent/prompt/sections.go:29-34 | the loop over the four patterns computes their composition |
| TagRewriting.ReplacementNeverMatches | internal/agent/prompt/sections.go:23-26 | no reserved pattern matches at a replacement, whatever follows it |
| TagRewriting.ReplacementSpells | internal/agent/prompt/sections.go:19-34 | the replacement of an opening tag is the pattern's name, that of a closing tag the name as the text spells it |
| TagRewriting.NoNewMatch | internal/agent/prompt/sections.go:29-34 | rewriting what follows an angle bracket makes no match at it, including tags that straddle a replacement |
| TagRewriting.PassKeepsClean | internal/agent/prompt/sections.go:29-34 | a pass leaves no match of its own pattern and brings back none of another |
| TagRewriting.NeutralizedIsClean | internal/agent/prompt/sections.go:19-34 | after the four passes no reserved tag matches anywhere |
| TagRewriting.UnchangedIffClean | internal/agent/prompt/sections.go:29-34 | the text is unchanged exactly when no reserved tag matches anywhere in it |
| TagRewriting.NeutralizeIsIdempotent | internal/agent/prompt/sections.go:29-34 | a second application changes nothing |
| PromptSections.SanitizeLanguage | internal/agent/prompt/sections.go:9-17 | the result has at most 32 characters, all allowed |
| PromptSections.SanitizeKeepsIff | internal/agent/prompt/sections.go:9-17 | a language is kept as it is exactly when it is short and all allowed |
| Characters.AllowedCharacters | internal/agent/prompt/sections.go:9 | the characters allowed are those listed: letters and digits without accents and five signs |
| Characters.WordCharacters | internal/agent/prompt/sections.go:23-26 | the characters on one side of a word boundary are those listed |
| Characters.SpaceCharacters | internal/agent/prompt/sections.go:23-26 | the spaces of the patterns are the five listed |
| Characters.FoldsExactly | internal/agent/prompt/sections.go:23-26 | each letter of a name is matched by itself, its capital, and for s and k by the long s and the Kelvin sign, and by nothing else |
| Characters.BlankCharacters | internal/agent/prompt/section.go:15-25 | the white space that trimming cuts is Unicode's, listed |
| PromptContents.AllowedStay | internal/agent/prompt/sections.go:11-17 | every allowed character of a language name stays, in its order, and no other |
| PromptContents.SanitizeTakesTheFirst | internal/agent/prompt/sections.go:11-17 | of these the first 32 are kept |
| PromptContents.TrimmedCuts | internal/agent/prompt/section.go:15-25 | trimming cuts white space off both ends, all of it and nothing else |
| PromptContents.BlankIsSkipped | internal/agent/prompt/section.go:15-25 | a section of white space leaves nothing in the prompt, any other its content and an empty line |
| PromptContents.PayloadShowsTheBlocks | internal/agent/prompt/sections.go:89-107 | the payload is every block, numbered from 0 in its place, under its language if it has one, with an empty line between each two |
| PromptContents.PromptSaysItsTexts | internal/agent/prompt/builder.go:13-34 | the whole prompt spelled out for every article, independently of the sections: the fixed texts, the focus, the wrapped article and the numbered blocks in that order, with empty lines between them and nothing around |
| PromptContents.ShippedFits | internal/agent/prompt/sections.go:36-74 | the shipped wording begins and ends visibly, as that statement asks |
| PromptSections.BuildCodeBlocksPayload | internal/agent/prompt/sections.go:89-107 | the loop writes the numbered blocks in order and trims the whole |
| PromptSections.Build | internal/agent/prompt/builder.go:13-34 | the sections by name: the three stable ones, then the focus exactly when its index is that of a block, the article and the blocks when there are any; the focus names the block by its number |
| PromptSections.Render | internal/agent/prompt/section.go:15-25 | the non-blank sections, each followed by an empty line, trimmed |
| PromptWording.ShippedIsWellWorded | internal/agent/prompt/sections.go:36-74 | the fixed wording has the shape that the counting needs |
| PromptStructure.CountPrompt | internal/agent/prompt/builder.go:13-34 | for any tag finder and any article the prompt has the wrapper's own closing tags and no others |
| PromptGuarantees.ShippedIsHardened | internal/agent/prompt/sections.go:19-107 | the builder with the shipped wording and the four passes is one the guarantees apply to |
| PromptGuarantees.LiteralClosingTags | internal/agent/prompt/section.go:15-25 | exactly one literal `</untrusted_article>` when there is article text and exactly one `</untrusted_code_block>` per block; none without an article |
| PromptGuarantees.ClosingTagsInAnySpelling | internal/agent/prompt/sections.go:76-107 | the same count for every spelling that the closing patterns match |
| OpeningTags.OpenRunsOn | internal/agent/prompt/sections.go:23-26 | an opening that a text leaves without its bracket is completed by the next bracket, whatever tail lies between |
| OpeningTags.LeftOpenIff | internal/agent/prompt/sections.go:23-26 | a text without a whole opening tag leaves one open exactly when it ends in the beginning of one |
| PromptOpenings.OpeningTagsInAnySpelling | internal/agent/prompt/sections.go:36-107 | the opening tags of a name in the rendered prompt, in any spelling, are the builder's own and those that the neutralized texts leave open, one by one |
| PromptOpenings.NeutralizeKeepsEnd | internal/agent/prompt/sections.go:29-34 | neutralizing neither makes nor removes the beginning of an opening tag at the end of a text |
| PromptOpenings.OwnOpeningsOnlyIff | internal/agent/prompt/sections.go:36-107 | so they are the builder's own alone if and only if neither the article's text nor the code of a block, as they came, ends in the beginning of an opening tag |
| PromptOpenings.ATextCanEndOpen | internal/agent/prompt/sections.go:19-34 | a text that does: neutralizing leaves a tag without its bracket as it is |
| RateLimit.IPRateLimiter.Allow | internal/infrastructure/ratelimit/ratelimit.go:33-62 | a request's answer and the bucket it leaves |
| RateLimit.IPRateLimiter.Sweep | internal/infrastructure/ratelimit/ratelimit.go:68-78 | exactly the buckets not seen for a day go |
| RateLimit.AddressesAreIndependent | internal/infrastructure/ratelimit/ratelimit.go:33-62 | an address's bucket is what its own requests alone would have made it |
| RateLimit.SweptSimulatesUnswept | internal/infrastructure/ratelimit/ratelimit.go:64-80 | on every ordered trace a swept bucket has both windows over |
| RateLimit.JanitorIsInvisible | internal/infrastructure/ratelimit/ratelimit.go:64-80 | on every ordered trace every answer is that of a limiter that never deletes |
| RateLimit.KeptIffAskedLately | internal/infrastructure/ratelimit/ratelimit.go:64-80 | after an ordered trace that ends in a pass of the janitor an address has a bucket if and only if it asked within the last day |
| RateLimit.SlidingWindowBound | internal/infrastructure/ratelimit/ratelimit.go:46-61 | at most twice the limit is allowed in any closed interval of a minute or a day |
| RateBounds.AllowedSplits | internal/infrastructure/ratelimit/ratelimit.go:46-61 | in a window's length with no window beginning in it, no more is allowed than the window counts; otherwise what is allowed is the count before it plus the count since |
| RateBounds.LimitExceededIff | internal/infrastructure/ratelimit/ratelimit.go:46-61 | the plain limit is exceeded if and only if a window began in the interval and the two counts add up to more |
| RateMaximum.MostIsExact | internal/infrastructure/ratelimit/ratelimit.go:46-61 | for all positive limits the exact maximum that any minute and any day can be allowed, as a function of the two limits: no trace exceeds it and one reaches it |
| RateMaximum.ExceededIff | internal/infrastructure/ratelimit/ratelimit.go:46-61 | the plain limit can be exceeded exactly under these limits: for the day, 2 <= perDay < 1441*perMinute - 1; for the minute, 2*perDay > perMinute + 2 where perDay <= perMinute, and otherwise unless perMinute = 1 and perDay >= 1440 |
| RateMaximum.DoubleIff | internal/infrastructure/ratelimit/ratelimit.go:46-61 | twice the minute limit can pass within a minute if and only if 2*perMinute <= perDay < 1440*perMinute, and twice the day limit within a day if and only if perMinute < perDay <= 720*perMinute |
| RateMaximum.SparseBound | internal/infrastructure/ratelimit/ratelimit.go:46-61 | where a minute admits a day's requests but not two days', at most two days' requests but two are allowed in a minute |
| RateMaximum.AmpleBound | internal/infrastructure/ratelimit/ratelimit.go:46-61 | where 720 minutes cannot use up the day, at most 1441 full minutes but for one request are allowed in a day |
| RateTraces.MinuteDoubleIsReached | internal/infrastructure/ratelimit/ratelimit.go:46-61 | the trace that reaches twice the minute limit: a window that begins with a refused request at the end of a used-up day |
| RateTraces.DayDoubleIsReached | internal/infrastructure/ratelimit/ratelimit.go:46-61 | the trace that reaches twice the day limit: a day that begins with a refused request and fills in its last 720 minutes |
| RateTraces.MinuteOneLessIsReached | internal/infrastructure/ratelimit/ratelimit.go:46-61 | one less than twice the minute limit is reached whenever the day admits more than a minute |
| RateTraces.AmpleDayIsReached | internal/infrastructure/ratelimit/ratelimit.go:46-61 | 1441 full minutes but for one request, or two days but for one, are reached within a day, with one minute window serving two days |
| RateBounds.DoubleIsOutOfReach | internal/infrastructure/ratelimit/ratelimit.go:46-61 | where no window can begin with a refused request, the bound is one less than twice the limit |
| RatePacing.DoubleIsCrampedOut | internal/infrastructure/ratelimit/ratelimit.go:46-61 | where the other limit leaves no room, the bound is one less than twice the limit too |
| RateLimit.CountIsEarned | internal/infrastructure/ratelimit/ratelimit.go:46-61 | a counter never exceeds the requests allowed since its window began |
| RateLimit.RefusedOnlyAtLimit | internal/infrastructure/ratelimit/ratelimit.go:55-57 | a refusal means that the limit was used up within the last minute or the last day |
| ContainerPool.LangPool.constructor | internal/infrastructure/containerBasic/pool.go:54-66 | a new pool is open and holds the slots numbered from 0, each with the container and the directory of its number |
| ContainerPool.LangPool.Acquire | internal/infrastructure/containerBasic/pool.go:72-94 | the oldest idle slot, unless the pool is closed or empty or the wait ends; a run of the machine's steps |
| ContainerPool.LangPool.Release | internal/infrastructure/containerBasic/pool.go:97-118 | a healthy slot goes to the end of the queue, a damaged one to a repair, any slot away once closed |
| ContainerPool.LangPool.Replenish | internal/infrastructure/containerBasic/pool.go:129-168 | the slot comes back if one of three restarts succeeds while the pool is open, and is lost if none does |
| ContainerPool.LangPool.Close | internal/infrastructure/containerBasic/pool.go:121-126 | flag and channel are closed; a second Close, which panics in Go, reports failure and changes nothing |
| ContainerPool.LangPool.RunCode | internal/infrastructure/containerBasic/runCode.go:182-242 | a slot acquired is released exactly once, as damaged exactly after a timeout |
| ContainerPool.StepConserves | internal/infrastructure/containerBasic/pool.go:72-168 | no step of acquire, release, repair or close makes, copies or loses a slot |
| ContainerPool.Conservation | internal/infrastructure/containerBasic/pool.go:49-168 | over every interleaving each initial slot is in exactly one place, and no other slot anywhere |
| ContainerPool.CarriedIsNotIdle | internal/infrastructure/containerBasic/pool.go:72-168 | a slot that a call or repair has is not in the channel, and was not given up |
| ContainerPool.Exclusivity | internal/infrastructure/containerBasic/pool.go:72-168 | no two calls or repairs have the same slot |
| ContainerPool.SendNeverBlocks | internal/infrastructure/containerBasic/pool.go:105-115 | whoever is about to send a slot back finds room |
| ContainerPool.QuietPoolIsFull | internal/infrastructure/containerBasic/pool.go:129-168 | when no call or repair is under way every slot is idle but those given up |
| ContainerPool.GivenUpExactlySo | internal/infrastructure/containerBasic/pool.go:129-168 | over a run a slot is given up if and only if one repair of it failed to restart its container three times |
| ContainerPool.DiscardedExactlySo | internal/infrastructure/containerBasic/pool.go:97-118 | over a run a slot is discarded if and only if its call found the flag set on release or after a restart, or the channel closed when it sent |
| ContainerPool.ClosedExactlySo | internal/infrastructure/containerBasic/pool.go:121-126 | flag and channel are closed by Close alone, and stay so |
| ContainerPool.ServedOrRefused | internal/infrastructure/containerBasic/pool.go:72-94 | a waiting call gets the oldest idle slot, or ends without one exactly at a closed flag, at the end of its wait, or at a closed and empty channel |
| ContainerPool.NoCallIsStuck | internal/infrastructure/containerBasic/pool.go:72-168 | in every reachable state a call or repair that has not ended can go on |
| ContainerPool.NewSlotsAreDistinct | internal/infrastructure/containerBasic/pool.go:60-65 | the slots of a pool are different containers with different directories |
| P2CBalance.P2CBalancer.Add | internal/infrastructure/balanceStrategy/p2cBalance/p2c.go:26-37 | a node goes to the end, healthy and idle and never picked, unless its id is there |
| P2CBalance.P2CBalancer.Remove | internal/infrastructure/balanceStrategy/p2cBalance/p2c.go:39-49 | the node of that id goes |
| P2CBalance.P2CBalancer.Get | internal/infrastructure/balanceStrategy/p2cBalance/p2c.go:51-73 | of the two nodes drawn the lighter is returned, unless the other was not picked for more than a second; it alone changes, by a request more and the time of the pick; an empty balancer gives an error |
| P2CBalance.P2CBalancer.Done | internal/infrastructure/balanceStrategy/p2cBalance/p2c.go:76-106 | the node's averages, stamp and count move; an unknown id changes nothing |
| P2CBalance.DrawsAreBijective | internal/infrastructure/balanceStrategy/p2cBalance/p2c.go:63-67 | the pairs of draws stand one to one for the ordered pairs of different nodes |
| P2CBalance.BoundedBypass | internal/infrastructure/balanceStrategy/p2cBalance/p2c.go:51-130 | of two nodes a stale one is taken by this call or by the next within the timeout |
| P2CBalance.NoStarvation | internal/infrastructure/balanceStrategy/p2cBalance/p2c.go:108-130 | with calls at least once per timeout each of two nodes was picked within the last two timeouts, from the second call on |
| P2CBalance.LighterStarvesIffSlow | internal/infrastructure/balanceStrategy/p2cBalance/p2c.go:108-124 | of two nodes the one lighter at every call is never taken if and only if the heavier is stale at the first call and every later call comes more than the timeout after the one before |
| P2CBalance.TheLighterCanStarve | internal/infrastructure/balanceStrategy/p2cBalance/p2c.go:108-130 | for every number of calls two seconds apart: of two new nodes the one of twice the weight gets none |
| P2CBalance.LoadGrows | internal/infrastructure/balanceStrategy/p2cBalance/node.go:50-65 | a node's load never falls when it is given one more request |
| P2CBalance.LoadFallsWithWeight | internal/infrastructure/balanceStrategy/p2cBalance/node.go:50-65 | a node's load never rises when it is given a larger weight |
| P2CBalance.UnhealthyLoadsMore | internal/infrastructure/balanceStrategy/p2cBalance/node.go:50-65 | an unhealthy node has a larger load than a healthy one exactly while that load is below the largest 32-bit number |
| P2CBalance.AveragesStayInRange | internal/infrastructure/balanceStrategy/p2cBalance/p2c.go:85-103 | success stays in [0,1000] and lag between 0 and the largest sample |
| P2CBalance.AveragesAreWeightedSums | internal/infrastructure/balanceStrategy/p2cBalance/p2c.go:85-103 | over any answers lag and success are the first values and the samples weighted by how much of the time since has decayed, in closed form |
| P2CBalance.LagApproachesTheDuration | internal/infrastructure/balanceStrategy/p2cBalance/p2c.go:85-103 | after answers that all took as long, what is left of the difference is the decay over the time they spanned |
| P2CBalance.OnlyTimeCounts | internal/infrastructure/balanceStrategy/p2cBalance/p2c.go:85-103 | after answers that all ended alike success depends on the time they spanned and not on their number |
| P2CBalance.UnhealthyAfterHalfLife | internal/infrastructure/balanceStrategy/p2cBalance/node.go:50-57 | a healthy node that only fails is unhealthy exactly once half of its average has decayed |
| P2CBalance.AddedInFlight | internal/infrastructure/balanceStrategy/p2cBalance/p2c.go:26-37 | an added node has nothing in flight, and the ids stay different |
| P2CBalance.RemovedInFlight | internal/infrastructure/balanceStrategy/p2cBalance/p2c.go:39-49 | removing changes no other count |
| P2CBalance.PickedInFlight | internal/infrastructure/balanceStrategy/p2cBalance/p2c.go:126-130 | a pick adds one at the node picked and nowhere else |
| P2CBalance.AnsweredInFlight | internal/infrastructure/balanceStrategy/p2cBalance/p2c.go:76-106 | an answer takes one off at its node and nowhere else |
| WorkerConnection.WebsocketClient.Connect | internal/infrastructure/websocket/client/client.go:217-263 | a failed dial changes nothing; after Close the new socket is closed; otherwise the old stop channel is closed and the new pair installed |
| WorkerConnection.WebsocketClient.Close | internal/infrastructure/websocket/client/client.go:197-214 | connection and stop channel go, once |
| WorkerConnection.WebsocketClient.Reconnect | internal/infrastructure/websocket/client/client.go:289-331 | the delays begin at 3 seconds and double up to 30; it ends with a connection, or with an error exactly when the client was closed |
| WorkerConnection.NoChannelIsClosedTwice | internal/infrastructure/websocket/client/client.go:197-303 | under every interleaving of the critical sections no stop channel is closed twice |
| WorkerConnection.OneHeartbeat | internal/infrastructure/websocket/client/client.go:233-286 | at most one heartbeat has an open stop channel, and it is the current connection's |
| WorkerConnection.ConnectionHasStopChannel | internal/infrastructure/websocket/client/client.go:227-239 | there is a connection exactly when there is a stop channel, which is open |
| WorkerConnection.ClosedForGood | internal/infrastructure/websocket/client/client.go:197-214 | after Close both stay nil and every stop channel is closed |
| WorkerConnection.ClosedExactlySo | internal/infrastructure/websocket/client/client.go:197-214 | the client is closed if and only if Close has run, which nothing prevents |
| WorkerConnection.ReturnsExactlySo | internal/infrastructure/websocket/client/client.go:289-331 | the first connect returns after one dial; a reconnect returns exactly when a socket is installed in an open client or it wakes up to find the client closed |
| WorkerConnection.NoReconnectAfterClose | internal/infrastructure/websocket/client/client.go:289-331 | once the client is closed no reconnect dials again |
| WorkerConnection.NoCallIsStuck | internal/infrastructure/websocket/client/client.go:217-331 | a call that has not returned can go on, however its dialling ends |
| WorkerConnection.NoSocketIsForgotten | internal/infrastructure/websocket/client/client.go:68-90 | with one reading goroutine the connection is the only socket open when no connect is under way |
| WorkerConnection.ForgottenExactlySo | internal/infrastructure/websocket/client/client.go:217-263 | over a run a socket is open with nobody to close it if and only if a connect that found the client open replaced it |
| WorkerConnection.TwoReadersForgetASocket | internal/infrastructure/websocket/client/client.go:289-331 | a reachable state with such a socket: two goroutines read one connection and reconnect at once |
| SyncRouting.ResultsAreOwn | internal/infrastructure/websocket/server/client.go:87-114 | a successful SendSync returns a payload that came under its own id, in every interleaving |
| SyncRouting.FailsExactlySo | internal/infrastructure/websocket/server/client.go:87-114 | over a run SendSync fails if and only if its write failed or its wait expired |
| SyncRouting.NoCallIsStuck | internal/infrastructure/websocket/server/client.go:87-114 | whatever the read loop does, a call that has not returned can go on |
| SyncRouting.LateResultsAreDropped | internal/infrastructure/websocket/server/client.go:53-58 | a result for a call that has returned reaches nobody |
| SyncRouting.ReaderNeverBlocks | internal/infrastructure/websocket/server/client.go:53-58 | if no request is answered twice the read loop never waits on a channel |
| SyncRouting.ArrivalBlocksIff | internal/infrastructure/websocket/server/client.go:53-58 | a result stops the read loop if and only if its id is waited for and the channel holds an unread result |
| SyncRouting.OnlyTakingUnblocks | internal/infrastructure/websocket/server/client.go:53-58 | a stopped read loop goes on exactly when the call takes what its channel holds, which it can while it waits |
| SyncRouting.BlockedForGood | internal/infrastructure/websocket/server/client.go:53-58 | once that call has given up, the read loop is stopped in every continuation of the run |
| SyncRouting.TheReaderCanBeBlockedForGood | internal/infrastructure/websocket/server/client.go:53-58 | a reachable state in which it is |
| SyncRouting.RoutedIsOwn | internal/infrastructure/websocket/server/client.go:53-58 | each channel ends up with the result of its own id and nothing else |
| SyncDelivery.ShownIsEnabled | internal/infrastructure/websocket/server/client.go:87-114 | whatever `SendSync` does next on the connection is a step the server's call is ready for |
| SyncDelivery.RunsSideBySide | internal/application/service/server/service.go:53-73 | in a joint run the server's part is a run of the delivery machine and the connection's part one of the routing machine |
| SyncDelivery.AwaitsTogether | internal/infrastructure/websocket/server/client.go:107-113 | in every joint run the server's call waits exactly while the connection's does |
| SyncDelivery.WaitEndsTogether | internal/infrastructure/websocket/server/client.go:107-113 | a wait ends for both at once, answered exactly when the channel held a result that can be decoded, which came under the call's id |
| SyncDelivery.AnsweredExactlySo | internal/application/service/server/service.go:53-73 | over every joint run the caller of ExecuteSync has its answer if and only if the connection returned a decodable result, which the worker sent under the request's own id; otherwise an error |
| SyncDelivery.EveryWireRunIsServed | internal/application/service/server/service.go:53-73 | each run of the connection by itself is the connection's part of a joint run |
| SyncRouting.Connection.Read | internal/infrastructure/websocket/server/client.go:33-63 | ACKs go to the handler in order, results to their channels, and the first other message is returned; a result whose channel is full stops it there, and no result before found its channel full |
| SessionStore.FileStore.CreateWithArticle | internal/agent/session/store.go:80-112 | an empty log, the meta file and the cached meta |
| SessionStore.FileStore.Look | internal/agent/session/store.go:124-144 | the meta cached, or else the one on disk, found exactly when it was active within the ttl; and whether the cache missed |
| SessionStore.FileStore.GetMeta | internal/agent/session/store.go:124-146 | the same answer, and a meta read from disk is cached; nothing else changes |
| SessionStore.FileStore.GetMessages | internal/agent/session/store.go:148-176 | the scan loop returns the messages of the log's lines and whether it stopped at a line too long |
| SessionStore.FileStore.Append | internal/agent/session/store.go:178-202 | the framed messages go to the end of the log, made if missing; only a cached meta is touched |
| SessionStore.FileStore.TouchMeta | internal/agent/session/store.go:215-223 | cache and disk get the new time together, for a cached meta only |
| SessionStore.FileStore.Delete | internal/agent/session/store.go:204-213 | log, meta file and cached meta go |
| SessionStore.FileStore.CleanExpired | internal/agent/session/store.go:225-235 | exactly the cached sessions not active within the ttl are deleted, and files of sessions not cached stay |
| SessionStore.FramingRoundTrip | internal/agent/session/store.go:159-197 | reading back what was appended gives the messages before the first line that does not fit, with an error exactly when there is one |
| SessionStore.EndingsAreDropped | internal/agent/session/store.go:159-176 | a line is read without its newline, and without a carriage return before it |
| SessionHistory.LogIsHistory | internal/agent/session/store.go:80-235 | over every run of operations, restarts and late cache fills among them, a log holds what was appended since the last create, delete or cleaning |
| SessionHistory.MessagesAreHistory | internal/agent/session/store.go:148-202 | reading gives all messages appended since, without an error, exactly when every line fits the scanner |
| SessionHistory.FoundIffActive | internal/agent/session/store.go:124-146 | over a run without late fills a lookup answers if and only if the session was created or, while cached, appended to within the ttl, and not deleted or cleaned since; the answer bears that time |
| SessionHistory.LooksOnDiskIff | internal/agent/session/store.go:132-145 | over any run a lookup reads a session from disk, to cache it, if and only if the cache misses and it was active within the ttl |
| SessionHistory.DoomedIffOverdue | internal/agent/session/store.go:225-235 | over a run without late fills the cleaning goroutine's test finds a session expired if and only if it was not active within the ttl |
| SessionHistory.OnlyLateFillsSpoil | internal/agent/session/store.go:124-146 | a step makes a cache that agrees with the disk disagree if and only if it fills in a meta that the disk no longer holds |
| SessionHistory.CoherentThroughout | internal/agent/session/store.go:80-235 | so cache and disk agree throughout every run without such a fill |
| SessionHistory.FillAgreesIffUntouched | internal/agent/session/store.go:132-145 | over a run the cache agrees with the disk after a fill if and only if the session was not deleted, cleaned, created or touched since the lookup read it |
| SessionHistory.FillsOnce | internal/agent/session/store.go:132-145 | a lookup fills the cache once in the life of a process |
| SessionHistory.ADeletedSessionCanBeCached | internal/agent/session/store.go:132-145 | a reachable state with a cached session that has no file |
| SessionHistory.ARecreatedSessionCanBeCachedOld | internal/agent/session/store.go:132-145 | a reachable state with a session created anew and cached as it was before |
| SessionHistory.ARenewedSessionCanBeCachedOld | internal/agent/session/store.go:132-145 | a reachable state with a session renewed on disk and cached with its old time |
| SessionHistory.CachedUntilDeleted | internal/agent/session/store.go:80-235 | a session that a process has created or cached leaves its cache only together with its file |
| SessionHistory.AppendRenewsIffCached | internal/agent/session/store.go:178-223 | an append renews a session on disk exactly when its meta is cached |
| SessionHistory.AppendRenewsOrOrphans | internal/agent/session/store.go:178-223 | an append after a lookup in the same process renews the session if it is still cached, and otherwise leaves a log without a meta file |
| SessionHistory.AnAppendCanOrphan | internal/agent/session/store.go:178-235 | a reachable state with such a log: created, looked up, cleaned, appended to |
| SessionHistory.AliveIsCleanedIffRenewed | internal/agent/session/store.go:225-235 | over a run the cleaning goroutine deletes what it found expired, and that is a session alive if and only if an operation since the test wrote a meta not expired then, and none touched it after |
| SessionHistory.SweepsOncePerTest | internal/agent/session/store.go:225-235 | the cleaning goroutine tests anew before it deletes again |
| SessionHistory.ARenewedSessionCanBeCleaned | internal/agent/session/store.go:225-235 | a reachable state with a renewed session, and the step that deletes it |

## Left out

- Aliasing of balancer nodes: the nodes of both balancers are values in a sequence, so that a node returned by `Next` or `Get` is a pointer into the list is not modelled.
- P2CBalance.P2CBalancer.Done: does not model two answers for one node overlapping between its lock and its atomic updates, where one sample can be lost; the count of requests in flight is exact either way.
- P2CBalance.LoadGrows: does not model the conversion of a load beyond int64, which Go leaves to the platform.
- ClientManager.Manager.GetClientByBalance: does not model which node the balancer returns, which is a parameter; P2CBalance states that and shows what each of its operations does to the ids and counts.
- Overlap inside one call on the client manager: registering, evicting, picking and acknowledging are single steps; only tracking and draining are split.
- A failing `HeartBeat` in `Run`: the websocket client's never returns an error.
- Text in the prompt is a sequence of characters: invalid UTF-8, which Go's regular expressions see byte by byte, is not modelled.
- RateLimit.IPRateLimiter.Allow: does not model a request that has looked its bucket up while the janitor deletes it, nor the separate clock readings of one call.
- ContainerPool: the pools of the other languages, which share only the closed flag; the files, the exec and its output.
- WorkerConnection: deadlines, ping and pong frames, and the messages read; a socket is a number.
- SessionStore: I/O failures, the file names, listing of sessions, and overlap of operations other than a lookup's reading and filling.
- SessionStore.FileStore.CleanExpired: states what it does when nothing else runs meanwhile; SessionHistory takes its tests and deletions apart.
- The mutexes of the session store: `Delete` drops the session's mutex, so that an operation waiting for it and one that comes later can be at work at once, which is not modelled; creating, appending and deleting are one step each.
- SessionHistory.FillAgreesIffUntouched: takes the times written between the lookup and the fill to be later than the one read, as a clock that goes forward gives them; `OnlyLateFillsSpoil` needs no such thing.
- RateMaximum.MostIsExact: speaks of positive limits; a limit of zero or less refuses every request.
- Rounding of floating point and the random source.
- Docker, sockets, JSON and protobuf, HTTP callbacks, the chat, confirm and cancel handlers, OAuth and JWT, mail, metrics, tracing, etcd and configuration: plumbing, or decided by libraries that are not part of this model.
- `internal/agent/checkpoint/store.go`, `normalizeLang` and the language tables: members that one branch or one table decides.
