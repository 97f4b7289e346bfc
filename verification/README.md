# fjåge: verified models

This project models the hard cores of fjåge, an agent framework, and proves what they promise. It
covers the C gateway's JSON tokenizer, base64 codec and message ring, and on the Java side the
master/slave relay, the agent scheduler with its message queue, the discrete event simulator with
timed behaviors, the FSM behavior and the byte queue of the connectors.

Each core has two layers. A *specification layer* gives the state as a value and each operation or
atomic step as a function; the theorems over all inputs, runs and interleavings are lemmas about
these. An *imperative layer* gives the objects and loops of the program as classes and methods that
update fields and arrays in place, each proved to do what the specification function says. Concurrency is
a step system at the granularity of the program's locks: another thread's step may come between any
two steps.

`dafny verify dfyconfig.toml` checks everything.

| file | what it is about |
|---|---|
| `JsonGrammar.dfy` | the characters and strings of JSON as RFC 8259 lists them, apart from the tokenizer |
| `JsmnScan.dfy`, `JsmnParser.dfy`, `JsmnTheorems.dfy` | the tokenizer: lexemes, the in-place parser, what its tokens are on any text |
| `JsonText.dfy`, `JsonGet.dfy`, `JsonFields.dfy` | printing a JSON tree and tokenizing it; looking up keys by counts alone; reading many fields of one text |
| `JsmnForest.dfy` | what the counts mean on texts that are not JSON, and how far the lookup then reads |
| `Containers.dfy`, `Relay.dfy`, `RelayNodes.dfy` | containers, the relay protocol, its objects |
| `RelayStreams.dfy`, `RelayOrder.dfy` | the relay while agents, subscriptions and watch lists change; the order of messages |
| `Idleness.dfy` | when a container reports that all its agents are idle |
| `MessageQueues.dfy`, `Agents.dfy`, `AgentInterrupts.dfy`, `AgentWakeups.dfy`, `AgentSchedule.dfy`, `AgentMonitor.dfy` | message queue, agent thread, interrupted receives, lost wakeups, life of behaviors, the monitor |
| `Simulator.dfy`, `SimulatorLoop.dfy`, `Ticker.dfy` | event order, the run loop, periodic behaviors |
| `FsmBehaviors.dfy` | state machine behaviors |
| `Common.dfy` | types that several models share |
| `ByteQueues.dfy`, `BlockingByteQueues.dfy` | the chunked byte queue |
| `MessageRing.dfy` | the ring of received messages in the C gateway |
| `Base64.dfy`, `Base64Codec.dfy` | base64 (section 4 of RFC 4648) as streams of bits; encoder and decoder |

## Where the code does less than its documentation says

Each of these has a lemma with a concrete input or run (named first), beside those that say exactly
when the code does what was meant.

- The counting pass of `jsmn_parse` accepts texts whose brackets do not match, so the second pass of
  `json_parse`, whose result is not looked at, can leave its array incomplete (`CountMissesBrackets`,
  `PassesAgree`).
- On a text such as `{"a"}`, which both passes accept, `json_get` returns an index past the end of the
  token array, which `json_gets` then reads (`KeyWithoutValue`, `LookupStaysInRange`).
- `Container.kill` takes the agent out of the map before `unsubscribe(aid)` looks it up there, so its
  subscriptions remain and it is still called (`KilledAgentStillCalled`, `KillEndsSubscriptions`).
- An agent killed by others adds itself to the idle set again when its thread ends. From then on, until
  an agent of that name is added again, the container is never idle when all its agents are, and it can be
  "idle" while one is running (`IdleWhileBusy`, `KillHaunts`, `NotIdleUntilAdded`, `IdleIsRight`).
- A blocking receive that lets other behaviors run can go to sleep over the very message it waits for
  (`YieldingReceiveCanStrand`, `YieldingReceiveRace`).
- An interrupted receive returns without a commit, and the agent can then go to sleep in its main loop
  over a message that has been delivered (`InterruptedReceiveLeaves`, `LeftInMainLoop`).
- `block()` looks at the blocked behaviors only if its last call waited or a message has been delivered since,
  and never at the new ones: a behavior restarted, or added, by another thread just before it is slept over
  (`RestartSleptOver`, `NewBehaviorSleptOver`, `SleptOver`, `BlockWaitsExactly`).
- A limit of n keeps n - 1 messages in a message queue: the n-th to arrive costs the first
  (`LimitIsOneShort`, `LimitsDropOldest`).
- `BlockingByteQueue` is out of order, or loses a block, after certain writes from two states
  (`UnsafeStatesAreReached`, `StaleWriteLosesBlock`, `AheadWriteOvertakes`, `WriteIsFifoIff`,
  `WriteArrayIsFifoIff`). The two states alone are harmless: the order breaks only when, in
  the first, a write reaches or starts at the end of the block, or, in the second, a non-empty write is
  not larger than a block.
- The message ring counts holes as messages: it can destroy the only message waiting
  (`DestroysTheOnlyMessage`, `PutDestroysTheUnclaimed`).
- `FSMBehavior.reset()` between steps does not drop the current state without its exit, as documented,
  unless no state has been run (`ResetRuns`, `ResetBetweenSteps`). A change of state asked for while a
  reentry, or the first step, is pending is lost (`LostRequests`, `RequestIsHonoured`). A state from
  which the machine terminates is never exited (`TerminatedInside`, `LastVisitStaysOpen`).

## Model

| member | source | states |
|---|---|---|
| JsmnScan.BodyIsScanned | gateways/c/jsmn.c:84-146 | a string body in which every escape is well formed is scanned up to its closing quote, whatever follows |
| JsmnScan.ScannedIsBody | gateways/c/jsmn.c:84-146 | what the string scan accepts is a well-formed body |
| JsmnScan.StringScanIsExact | gateways/c/jsmn.c:84-146 | the string scan stops at a position if and only if that is the closing quote of a body well formed by section 7 of RFC 8259 |
| JsmnScan.BadEscapeIsFound | gateways/c/jsmn.c:108-140 | a body that leads up to an escape section 7 does not have is invalid |
| JsmnScan.InvalidIsBadEscape | gateways/c/jsmn.c:108-146 | a string that fails otherwise only lacks its end |
| JsmnScan.PrimitiveScanIsExact | gateways/c/jsmn.c:35-79 | the primitive scan stops at a position if and only if the text up to it is visible ASCII other than white space, separators and closing brackets, and one of these or the end follows |
| JsmnParser.ScanShape | gateways/c/jsmn.c:151-303 | where a lexeme is and how far the loop moves after it |
| JsmnParser.Parser.constructor | gateways/c/jsmn.c:309-313 | the initial parser state |
| JsmnParser.Parser.FillToken | gateways/c/jsmn.c:6-30 | allocates and fills the next token, leaves the others, fails exactly when there is no room |
| JsmnParser.Parser.ParsePrimitive | gateways/c/jsmn.c:35-79 | the in-place primitive scan: token, position and error code as specified, position restored on failure |
| JsmnParser.Parser.ParseString | gateways/c/jsmn.c:84-146 | the same for strings |
| JsmnParser.Parser.SkipHex | gateways/c/jsmn.c:124-135 | the four digits after a u, or as many as there are before the text ends |
| JsmnParser.Parser.SkipString | gateways/c/jsmn.c:92-145 | the loop over characters and escapes stops where the specification says |
| JsmnParser.Parser.FindOpen | gateways/c/jsmn.c:209-257 | the backward loop finds the innermost open token |
| JsmnParser.Parser.BumpSuper | gateways/c/jsmn.c:172-177 | one more child for the superior token, nothing else changed |
| JsmnParser.Parser.OpenContainer | gateways/c/jsmn.c:164-181 | the effect of an opening bracket on the token array |
| JsmnParser.Parser.CloseContainer | gateways/c/jsmn.c:182-230 | the effect of a closing bracket: the matching open token is ended and the superior token is found by the second backward scan, or the error |
| JsmnParser.Parser.AfterComma | gateways/c/jsmn.c:243-260 | a comma returns to the innermost open container |
| JsmnParser.Parser.ParseText | gateways/c/jsmn.c:231-237 | strings and primitives in the main loop, counting and filling |
| JsmnParser.Parser.Round | gateways/c/jsmn.c:158-292 | one round of the main loop is one step of the specification |
| JsmnParser.Parser.Parse | gateways/c/jsmn.c:151-303 | the whole in-place tokenizer, counting or filling, returns the code, position and tokens of the specification from any state it can be resumed in |
| JsmnTheorems.RunIsLaminar | gateways/c/jsmn.c:151-303 | on any text, at every moment, tokens are nested or disjoint and delimited by their own characters |
| JsmnTheorems.TokensAreNested | gateways/c/jsmn.c:151-303 | a non-negative result on any text means: all tokens closed, starts strictly increasing, any two nested or disjoint, each container between brackets of its own kind, each string a well-formed body between quotes, the superior index in range |
| JsmnTheorems.ScanIsAStack | gateways/c/jsmn.c:209-228 | the backward scan decides every text exactly as an explicit stack of brackets does, error codes included |
| JsmnTheorems.FilledIsCounted | gateways/c/jsmn.c:151-303 | a filling pass that succeeds returns what the counting pass returns |
| JsmnTheorems.PassesAgree | gateways/c/fjage.c:301-311 | if the counting pass returns n, a filling pass with room for n never runs out, and succeeds with n tokens if and only if the brackets match |
| JsmnTheorems.CountMissesBrackets | gateways/c/fjage.c:301-311 | a text on which the counting pass returns 1 and the filling pass an error |
| JsmnTheorems.ResumeAfterNoMemory | gateways/c/jsmn.c:151-303 | a pass that ran out of tokens and is resumed with more ends as if there had been enough from the start |
| JsonText.ScanLeaf | gateways/c/jsmn.c:35-146 | a string or primitive followed by a delimiter is read as one lexeme with its exact extent |
| JsonText.ReadValue | gateways/c/jsmn.c:158-292 | reading the printed text of any tree inside any state appends exactly its preorder tokens and counts one child |
| JsonText.ReadItems | gateways/c/jsmn.c:158-292 | the same for the items of an array, with the count of items |
| JsonText.ReadMembers | gateways/c/jsmn.c:158-292 | the same for the members of an object, each key with one child |
| JsonText.RoundTrip | gateways/c/jsmn.c:151-303 | tokenizing the printed text of any JSON tree, with any white space and escapes that sections 2 and 7 of RFC 8259 allow, succeeds and gives exactly the preorder array of kinds, extents and child counts, and the counting pass the same number |
| JsonText.ExampleText | gateways/c/jsmn.c:151-303 | a text and its seven tokens, spelt out |
| JsonText.NumbersAreBare | gateways/c/jsmn.c:35-79 | numbers and literal names of sections 3 and 6 of RFC 8259 are primitives of the tokenizer |
| JsonGet.SkipValue | gateways/c/fjage.c:322-325 | skipping by counts alone lands exactly one past the subtree of any value |
| JsonGet.LocatesFirstKey | gateways/c/fjage.c:313-328 | what is looked up is the value of the first member whose key is that string, and nothing only if no member's is |
| JsonGet.LookupIsFirst | gateways/c/fjage.c:313-328 | the index found belongs to the first top-level member with the key and to its value's tokens, never to a nested key; -1 exactly when there is none |
| JsonGet.EndIsOutside | gateways/c/fjage.c:318-320 | writing a NUL at the end of a token never overwrites the text of a leaf |
| JsonGet.ParsedIsNested | gateways/c/fjage.c:301-328 | the tokens that the lookup relies on are nested, delimited and closed |
| JsonGet.KeyReadsBack | gateways/c/fjage.c:319-321 | with its NUL in place a key token reads as the key |
| JsonGet.Find | gateways/c/fjage.c:313-328 | json_get on the tokens of any parsed object, whatever NULs earlier calls left: terminates in range with the index of the first top-level key, and every leaf still reads as spelt |
| JsmnForest.FirstTreeIsInRange | gateways/c/jsmn.c:158-300 | on any text, the child counts of the first token lead over complete subtrees and no further than the end of the array |
| JsmnForest.LookupStaysInRange | gateways/c/fjage.c:313-328 | on the complete token array of any text, json_get reads outside the array if and only if the array is empty; its answer is at most one past the end, exactly when the key found is the last token, and never for a key that has a value |
| JsmnForest.KeyWithoutValue | gateways/c/fjage.c:313-336 | a text both passes accept on which the answer is past the array |
| JsmnForest.WalkIsLookup | gateways/c/fjage.c:313-328 | on a parsed object that walk by counts is the lookup of the first key |
| JsonGet.IsKey | gateways/c/fjage.c:319-321 | terminating and comparing one key |
| JsonGet.SkipOne | gateways/c/fjage.c:322-325 | the skip loop moves to the next key |
| JsonGet.ValueReadsBack | gateways/c/fjage.c:330-336 | the value found, once terminated, reads as its own text |
| JsonGet.FindText | gateways/c/fjage.c:330-336 | json_gets returns the start of the first such member's value, and there the value's text can be read |
| JsonGet.ParseText | gateways/c/fjage.c:301-311 | json_parse: null exactly when counting fails; else an array of exactly that length, complete if and only if the brackets match |
| JsonFields.ReadFields | gateways/c/fjage.c:338-386 | json_parse on the raw text of an object and then json_gets for any fields in any order: every pointer is right, and in the end all of them still read as their own values, nested objects and arrays included |
| JsonFields.EndedReads | gateways/c/fjage.c:330-336 | no NUL written for a key or another field falls inside a value |
| JsonFields.ParsesAgain | gateways/c/fjage.c:374-376 | a nested value, read where it stands, is tokenized into its own tree |
| Containers.SendReaches | src/main/java/org/arl/fjage/Container.java:349-373 | a message reaches once each subscriber of its topic, or the agent addressed if it is here, and nobody else |
| Containers.SubscribeThenUnsubscribe | src/main/java/org/arl/fjage/Container.java:382-412 | subscribing makes that agent, and no other, one that messages to that topic are for (to its notification topic, if an agent is named), and unsubscribing undoes it |
| Containers.NotificationTopics | src/main/java/org/arl/fjage/Container.java:383 | different agents have different notification topics |
| Containers.ApplyIsExact | src/main/java/org/arl/fjage/Container.java:382-426 | who can subscribe and unsubscribe, and what leaving all topics means for whom messages reach |
| Containers.KillEndsSubscriptions | src/main/java/org/arl/fjage/Container.java:278-291 | a killed agent has no subscriptions left if and only if it had none |
| Containers.KilledAgentStillCalled | src/main/java/org/arl/fjage/Container.java:278-291 | a run from the empty container on which a killed agent is delivered a topic message |
| Containers.Container.Send | src/main/java/org/arl/fjage/Container.java:349-373 | one delivery more to each subscriber of the topic, or to the addressed agent if it is here, no other delivery, and the answer |
| Containers.Container.Subscribe | src/main/java/org/arl/fjage/Container.java:382-396 | the subscription maps after the call, notification topics included |
| Containers.Container.Unsubscribe | src/main/java/org/arl/fjage/Container.java:405-412 | the same, with the answer whether there was a subscription |
| Containers.Container.UnsubscribeAll | src/main/java/org/arl/fjage/Container.java:419-426 | the loop removes an agent in the map from every topic, and another from none |
| Containers.Container.Kill | src/main/java/org/arl/fjage/Container.java:278-291 | kill in the order of the program: first out of the map, then unsubscribed |
| Containers.Container.Add | src/main/java/org/arl/fjage/Container.java:196-218 | adds a new agent, refuses a duplicate |
| Relay.RunAccounted | src/main/java/org/arl/fjage/remote/MasterContainer.java:220-237 | in any interleaving, copies queued plus deliveries made stay in balance with messages sent, on every connection |
| Relay.ExactlyOnce | src/main/java/org/arl/fjage/remote/SlaveContainer.java:158-185 | with watch lists, held or on their way, that are empty or cover the wants, a message sent once from anywhere is delivered exactly once to each subscriber of its topic in every container, the sending slave too, or to the agent addressed in the container that has it, and to nobody else, with at most one line up and one down per connection; lists may be sent meanwhile |
| Relay.WantedIsExact | src/main/java/org/arl/fjage/remote/SlaveContainer.java:354-371 | a slave asks for its agents and for exactly those topics on which somebody would be called |
| Relay.DeliveryDrains | src/main/java/org/arl/fjage/remote/ConnectionHandler.java:211-213 | every delivery step leaves strictly less work queued |
| Relay.WorkOrDrained | src/main/java/org/arl/fjage/remote/ConnectionHandler.java:276-307 | nothing is queued, or some delivery step is possible |
| Relay.DeliveriesEnd | src/main/java/org/arl/fjage/remote/ConnectionHandler.java:211-213 | no sequence of delivery steps is longer than the work queued |
| Relay.EveryoneIsServed | src/main/java/org/arl/fjage/remote/MasterContainer.java:220-237 | after a message was sent once amid any traffic, any delivery steps followed until none is possible serve everyone it is for exactly once |
| Relay.WatchListsAreSafe | src/main/java/org/arl/fjage/remote/ConnectionHandler.java:251-257 | on any run from the connection on, whatever agents and subscriptions there were, what a slave announced before a line is wanted by the master when it executes that line; with no list on its way the master holds the last one sent |
| Relay.Bookkeeping | src/main/java/org/arl/fjage/remote/SlaveContainer.java:354-371 | what "announced" and "heard" mean, step by step |
| Relay.CopySetsOut | src/main/java/org/arl/fjage/remote/MasterContainer.java:232-236 | a copy sets out for a slave if and only if the master does not keep the message and its list for the slave is empty or names the recipient |
| Relay.DeliveredOnceAfterSettling | src/main/java/org/arl/fjage/remote/MasterContainer.java:220-237 | on any run that reaches a state in which each slave is settled or covered by the lists held and on their way, a message sent once after it is delivered exactly once to all it is for |
| Relay.ServedFromTheStart | src/main/java/org/arl/fjage/remote/MasterContainer.java:220-237 | from a system just connected, a message sent once amid any traffic has been had exactly once by everyone it is for when no delivery step is possible any more |
| RelayStreams.NeverMoreThanSent | src/main/java/org/arl/fjage/remote/MasterContainer.java:220-237 | on every run, with agents, subscriptions and watch lists changing at any time, no agent has a message more often than it was sent, and no connection more lines |
| RelayStreams.AnnouncedIsDelivered | src/main/java/org/arl/fjage/remote/SlaveContainer.java:354-371 | on any run, whatever lists are on their way, what a slave has announced is delivered there exactly once if the master has heard a later line, or if the slave itself is the sender |
| RelayStreams.SubscribeThenPublish | src/main/java/org/arl/fjage/remote/SlaveContainer.java:300-304 | an agent that subscribes and then publishes at once, with the new list still on its way, gets its message exactly once |
| RelayOrder.OrderIsKept | src/main/java/org/arl/fjage/remote/ConnectionHandler.java:39 | on any run, what one sender sends and a slave has announced is handled there in the order sent: always a prefix of it, and all of it once nothing is queued |
| RelayOrder.MasterKeepsOrder | src/main/java/org/arl/fjage/remote/ConnectionHandler.java:139 | on every run, whatever else changes, the master delivers and sends on what a slave sent up in the order sent |
| RelayNodes.ConnectionHandler.Wanted | src/main/java/org/arl/fjage/remote/ConnectionHandler.java:251-257 | an empty list wants everything, another what it names |
| RelayNodes.ConnectionHandler.SetWatchList | src/main/java/org/arl/fjage/remote/ConnectionHandler.java:300-306 | the handler's list becomes exactly that of the line |
| RelayNodes.MasterContainer.Send | src/main/java/org/arl/fjage/remote/MasterContainer.java:220-237 | the fan-out loop: exactly the handlers that want the recipient get one line, in the cases in which anything is relayed |
| RelayNodes.SlaveContainer.Send | src/main/java/org/arl/fjage/remote/SlaveContainer.java:158-185 | topic messages go up and are not delivered here; others go up only if the recipient is not here |
| RelayNodes.SlaveContainer.UpdateWatchList | src/main/java/org/arl/fjage/remote/SlaveContainer.java:354-371 | the list is the local agents and the topics with subscribers; a line is sent only if it differs from the last |
| RelayNodes.SlaveContainer.Add | src/main/java/org/arl/fjage/remote/SlaveContainer.java:288-292 | an addition that succeeds is announced |
| RelayNodes.SlaveContainer.Kill | src/main/java/org/arl/fjage/remote/SlaveContainer.java:294-298 | likewise |
| RelayNodes.SlaveContainer.Subscribe | src/main/java/org/arl/fjage/remote/SlaveContainer.java:300-304 | likewise |
| RelayNodes.SlaveContainer.Unsubscribe | src/main/java/org/arl/fjage/remote/SlaveContainer.java:306-310 | likewise |
| RelayNodes.SlaveContainer.UnsubscribeAll | src/main/java/org/arl/fjage/remote/SlaveContainer.java:312-315 | always announced |
| RelayNodes.SendIsTheStep | src/main/java/org/arl/fjage/remote/MasterContainer.java:220-237 | what the master's loop does is the send step of the protocol |
| RelayNodes.SlaveSendIsTheStep | src/main/java/org/arl/fjage/remote/SlaveContainer.java:158-185 | what the slave's send leaves is its send step in the protocol |
| RelayNodes.UpdateIsTheStep | src/main/java/org/arl/fjage/remote/SlaveContainer.java:354-371 | what updating the watch list leaves is the refresh step |
| Idleness.RunKeeps | src/main/java/org/arl/fjage/Container.java:685-701 | an agent is in the idle set exactly while it sleeps or has finished; anything else there was killed by others |
| Idleness.IdleCounts | src/main/java/org/arl/fjage/Container.java:622-627 | isIdle says that as many agents run as there are leftovers of killed ones |
| Idleness.IdleIsRight | src/main/java/org/arl/fjage/Container.java:622-627 | exactly when isIdle is right |
| Idleness.StoppingIsSafe | src/main/java/org/arl/fjage/Agent.java:806-838 | if agents end only by their own stop(), isIdle holds exactly when none is running |
| Idleness.KillHaunts | src/main/java/org/arl/fjage/Agent.java:832-834 | whatever happens after a kill from outside, short of adding another of that id, once the agent's thread has ended the agent is left in the idle set if and only if it had not finished when it was killed |
| Idleness.NotIdleUntilAdded | src/main/java/org/arl/fjage/Container.java:622-627 | a leftover stays exactly until an agent of its id is added, and until then the container is never found idle when all its agents are |
| Idleness.IdleWhileBusy | src/main/java/org/arl/fjage/Container.java:278-291 | a run after which isIdle holds while an agent is running |
| Idleness.IdleTracker.Add | src/main/java/org/arl/fjage/Agent.java:806-810 | both sets after an addition and the new agent's first report: a leftover of that id is gone |
| Idleness.IdleTracker.ReportIdle | src/main/java/org/arl/fjage/Container.java:685-690 | the idle set after the report, and what is in it stays explained |
| Idleness.IdleTracker.ReportBusy | src/main/java/org/arl/fjage/Container.java:697-701 | the same |
| Idleness.IdleTracker.KillAgent | src/main/java/org/arl/fjage/Container.java:278-291 | both sets after a kill, by the agent itself or others |
| Idleness.IdleTracker.CheckIdle | src/main/java/org/arl/fjage/Container.java:622-627 | the answer says whether as many agents run as there are leftovers, and so, without kills from outside, whether none runs |
| MessageQueues.MessageQueue.SetSize | src/main/java/org/arl/fjage/MessageQueue.java:39-43 | trims the queue to the new limit |
| MessageQueues.MessageQueue.Add | src/main/java/org/arl/fjage/MessageQueue.java:45-49 | a message joins the quarantine, which is trimmed from its front |
| MessageQueues.MessageQueue.Commit | src/main/java/org/arl/fjage/MessageQueue.java:51-69 | the iterator loop moves exactly the messages no exclusion accepts to the queue, in order, and trims |
| MessageQueues.MessageQueue.Get | src/main/java/org/arl/fjage/MessageQueue.java:71-86 | takes the first message the filter accepts, or the front if there is no filter, and leaves the rest in order |
| MessageQueues.TakenIsFirst | src/main/java/org/arl/fjage/MessageQueue.java:71-86 | the message taken is the first that the filter accepts, or the front if there is no filter; nothing only if it accepts none |
| MessageQueues.ReservedMeans | src/main/java/org/arl/fjage/MessageQueue.java:51-69 | a message is reserved by an exclusion that is null or accepts it |
| MessageQueues.CommitSorts | src/main/java/org/arl/fjage/MessageQueue.java:51-69 | after a commit exactly the reserved messages are in quarantine |
| MessageQueues.RunsConserveAndOrder | src/main/java/org/arl/fjage/MessageQueue.java:39-86 | on any run every message that arrived is handed out, queued, quarantined or dropped, once; and messages that no filter used tells apart stay in order of arrival |
| MessageQueues.TrimIsExact | src/main/java/org/arl/fjage/MessageQueue.java:39-69 | how many messages a limit leaves, and that they are the last |
| MessageQueues.LimitsDropOldest | src/main/java/org/arl/fjage/MessageQueue.java:39-69 | an arrival, a commit or a new limit drops messages if and only if the list would reach the limit, and then all but its last n - 1 |
| MessageQueues.LimitIsOneShort | src/main/java/org/arl/fjage/MessageQueue.java:45-49 | with a limit of n, a run on which the n-th arrival costs exactly the first |
| Agents.RunReserves | src/main/java/org/arl/fjage/Agent.java:450-474 | at every point of any nesting the exclusion stack is the list of filters awaited, and no queued message matches any of them |
| Agents.NothingAwaitedIsTaken | src/main/java/org/arl/fjage/Agent.java:450-474 | what a receive hands over, at once, without waiting or after waiting, is the first message that its filter accepts, and none of the filters of the receives that enclose it accepts it |
| Agents.NoStrandedDelivery | src/main/java/org/arl/fjage/Agent.java:738-747 | on every run, while an agent sleeps every completed delivery has been committed and no restart is owed where behaviors are run; while it sleeps in a receive, what is left in quarantine is still being delivered or reserved |
| Agents.YieldingReceiveRace | src/main/java/org/arl/fjage/Agent.java:458-466 | on any run, with any steps of other threads and behaviors in between, a receive that lets others run sleeps over exactly those messages it awaits whose delivery was complete when it called executeBehavior |
| Agents.StrandedIsUncommitted | src/main/java/org/arl/fjage/Agent.java:738-758 | on every run, such a message was delivered since the receive last looked |
| Agents.NothingToRunSleeps | src/main/java/org/arl/fjage/Agent.java:750-798 | with nothing to run and no step in between it does go to sleep |
| Agents.YieldingReceiveCanStrand | src/main/java/org/arl/fjage/Agent.java:458-466 | a run on which that happens |
| Agents.PlainReceiveNeverStrands | src/main/java/org/arl/fjage/Agent.java:458-466 | on no run does it happen to a receive that runs nothing else |
| AgentInterrupts.LeftInMainLoop | src/main/java/org/arl/fjage/Agent.java:466-469 | on any run, the agent sleeps in its main loop over a delivered message if and only if its last look at the queue was a receive interrupted while the message was held back, and the message is still there; with no limit and no redelivery, if and only if it was interrupted so |
| AgentInterrupts.InterruptedReceiveLeaves | src/main/java/org/arl/fjage/Agent.java:466-469 | a run on which that happens |
| AgentWakeups.BlockWaitsExactly | src/main/java/org/arl/fjage/Agent.java:175-184 | block() waits if and only if the agent is not to finish and its last call did not wait, or no restart is owed and no blocked behavior may run |
| AgentWakeups.SleptOver | src/main/java/org/arl/fjage/Agent.java:175-184 | on any run, exactly which restarted and which new behaviors the agent sleeps over |
| AgentWakeups.RestartSleptOver | src/main/java/org/arl/fjage/Agent.java:175-184 | a run on which a restarted behavior is slept over |
| AgentWakeups.NewBehaviorSleptOver | src/main/java/org/arl/fjage/Agent.java:264-269 | a run on which a new behavior is slept over |
| AgentWakeups.StopEnds | src/main/java/org/arl/fjage/Agent.java:250-255 | on any run, once stopped the agent never sleeps again, a waiting receive returns without a message, and back in the main loop the thread finishes |
| AgentWakeups.ReceiveReturnsExactly | src/main/java/org/arl/fjage/Agent.java:458-472 | a waiting receive returns if and only if it is interrupted, the agent is to finish, its time is up, or its filter accepts a message that the commit leaves in the queue; otherwise it waits again as before |
| AgentSchedule.BehaviorsAreConserved | src/main/java/org/arl/fjage/Agent.java:750-798 | on any run each behavior added is in exactly one place; onStart once, then actions never re-entered, then onEnd once and nothing after |
| AgentSchedule.LeastPriorityRuns | src/main/java/org/arl/fjage/Agent.java:769-781 | on any run, whenever an action was called no behavior was new and its behavior had the least priority value of all then active |
| AgentSchedule.StartsInOrder | src/main/java/org/arl/fjage/Agent.java:770-776 | on any run behaviors are started in the order in which they were added |
| AgentSchedule.ParkedOnlyIfBlocked | src/main/java/org/arl/fjage/Agent.java:779-788 | a behavior is parked after its action only if it was blocked during that action |
| AgentSchedule.DoneIsEnded | src/main/java/org/arl/fjage/Agent.java:782-785 | a behavior that is done after its action is ended, blocked or not |
| AgentMonitor.Monitor.constructor | src/main/java/org/arl/fjage/Agent.java:85-101 | the fields of a new agent are those of the initial state |
| AgentMonitor.Monitor.Wake | src/main/java/org/arl/fjage/Agent.java:238-245 | wake() is the step of that name: an agent is reported idle exactly while it waits |
| AgentMonitor.Monitor.WakeUp | src/main/java/org/arl/fjage/Agent.java:238-245 | the state before the wait is restored and the container told, if there was a wait |
| AgentMonitor.Monitor.Stop | src/main/java/org/arl/fjage/Agent.java:250-255 | stop() is its step, asleep or not |
| AgentMonitor.Monitor.Notify | src/main/java/org/arl/fjage/Agent.java:742-746 | the synchronized part of deliver() is its step |
| AgentMonitor.Monitor.Block | src/main/java/org/arl/fjage/Agent.java:175-200 | block() up to the wait, with the states, the report to the container and the loop over the blocked behaviors, is its step |
| AgentMonitor.Monitor.AnyUnblocked | src/main/java/org/arl/fjage/Agent.java:180-181 | the loop finds whether some blocked behavior may run |
| AgentMonitor.Monitor.RestartBlocked | src/main/java/org/arl/fjage/Agent.java:751-768 | the restart part of executeBehavior is its step |
| AgentMonitor.Monitor.MoveUnblocked | src/main/java/org/arl/fjage/Agent.java:760-767 | the iterator loop moves exactly the unblocked behaviors, once each |
| AgentMonitor.Monitor.First | src/main/java/org/arl/fjage/Agent.java:777-779 | a behavior of least priority value |
| AgentMonitor.Monitor.PollActive | src/main/java/org/arl/fjage/Agent.java:777-781 | taking the next behavior is the step that runs it |
| Simulator.BeforeIsStrictTotalOrder | src/main/java/org/arl/fjage/DiscreteEvent.java:65-73 | compareTo is a strict total order on events with different numbers: by time, creation, thread and number |
| Simulator.FiringOrder | src/main/java/org/arl/fjage/DiscreteEvent.java:65-73 | on every run events fire by time; at the same time, by creation; then by thread; then by number |
| Simulator.TimersFireInOrder | src/main/java/org/arl/fjage/DiscreteEvent.java:65-73 | on every run, of two timers due at the same time the one scheduled first fires first, at different clock readings, or at the same one by one thread or by threads in the order of their ids |
| Simulator.RunIsCausal | src/main/java/org/arl/fjage/DiscreteEventSimulator.java:143-187 | on every run the clock never passes a pending event, each event fires at its own time, and the whole firing sequence is strictly increasing although tasks schedule more |
| Simulator.NeverStuck | src/main/java/org/arl/fjage/DiscreteEventSimulator.java:145-182 | a running simulator can always take a step of its loop |
| SimulatorLoop.EventLoop.Schedule | src/main/java/org/arl/fjage/DiscreteEventSimulator.java:104-107 | scheduling is its step |
| SimulatorLoop.EventLoop.Least | src/main/java/org/arl/fjage/DiscreteEventSimulator.java:145-152 | the head of the event queue: least by time, creation, thread and number |
| SimulatorLoop.EventLoop.ScheduleAll | src/main/java/org/arl/fjage/DiscreteEventSimulator.java:104-107 | any list of requests is a run of scheduling steps |
| SimulatorLoop.EventLoop.Look | src/main/java/org/arl/fjage/DiscreteEventSimulator.java:145-152 | peeking is its step |
| SimulatorLoop.EventLoop.FireNext | src/main/java/org/arl/fjage/DiscreteEventSimulator.java:149-151 | firing the next event, with what its task schedules, is a run of steps, and brings the loop nearer to its end |
| SimulatorLoop.EventLoop.FireDue | src/main/java/org/arl/fjage/DiscreteEventSimulator.java:147-153 | the inner loop fires until nothing is due, by steps of the model |
| SimulatorLoop.EventLoop.Round | src/main/java/org/arl/fjage/DiscreteEventSimulator.java:146-181 | any round of run(), with what agents schedule while it waits, is a sequence of steps of the model, and ends with the event of the new time peeked or with nothing left |
| SimulatorLoop.EventLoop.RunLoop | src/main/java/org/arl/fjage/DiscreteEventSimulator.java:143-187 | run() as a whole, whatever was scheduled before it started, is a run of the model; once nobody asks for more it ends, with every event ever scheduled fired, in order and at its own time |
| SimulatorLoop.EventsAreConserved | src/main/java/org/arl/fjage/DiscreteEventSimulator.java:143-199 | on any run every event scheduled is pending or fired |
| Ticker.TickerBehavior.OnStart | src/main/java/org/arl/fjage/TickerBehavior.java:88-92 | the first wakeup is one period ahead |
| Ticker.TickerBehavior.DoAction | src/main/java/org/arl/fjage/TickerBehavior.java:100-111 | one call of action(): tick or block; the next wakeup is one period after the last, or after the call if that has passed |
| Ticker.TickerBehavior.Stop | src/main/java/org/arl/fjage/TickerBehavior.java:57-59 | after it no calls of action() whatever make a tick |
| Ticker.StoppedForGood | src/main/java/org/arl/fjage/TickerBehavior.java:100-101 | once stopped it never ticks again |
| Ticker.TicksAreBounded | src/main/java/org/arl/fjage/TickerBehavior.java:89-111 | under any clock that does not go back and any wakeups: ticks * period is at most the time elapsed, and no window holds more ticks than periods plus two |
| Ticker.NoTickIsMissed | src/main/java/org/arl/fjage/TickerBehavior.java:100-111 | under any clock, a call that comes a period or more after the last tick, or the start, makes a tick |
| Ticker.LateTicks | src/main/java/org/arl/fjage/TickerBehavior.java:106-110 | a tick late by no more than a period is made up for, and a later one is not |
| Ticker.TicksAreMade | src/main/java/org/arl/fjage/TickerBehavior.java:89-111 | with calls at most g apart, ticks * (period + g) and one period more cover the time elapsed |
| Ticker.TicksAreExact | src/main/java/org/arl/fjage/Behavior.java:137-155 | on the simulator tick k happens at exactly start + k * period and none is missing |
| FsmBehaviors.LifecycleIsBracketed | src/main/java/org/arl/fjage/FSMBehavior.java:77-88 | whatever callbacks and others ask for, resets within callbacks included, callbacks come in visits: entry, actions, exit |
| FsmBehaviors.FirstStateEntered | src/main/java/org/arl/fjage/FSMBehavior.java:147-151 | before the first step, whatever has been called, a known state set as the initial one is the first to be entered |
| FsmBehaviors.OnlyStateEntered | src/main/java/org/arl/fjage/FSMBehavior.java:113-139 | the only state added, at first or after clear(), is the first to be entered |
| FsmBehaviors.BlockIsKept | src/main/java/org/arl/fjage/FSMBehavior.java:85-87 | a machine blocked between steps stays so exactly while no change of state is pending |
| FsmBehaviors.ReentryExitsThenEnters | src/main/java/org/arl/fjage/FSMBehavior.java:81-83 | a step that reenters a state exits it and then enters it, whatever the callbacks ask for short of a reset, and does nothing else |
| FsmBehaviors.ReentryIsMade | src/main/java/org/arl/fjage/FSMBehavior.java:165-172 | on any run, a state whose action asks for reentry is exited and entered in the next step |
| FsmBehaviors.RequestedReentryIsMade | src/main/java/org/arl/fjage/FSMBehavior.java:165-172 | asked for between steps, it is made after one more action |
| FsmBehaviors.ResetBetweenSteps | src/main/java/org/arl/fjage/FSMBehavior.java:95-105 | reset() between steps starts afresh if and only if no state is current; a blocked machine stays blocked |
| FsmBehaviors.ResetRuns | src/main/java/org/arl/fjage/FSMBehavior.java:95-105 | two runs on which reset() is followed by an action without entry, and by the exit of the dropped state |
| FsmBehaviors.LastVisitStaysOpen | src/main/java/org/arl/fjage/FSMBehavior.java:183-188 | a terminated machine never exits its last state, whatever is called on it short of a reset |
| FsmBehaviors.TerminatedInside | src/main/java/org/arl/fjage/FSMBehavior.java:183-188 | a run that ends so |
| FsmBehaviors.RequestIsHonoured | src/main/java/org/arl/fjage/FSMBehavior.java:158-163 | a change asked for between steps is made if and only if neither a reentry nor the first step is pending, or they lead there anyway |
| FsmBehaviors.LostRequests | src/main/java/org/arl/fjage/FSMBehavior.java:77-88 | two runs on which a change asked for is lost |
| FsmBehaviors.PendingChangeIsNotBlocked | src/main/java/org/arl/fjage/FSMBehavior.java:85-87 | a pending change of state is never left blocked |
| FsmBehaviors.FSMBehavior.Action | src/main/java/org/arl/fjage/FSMBehavior.java:77-88 | action() is one step and keeps the visits in order |
| FsmBehaviors.FSMBehavior.Invoke | src/main/java/org/arl/fjage/FSMBehavior.java:158-172 | the calls open to callbacks, with unknown names refused |
| FsmBehaviors.FSMBehavior.AddState | src/main/java/org/arl/fjage/FSMBehavior.java:133-139 | the first state added becomes the initial one; duplicates are refused |
| FsmBehaviors.FSMBehavior.ResetStates | src/main/java/org/arl/fjage/FSMBehavior.java:103-105 | what reset changes and what it does not |
| FsmBehaviors.FSMBehavior.IsDone | src/main/java/org/arl/fjage/FSMBehavior.java:91-93 | when it holds no step follows, and the visit of the state last run is left open |
| ByteQueues.ReadTakesFirst | src/main/java/org/arl/fjage/connectors/BlockingByteQueue.java:111-132 | a read returns the oldest byte and keeps the rest, across all block switches |
| ByteQueues.LastEightBits | src/main/java/org/arl/fjage/connectors/BlockingByteQueue.java:53-65 | a byte written as an int is read as its last eight bits |
| ByteQueues.WriteKeepsOrder | src/main/java/org/arl/fjage/connectors/BlockingByteQueue.java:53-65 | a safe byte write appends |
| ByteQueues.WriteArrayKeepsOrder | src/main/java/org/arl/fjage/connectors/BlockingByteQueue.java:70-104 | a safe array write appends, in all four ways it can be stored |
| ByteQueues.ReadManyTakesPrefix | src/main/java/org/arl/fjage/connectors/BlockingByteQueue.java:141-149 | from a good state several reads take a prefix |
| ByteQueues.ReadUntilTakesPrefix | src/main/java/org/arl/fjage/connectors/BlockingByteQueue.java:175-189 | from a good state reading up to a delimiter takes the shortest prefix that ends in one, or everything |
| ByteQueues.StaleWriteLosesBlock | src/main/java/org/arl/fjage/connectors/BlockingByteQueue.java:53-65 | a byte written in the full stale state replaces the whole block held: every read counted returns it |
| ByteQueues.AheadWriteOvertakes | src/main/java/org/arl/fjage/connectors/BlockingByteQueue.java:53-65 | a byte written while blocks are queued ahead is read before all of them |
| ByteQueues.WriteIsFifoIff | src/main/java/org/arl/fjage/connectors/BlockingByteQueue.java:53-65 | for every byte, later reads return the old bytes and then the new one, if and only if the write is safe |
| ByteQueues.WriteArrayIsFifoIff | src/main/java/org/arl/fjage/connectors/BlockingByteQueue.java:70-104 | the same for all arrays of a length; the one exception is an empty write that loses a block of zeros, which nobody can see |
| ByteQueues.UnsafeStatesArise | src/main/java/org/arl/fjage/connectors/BlockingByteQueue.java:54-84 | which writes bring about the two states, and that no other byte write brings about the first |
| ByteQueues.UnsafeStatesAreReached | src/main/java/org/arl/fjage/connectors/BlockingByteQueue.java:54-84 | from the empty queue, runs of safe operations that end in either state |
| ByteQueues.RunIsFifo | src/main/java/org/arl/fjage/connectors/BlockingByteQueue.java:40-132 | any run of safe operations outputs what a first-in-first-out sequence does, and the count is its length |
| BlockingByteQueues.BlockingByteQueue.Clear | src/main/java/org/arl/fjage/connectors/BlockingByteQueue.java:40-48 | the state after clear |
| BlockingByteQueues.BlockingByteQueue.Write | src/main/java/org/arl/fjage/connectors/BlockingByteQueue.java:53-65 | the arrays and fields after a byte write |
| BlockingByteQueues.BlockingByteQueue.WriteArray | src/main/java/org/arl/fjage/connectors/BlockingByteQueue.java:70-104 | the arrays and fields after an array write; the array itself is unchanged |
| BlockingByteQueues.BlockingByteQueue.Read | src/main/java/org/arl/fjage/connectors/BlockingByteQueue.java:111-132 | in every state in range and as specified; from a good state the oldest byte as 0 to 255, or -1 when there is none |
| BlockingByteQueues.BlockingByteQueue.ReadArray | src/main/java/org/arl/fjage/connectors/BlockingByteQueue.java:141-149 | in every state the bytes of that many reads; from a good state a prefix; the rest of the array is left alone |
| BlockingByteQueues.BlockingByteQueue.ReadAvailable | src/main/java/org/arl/fjage/connectors/BlockingByteQueue.java:156-166 | as many bytes as are counted, or null; from a good state everything there is |
| BlockingByteQueues.BlockingByteQueue.ReadDelimited | src/main/java/org/arl/fjage/connectors/BlockingByteQueue.java:175-189 | in every state the reads up to and including the first delimiter; from a good state a prefix, or all there is |
| MessageRing.TakeIsOldestMatch | gateways/c/fjage.c:255-299 | a take removes the oldest match from the list of waiting messages and keeps the others in order; nothing changes if none matches |
| MessageRing.TakeByReply | gateways/c/fjage.c:255-275 | by class and reply id: the oldest message of that class, if named, in reply to that message, if named, or nothing if there is none |
| MessageRing.TakeByClass | gateways/c/fjage.c:284-299 | by classes: the oldest message of any of them, or nothing if there is none |
| MessageRing.RunAccounts | gateways/c/fjage.c:243-299 | on any run every message received was returned, destroyed or is waiting, and slots are in order of arrival |
| MessageRing.NoDoubleFate | gateways/c/fjage.c:243-299 | no message is returned and destroyed, or either twice, or gone and waiting |
| MessageRing.PutDestroysTheUnclaimed | gateways/c/fjage.c:243-253 | a put destroys a message if and only if the one received 1023 messages before is still waiting, and then that one, the oldest |
| MessageRing.DestroysTheOnlyMessage | gateways/c/fjage.c:243-253 | a run after which a put destroys the only message waiting |
| MessageRing.Ring.Put | gateways/c/fjage.c:243-253 | the in-place put, on every wrap-around; slots outside the window stay empty |
| MessageRing.Ring.Get | gateways/c/fjage.c:255-275 | the search by class and reply id |
| MessageRing.Ring.GetAny | gateways/c/fjage.c:284-299 | the search by any of several classes |
| MessageRing.CompareAny | gateways/c/fjage.c:277-282 | membership in the list of classes |
| Base64.EncodingIsUnique | gateways/c/encode.c:20-91 | the bit-stream specification leaves one encoding only |
| Base64.AlphabetIsTable1 | gateways/c/b64.h:27-36 | the alphabet is that of Table 1 of RFC 4648, and the padding an equals sign |
| Base64.TestVectors | gateways/c/encode.c:20-91 | the encodings of two octets, with the letters, the plus and the padding spelt out |
| Base64.DecodingIsUnique | gateways/c/decode.c:26-130 | and one decoding only |
| Base64.RoundTrip | gateways/c/decode.c:26-130 | decoding any byte string's encoding gives the same bytes and size |
| Base64.GroupBits | gateways/c/encode.c:40-43 | the four digits of a group are the same 24 bits as its three bytes |
| Base64Codec.Encode | gateways/c/encode.c:20-91 | the encoder's text is an encoding by section 4 of RFC 4648: length 4 * ceil(n / 3), symbols that spell the bits, padding |
| Base64Codec.SplitGroup | gateways/c/encode.c:39-43 | the masks and shifts of one group |
| Base64Codec.EncodeRest | gateways/c/encode.c:59-84 | the last one or two bytes |
| Base64Codec.Decode | gateways/c/decode.c:26-130 | on any text: the whole octets spelt by the symbols in front, and nothing of what follows |
| Base64Codec.Translate | gateways/c/decode.c:51-60 | the table search in place |
| Base64Codec.DecodeGroup | gateways/c/decode.c:49-79 | four symbols make three bytes |
| Base64Codec.DecodeRest | gateways/c/decode.c:82-114 | the last symbols make one byte less |

## Left out

- jsmn: the build with parent links and the strict build; integers are unbounded; `js` has the given length and NULs in it end the text as in the code.
- JsonGet.Find: what it finds on token arrays that no legal object has; `LookupStaysInRange` says how far it then reads. On an incomplete array, after mismatched brackets, the program reads tokens that were never written. A null key. A key argument is a C string, so it holds no NUL.
- JsonGet.FindText: likewise, on token arrays that no legal object has.
- JSON text is a sequence of characters; escapes are checked but not decoded, as in the program.
- Container.send when the container is not running or the recipient is null; listeners that intercept messages; autocloning; services; the init and shutdown loops.
- Containers.Container.Unsubscribe: subscribers are told apart by id, in the program by the agent object; the two differ only when an id is used again after a kill, which in the model inherits the subscriptions left behind. `Subscribe`, `Kill` and `Add` have the same limit.
- Relay: firewalls, authentication, lost and restored connections, liveness checks, requests with responses, cleaning up closed connections, the exit of threads. A line is printed and read whole. Watch lists are compared as sets, where the program compares JSON texts.
- Relay.ExactlyOnce: assumes fixed agents and subscriptions, agent names unique over all containers, and watch lists, held and on their way, that are empty or cover what the slave wants; `DeliveredOnceAfterSettling` derives the last from a settled run, and `AnnouncedIsDelivered` does without it, for one slave.
- RelayStreams.AnnouncedIsDelivered: nothing changes at the slave in question meanwhile; an agent, other than a topic, is held there only.
- Relay.EveryoneIsServed: once delivery has begun to be counted nothing new is sent; each single step drains unconditionally (`DeliveryDrains`).
- Idleness: an id is used again only once the thread of its last agent has ended; adding an agent and the first report of its thread are one step.
- Agents: behaviors that throw, and the `init` phase before the container runs. Filters are pure. `stop()`, `kill()` and the poll of new behaviors are atomic steps. `receive` and `run` are steps of the machine, not methods; `Monitor` has those parts that hold the lock or loop over behaviors.
- Simulator: `speed` and sleeping in real time; `shutdown` from outside; the thread that runs the loop waits for idle agents, which is here a step that may happen at any time the loop allows it.
- SimulatorLoop.EventLoop.FireNext: a task does nothing but schedule, a list of delays fixed for each event; agents ask only while the loop waits, and in the loop (not in `Simulator`) only for a finite time.
- Ticker.TicksAreExact: the agent's run from waking to blocking is one atomic step, and `onTick` does not block. `stop()` cuts off the list of ticks (`StoppedForGood`).
- FsmBehaviors.LifecycleIsBracketed: `reset` and `clear` between steps are excluded, and `ResetBetweenSteps` says what they do; callbacks that throw; events (`trigger`), which only make the calls modelled.
- BlockingByteQueue: waiting and interrupts; each read is the part after the wait. The caller does not change an array after writing it.
- Message ring: a null gateway; messages are told apart by address; the strings of a message are constant.
- Base64: failing allocations, and the NUL after the text or bytes. `isalnum` is that of the C locale, and false for bytes from 128 on.
- Sockets, serial ports, web server, shells, Groovy, Gson, files and logging: outside code or no hard property. The packed topic list of the C gateway: easier than the rest.
- The Python and JavaScript gateways: the same ideas in simpler form.
