# Verification model of the FaaS control plane

A Dafny model of the gateway, the message-queue service, the scaler, the log daemon and the function runtime, with proofs
of what they keep over whole runs.

| files | what they model |
|---|---|
| `InstancePool`, `SchedulerProtocol`, `SchedulerObject`, `SchedulerEffects`, `InstanceNames` | the scheduler's instance pools and leases: the sections as functions, every interleaving of their callers, the objects changed in place, the names of instances |
| `Admission`, `AdmissionObject`, `AdmissionOutcomes` | the admission queue and the HTTP router on top of the scheduler, and which outcome a request gets |
| `JsonGrammar`, `JsonScanner`, `JsonQuote` | the JSON recogniser and printer of the Java bootstrap, against RFC 8259 |
| `Attempts`, `HeaderCount`, `Delivery`, `DeliveryEffects`, `DeliveryCopies`, `DeadLetters`, `DeliveryObject`, `WorkerMetrics` | at-least-once delivery from RabbitMQ by one trigger, its duplicates, its dead letters and its counters |
| `DeliveryPlaces`, `DeliveryNet`, `DeliveryBound`, `DeliveryExact`, `DeliveryNetCopies`, `DeliveryOrigins` | all triggers of a broker on their shared queues: nothing is lost, when the limit on attempts holds, how many copies there are and where they come from |
| `Rendezvous`, `RendezvousObject`, `RendezvousEffects` | the runtime API between callers, pollers and responses |
| `Reconcile`, `ReconcileEffects`, `ReconcileRuns`, `Names` | trigger reconciliation alone and among ending consumers, configuration checks, name sanitisers and keys |
| `Autoscaler` | the scaling decision and its closed loop |
| `LogTail`, `LogGlobal` | the log ring buffer, the distributed tail, and when it is the global one |
| `Options`, `Sets` | an option type and a fact about set sizes, shared by the others |

Concurrency is modelled by one total function `Step(state, event)` per component. An event is one mutex section, one
channel operation, one operation on a concurrent map, or one answer of the outside world; an event that is not enabled
changes nothing. A run is any sequence of events, so a statement about all runs covers every interleaving. A goroutine
between two of its sections is an entry in a map of program counters. Where the program changes objects in place there is
a class beside the protocol, whose methods are proved to do what the steps say.

The modules named `...Effects`, and `HeaderCount` and `AdmissionOutcomes`, say in the fields of the state alone what each
step does, so that the invariants rest on no definition that nothing else pins down.

What the outside world promises is part of the steps: a backend never returns an id twice (`InstanceNames` shows that pod
names meet this), an unacked delivery may return but does not vanish, and a confirmed publish was stored in a queue that
persists. Everything else may fail at any point.

Some claims that the design suggests are false of the code. Each is stated with the exact condition under which it holds,
and with a run that breaks it:

- after an upload only new code is served: unless a cold start overlaps it (`UploadFreshens`);
- where only functions fail, a message is handled at most MaxAttempts times: unless a consumer of its queue has no limit
  or one beyond 2^31, the count is the largest int, or dead letters find their way back to the queue, through the
  trigger itself or through others, which no check refuses (`BoundedExactly`);
- a dead letter shows a count of at least MaxAttempts: unless the header wraps, which depends on the count that the
  message was sent with (`ShownExactly`);
- a message has one live copy: unless one of four failures adds one (`CopiesExactly`);
- a running consumer is in the map: unless an older consumer of an equal trigger ends late (`LiveAreConsumers`);
- an idle poller learns of a queued invocation: unless there are several pollers and the queue can hold two or more
  (`WakeupExactly`);
- the log tail is the global one: unless a node that is not asked or fails holds later entries (`FetchIsGlobal`).

The scaler's README describes an older policy; the model follows the code, which can scale down while requests are
queued, and `QueueOscillates` shows what follows from that.

## Model

| member | source | states |
|---|---|---|
| `SchedulerProtocol.NoSharedInstance` | gateway/scheduler/scheduler.go:468-537 | From any initial configuration and over any run of HTTP calls, lease acquires and releases, cold starts, reaps, scale-downs, uploads and deregistrations, an instance has at most one holder, every held instance is busy, and every busy pooled instance has a holder. |
| `SchedulerProtocol.StepInv` | gateway/scheduler/scheduler.go:468-864 | Every critical section keeps the whole invariant: pools well formed, holders exclusive, busy means held, stopped means in no pool, leases opened and closed once, ports given once. |
| `SchedulerProtocol.RunInv` | gateway/scheduler/scheduler.go:468-864 | So does every run, whatever its events. |
| `SchedulerProtocol.HolderBefore` | gateway/scheduler/scheduler.go:468-537 | Whoever holds an instance after a step held it before, passed it from the pending acquire to the recorded lease, or took it while nobody held it. |
| `SchedulerProtocol.FreedByHolder` | gateway/scheduler/scheduler.go:601-656 | A busy instance turns idle only because its own holder gives it back. |
| `SchedulerProtocol.BusyCountsHolders` | gateway/scheduler/scheduler.go:797-809 | The number of busy instances of a function that Stats reports equals the number of HTTP calls, pending acquires and leases whose instance is still pooled. |
| `SchedulerProtocol.LeavingIsFinal` | gateway/scheduler/scheduler.go:620-628 | An instance that has left the pools is in no pool of any later state. |
| `SchedulerProtocol.RetirementIsFinal` | gateway/scheduler/scheduler.go:753-755 | An id handed to stop by any path is never again in a pool, and no later acquire returns it. |
| `SchedulerProtocol.IdleRetirementIsUnheld` | gateway/scheduler/scheduler.go:726-864 | The idle reaper and RemoveIdle take only instances that nobody holds, and stop them. |
| `SchedulerProtocol.LeaversAreStopped` | gateway/scheduler/scheduler.go:291-371 | Over any run, an instance that was pooled is still pooled, or was stopped, or is about to be by a running upload, or was lost by an upload whose metadata save failed. |
| `SchedulerProtocol.LeasesEndOnce` | gateway/scheduler/scheduler.go:584-648 | Over any run each issued lease is either still recorded or was closed exactly once, by a release or by expiry. |
| `SchedulerProtocol.LateReleaseIsRefused` | gateway/scheduler/scheduler.go:584-607 | However much later a closed lease is released again, the scheduler state does not change. |
| `SchedulerProtocol.ReapIsExact` | gateway/scheduler/scheduler.go:630-648 | After reaping at now exactly the leases with a deadline before now are gone, their instances are out of the pools and stopped, and no other instance left a pool. |
| `SchedulerProtocol.UploadFreshens` | gateway/scheduler/scheduler.go:354-359 | Committing an upload leaves only current code to be served if and only if no start of that function is running. |
| `SchedulerProtocol.CodeIsFresh` | gateway/scheduler/scheduler.go:307-371 | After an upload that overlaps no start, every acquire of that function in every continuation without such an overlap returns an instance started from the current configuration. |
| `SchedulerProtocol.FreshRun` | gateway/scheduler/scheduler.go:813-835 | Freshness of a function survives every run without an upload, deregistration or undone registration that overlaps a start. |
| `SchedulerProtocol.OverlappingColdStartIsStale` | gateway/scheduler/scheduler.go:489-496 | Otherwise it can fail: the acquire that waits for an overlapping cold start returns older code. |
| `SchedulerProtocol.OverlappingPrewarmIsStale` | gateway/scheduler/scheduler.go:824-832 | And after an overlapping pre-warming start the next acquire returns older code. |
| `SchedulerEffects.AcquireEffect` | gateway/scheduler/scheduler.go:468-487 | Acquire makes the first idle instance of the function busy, with the time of its use, for this caller; only with none idle does it start one, on the next port and from the current configuration; an unregistered function changes nothing. |
| `SchedulerEffects.LeaseAcquireEffect` | gateway/scheduler/scheduler.go:501-513 | AcquireInstance takes its instance in the same way. |
| `SchedulerEffects.LeaseCheckEffect` | gateway/scheduler/scheduler.go:539-582 | AcquireInstance goes on exactly for source mq and an enabled trigger of type mq with that id and mq_id; the timeout of its lease is the requested one up to the limit, by default the function's, or 30 seconds. |
| `SchedulerEffects.StartedEffect` | gateway/scheduler/scheduler.go:489-498 | A started instance goes to the end of its function's slice, busy with the caller that waited, or idle when pre-warmed. |
| `SchedulerEffects.StartFailedEffect` | gateway/scheduler/scheduler.go:489-492 | A failed start leaves nothing behind but the port. |
| `SchedulerEffects.HttpReleaseEffect` | gateway/scheduler/scheduler.go:651-656 | The instance becomes idle with the time of the release; nothing else changes but its caller. |
| `SchedulerEffects.LeaseRecordEffect` | gateway/scheduler/scheduler.go:526-535 | The lease names the acquired instance and ends five seconds after its timeout. |
| `SchedulerEffects.ReleaseByStatus` | gateway/scheduler/scheduler.go:601-618 | Releasing with timeout or abandoned takes exactly the lease's instance out of the pools and stops it; with success or error it stays where it was, idle with the time of the release, and nothing is stopped. |
| `SchedulerEffects.AbandonedIsNeverReused` | gateway/scheduler/scheduler.go:608-614 | After a release with timeout or abandoned no later acquire, in any continuation, returns that instance. |
| `SchedulerEffects.ReleaseRefused` | gateway/scheduler/scheduler.go:584-606 | An unknown status or lease changes nothing. |
| `SchedulerEffects.IdleReapEffect` | gateway/scheduler/scheduler.go:733-745 | The idle reaper takes exactly the pooled instances idle for more than five minutes, and stops them. |
| `SchedulerEffects.LeaseReapEffect` | gateway/scheduler/scheduler.go:630-648 | The lease reaper ends exactly the leases past their deadline, stops exactly their instances and takes those out of the pools. |
| `SchedulerEffects.RemoveIdleEffect` | gateway/scheduler/scheduler.go:839-863 | RemoveIdle takes the longest idle instance of the function, the first of several, if it has been idle for two minutes, and stops it; otherwise nothing changes. |
| `SchedulerEffects.DeregisterEffect` | gateway/scheduler/scheduler.go:291-303 | The function and its slice go, and everything in the slice is stopped. |
| `SchedulerEffects.RegisterEffect` | gateway/scheduler/scheduler.go:223-236 | A free name gets the configuration under a new code tag; when the metadata is not saved the functions are as before; a taken name changes nothing. |
| `SchedulerEffects.UploadEffect` | gateway/scheduler/scheduler.go:354-371 | The configuration that the upload read goes back with a new code tag, the slice is emptied, and what was in it is stopped exactly if the metadata is saved. |
| `SchedulerEffects.PrewarmEffect` | gateway/scheduler/scheduler.go:813-822 | A pre-warming start takes the next port and the current code. |
| `SchedulerEffects.CountIs` | gateway/scheduler/scheduler.go:797-809 | Stats counts the instances of the slice in each state. |
| `InstanceNames.IdsAreNew` | gateway/scheduler/k8s_backend.go:82-84 | In every state reachable by runs whose starts use pod names of accepted functions, the pod name of any running start names no instance so far. |
| `InstanceNames.NewIdIsNew` | gateway/scheduler/k8s_backend.go:82-84 | The name is new because it holds the port, no port is given twice, and names are injective. |
| `InstanceNames.StartKeepsNames` | gateway/scheduler/k8s_backend.go:82-119 | Starting under that name appends the instance to its pool and keeps all instances so named. |
| `InstanceNames.RunNamed` | gateway/scheduler/k8s_backend.go:82-119 | Over any such run every instance keeps the name of its function and port. |
| `InstancePool.SpliceIsKeep` | gateway/scheduler/scheduler.go:620-628 | Splicing one entry out of a pool without duplicates is removing that id and keeping the order of the others. |
| `InstancePool.KeepTwice` | gateway/scheduler/scheduler.go:734-745 | Removing two sets of ids one after the other is removing their union. |
| `InstancePool.ReapTurnStep` | gateway/scheduler/scheduler.go:633-643 | One visit of the lease map extends what has been reaped so far by exactly that lease if it is due; the order of visits does not matter. |
| `InstancePool.SweepOneMore` | gateway/scheduler/scheduler.go:733-745 | Rebuilding one more slice extends the sweep of the pool map by that function. |
| `InstancePool.ClampLeaseTimeout` | gateway/scheduler/scheduler.go:539-561 | The lease timeout is positive, within a positive function timeout or else within the default maximum, and the requested one whenever that is in range. |
| `SchedulerObject.Scheduler.constructor` | gateway/scheduler/scheduler.go:137-166 | A new scheduler represents the loaded functions, no instances and no leases. |
| `SchedulerObject.Scheduler.TakeIdle` | gateway/scheduler/scheduler.go:468-487 | The first section of Acquire marks the first idle container of the slice busy in place, or takes a port and the configuration to start from. |
| `SchedulerObject.Scheduler.AddInstance` | gateway/scheduler/scheduler.go:494-496 | The section after a start appends a new container object to the slice. |
| `SchedulerObject.Scheduler.Release` | gateway/scheduler/scheduler.go:651-656 | The shared container becomes idle, seen through every slice and lease that points to it. |
| `SchedulerObject.Scheduler.Record` | gateway/scheduler/scheduler.go:525-534 | The lease record points at the container and expires five seconds after the timeout. |
| `SchedulerObject.Scheduler.Remove` | gateway/scheduler/scheduler.go:620-628 | The container is spliced out of its function's slice; no other pool changes. |
| `SchedulerObject.Scheduler.ReleaseLocked` | gateway/scheduler/scheduler.go:601-618 | A recorded lease is dropped and its instance made idle or removed by status; an unknown lease changes nothing. |
| `SchedulerObject.Scheduler.ReleaseInstance` | gateway/scheduler/scheduler.go:584-599 | Refused exactly for an unknown status or lease; otherwise the lease ends and the instance to stop is returned. |
| `SchedulerObject.Scheduler.ReapExpired` | gateway/scheduler/scheduler.go:630-648 | The loop over the lease map, in any order, ends exactly the expired leases and returns their instances. |
| `SchedulerObject.Scheduler.ReapIdleContainers` | gateway/scheduler/scheduler.go:731-750 | The loop over the pool map rebuilds every slice without the containers idle for more than five minutes and returns exactly those. |
| `SchedulerObject.Scheduler.Alive` | gateway/scheduler/scheduler.go:734-743 | The inner loop keeps the others in order. |
| `SchedulerObject.Scheduler.Oldest` | gateway/scheduler/scheduler.go:842-851 | The search finds the first of the longest idle containers. |
| `SchedulerObject.Scheduler.RemoveIdle` | gateway/scheduler/scheduler.go:839-864 | Removes and returns that container if it was idle for two minutes, and reports whether it did. |
| `SchedulerObject.Scheduler.Stats` | gateway/scheduler/scheduler.go:797-809 | Counts the busy and the idle containers of a slice. |
| `SchedulerObject.Scheduler.AddFunction` | gateway/scheduler/scheduler.go:223-229 | The section of Register refuses a taken name and otherwise adds the function. |
| `SchedulerObject.Scheduler.DropFunction` | gateway/scheduler/scheduler.go:231-236 | A registration whose metadata cannot be saved is undone. |
| `SchedulerObject.Scheduler.DeregisterFunction` | gateway/scheduler/scheduler.go:291-303 | Function and slice are removed and every container of the slice is returned to be stopped. |
| `SchedulerObject.Scheduler.CommitCode` | gateway/scheduler/scheduler.go:354-359 | The configuration is replaced and the slice detached. |
| `SchedulerObject.Scheduler.BeginColdStart` | gateway/scheduler/scheduler.go:813-822 | ColdStartOne takes a port and the current configuration, for a registered function only. |
| `Admission.AdmissionHolds` | gateway/queue/queue.go:48-88 | Over any run of requests and scheduler events: HTTP holders plus HTTP cold starts of a function stay within maxInflight, the semaphore and the queued counter equal the requests in their sections and stay within their limits, each arrived request is live or has one outcome, and both counters are zero when no request is live. |
| `Admission.StepInv` | gateway/queue/queue.go:48-88 | Every step of queue, router and scheduler keeps the combined invariant. |
| `Admission.StepCounts` | gateway/queue/queue.go:71-87 | A step changes semaphore and counter by exactly the change of the requests they count. |
| `Admission.TokenIsThere` | gateway/queue/queue.go:53-76 | The deferred receive from the semaphore always finds a token. |
| `Admission.OutcomeIsFinal` | gateway/queue/queue.go:48-88 | Over any run an outcome is never replaced and an ended request never becomes live again. |
| `Admission.RankNeverGrows` | gateway/router/router.go:29-82 | No step of anyone takes a request further from its outcome. |
| `Admission.NeverStuck` | gateway/router/router.go:29-82 | From every state of the invariant a live request can be brought to an outcome by at most nine steps, and keeps it over every continuation. |
| `Admission.NineMovesEnd` | gateway/router/router.go:29-82 | Over every run, whatever others do in between: a request makes at most nine moves of its own (its cold start counts as one), and after nine it has its outcome. |
| `AdmissionOutcomes.OutcomesExactly` | gateway/queue/queue.go:48-88 | Over any run, a request has the outcome Responded exactly if it responded while holding an instance of its function; NoInstance, if its Acquire left it none; NotFound, if the lookup found its function not registered; BadBody, if the body could not be read; QueueFull, if it met a full queue; QueueTimeout or ClientGone, if it timed out or was cancelled while waiting. |
| `AdmissionOutcomes.StepStands` | gateway/router/router.go:29-82 | Exactly one event decides for each request, and nothing replaces its outcome afterwards. |
| `AdmissionOutcomes.QueuedWereRefused` | gateway/queue/queue.go:51-64 | Over any run, who is turned away at the queue, times out in it or leaves it had found all tokens of the function taken that it arrived for. |
| `AdmissionOutcomes.QueueEffect` | gateway/queue/queue.go:51-72 | A token is taken exactly when one is free, at first or while waiting, and the queue has room exactly below its limit. |
| `AdmissionOutcomes.LeaveEffect` | gateway/queue/queue.go:71-86 | Leaving the queue gives back its place, and the end of the router's call the token. |
| `AdmissionOutcomes.RouterEffect` | gateway/router/router.go:29-49 | A request for a registered function whose body is read calls Acquire for that function; its response releases what it holds. |
| `AdmissionObject.Manager.Get` | gateway/queue/queue.go:121-131 | Every request of a function gets the same queue object. |
| `AdmissionObject.Manager.TryToken` | gateway/queue/queue.go:51-57 | A token is taken exactly when the channel is not full. |
| `AdmissionObject.Manager.Enqueue` | gateway/queue/queue.go:59-66 | The counter grows exactly when it is below maxQueue. |
| `AdmissionObject.Manager.Dequeue` | gateway/queue/queue.go:73-86 | The counter shrinks after the second select. |
| `AdmissionObject.Manager.ReturnToken` | gateway/queue/queue.go:53-53 | The token is given back. |
| `AdmissionObject.Manager.ReadQueued` | gateway/queue/queue.go:107-110 | The first read of Status: the counter, inside the mutex, of a queue that is created when missing. |
| `AdmissionObject.Manager.ReadInFlight` | gateway/queue/queue.go:114-114 | The second read of Status: the tokens in the channel, at a later moment. |
| `JsonScanner.AcceptsExactlyJson` | runtime/bootstrap/java/JavaBootstrap.java:112-122 | Acceptance holds if and only if the units are a JSON text by sections 2 to 7 of RFC 8259, with whitespace widened to Character.isWhitespace. |
| `JsonScanner.RequireJson` | runtime/bootstrap/java/JavaBootstrap.java:112-122 | requireJson succeeds exactly for non-null JSON texts. |
| `JsonScanner.ValueSound` | runtime/bootstrap/java/JavaBootstrap.java:174-194 | Where readValue stops, a value of the grammar ends. |
| `JsonScanner.ValueComplete` | runtime/bootstrap/java/JavaBootstrap.java:174-194 | A value of the grammar that what follows cannot prolong is read to exactly its end. |
| `JsonScanner.CompositeSound` | runtime/bootstrap/java/JavaBootstrap.java:196-226 | What readComposite reads is whitespace or comma separated items up to the closing unit. |
| `JsonScanner.CompositeComplete` | runtime/bootstrap/java/JavaBootstrap.java:196-226 | An object or array of the grammar is read to its closing unit. |
| `JsonScanner.StringSound` | runtime/bootstrap/java/JavaBootstrap.java:228-249 | What readString reads are the chars of a string and its closing quote. |
| `JsonScanner.StringComplete` | runtime/bootstrap/java/JavaBootstrap.java:228-249 | Every string of the grammar is read to its closing quote. |
| `JsonScanner.NumberSound` | runtime/bootstrap/java/JavaBootstrap.java:271-307 | What readNumber reads is a number of section 6, without leading zeros. |
| `JsonScanner.NumberComplete` | runtime/bootstrap/java/JavaBootstrap.java:271-313 | Greedy reading finds the end of every number that the next unit cannot prolong. |
| `JsonScanner.LiteralComplete` | runtime/bootstrap/java/JavaBootstrap.java:180-182 | Each literal name is recognised by its first unit and suffix. |
| `JsonGrammar.CharacterClasses` | runtime/bootstrap/java/JavaBootstrap.java:168-313 | The character classes of the grammar are those of RFC 8259 by their characters; the widened whitespace adds six controls below U+0100. |
| `JsonGrammar.Tokens` | runtime/bootstrap/java/JavaBootstrap.java:180-186 | So are its tokens and literal names. |
| `JsonScanner.Scanner.Read` | runtime/bootstrap/java/JavaBootstrap.java:174-194 | The cursor moves to where the specification says, in bounds, or the method fails; the mutual recursion ends. |
| `JsonScanner.Scanner.Composite` | runtime/bootstrap/java/JavaBootstrap.java:196-226 | The loop over items reaches the position after the closing unit, or fails. |
| `JsonScanner.Scanner.Item` | runtime/bootstrap/java/JavaBootstrap.java:202-224 | One turn of that loop: continue after a comma, return after the closing unit, or fail. |
| `JsonScanner.Scanner.Name` | runtime/bootstrap/java/JavaBootstrap.java:203-213 | The name and the colon of a member. |
| `JsonScanner.Scanner.ReadStringRest` | runtime/bootstrap/java/JavaBootstrap.java:228-249 | The loop over chars and escapes. |
| `JsonScanner.Scanner.HexDigits` | runtime/bootstrap/java/JavaBootstrap.java:251-261 | Exactly four hexadecimal digits. |
| `JsonScanner.Scanner.Suffix` | runtime/bootstrap/java/JavaBootstrap.java:263-269 | The rest of a literal name. |
| `JsonScanner.Scanner.NumberRest` | runtime/bootstrap/java/JavaBootstrap.java:271-307 | Sign, integer part, fraction and exponent. |
| `JsonScanner.Scanner.Digits` | runtime/bootstrap/java/JavaBootstrap.java:309-313 | All the digits that follow. |
| `JsonScanner.Scanner.Skip` | runtime/bootstrap/java/JavaBootstrap.java:168-172 | All the whitespace that follows. |
| `JsonQuote.Quote` | runtime/bootstrap/java/JavaBootstrap.java:130-149 | The loop with its StringBuilder prints the escapes of all chars between quotes. |
| `JsonQuote.QuoteRoundTrip` | runtime/bootstrap/java/JavaBootstrap.java:130-149 | Reading quote(v) with the string scanner consumes exactly its whole length, and decoding its escapes by section 7 of RFC 8259 gives back v. |
| `JsonQuote.QuoteIsInjective` | runtime/bootstrap/java/JavaBootstrap.java:130-149 | Different strings have different quotations. |
| `JsonQuote.ReadsOne` | runtime/bootstrap/java/JavaBootstrap.java:134-147 | Each printed escape is read as one char and decodes to the char it was printed for. |
| `JsonQuote.EscapedExactly` | runtime/bootstrap/java/JavaBootstrap.java:130-149 | Each char is printed as itself, as one of five short escapes, or, for other controls, as four small hexadecimal digits. |
| `JsonQuote.ErrorJsonIsJson` | runtime/bootstrap/java/JavaBootstrap.java:124-128 | Every errorJson result, for a null throwable or message too, is a JSON text, hence accepted. |
| `JsonQuote.ErrorJsonSays` | runtime/bootstrap/java/JavaBootstrap.java:124-128 | It is an object of the members errorType and errorMessage, whose strings read back as the simple name (Error for a null throwable) and the message (empty when null). |
| `JsonQuote.EscapesMean` | runtime/bootstrap/java/JavaBootstrap.java:241-241 | The short escapes decode as section 7 says. |
| `Attempts.CountRoundTrip` | mqsvc/rabbitmq.go:174-190 | The attempt count read back from a published copy is the count given if and only if it fits int32; no other header but the reason changes. |
| `Attempts.PublishingForDelivery` | mqsvc/rabbitmq.go:174-190 | The loop copies the header table and sets count and reason. |
| `HeaderCount.CountReads` | mqsvc/rabbitmq.go:245-261 | A missing header counts as 0, an int, int32 or int64 as itself, and another type as 0. |
| `HeaderCount.TextReads` | mqsvc/rabbitmq.go:256-258 | A string that is the decimal form of a number counts as that number, or the nearest int when out of range. |
| `HeaderCount.OtherTextReads` | mqsvc/rabbitmq.go:256-258 | A string of at most 19 characters that is none counts as 0. |
| `HeaderCount.PublishingKeeps` | mqsvc/rabbitmq.go:174-182 | A copy carries the count as int32, the reason when there is one, and all other headers as they were. |
| `DeliveryEffects.HandledEffect` | mqsvc/worker.go:50-121 | A successful run with an accepted release is acked; a failed release is retried with its own error; any other failure goes to the dead-letter queue with its error if MaxAttempts > 0, there is such a queue and the count + 1 has reached the limit, and is retried with it otherwise. |
| `DeliveryEffects.StatusMeans` | mqsvc/worker.go:69-81 | The lease is released as success, timeout, abandoned or error. |
| `DeliveryEffects.WaitedEffect` | mqsvc/rabbitmq.go:119-126 | After the backoff comes the publish, or the nack when the context was cancelled. |
| `DeliveryEffects.PublishedEffect` | mqsvc/rabbitmq.go:148-190 | A stored publish puts one copy, with one attempt more and all other headers as they were, into the dead-letter queue or the trigger's own; the delivery is acked next exactly if it was confirmed. |
| `DeliveryEffects.SettledEffect` | mqsvc/rabbitmq.go:136-146 | An ack that arrives removes the delivery, a nack puts it back. |
| `DeliveryEffects.BeginEffect` | mqsvc/rabbitmq.go:76-94 | A received delivery is handled exactly when fewer than MaxConcurrency goroutines of the subscription run. |
| `Attempts.VerdictMeans` | mqsvc/worker.go:50-121 | A message is acked exactly after a successful run with an accepted release, and dead-lettered exactly when its attempts are used up and no release failed. |
| `Attempts.BoundedAttempts` | mqsvc/worker.go:119-121 | For one trigger by itself and any count a in the header: its handlings of a message end acked or dead-lettered within max(1, n - a), whatever the runs do, if and only if the limit n is positive with a dead-letter queue other than its own, a is not the largest int, and n is at most 2^31 or already reached. |
| `Attempts.NeverEnds` | mqsvc/rabbitmq.go:105-134 | Without limit or dead-letter queue, with its own queue as dead-letter queue, or with a limit beyond the range of the int32 header and not yet reached, a failing message is handled for ever. |
| `Attempts.FailedReleasesNeverEnd` | mqsvc/worker.go:83-107 | A release that always fails keeps a message past any limit, because it bypasses the dead-letter test. |
| `Delivery.NoMessageIsLost` | mqsvc/rabbitmq.go:76-172 | In every reachable state, with publish errors, lost confirms, cancelled contexts, lost acks and returned deliveries, each sent message has a copy queued, dead-lettered or unacked, or ran successfully with an accepted release; and a subscription never runs more than MaxConcurrency handlings at once. |
| `DeliveryNet.NoMessageIsLostAmongAll` | mqsvc/rabbitmq.go:76-172 | The same for any number of triggers of a broker, which may consume the same queue and dead-letter into each other's queues. |
| `Delivery.StepInv` | mqsvc/rabbitmq.go:76-172 | Every step keeps what this needs: each message is done or has a copy that no goroutine is about to ack. |
| `Delivery.PublishedAnchors` | mqsvc/rabbitmq.go:148-172 | A confirmed copy is what allows the old delivery to be acked. |
| `DeadLetters.ShownExactly` | mqsvc/rabbitmq.go:99-190 | In all runs in which the releases of a message succeed, whatever else fails: its dead letters show a count of at least MaxAttempts n if and only if the count a that it is sent with satisfies, when a + 1 reaches n: n <= (a + 1) mod 2^32 < 2^31; otherwise: n > 2^31 (it is never dead-lettered), or n < 2^31 and (a + 1) mod 2^32 is not 2^31 - 1. |
| `DeadLetters.DeadAreExhausted` | mqsvc/rabbitmq.go:108-118 | Over any run of a trigger every dead letter is the next copy of one that an event k of that run ended the handling of, with a count c where c + 1 >= MaxAttempts; and its header shows a count of at least MaxAttempts if and only if (c + 1) mod 2^32 lies from MaxAttempts up to below 2^31. |
| `DeliveryOrigins.EveryCopyComes` | mqsvc/rabbitmq.go:99-190 | Over any run of all triggers of a broker, each copy in a queue was sent to that queue with its header, or is the next copy of one that a consumer of the queue handled in this run and retried, or of one that a trigger with this dead-letter queue handled in this run and dead-lettered. |
| `DeliveryOrigins.OnlyDeadLetters` | mqsvc/rabbitmq.go:108-118 | So in a queue that nobody consumes or sends to, every copy was handled in this run by a trigger with this dead-letter queue, with a used-up count, and its header shows that exactly as above. |
| `DeadLetters.DeadHeader` | mqsvc/rabbitmq.go:174-190 | For a count c that an earlier publish wrote, the header shows at least MaxAttempts if and only if c + 1 < 2^31. |
| `DeadLetters.DeadLetterWraps` | mqsvc/rabbitmq.go:179-179 | A run in which the dead letter's header holds -2^31: a message sent with the largest int32, handled once. |
| `DeliveryCopies.CopiesExactly` | mqsvc/rabbitmq.go:99-172 | A step raises the number of live copies of a message (queued, dead-lettered, or unacked and not about to be acked) if and only if it is the first send, a stored publish whose confirm is lost or whose delivery has already gone back, a lost ack of an unacked delivery, or the return of a delivery about to be acked; the end of a successful run, and nothing else, lowers it, by one. |
| `DeliveryNetCopies.NetCopiesExactly` | mqsvc/rabbitmq.go:99-172 | The same among all triggers of a broker with shared and crossing queues. |
| `DeliveryNetCopies.CopiesConserved` | mqsvc/rabbitmq.go:99-172 | Among all triggers, over any run: the live copies of a message plus its successful runs equal the additions, so a message that no failure duplicated has at most one live copy. |
| `Delivery.LostConfirmDuplicates` | mqsvc/rabbitmq.go:119-131 | The shortest such failure: when only the confirm of a retry copy is lost, the copy and the requeued delivery both remain. |
| `DeliveryExact.BoundedExactly` | mqsvc/rabbitmq.go:99-134 | For all triggers of a broker together and any count a in the header: in every interleaving in which the releases, confirms and acks of a message succeed, it is handled at its queue at most as often as the largest max(1, n - a) of the queue's consumers, if and only if each of these has a limit n with a dead-letter queue, a is not the largest int, n is at most 2^31 or already reached, and no chain of dead letters leads from there back to the queue. |
| `DeliveryExact.BoundedForOne` | mqsvc/rabbitmq.go:99-134 | For a trigger that is its queue's only consumer: at most max(1, n - a) handlings, if and only if that condition holds of it. |
| `DeliveryExact.BoundExceeded` | mqsvc/rabbitmq.go:108-131 | In every other case there is a run in which the functions fail, and nothing else does, that exceeds the bound. |
| `DeliveryExact.BoundReached` | mqsvc/rabbitmq.go:99-134 | Where the condition holds of a trigger and a is at least -2^31, failing all the time the message is handled exactly max(1, n - a) times and then stands alone in the dead-letter queue: the bound is the least one. |
| `DeliveryExact.NewMessageIsTried` | mqsvc/rabbitmq.go:99-134 | A message without the header, to a queue's only consumer with a limit up to 2^31 whose dead letters do not come back, is handled at most MaxAttempts times in every such interleaving, and exactly MaxAttempts times when the function always fails. |
| `DeliveryExact.CrossingTriggers` | mqsvc/rabbitmq.go:113-113 | For instance two triggers whose dead-letter queues are each other's queues: any number of handlings is reached. |
| `DeliveryBound.HandledWithinBound` | mqsvc/rabbitmq.go:99-134 | The bound where the condition holds, whatever happens to other messages and whatever all triggers of the broker do. |
| `DeliveryBound.NetStepAstray` | mqsvc/rabbitmq.go:108-113 | A message that has left the queue stays at queues from which no dead letters lead back. |
| `DeliveryExact.EndsAckedOrDead` | mqsvc/rabbitmq.go:105-118 | Among all triggers, in a run that is smooth for the message: once no trigger holds a copy or has one in its queue, the message ran successfully or stands in a queue that no trigger consumes. |
| `DeliveryObject.Broker.AckDelivery` | mqsvc/rabbitmq.go:136-140 | An ack removes the delivery, and nothing when the tag is gone. |
| `DeliveryObject.Broker.NackDelivery` | mqsvc/rabbitmq.go:142-146 | A nack puts the delivery back in the queue. |
| `DeliveryObject.Broker.PublishWithConfirm` | mqsvc/rabbitmq.go:148-172 | Returns nil exactly when the confirm arrives; a stored copy is in the queue named. |
| `DeliveryObject.Broker.Proceed` | mqsvc/rabbitmq.go:105-133 | The switch over the result has the effects of the protocol's steps, in order. |
| `DeliveryObject.Broker.RetryLater` | mqsvc/rabbitmq.go:119-132 | Backoff, then a copy to the trigger's own queue, then ack or nack. |
| `DeliveryObject.Broker.HandleDelivery` | mqsvc/rabbitmq.go:99-134 | One uninterrupted handleDelivery is the run of its events, and counts in the metrics as its verdict. |
| `WorkerMetrics.Worker.HandleMessage` | mqsvc/worker.go:50-112 | Result, release status and counters follow from what gateway and runtime answered. |
| `WorkerMetrics.Metrics.Received` | mqsvc/metrics.go:24-26 | Received and Inflight of this trigger grow by one. |
| `WorkerMetrics.Metrics.Acked` | mqsvc/metrics.go:27-34 | Acked grows, Inflight shrinks unless zero. |
| `WorkerMetrics.Metrics.Retried` | mqsvc/metrics.go:35-44 | Retried and Errors grow, Inflight shrinks unless zero. |
| `WorkerMetrics.Metrics.DLQed` | mqsvc/metrics.go:45-54 | DLQ and Errors grow, Inflight shrinks unless zero. |
| `WorkerMetrics.Accounting` | mqsvc/metrics.go:24-62 | Over any interleaving, for each trigger: Received = Inflight + Acked + Retried + DLQ, Errors = Retried + DLQ, and Inflight is the number of executions between receipt and verdict. |
| `WorkerMetrics.CountersMean` | mqsvc/metrics.go:24-62 | Each call changes exactly its counters, by one, of its trigger alone, and keeps the last error of a failure. |
| `WorkerMetrics.GuardNeverFails` | mqsvc/metrics.go:30-52 | The guards that keep Inflight from going negative never take effect. |
| `Rendezvous.StepInv` | runtime/cmd/runtime/main.go:134-264 | Every step of callers, pollers, responders and the clock keeps the invariant. |
| `Rendezvous.QueueWithinLimit` | runtime/cmd/runtime/main.go:143-149 | The queue never exceeds its limit. |
| `Rendezvous.DispatchInOrder` | runtime/cmd/runtime/main.go:193-213 | Dispatches follow the order of admission, and no id is dispatched twice. |
| `Rendezvous.NobodyOvertaken` | runtime/cmd/runtime/main.go:193-213 | An invocation admitted before a dispatched one was dispatched too, unless its deadline has come and it is no longer queued. |
| `Rendezvous.ResponseIsOwn` | runtime/cmd/runtime/main.go:159-166 | A caller that got 200 got the response that was accepted for its own id. |
| `Rendezvous.AcceptedOnce` | runtime/cmd/runtime/main.go:258-262 | For an id with an accepted response any further response is rejected and changes nothing. |
| `Rendezvous.AcceptedIsFinal` | runtime/cmd/runtime/main.go:258-264 | An accepted response is never replaced. |
| `Rendezvous.SendNeverBlocks` | runtime/cmd/runtime/main.go:264-264 | The send of an accepted response finds its channel empty. |
| `Rendezvous.OutcomeIsFinal` | runtime/cmd/runtime/main.go:159-173 | A caller that ended in 200 or 504 keeps that outcome. |
| `Rendezvous.NeverStuck` | runtime/cmd/runtime/main.go:152-173 | A caller in flight always has a step of its own that takes it nearer to an end; in the select, once its timer, which starts there, has fired. |
| `Rendezvous.CallerEnds` | runtime/cmd/runtime/main.go:152-173 | From every state an admitted caller can be brought to its end by the clock and at most five steps of its own, and keeps that end over every continuation. |
| `Rendezvous.FiveMovesEnd` | runtime/cmd/runtime/main.go:152-173 | Over every run a caller makes at most as many moves of its own as it has left, five at most, and after these it has ended. |
| `Rendezvous.LeftNeverGrows` | runtime/cmd/runtime/main.go:152-173 | No step of anyone takes a caller further from its end. |
| `Rendezvous.FinishedIsGone` | runtime/cmd/runtime/main.go:167-185 | If only dispatched ids are answered, a finished id is in neither the queue nor the in-flight map. |
| `Rendezvous.WakeupExactly` | runtime/cmd/runtime/main.go:152-225 | With at most k pollers at a time, every sleeper beside a nonempty queue always has a token in the notify slot, a caller about to place one, or an awake poller, in all runs, if and only if k <= 1 or the queue limit is at most 1. |
| `Rendezvous.NoLostWakeup` | runtime/cmd/runtime/main.go:152-225 | With one poller at a time, that is a token or a caller about to place one. |
| `Rendezvous.TwoPollersMissAWakeup` | runtime/cmd/runtime/main.go:152-225 | For any limit of two or more, the run in which the second send finds the slot full and a poller sleeps on beside a queued invocation. |
| `RendezvousEffects.CallEffect` | runtime/cmd/runtime/main.go:134-150 | A call is queued at the end, with a deadline its timeout after it was made, exactly below the limit; otherwise it is refused. |
| `RendezvousEffects.AnnounceEffect` | runtime/cmd/runtime/main.go:152-167 | The send leaves one token in any case, and the timer runs from the select. |
| `RendezvousEffects.WaitingEffect` | runtime/cmd/runtime/main.go:159-167 | A waiting caller takes a response that is there, and gives up exactly when the timer has run out. |
| `RendezvousEffects.TimeoutEffect` | runtime/cmd/runtime/main.go:167-185 | Then its id leaves the in-flight map, and its first entry the queue. |
| `RendezvousEffects.NextEffect` | runtime/cmd/runtime/main.go:193-213 | The head of the queue is dispatched, or discarded after its deadline; with an empty queue the poller sleeps. |
| `RendezvousEffects.PollerEffect` | runtime/cmd/runtime/main.go:198-224 | A discarded id leaves the in-flight map; a sleeper wakes exactly by taking the token. |
| `RendezvousEffects.RespondEffect` | runtime/cmd/runtime/main.go:258-264 | A response is accepted exactly for an id in flight, and goes into that id's channel. |
| `RendezvousObject.DrainTakesFirstLive` | runtime/cmd/runtime/main.go:193-215 | handleNext takes the first invocation not past its deadline; those before it leave queue and in-flight map, those behind it stay. |
| `RendezvousObject.Runtime.Enqueue` | runtime/cmd/runtime/main.go:142-150 | The section admits the invocation exactly when the queue is below its limit. |
| `RendezvousObject.Runtime.Announce` | runtime/cmd/runtime/main.go:152-155 | After the send the slot holds a token, whether it was free or not. |
| `RendezvousObject.Runtime.RemoveQueuedInvocation` | runtime/cmd/runtime/main.go:176-185 | The loop removes the first entry with the id. |
| `RendezvousObject.Runtime.TakeNext` | runtime/cmd/runtime/main.go:193-215 | The loop of handleNext up to its select. |
| `RendezvousObject.Runtime.LoadAndDelete` | runtime/cmd/runtime/main.go:258-262 | An id in flight is claimed once; any other is refused. |
| `LogTail.Ring.constructor` | logdaemon/shared.go:37-43 | An empty ring. |
| `LogTail.Ring.Push` | logdaemon/shared.go:45-53 | The push history grows by the entry, for any number of wraparounds. |
| `LogTail.Ring.Last` | logdaemon/shared.go:64-79 | tail(n) is the last min(n, count) entries of the whole push history. |
| `LogTail.Ring.LocalEntries` | logdaemon/shared.go:224-242 | With a stream it returns the entries of the tail, as they are and in order, that are of that stream, and no others; without one, the tail. |
| `LogTail.MatchingSelects` | logdaemon/shared.go:236-241 | The filter selects, at strictly increasing places, exactly the entries of the stream. |
| `LogTail.FilterAfterTail` | logdaemon/shared.go:224-242 | For any n, with a stream filter the answer is the last n matching entries (all of them for n <= 0) if and only if nothing older than the tail read from the ring matches, or n is positive and no more than the ring size and the tail matches entirely. |
| `LogTail.PodsOnce` | logdaemon/shared.go:373-384 | No collector is asked twice. |
| `LogTail.PodsExactly` | logdaemon/shared.go:374-384 | A collector is asked if and only if it runs on a node of some instance. |
| `LogTail.SortByTime` | logdaemon/shared.go:395-395 | The contract of the library sort: ordered by time, nothing lost. |
| `LogTail.FetchLogs` | logdaemon/shared.go:362-401 | For any function, tail and stream filter: an error only when instances or collectors cannot be listed; otherwise the sorted and cut union of the answers. |
| `LogTail.FetchedAsAnswered` | logdaemon/shared.go:374-400 | Every entry that fetchLogs returns stands in the answer of a collector on a node of some instance, as it was answered; without a limit on the tail all of those are returned. |
| `LogTail.SinceTails` | logdaemon/shared.go:362-401 | Cutting each ring to its last n keeps the number of entries since any time, up to n. |
| `LogTail.DistributedTail` | logdaemon/shared.go:362-401 | Tail per node, merge, sort and cut gives the same time sequence as sorting all rings together and taking the last n. |
| `LogTail.AnsweringTail` | logdaemon/shared.go:362-401 | For 0 < n <= the ring size the times of the merge are the last n of everything ever pushed to the collectors that answer. |
| `LogGlobal.FetchExactly` | logdaemon/shared.go:362-401 | For any nodes, failures, tail and stream filter, fetchLogs returns the last times of everything that passes the filter on all collectors if and only if each entry that the answers miss lies behind at least n answered ones (nothing is missed, when n sets no limit). |
| `LogGlobal.FetchIsGlobal` | logdaemon/shared.go:362-401 | Unfiltered and for 0 < n <= the ring size: these are the last n times ever pushed on any node if and only if every entry of a collector that was not asked or did not answer lies behind at least n entries of the answers. |
| `LogGlobal.LeavingOut` | logdaemon/shared.go:362-401 | Leaving some entries out of a tail keeps its times exactly under that condition. |
| `LogGlobal.ScaledAwayIsMissed` | logdaemon/shared.go:374-384 | It can fail: a node whose last instance is gone is not asked, though its ring holds the latest entry. |
| `LogTail.FetchIsAllHeld` | logdaemon/shared.go:64-79 | For any other n the answer has the times of the last n, or all, of what the rings hold. |
| `Reconcile.MergeTriggers` | mqsvc/main.go:142-160 | The merged triggers have strictly increasing keys and are exactly the last discovered trigger of each key, or else the last configured one. |
| `Reconcile.MergeIsUnique` | mqsvc/main.go:142-160 | That determines the merged sequence. |
| `ReconcileEffects.MergeHolds` | mqsvc/main.go:142-160 | By position: the merge holds the last discovered trigger of each key, and the last configured one of each key not discovered, and nothing else. |
| `ReconcileEffects.AtMostMeans` | mqsvc/main.go:153-153 | The order of the keys is that of their first difference. |
| `ReconcileEffects.KeyParts` | mqsvc/main.go:308-310 | A key is mq_id, function and id, in this order, between colons. |
| `Reconcile.SortStringsSorts` | mqsvc/main.go:153-153 | The contract of sort.Strings: ordered, nothing lost. |
| `Reconcile.Normalize` | mqsvc/config.go:129-141 | A normalised trigger keeps id, type, enabled, mq_id, queue, function, max_attempts, dlq and every positive concurrency, prefetch and backoff; others become 1, the concurrency and 1000; its broker is the instance's. |
| `Reconcile.ReconcileReaches` | mqsvc/main.go:162-209 | When nil is returned the consumers are exactly the normalised enabled triggers; exactly the changed or vanished consumers were cancelled and the unchanged ones run on; when a broker fails, what runs is still only desired. |
| `ReconcileEffects.ConsumersAreConfigured` | mqsvc/main.go:162-209 | When nil is returned the consumers are exactly those of the last enabled trigger of each key, and each runs with the queue, dead-letter queue, function and limits that this trigger configures. |
| `ReconcileEffects.SucceedsExactly` | mqsvc/main.go:203-216 | Nil is returned exactly if each desired trigger runs unchanged already, or its broker was dialled before or is a reachable RabbitMQ; otherwise the error names the first one, in key order, for which that fails. |
| `ReconcileEffects.UnknownReported` | mqsvc/main.go:166-175 | An unknown mq_id is reported with the id of the first enabled trigger that has one, before anything changes. |
| `ReconcileEffects.InstanceIs` | mqsvc/config.go:143-149 | Of several instances with one mq_id the last counts. |
| `Reconcile.UnknownChangesNothing` | mqsvc/main.go:172-175 | An unknown mq_id of an enabled trigger, and nothing else, is reported as such, before anything changes. |
| `Reconcile.ReconcileAgain` | mqsvc/main.go:162-209 | A repeat call with the same input starts and cancels nothing, even if no broker can be reached. |
| `ReconcileRuns.LiveAreConsumers` | mqsvc/main.go:162-247 | Over any run of reconciles with exits anywhere in between: the live consumers that are not cancelled are exactly those in the map if and only if no consumer ended while another one for an equal trigger was in the map. |
| `ReconcileRuns.OrphansExactly` | mqsvc/main.go:231-245 | A live uncancelled consumer drops out of the map exactly when such an exit deletes its entry, and then no step ever puts it back. |
| `ReconcileRuns.ReconcileAmidExits` | mqsvc/main.go:162-247 | With exits between its sections a reconcile still ends in the state and with the result that it would have had without them, if none of them is such an exit. |
| `ReconcileRuns.AgainAmidExits` | mqsvc/main.go:162-209 | After a reconcile that returned nil, and any such exits, a second one with the same triggers starts and cancels nothing. |
| `ReconcileRuns.LateExitDoubles` | mqsvc/main.go:231-245 | For every trigger there is a run with such an exit that ends with two live uncancelled consumers of it and only the later one in the map. |
| `Reconcile.Service.constructor` | mqsvc/main.go:87-98 | A new service has no consumers. |
| `Reconcile.Service.Collect` | mqsvc/main.go:163-180 | The first loop returns the desired map with its sorted keys, or the first trigger with an unknown mq_id. |
| `Reconcile.Service.Drop` | mqsvc/main.go:184-190 | Exactly the consumers that are not desired are cancelled and removed. |
| `Reconcile.Service.Replace` | mqsvc/main.go:183-202 | The whole mutex section. |
| `Reconcile.Service.Start` | mqsvc/main.go:203-207 | Consumers are started in key order up to the first failure. |
| `Reconcile.Service.StartConsumer` | mqsvc/main.go:211-247 | One consumer is added under its key, or the failure returned. |
| `Reconcile.Service.BrokerFor` | mqsvc/main.go:249-306 | A broker is dialled on first use only. |
| `Reconcile.Service.ReconcileTriggers` | mqsvc/main.go:162-209 | The method is the function that the lemmas are about. |
| `Reconcile.Service.SyncTriggers` | mqsvc/main.go:130-140 | The gateway's triggers are merged in; without its answer the configured ones are used, and without those nothing changes. |
| `Reconcile.Service.ConsumerExited` | mqsvc/main.go:240-244 | The clean-up of a consumer's goroutine. |
| `Reconcile.ValidateTriggers` | mqsvc/config.go:75-114 | Accepted exactly when every trigger is valid and ids are distinct; otherwise the first complaint in source order. |
| `ReconcileEffects.ComplaintMeans` | mqsvc/config.go:75-114 | Each complaint means that its own test failed and all earlier ones passed. |
| `Reconcile.ValidatedKeysDistinct` | mqsvc/config.go:75-114 | Accepted enabled triggers never share a key. |
| `Names.MqDnsLabel` | mqsvc/config.go:167-187 | The loop with lastDash computes the label. |
| `Names.MqFixedPoints` | mqsvc/config.go:167-187 | dnsLabel leaves a name alone if and only if it has at most 63 label characters, no dash at either end and no double dash. |
| `Names.MqIdempotent` | mqsvc/config.go:167-187 | Sanitising twice is sanitising once. |
| `Names.MqKeepsLetters` | mqsvc/config.go:167-187 | Letters and digits of the lower-cased name are kept in order, and lost only by the cut at 63. |
| `Names.SqueezedDrops` | mqsvc/config.go:167-187 | A character that no label can have, or a second dash, makes no difference to what is written. |
| `Names.MqCut` | mqsvc/config.go:181-185 | More than 63 characters are cut at 63, and dashes at the cut are taken off. |
| `Names.TrimMeans` | mqsvc/config.go:181-184 | Trimming takes dashes off both ends and nothing else. |
| `Names.LowerMeans` | mqsvc/config.go:170-170 | Capital letters become small ones. |
| `Names.IsDnsLabel` | mqsvc/config.go:189-200 | isDNSLabel, as a loop. |
| `Names.DnsLabelMeans` | mqsvc/config.go:189-200 | A label has 1 to 63 small letters, digits and dashes, with no dash at either end. |
| `Names.GatewayFixedPoints` | gateway/scheduler/k8s_backend.go:375-389 | The gateway's dnsLabel leaves a name alone if and only if it has 1 to 40 label characters and no dash at either end. |
| `Names.GatewayIdempotent` | gateway/scheduler/k8s_backend.go:375-389 | It is idempotent. |
| `Names.DashedRun` | gateway/scheduler/k8s_backend.go:377-377 | Each run of other characters becomes one dash between what precedes and what follows it. |
| `Names.GatewayCut` | gateway/scheduler/k8s_backend.go:378-386 | An empty result is fn; more than 40 characters are cut at 40, and dashes at the cut are taken off. |
| `Names.AcceptedNamesAreLabels` | gateway/scheduler/scheduler.go:373-375 | Every function name that the gateway accepts satisfies isDNSLabel. |
| `Names.AcceptedIdsMayDiffer` | gateway/scheduler/scheduler.go:256-258 | A trigger id that the gateway accepts is accepted by the configuration of mqsvc if and only if it has no double dash. |
| `Names.TriggerKeyIsInjective` | mqsvc/main.go:308-310 | triggerKey is injective where function and id are labels, for any mq_id. |
| `Names.InstanceIdIsInjective` | gateway/scheduler/k8s_backend.go:83-83 | Accepted names share an instance id only for the same name and port. |
| `Names.InstanceIdParts` | gateway/scheduler/k8s_backend.go:83-83 | The id of an accepted name is faas-, the name, a dash and the port. |
| `Autoscaler.CeilDiv` | scalersvc/main.go:220-225 | The quotient rounded up; zero for n <= 0. |
| `Autoscaler.Desired` | scalersvc/main.go:194-218 | With min <= max the desired number lies within them. |
| `Autoscaler.DesiredMeans` | scalersvc/main.go:194-218 | Within the limits: one more when a threshold is hot and the instances are enough for the requests; what there is when the utilisation holds more than enough and none wait; and otherwise the least number of which each has at most the target's requests. |
| `Autoscaler.ScalesUpExactly` | scalersvc/main.go:152-154 | Scale-up is decided exactly below the maximum and when there are fewer than the minimum, or too few for the busy and queued requests, or at least one and a hot threshold. |
| `Autoscaler.ScalesDownExactly` | scalersvc/main.go:156-158 | Scale-down is decided exactly with an idle instance above the minimum when there are more than the maximum, or no threshold is hot, the utilisation does not hold them and one less is enough for the requests. |
| `Autoscaler.Need` | scalersvc/main.go:196-201 | The number of instances that the busy and queued requests need is their number over the target, rounded up. |
| `Autoscaler.Scaler.DesiredReplicas` | scalersvc/main.go:194-218 | The method with its branches computes it. |
| `Autoscaler.Scaler.Evaluate` | scalersvc/main.go:135-192 | The decision is recorded for this function alone and returned. |
| `Autoscaler.UtilAtMostHalves` | scalersvc/main.go:201-201 | One more instance never raises the utilisation and never takes it below half. |
| `Autoscaler.ReversesExactly` | scalersvc/main.go:153-162 | Scaling up is followed by scaling down if and only if a guard over load, limits and thresholds holds, for any queue length. |
| `Autoscaler.GapStopsOscillation` | scalersvc/main.go:194-218 | With an empty queue and ScaleUpUtilPct at least twice ScaleDownUtilPct that guard never holds. |
| `Autoscaler.EmptyQueueOscillatesExactly` | scalersvc/main.go:194-218 | With an empty queue that guard holds for some load if and only if 0 < ScaleUpUtilPct <= 100 and ScaleDownUtilPct > 100 / (floor(100 / ScaleUpUtilPct) + 1). |
| `Autoscaler.NarrowGapOscillates` | scalersvc/main.go:194-218 | Such a load, with one busy instance. |
| `Autoscaler.GapIsWideEnough` | scalersvc/main.go:194-218 | A ScaleUpUtilPct of at least twice ScaleDownUtilPct excludes it. |
| `Autoscaler.QueueOscillatesExactly` | scalersvc/main.go:206-208 | With requests waiting it holds for some load if and only if ScaleUpUtilPct lies in (0, 100], whatever ScaleDownUtilPct, hence whatever the gap. |
| `Autoscaler.QueueOscillates` | scalersvc/main.go:206-208 | Such a load, with one busy and one waiting request. |
| `Autoscaler.SettlesExactly` | scalersvc/main.go:135-192 | The loop settles from every start if and only if the guard holds nowhere. |
| `Autoscaler.Stable` | scalersvc/main.go:135-192 | With an empty queue, constant load and the gap the loop moves in one direction only, reaches none within a bounded number of steps and stays there. |

## Left out

- Docker, Kubernetes, MinIO, Mongo and AMQP client calls, port forwarding and process spawning: only the promises named above are kept.
- HTTP routing, headers, authentication, proxying and event streaming: single-branch plumbing.
- Zip extraction and paths in `UploadCode`: the upload is its two locked sections, the outcome of the code store before the second and of the metadata store after it.
- The metadata store's delete in `Deregister`, and the delay between a section and the `stop` it starts: an id counts as handed to stop in the section that decides it.
- Backing arrays shared between Go slices: the model's slices are values held in fields, so an append or splice never shows through another slice.
- `Instances`, `ContainerIDs`, `FunctionNames`, `MQTriggers`: read-only listings.
- Fairness: no statement says that a goroutine is scheduled, only that some continuation takes it to its end, and how many moves of its own it makes at most.
- The lease timeout's environment value, the queue timeout and the backoff's random part are parameters of events.
- Integers other than attempt counts are unbounded, and percentages are exact reals where the source has float64.
- Supplementary code points: JSON is over UTF-16 units, as in Java, and none of them above U+FFFF is whitespace.
- The text of errors and of log lines, `buildEvent`, message bodies and ids: a message is its identity and headers.
- A publish that the broker stores after its sender gave up is stored in the model when the sender gives up.
- Subscribers of the log ring, log files, the event stream that polls them, and the proxy's copying of fetched entries into its own ring.
- JsonScanner.AcceptsExactlyJson: the Java scanner recurses per level of nesting, so a text nested deeper than the thread's stack allows ends in a StackOverflowError; the model's recursion has no such limit.
- The gateway's `validateTriggers`: the same chain of tests as `ValidateTriggers` with its own sanitiser.
- `validateConfig` for broker instances and URLs: independent checks of single values.
- Metric aggregation of the scaler and the status documents of the scaler: rolling counters.
- The Python, Node and Go bootstraps, the agent, scripts and deployment files: thin loops over input and output.
- Names.Lower: invalid UTF-8 and letters whose lower case is no ASCII letter stand for themselves, since no label contains either.
- Reconcile.Service.ReconcileTriggers: the method runs without a consumer's exit between its sections; `ReconcileAmidExits` and `LiveAreConsumers` cover the exits.
- Reconcile.Service.StartConsumer: a trigger that appears under its key between the check and the start, since reconciles run one after another.
- Shutdown of the service, which cancels every consumer's parent context; a consumer ends only after its own cancel.
- LogTail.DistributedTail: entries with equal times may come in any order, since the sort is not stable; the times are what agrees.
- DeliveryExact.BoundedExactly: covers what the triggers of one broker do; the triggers keep their configuration meanwhile, and whoever else moves a dead letter back, or sends a message again, sends a new message.
- DeadLetters.ShownExactly: one trigger by itself and the counts that it reads; among several triggers a dead letter may have been counted by another one before, and `OnlyDeadLetters` states its last handling.
