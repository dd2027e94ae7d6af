# Edge gateway: a verified model

An edge gateway takes commands from the cloud, queues them, and lets a pool of workers carry them out.
A worker looks the device up in a registry, translates the command into PJLink frames, sends them over
TCP with retries and exponential backoff, parses the replies, writes the device's state back, buffers the
telemetry in a SQLite table and publishes it. Beside that, metrics are scraped, checked against alert
rules and published.

The project models these components and proves what holds of them over every input, every answer of the
outside world and every interleaving. `dafny verify dfyconfig.toml` checks all of it.

| module | models |
|---|---|
| `Domain`, `Errors`, `Text` | values; error wrapping and classification; string operations of the Go library, over UTF-8 bytes |
| `Southbound`, `PJLink`, `GetStatus` | frame reader and one exchange; adapter; a status query end to end |
| `Router`, `Engine`, `RetryLaws`, `CommandLaws` | one command: as functions, as the loops that compute them, and what follows |
| `Stages`, `WorkerPool`, `Shutdown`, `Tallies` | one command as atomic steps; the pool as a labelled transition system; stopping it; its metrics |
| `Buffer`, `BufferRuns` | the drain buffer: one operation, and whole runs |
| `Registry`, `RegistryRuns` | the registry: objects on the heap, and whole event logs |
| `Publisher` | metric publishing and alert rules against a flat list of messages |

**How it fits together.** Code that changes state step by step is a method, proved to compute a function
of what it was given (`Engine.Worker.*`, `Southbound.ReadUntilCR`, `PJLink.ParseTelemetry`,
`Buffer.SQLiteBuffer.*`, `Registry.StaticRegistry.*`, `Publisher.MetricsPublisher.*`); the laws are about
those functions. The outside world is a script: `Router.Script` gives the answer to the call at each
position of the journal (device found or not, reply, whether a wait was cut short, time), so a statement
for every script is one for every behaviour of network, cloud and clock. `Stages` splits one command into
steps of one port call each, `Stages.StepsAreTheCode` proves the steps equal to the sequential code, and
`WorkerPool` interleaves the steps of any number of workers with dispatch, cancel and close.

## What turned out not to hold, and when it does

- **A stop drains the queue.** The comment at `cmd/gateway/main.go:204` says that cancelling signals the
  workers to drain. It does the opposite: once the queue is closed, every schedule drains it if and only if
  it is empty, since a cancellation may come until the last worker is gone. Of the schedules without a
  further cancellation, all drain it if and only if none came before or it is empty
  (`Shutdown.DrainsExactly`; `Shutdown.CancelStrands` constructs the schedule that leaves everything
  behind, `Shutdown.AcceptedCommandStranded` a whole run).
- **No dispatch after close.** The queue is closed before the cloud connection goes
  (`cmd/gateway/main.go:205-212`), so a command can still arrive. A run panics if and only if a dispatch
  or a second close follows a close (`Shutdown.PanicsExactly`, `Shutdown.LateCommandPanics`).
- **A successful send got a reply.** With `MaxAttempts <= 0`, and only then, nothing is sent and an empty
  reply is reported as success (`RetryLaws.EmptySuccess`).
- **Send failures are retried.** All are, with one exception: a socket deadline that cannot be armed is
  wrapped without a category (`Southbound.OnlyDeadlineFailsFast`, `Southbound.ClosedSocketFailsFast`).
- **A fetch empties the buffer.** A complete one is sure to, whatever order the query returns, if and only
  if every other stored row is strictly older than the newest (`Buffer.EmptiesExactly`); otherwise it can
  leave rows that it has handed out (`Buffer.CompleteFetchLeaves`), to be handed out again
  (`BufferRuns.LeftoverReturns`).
- **A fetch deletes only what it read.** The loop does not ask why the scan ended. Wherever it ends, nothing
  unread is deleted, if and only if the stored timestamps strictly increase with the id
  (`Buffer.CutsSafeExactly`).
- **Buffered rows arrive exactly once, in order.** For any insertions: all runs that interleave fetches and
  clean-ups with them lose nothing, and all hand rows out in order and none twice, in both cases if and
  only if the inserted timestamps strictly increase (`BufferRuns.SafeExactly`). Two writers whose clock
  readings cross are the smallest failing input (`BufferRuns.CrossedRowDeliveredTwice`,
  `BufferRuns.CrossedRowLost`).
- **Reload and update commute.** They do if and only if the device was there before, or is not listed, or
  the update says UNKNOWN, the listed last-seen time, and no metadata but the listed one
  (`RegistryRuns.ReloadUpdateCommute`; `RegistryRuns.UpdateBeforeLoadIsLost` gives an input that fails).
- **Suffix order matters.** The comment at `internal/observability/publisher.go:257` says so; it does not
  (`Publisher.SplitExact`).
- **Found means published.** A present metric leaves the cloud log as it was, and is counted as found, if
  and only if none of its series yields the value asked for (`Publisher.SilentlyFound`); every `_bucket`
  field ends this way (`Publisher.BucketsAreSilent`).

## Model

| member | source | states |
|---|---|---|
| Errors.WrapKeepsClass | internal/core/errors/errors.go:22-31 | adding context with a wrapping verb never moves an error between RETRYABLE, FATAL and WARNING |
| Errors.ClassifyBySentinel | internal/core/errors/errors.go:13-31 | an error that matches one sentinel, however deep, is classified as that sentinel is |
| Errors.CategorizeMatches | internal/adapters/southbound/tcp_communicator.go:282-293 | a categorized error matches exactly one sentinel: timeout if the raw error was a cancellation, deadline or OS timeout, network otherwise |
| Errors.RecategorizedIsRetryable | internal/adapters/southbound/tcp_communicator.go:281-293 | any raw error re-categorized any number of times stays retryable; from the second time on it is a network error even if it was a timeout |
| PJLink.TranslateExact | internal/adapters/protocols/pjlink_adapter.go:19-33 | exactly three commands translate, to distinct payloads ending at their only CR; any other yields a fatal error |
| PJLink.CommandFrames | internal/adapters/protocols/pjlink_adapter.go:19-41 | a power command asks for the state it is named after, by the code that reports that state, and nothing follows it; a status query asks for power and then for the lamp |
| PJLink.ParsePower | internal/adapters/protocols/pjlink_adapter.go:84-108 | fills the shared map in place with the power result or state that the specification function gives |
| PJLink.ParseLamp | internal/adapters/protocols/pjlink_adapter.go:110-133 | fills the shared map in place with hours and flag of the first lamp |
| PJLink.ParseTelemetry | internal/adapters/protocols/pjlink_adapter.go:45-67 | parsing never fails and returns a fresh map whose content is the specification's |
| PJLink.ErrorCodeExact | internal/adapters/protocols/pjlink_adapter.go:69-82 | the reported code is that of the lowest-numbered error marker in the reply, if and only if there is one |
| PJLink.ParsedShape | internal/adapters/protocols/pjlink_adapter.go:45-67 | for every input the map is non-empty; an error entry is there exactly when a marker is, with its code and alone; a raw entry is alone and holds the trimmed reply |
| PJLink.ReadingExactly | internal/adapters/protocols/pjlink_adapter.go:54-133 | for every reply without an error marker, entry by entry: power from the text after the first POWR=, hours and flag from the tokens after the first LAMP=, neither hiding the other, and the reply itself only if both give nothing |
| PJLink.PowerRoundTrip | internal/adapters/protocols/pjlink_adapter.go:84-108 | parsing a printed POWR reply recovers its value under any Unicode white-space padding: OK as a result, a known code as its state, anything else verbatim |
| PJLink.LampRoundTrip | internal/adapters/protocols/pjlink_adapter.go:110-133 | parsing a printed LAMP reply recovers every 64-bit hour count and the flag, under any padding and any tail free of other markers |
| Text.SpacesEncoded | internal/adapters/protocols/pjlink_adapter.go:46 | white space is exactly the valid UTF-8 encodings of the code points with the White_Space property |
| Text.TrimSpaceStrips | internal/adapters/protocols/pjlink_adapter.go:46 | trimming removes white space, multi-byte characters included, from both ends and nothing else |
| Text.FieldsOfTrimmed | internal/adapters/protocols/pjlink_adapter.go:116-117 | trimming changes no white-space separated token |
| Text.ItoaAtoi | internal/adapters/protocols/pjlink_adapter.go:122-124 | printing and reading a 64-bit integer are inverse |
| Southbound.ReadUntilCR | internal/adapters/southbound/tcp_communicator.go:102-123 | the byte-at-a-time loop returns, and leaves unread, what the recursive reader does |
| Southbound.FrameSucceeds | internal/adapters/southbound/tcp_communicator.go:102-123 | it succeeds if and only if the first CR is among the first maxBytes bytes delivered before an error; the frame is the stream up to that CR and exactly its reads are consumed |
| Southbound.FrameFails | internal/adapters/southbound/tcp_communicator.go:114-122 | a failing read is retryable and hands back either nothing, the stream being too long, or every byte delivered |
| Southbound.FrameSplits | internal/adapters/southbound/tcp_communicator.go:102-123 | however a stream that begins with a fitting frame is chopped into reads, that frame comes out and the rest of the stream is left |
| Southbound.NextFrame | internal/adapters/southbound/tcp_communicator.go:102-123 | with errors anywhere among the reads, a frame that is read at all is the first frame of the stream they carry, and the reads left carry what follows it |
| Southbound.SendPJLinkCommand | internal/adapters/southbound/tcp_communicator.go:76-100 | result and written bytes of an exchange on a connection object |
| Southbound.ExchangeSplitsStream | internal/adapters/southbound/tcp_communicator.go:76-100 | the reply is the second frame of the stream, after a greeting that is the first; the payload is written once, and not at all after a bad greeting |
| Southbound.ExchangeExactly | internal/adapters/southbound/tcp_communicator.go:76-100 | the payload is written if and only if the device greets; the exchange succeeds if and only if, besides, the write succeeds and a second frame follows |
| Southbound.SendCommand | internal/adapters/southbound/tcp_communicator.go:34-57 | dial, deadline and exchange failures in the order of the code |
| Southbound.SentExactly | internal/adapters/southbound/tcp_communicator.go:34-57 | a send succeeds if and only if dialing, arming the deadline and the exchange all do |
| Southbound.ExchangeFailsRetryably | internal/adapters/southbound/tcp_communicator.go:76-100 | every greeting, prefix, write and response failure is retryable |
| Southbound.OnlyDeadlineFailsFast | internal/adapters/southbound/tcp_communicator.go:45-57 | a failed send bypasses the retry path if and only if dialing worked and arming the deadline failed non-retryably |
| Southbound.ClosedSocketFailsFast | internal/adapters/southbound/tcp_communicator.go:51-53 | the failing input: a deadline refused on a closed connection gives an error outside the retry path |
| Engine.Worker.ExecuteWithRetry | internal/core/router/engine.go:234-265 | the loop computes result and journal of Router.Retry, wrap-around of the backoff included |
| Engine.Worker.PublishTelemetryWithRetry | internal/core/router/engine.go:267-288 | the loop makes the calls of Router.Publications |
| Engine.Worker.MergeTelemetry | internal/core/router/engine.go:228-232 | the base map is overridden in place by the extra one, in whatever order its keys are visited |
| Engine.Worker.ExecuteCommandChain | internal/core/router/engine.go:184-226 | the chain computes result and journal of Router.Chain |
| Engine.Worker.ProcessCommand | internal/core/router/engine.go:115-182 | a whole command computes disposition and journal of Router.Process |
| RetryLaws.RetryConcludes | internal/core/router/engine.go:238-264 | with an attempt allowed, the loop stops at some attempt k: after k-1 retryable failures with full waits, at a reply, a non-retryable error, the last attempt or a cancelled wait; the journal is k sends of one payload with doubling waits between |
| RetryLaws.ConcludesOnce | internal/core/router/engine.go:238-264 | no script ends the loop in two ways |
| RetryLaws.RetrySucceedsAt | internal/core/router/engine.go:238-264 | success at attempt k, if and only if attempts 1..k-1 failed retryably, no wait was cancelled, and attempt k was answered |
| RetryLaws.EmptySuccess | internal/core/router/engine.go:234-265 | nothing is sent if and only if MaxAttempts <= 0, and then it is a success with an empty reply; otherwise a success is the device's reply to this payload |
| RetryLaws.PublicationsEnd | internal/core/router/engine.go:267-288 | publishing stops at the first accepted publish, the first cancelled wait or the last attempt, with the waits doubling |
| RetryLaws.WrapDouble | internal/core/router/engine.go:260 | doubling a wrapped 64-bit duration is wrapping the doubled one |
| RetryLaws.DoublingFits | internal/core/router/engine.go:260 | wrap-around never shows in the first n+1 backoffs if and only if the last of them fits in 64 bits |
| RetryLaws.WaitsAreGeometric | internal/core/router/engine.go:236-262 | before attempt k the configured waits sum to BaseBackoff * (2^(k-1) - 1) |
| RetryLaws.RetryIsBounded | internal/core/router/engine.go:236-264 | a retry whose sends each end within the timeout is over within MaxAttempts * timeout + BaseBackoff * (2^(MaxAttempts-1) - 1) |
| CommandLaws.ChainAdds | internal/core/router/engine.go:184-226 | a chain only sends to its device and waits, with at most MaxAttempts * (1 + follow-ups) sends |
| CommandLaws.ChainGathers | internal/core/router/engine.go:192-232 | a successful chain's telemetry is the left-to-right override of the parsed replies, one answered send per payload in order |
| CommandLaws.ChainBlames | internal/core/router/engine.go:192-225 | a chain fails only with the error of a retry that gave up, of a parse, or of the follow-ups |
| CommandLaws.DispositionExactly | internal/core/router/engine.go:119-182 | no device, no adapter and no payload are told apart, each by its exact condition; every other command is carried out and ends as its chain does |
| CommandLaws.WriteBackExactly | internal/core/router/engine.go:145-173 | a command that is carried out has exactly one write-back, of the device looked up with nothing changed but status and last-seen time: ONLINE if delivered, OFFLINE if not; the latency record says the same |
| CommandLaws.ProcessSends | internal/core/router/engine.go:133-139 | a command sends nothing but its own payloads, to the device looked up |
| CommandLaws.ProcessShape | internal/core/router/engine.go:119-182 | the journal of every command: lookup; probing; one write-back, OFFLINE exactly on error and ONLINE otherwise; one latency record; only after success one buffering, before the first publish |
| CommandLaws.ProcessCounts | internal/core/router/engine.go:141-181 | an error leaves one ERROR record and nothing buffered or published, a success one SUCCESS record and at most MaxAttempts publishes, anything earlier no record at all |
| CommandLaws.DeliveredGathers | internal/core/router/engine.go:139-181 | over its whole journal a delivered command's telemetry is the override of the parsed replies to its payloads, and every buffering and publish carries exactly that telemetry |
| Stages.StepsAreTheCode | internal/core/router/engine.go:115-288 | taking one port call at a time ends every command with the disposition and journal of the sequential code |
| Stages.AdvanceLeft | internal/core/router/engine.go:115-288 | every single call strictly lowers the number of calls a command can still make, whatever the answer |
| WorkerPool.StartInv | internal/core/router/engine.go:79-85 | the invariant holds of a fresh pool of any size and capacity |
| WorkerPool.StepFifo | internal/core/router/engine.go:18-25 | accepted commands are the started ones followed by the queue, which stays within its capacity: nothing is lost, duplicated or overtaken |
| WorkerPool.StepConserved | internal/core/router/engine.go:87-94 | dispatched commands are the accepted and the dropped ones, and the drop counter is exact |
| WorkerPool.StepPartition | internal/core/router/engine.go:96-113 | every started command has ended or is in the hands of exactly one worker, never both |
| WorkerPool.StepDrained | internal/core/router/engine.go:100-111 | uncancelled, a worker leaves only when the queue is closed and empty |
| WorkerPool.StepFaithful | internal/core/router/engine.go:110 | under every interleaving, a command in hand is on the way of the sequential code on the answers it got, and an ended one did what that code does |
| WorkerPool.StepBalanced | internal/core/router/engine.go:119-166 | started = unknown device + no adapter + untranslatable + SUCCESS + ERROR + in hand without a latency record |
| WorkerPool.DispatchExactly | internal/core/router/engine.go:18-25 | an open queue drops a command if and only if it is full, and then only records and counts it; otherwise the command goes to its end |
| WorkerPool.BurstExactly | internal/core/router/engine.go:87-94 | of a burst no worker gets to, the first commands fill the queue in order and exactly the rest is dropped and counted |
| WorkerPool.WorkersServe | internal/core/router/engine.go:100-111 | a worker can step if and only if one is busy, or one is idle with a command queued or a reason to leave |
| WorkerPool.WaitCutExactly | internal/core/router/engine.go:256-261 | a wait can be cut short if and only if the context is cancelled, and then ends the retry or the publishing |
| WorkerPool.RunsKeepInv | internal/core/router/engine.go:79-113 | all of this in every state any interleaving of dispatcher, workers, cancel and close can reach |
| Shutdown.StoppedMeansSettled | internal/core/router/engine.go:290-294 | once the workers are gone, cancelled or not: every started command ended exactly once as the code ends it, the unprocessed ones are exactly a suffix of the accepted ones, and the metrics add up |
| Tallies.RunsKeepExact | internal/core/router/engine.go:89-166 | in every reachable state each metric is the number of commands ended in its way, plus those in hand that have left their latency record and will |
| Tallies.StoppedTally | internal/core/router/engine.go:160-162 | once the workers are gone, successes are the delivered commands, failures those whose chain failed, and likewise for each reason to leave no record |
| Shutdown.GracefulStopDrains | internal/core/router/engine.go:290-294 | an uncancelled stop ends with every accepted command completed exactly once if and only if there was a worker, or nothing to do |
| Shutdown.DrainsExactly | cmd/gateway/main.go:204-205 | a closed pool drains under every schedule, cancellations included, if and only if nothing is queued; under every schedule without a further cancellation if and only if it was not cancelled before or nothing is queued |
| Shutdown.CancelStrands | internal/core/router/engine.go:100-104 | from any cancelled, closed state the workers can all leave, finishing what they hold and nothing of the queue |
| Shutdown.AcceptedCommandStranded | cmd/gateway/main.go:204-205 | for every pool with a queue: a reachable run in which a command is accepted, the workers all leave, and it was never started |
| Shutdown.StepLeft | internal/core/router/engine.go:96-113 | after close every worker step strictly lowers one measure of queue, remaining calls and live workers, and nothing raises it |
| Shutdown.ShutdownIsBounded | internal/core/router/engine.go:290-294 | under every schedule the worker steps after close are at most the measure at close |
| Shutdown.StuckMeansStopped | internal/core/router/engine.go:290-294 | after close no worker step is possible if and only if all workers are gone, so waiting for them returns |
| Shutdown.PanicsExactly | internal/core/router/engine.go:87-94 | a run panics if and only if a dispatch or a second close follows a close |
| Shutdown.LateCommandPanics | cmd/gateway/main.go:204-212 | a command that arrives between the close and the disconnect panics, for every pool |
| Buffer.SQLiteBuffer.AddData | internal/buffer/sqlite_buffer.go:60-81 | one more row under the next id, or no change on failure |
| Buffer.SQLiteBuffer.Fetch | internal/buffer/sqlite_buffer.go:83-127 | a fetch commits if and only if no statement fails; it then returns timestamp, data type and payload of each row scanned, in order, and deletes up to the last one's id; otherwise nothing changes |
| Buffer.SQLiteBuffer.DeleteExpired | internal/buffer/sqlite_buffer.go:138-143 | the rows older than the cutoff go, or nothing on failure |
| Buffer.CleanupExactly | internal/buffer/sqlite_buffer.go:138-139 | a clean-up deletes exactly the rows older than its cutoff |
| Buffer.CompleteFetchLeaves | internal/buffer/sqlite_buffer.go:111-116 | what a complete fetch leaves is exactly the rows with an id above that of the last row in timestamp order; nothing if and only if that row is the newest |
| Buffer.EmptiesExactly | internal/buffer/sqlite_buffer.go:90-116 | a complete fetch empties the table whatever order the query returns, if and only if every other stored row is strictly older than the newest |
| Buffer.CutsSafeExactly | internal/buffer/sqlite_buffer.go:90-116 | no order the query returns and no end of its scan makes a fetch delete an unread row, if and only if the stored timestamps strictly increase with the id |
| Buffer.CutScans | internal/buffer/sqlite_buffer.go:97-116 | for one order the query returns: no end of the scan deletes an unread row if and only if that order is the insertion order |
| Buffer.InOrderCut | internal/buffer/sqlite_buffer.go:97-116 | in insertion order a scan of k rows deletes exactly those k and keeps every unread row |
| Buffer.ClockOrderScan | internal/buffer/sqlite_buffer.go:90 | strictly increasing timestamps leave one possible scan, the insertion order |
| BufferRuns.RunsAreConsistent | internal/buffer/sqlite_buffer.go:45-46 | in every run ids number the insertions, and every row stored or delivered was inserted |
| BufferRuns.NothingLost | internal/buffer/sqlite_buffer.go:83-120 | when committed fetches read their whole snapshot, every inserted row is stored, delivered or expired, for any clocks |
| BufferRuns.ExpiredBelowCutoff | internal/buffer/sqlite_buffer.go:138-139 | a row expires only below the cutoff of a clean-up of the run |
| BufferRuns.ExactlyOnce | internal/buffer/sqlite_buffer.go:66-116 | with timestamps increasing with the id, and scans cut anywhere: delivered rows then stored rows keep the insertion order and repeat none, and nothing is lost |
| BufferRuns.ExpiresExactly | internal/buffer/sqlite_buffer.go:138-139 | a clean-up expires exactly the stored rows older than its cutoff |
| BufferRuns.ItemsAsAdded | internal/buffer/sqlite_buffer.go:60-127 | in clock order and without expiry, the items handed out one after the other hold, field by field, what was inserted, from the first insertion on and in that order |
| BufferRuns.SafeExactly | internal/buffer/sqlite_buffer.go:66-116 | for any insertions: no run that interleaves fetches and clean-ups with them loses a row, if and only if the inserted timestamps strictly increase; and if and only if they do, every such run hands rows out in insertion order and none twice |
| BufferRuns.UnorderedFails | internal/buffer/sqlite_buffer.go:66-116 | otherwise a single fetch after the insertions can lose a row, and a single fetch can hand rows out of order or leave one it has handed out |
| BufferRuns.FetchMovesSeam | internal/buffer/sqlite_buffer.go:97-116 | in clock order a fetch only moves rows from stored to delivered, and a complete one empties the table |
| BufferRuns.LeftoverReturns | internal/buffer/sqlite_buffer.go:111-116 | a row left behind is delivered again by the next complete fetch, unless a clean-up beyond its timestamp, or a fetch whose last row read has no smaller id, comes in between |
| BufferRuns.CrossedRowDeliveredTwice | internal/buffer/sqlite_buffer.go:66-71 | two writers whose clock reading and insertion cross: a row delivered twice |
| BufferRuns.CrossedRowLost | internal/buffer/sqlite_buffer.go:97-116 | the same with a scan that stops early: a row nobody read is gone |
| Registry.StaticRegistry.Reload | internal/adapters/registry/static_json_registry.go:85-107 | the decoded list replaces the map, with runtime state carried over; the list's own objects become the stored ones |
| Registry.StaticRegistry.Place | internal/adapters/registry/static_json_registry.go:89-103 | one listed device: skipped if invalid, else stored under its id |
| Registry.StaticRegistry.Adopt | internal/adapters/registry/static_json_registry.go:95-102 | it takes over status, last-seen time and metadata of the device it replaces, or is unknown |
| Registry.StaticRegistry.GetDevice | internal/adapters/registry/static_json_registry.go:111-120 | a fresh copy of the stored device, or nothing if and only if the id is absent |
| Registry.StaticRegistry.ListDevices | internal/adapters/registry/static_json_registry.go:123-132 | fresh copies of all devices, each id exactly once |
| Registry.StaticRegistry.Register | internal/adapters/registry/static_json_registry.go:134-149 | stores a copy if and only if the device is valid and its id absent |
| Registry.StaticRegistry.Update | internal/adapters/registry/static_json_registry.go:152-169 | changes only the runtime state of a device still there, keeping metadata when none is given |
| Registry.StaticRegistry.Remove | internal/adapters/registry/static_json_registry.go:171-176 | the id is gone and nothing else changes |
| RegistryRuns.ReplayKeyed | internal/adapters/registry/static_json_registry.go:88-190 | after every interleaving each key is the valid id of the device stored under it |
| RegistryRuns.StoredIsUsable | internal/adapters/registry/static_json_registry.go:179-193 | whatever is stored has an id, an address and a port from 1 to 65535, under its own id |
| RegistryRuns.RegisteredExactly | internal/adapters/registry/static_json_registry.go:134-149 | a registration stores the device as given if and only if its id is absent and it has an id, an address and a port in range |
| RegistryRuns.ReloadedExactly | internal/adapters/registry/static_json_registry.go:88-106 | a reload stores an id if and only if it is listed with an address and a port in range |
| RegistryRuns.LoadedEntry | internal/adapters/registry/static_json_registry.go:88-106 | a reload stores exactly the listed valid ids, each by its last valid entry |
| RegistryRuns.ConfigurationOrigin | internal/adapters/registry/static_json_registry.go:88-176 | an id is stored if and only if it has an origin, the last valid entry of the latest load or a later registration; configuration and telemetry are those of the origin |
| RegistryRuns.RuntimeOrigin | internal/adapters/registry/static_json_registry.go:95-169 | status, last-seen time and metadata are the updates since the id last appeared, folded over the state it appeared with; reloads leave no trace in them |
| RegistryRuns.LastUpdateWins | internal/adapters/registry/static_json_registry.go:161-166 | of those updates the last one decides |
| RegistryRuns.Mark | internal/core/router/engine.go:150-156 | changing a held copy leaves the registry untouched |
| RegistryRuns.HandIn | internal/core/router/engine.go:149-158 | whatever ran since the copy was taken, handing it in is exactly one update |
| RegistryRuns.StaleWriteBack | internal/core/router/engine.go:119-158 | whatever happened since the copy was taken, writing it back resurrects and drops no id, reverts no configuration, touches no other device |
| RegistryRuns.ReloadUpdateCommute | internal/adapters/registry/static_json_registry.go:95-169 | a reload and an update commute if and only if the device was there before, is not listed, or the update says nothing new about its last valid entry |
| RegistryRuns.UpdateBeforeLoadIsLost | internal/adapters/registry/static_json_registry.go:100-102 | the failing input: an update that comes before the first load of its device leaves no trace |
| GetStatus.ServedReply | internal/adapters/southbound/tcp_communicator.go:76-123 | a connection to a device that sends a greeting and an answer yields that answer or an error, nothing else, with errors among its reads and wherever it breaks off |
| GetStatus.ReachedReply | internal/adapters/southbound/tcp_communicator.go:34-123 | it yields the answer when nothing fails before it |
| GetStatus.StatusTelemetry | internal/core/router/engine.go:192-232 | reader, retries, parser, chain and merge together: whatever connections fail, at any byte, and are retried, a status query that succeeds yields exactly the projector's power state, lamp hours and lamp flag, in either merge order |
| GetStatus.StatusDelivered | internal/core/router/engine.go:115-182 | and every buffering and publish of the whole command carries exactly that state |
| GetStatus.SendsAsCommanded | internal/adapters/protocols/pjlink_adapter.go:22-28 | every send of a power command carries the frame for the state it is named after, every send of a status query one of the two queries |
| GetStatus.StatusFirstTry | internal/core/router/engine.go:192-225 | when the first two connections reach the projector, it succeeds with that telemetry and exactly two sends |
| Publisher.MetricsPublisher.TriggerAlert | internal/core/rules/engine.go:77-105 | one connectivity check, then one publish if connected; no failure reaches the caller |
| Publisher.MetricsPublisher.Evaluate | internal/core/rules/engine.go:53-75 | the alerts of the breached rules of this metric, in rule order |
| Publisher.AlertsExactly | internal/core/rules/engine.go:53-75 | a sample raises one alert for each rule of its metric whose threshold the value lies above, below or on, as the operator says, in rule order, and no other |
| Publisher.AlertsArriveExactly | internal/core/rules/engine.go:53-105 | with the cloud well, an alert arrives in a cycle if and only if it is for a rule of one of its metrics that a value of that metric crosses |
| Publisher.ReadsTheSample | internal/observability/publisher.go:364-426 | the value read for a metric is the sample of that name that the series offers, if there is one |
| Publisher.SourceExactly | internal/observability/publisher.go:238-251 | a metric is read from the family of its own name if there is one, otherwise from the family whose name it extends by a suffix |
| Publisher.IdealOfOne | internal/observability/publisher.go:280-300 | a series with a value gives its alerts and then its payload, any other nothing |
| Publisher.IdealAppend | internal/observability/publisher.go:280-305 | a metric's messages are those of its series, one after the other |
| Publisher.MetricsPublisher.PublishSeries | internal/observability/publisher.go:270-349 | per extractable series its alerts, then its payload; the first rejected payload ends the metric |
| Publisher.MetricsPublisher.SplitDerivedSuffix | internal/observability/publisher.go:256-267 | the search loop finds the first suffix with something before it |
| Publisher.SplitExact | internal/observability/publisher.go:256-267 | base + suffix is the name, a split exists exactly when a suffix fits, and the order of checking does not matter |
| Publisher.MetricsPublisher.ExtractAndPublish | internal/observability/publisher.go:232-252 | direct family first, then the derived one; present exactly when there is a series to read |
| Publisher.MetricsPublisher.PublishMetrics | internal/observability/publisher.go:144-199 | a cycle is the declared one over the metrics processed; found + not found + failed = processed, found = published; nothing is sent after a failed scrape, a cancellation or without a connection |
| Publisher.TransmitPayloads | internal/observability/publisher.go:280-305 | for every cloud behaviour the payloads tried are a prefix of the metric's payloads, and all of them if it does not fail |
| Publisher.TransmitCut | internal/observability/publisher.go:298-300 | a metric fails if and only if its last call is a rejected payload, and no call before it is one |
| Publisher.CycleAllArrive | internal/observability/publisher.go:178-198 | with the cloud well, what arrives is exactly the concatenation over the metrics of alerts and payload per series |
| Publisher.CycleCounts | internal/observability/publisher.go:185-197 | for every cloud behaviour each metric is counted once, as not found exactly when there is no series for it |
| Publisher.CyclePayloads | internal/observability/publisher.go:178-198 | for every cloud behaviour the payloads a cycle tries are the concatenation over its metrics of a prefix each, whole unless the metric is counted as failed; a failed one does not stop the next |
| Publisher.TransmitAttempts | internal/observability/publisher.go:280-305 | for every cloud behaviour a metric's calls attempt its alerts and payloads in order up to its end or a rejected payload; an alert is checked and, if and only if the client is up, published right after |
| Publisher.CycleAttempts | internal/observability/publisher.go:178-198 | the same for every call of a cycle, metric after metric, cut short only for the metrics counted as failed |
| Publisher.SilentlyFound | internal/observability/publisher.go:320-348 | for every cloud behaviour a present metric leaves the log as it was if and only if no series yields its value, and is then counted as found |
| Publisher.BucketsAreSilent | internal/observability/publisher.go:394-425 | every bucket field of a present family is found and never sent |

## Left out

- SendCommand: the raw TCP branch after `internal/adapters/southbound/tcp_communicator.go:57`, since the only registered adapter speaks PJLink.
- ReadOne: a connection's reads are a finite script, so endlessly empty reads, on which the source would loop, do not occur.
- SendPJLinkCommand: the text of a greeting error holds the greeting as it is, not quoted by `%q`; no result depends on that text.
- TrimSpace: a byte is a character from U+0000 to U+00FF; strings with larger characters stand for nothing on the wire.
- Fetch: the order of the scan is any order consistent with the timestamps; date-time encoding, JSON and WAL are not modelled, and a transaction either commits or changes nothing.
- AddData: a marshalling failure and a failed insertion are one failure.
- ProcessCommand: the latency value, logging and a missing metrics service; device lookups in the pool are choices of the environment, tied to the registry by StaleWriteBack rather than in one combined system.
- RunsKeepInv: the pool is a state machine over values, not a class, as its steps belong to different goroutines; only the default overflow policy is modelled, and a reader of the closed channel sees it closed only once it is empty.
- RetryIsBounded: time is a bound per call; the request timeout is the assumption that a send ends within it.
- Reload: fetching and decoding failures (they change nothing), `null` entries of the list, and the poll timer.
- Update: metadata, telemetry and capabilities are values; that shallow copies share them is not modelled.
- ListDevices: the order of Go's map iteration is arbitrary, and so is the model's.
- PublishMetrics: values are reals, so rounding, NaN and infinities (which fail to marshal) are not modelled; neither are timestamps, the initial wait for a connection, or the scrape itself.
- `ListenTelemetry` and the PJLink poller: not started by the program.
- The periodic telemetry goroutines of the program, the MQTT client, HTTP servers, Prometheus registration, configuration, certificates and the adapter factory: input and output, or plain maps.
