# Verification model of envoy-mobile's protocol cores

A Dafny model of the parts of envoy-mobile whose correctness depends on sequences of calls: the platform bridge
filter, the HTTP dispatcher, the gRPC framing of the Swift and Kotlin libraries, configuration templates, retry
policies, the header bridge and engine shutdown. Objects that the source updates in place are classes; each of their
methods is proved equal to a function of the old state, and the properties of whole runs are lemmas about those
functions. `dafny verify dfyconfig.toml` checks the project.

## What is modelled

**Platform bridge filter** (`BridgeTypes`, `BridgeCalls`, `PlatformBridge`, `FilterManager`, `BridgeRuns`,
`BridgeRefinement`, `BridgePending`, `BridgeSnapshot`, `BridgeBody`, `BridgeForwarding`). `PlatformBridgeFilter` holds
the shared iteration state, the four pending header map pointers and the completion flags, and drains and refills
buffers in place. What the platform filter answers is a parameter (`None` when it has no such callback), and what it
is shown is recorded. A failed `RELEASE_ASSERT`, a `PANIC` or a null dereference is the outcome `Aborted`. `BridgeRuns`
puts the filter next to a filter manager: buffering appends what is left of the chunk to the internal buffer, stopping
without buffering keeps nothing more, continuing while ongoing forwards, and continuing out of a stop appends what is
left and forwards headers, buffer and trailers. After forwarding, the buffer object stays, empty, and the environment
may create or drop an empty buffer at any time. A posted resume may run at any point of a run, any number of times.
`FilterManager` holds that environment as objects around the filter; handling an event there is proved to be exactly one
step of a run. The reference (`Ideal`) is a single accumulator of what was received and has not been forwarded. In every
legal run of both directions, which share the iteration state, one direction (state, pending pointers, both logs)
refines it after every step if and only if no step of the other direction stops or resumes (`Turns`) and no step of its
own is one of four departures, each a condition on the call and each reached from the start:

- `Unanswered`: the filter is stopped and has no callback for the data or trailers that arrive.
- `Duplicates`: a data call resumes while the internal buffer exists and is empty and the chunk is not empty; the chunk
  is neither moved nor drained, so it is forwarded twice.
- `LeavesHeaders`: a data or trailers call resumes without returning the pending headers; the pointer stays set.
- `IgnoresStop`: the encoding direction resumes although the platform answered a posted resume with a stop.

Pending entities, the snapshot shown by a resume, and conservation of the body are stated without the reference, each
with its own exact condition over the same runs.

**HTTP dispatcher** (`DispatcherSpec`, `HttpDispatcher`, `DispatcherLifecycle`, `DispatcherRequests`,
`DispatcherCallbacks`). Any number of streams; posts before and after `ready`; closures run by the event loop; encode
calls, resets and deferred deletion. Reset callbacks may re-enter posts, encode calls and further resets, of the same
stream too, to any depth. The code's own `ASSERT`s are assumptions about the environment (`Legal`): encode calls only
reach streams in the map, and a local reply ends with one data frame. Handles are started once and `ready` is called
once; `SecondReadyDoubles` says what happens otherwise. `posted`, `executed` and `causes` are histories. `Ordered`, the
condition of the callback log refinement, is the order of an HTTP response: headers first and once.

**gRPC framing** (`GrpcWire`, `SwiftDeframer`, `KotlinDeframer`). The format is Length-Prefixed-Message of the gRPC over
HTTP2 protocol (PROTOCOL-HTTP2.md, section "Requests"). Swift lengths are unsigned and 32 bits wide and added as wider
integers; Kotlin lengths and their sum with the prefix length wrap around at 32 bits, with sign. A Kotlin call ends in
`Done`, `Thrown` (an out-of-range slice) or `Endless` (recursion that consumes nothing), each with the messages delivered,
and those outcomes are proved to be those of the recursion followed activation by activation.

**Configuration templates** (`Template`, `EnvoyConfiguration`, `ConfigurationKeys`, `Decimals`). `Replace` is Java's `String.replace` on
characters. A template is read as literals without `{{` that do not end in `{`, interleaved with `{{ name }}` tokens;
values are free of `{{` and do not end in `{`.

**Retry policies** (`RetryPolicies`, `RetryReading`), **header bridge** (`HeaderBridge`), **engine shutdown** (`EngineShutdown`): headers
as maps of value lists in any iteration order, and the run thread and one destroying thread as interleaved steps around
the mutex, the condition variable and the event loop. A request to exit is sticky: it also ends a loop entered later.
Three faults are modelled (construction fails, the loop exits unasked, the condition variable wakes spuriously), and for
each one alone the runs that it harms are characterized.

## Where the code departs from its documentation

- `library/common/extensions/filters/http/platform_bridge/c_types.h:76-89` gives both resume callbacks a status that may
  keep iteration stopped; only the decoding direction reads it (`filter.cc:424` and `filter.cc:501-534`).
- The same comment calls it a violation to return other entities than those passed. The code aborts only on a missing
  one; data without a buffer is injected, and headers or trailers that are not pending are ignored.
- `library/common/extensions/filters/http/platform_bridge/c_types.h:126-129` calls the snapshot of a resume all HTTP state
  that has not yet been forwarded. It also holds headers that were forwarded, once a data or trailers call went on
  without returning them (`Overtakes`): because its callback is missing, because the other direction had resumed, or
  because the platform resumed without them.
- `filter.cc:207-209` says the chunk was already moved into the internal buffer when iteration resumes; it was not when
  that buffer is empty (`Duplicates`).
- `library/common/types/c_types.h:226` promises exactly one terminal callback. A started stream has at most one at any
  time, and exactly one once it has left the map; a stream that nothing ends has none.
- The comment in the initializer of `RetryPolicy` allows no total timeout; it is read back as a timeout of 0, which means
  the same. A policy without status codes or try timeout does not clear those headers of a builder, so older ones
  are read back as its own.
- Empty value lists disappear when headers cross the bridge, and on the Java side a map without values becomes null.
- The known keys of a template are also replaced inside an inserted filter configuration, but only those whose
  replacement comes after that of the filter chain.

## Model

| member | source | states |
|---|---|---|
| PlatformBridge.ReplaceHeaders | library/common/extensions/filters/http/platform_bridge/filter.cc:104-112 | The map is cleared and holds exactly the given headers, in order, names in lower case |
| PlatformBridge.PlatformBridgeFilter.constructor | library/common/extensions/filters/http/platform_bridge/filter.cc:70 | Iteration starts as ongoing with nothing pending |
| PlatformBridge.PlatformBridgeFilter.OnHeaders | library/common/extensions/filters/http/platform_bridge/filter.cc:114-139 | New status, iteration state and headers for every answer; aborts exactly on an unsupported one |
| PlatformBridge.PlatformBridgeFilter.OnData | library/common/extensions/filters/http/platform_bridge/filter.cc:141-226 | In place on both buffers: bytes shown, moved, drained and left, headers replaced and pointer cleared, for every answer, and when it aborts |
| PlatformBridge.PlatformBridgeFilter.OnTrailers | library/common/extensions/filters/http/platform_bridge/filter.cc:228-282 | As OnData for trailers, with buffered data replaced on resume |
| PlatformBridge.PlatformBridgeFilter.DecodeHeaders | library/common/extensions/filters/http/platform_bridge/filter.cc:284-293 | The request headers become pending exactly on a stop; the completion flag is the end-of-stream flag |
| PlatformBridge.PlatformBridgeFilter.EncodeHeaders | library/common/extensions/filters/http/platform_bridge/filter.cc:295-304 | The same for response headers |
| PlatformBridge.PlatformBridgeFilter.DecodeData | library/common/extensions/filters/http/platform_bridge/filter.cc:306-319 | The shared data call on the decoding buffer and the pending request headers |
| PlatformBridge.PlatformBridgeFilter.EncodeData | library/common/extensions/filters/http/platform_bridge/filter.cc:321-334 | The shared data call on the encoding buffer and the pending response headers |
| PlatformBridge.PlatformBridgeFilter.DecodeTrailers | library/common/extensions/filters/http/platform_bridge/filter.cc:336-352 | The shared trailers call; trailers become pending exactly on a stop; the request is complete |
| PlatformBridge.PlatformBridgeFilter.EncodeTrailers | library/common/extensions/filters/http/platform_bridge/filter.cc:354-371 | The same for the response |
| PlatformBridge.PlatformBridgeFilter.OnResumeDecoding | library/common/extensions/filters/http/platform_bridge/filter.cc:389-458 | The snapshot shown, entities replaced, data injected, pointers cleared and one continue call; a stop answer or an ongoing state changes nothing |
| PlatformBridge.PlatformBridgeFilter.OnResumeEncoding | library/common/extensions/filters/http/platform_bridge/filter.cc:469-535 | The same for encoding, whatever the status of the answer |
| FilterManager.Half.HandleHeaders | library/common/extensions/filters/http/platform_bridge/filter.cc:284-304 | The filter object is called and the filter manager acts on the status: exactly one step |
| FilterManager.Half.HandleData | library/common/extensions/filters/http/platform_bridge/filter.cc:306-334 | The same for data, with the chunk moved, appended or forwarded as objects |
| FilterManager.Half.HandleTrailers | library/common/extensions/filters/http/platform_bridge/filter.cc:336-371 | The same for trailers |
| FilterManager.Half.HandleResume | library/common/extensions/filters/http/platform_bridge/filter.cc:389-535 | The same for a posted resume, with injected data |
| FilterManager.Half.Handle | library/common/extensions/filters/http/platform_bridge/filter.cc:284-535 | Any event of one direction, decoding or encoding, is exactly one step, and what the filter keeps for the other direction stays |
| FilterManager.FilterManager.Handle | library/common/extensions/filters/http/platform_bridge/filter.h:109 | An event of either direction on the shared filter is exactly one step of a run and leaves the other direction alone |
| FilterManager.FilterManager.HandleAll | test/common/extensions/filters/http/platform_bridge/platform_bridge_filter_test.cc:437-450 | A legal run handled by the objects ends in the state of the run |
| BridgeRefinement.StepRefinesExactly | library/common/extensions/filters/http/platform_bridge/filter.cc:114-535 | A step keeps the filter and the filter manager in agreement with one simple accumulator, logs included, if and only if it is none of the four departures |
| BridgeRefinement.RunRefinesExactly | library/common/extensions/filters/http/platform_bridge/filter.cc:114-535 | In every legal run of both directions: agreement of one direction after every step if and only if none of its steps departs and no step of the other one stops or resumes |
| BridgeRefinement.OtherStepRefinesExactly | library/common/extensions/filters/http/platform_bridge/filter.h:109 | A step of the other direction breaks the agreement if and only if it changes the shared iteration state |
| BridgeRuns.TurnsExactly | library/common/extensions/filters/http/platform_bridge/filter.cc:131-218 | The iteration state changes exactly on a stop while ongoing, or a resume while stopped |
| BridgeRefinement.StartRefines | library/common/extensions/filters/http/platform_bridge/filter.h:105-116 | A new filter agrees with an empty accumulator |
| BridgeRuns.AbortsExactly | library/common/extensions/filters/http/platform_bridge/filter.cc:134-526 | In every state, a step aborts exactly when the answer is unsupported, continues a stop, resumes no stop, returns to a synchronous resume an entity that is not pending, or withholds from a posted resume one that is |
| BridgeRuns.StoppedDataAccumulates | library/common/extensions/filters/http/platform_bridge/filter.cc:150-193 | While stopped, a data call shows the held bytes followed by the chunk; buffering extends the held bytes, not buffering empties them, neither forwards |
| BridgeSnapshot.StepSnapshotExactly | library/common/extensions/filters/http/platform_bridge/filter.cc:284-371 | A step keeps the pending entities those received and not forwarded, with the true end of stream, if and only if it does not overtake pending headers |
| BridgeSnapshot.SnapshotExactly | library/common/extensions/filters/http/platform_bridge/c_types.h:126-134 | In every legal run, whatever the other direction does, the pending entities are always those received and not forwarded if and only if no step of this direction overtakes |
| BridgeSnapshot.ShownExactly | library/common/extensions/filters/http/platform_bridge/filter.cc:401-423 | What a posted resume shows is all HTTP state not forwarded, a null data pointer exactly without a buffer, if and only if the pending entities are those |
| BridgeSnapshot.SnapshotsAreTrue | library/common/extensions/filters/http/platform_bridge/c_types.h:126-134 | In every legal run without overtaking, every snapshot shown is all HTTP state not yet forwarded |
| BridgeSnapshot.OvertakenReached | library/common/extensions/filters/http/platform_bridge/filter.cc:145-148 | From the start: a stopped filter is shown as pending the headers that were already forwarded |
| BridgeSnapshot.StartSnapshot | library/common/extensions/filters/http/platform_bridge/filter.h:105-116 | A new filter satisfies both invariants |
| BridgeRefinement.UnansweredReached | library/common/extensions/filters/http/platform_bridge/filter.cc:145-148 | From the start: without a data callback, body and pending headers are forwarded while the filter stays stopped |
| BridgeRefinement.DuplicatesReached | library/common/extensions/filters/http/platform_bridge/filter.cc:207-217 | From the start: for any chunk, a run in which a data call that resumes has the chunk forwarded twice |
| BridgeRefinement.LeavesHeadersReached | library/common/extensions/filters/http/platform_bridge/filter.cc:201-206 | From the start: a run into an ongoing state with pending headers |
| BridgeRefinement.IgnoresStopReached | library/common/extensions/filters/http/platform_bridge/filter.cc:501-534 | From the start: an encoding resume answered with a stop forwards the headers |
| BridgePending.StepLeavesNothingExactly | library/common/extensions/filters/http/platform_bridge/filter.cc:197-219 | A step keeps an ongoing state free of pending headers and trailers if and only if it is no synchronous resume that leaves the headers |
| BridgePending.OngoingHasNothingPendingExactly | library/common/extensions/filters/http/platform_bridge/filter.cc:197-219 | In every legal run of both directions, an ongoing state never has pending headers or trailers if and only if no step leaves them and no step of the other direction resumes over them |
| BridgePending.OngoingHasNothingBufferedExactly | library/common/extensions/filters/http/platform_bridge/filter.cc:207-219 | The same for buffered bytes: exactly when no step refills the buffer of a direction that is not held and no step of the other direction resumes over bytes |
| BridgePending.StrandedBytesReached | library/common/extensions/filters/http/platform_bridge/filter.h:109 | From the start: the encoding direction resumes over bytes the decoding direction has buffered |
| BridgePending.RefillsReached | library/common/extensions/filters/http/platform_bridge/filter.cc:210-214 | From the start: a resume fills the empty buffer of a direction that the filter manager never stopped |
| BridgeBody.StepConservesExactly | library/common/extensions/filters/http/platform_bridge/filter.cc:141-282 | With an echoing platform filter, forwarded followed by held bytes grow by exactly the chunk if and only if the step does not duplicate it |
| BridgeBody.BodyConservedExactly | library/common/extensions/filters/http/platform_bridge/filter.cc:141-282 | In every legal run of both directions in which the platform filter echoes in this one, forwarded followed by held bytes are the bytes received after every step if and only if no step duplicates |
| BridgeForwarding.StoredIsAnswered | library/common/extensions/filters/http/platform_bridge/filter.cc:104-109 | For all headers, what is stored has the same entries in order, every value unchanged, and each name byte from 65 to 90 raised by 32 and any other kept; lower-case names are stored as they are |
| BridgeForwarding.ContinueForwardsHeaders | library/common/extensions/filters/http/platform_bridge/filter.cc:126-128 | A headers call that continues forwards exactly the headers answered, names lowered |
| BridgeForwarding.ContinueForwardsTrailers | library/common/extensions/filters/http/platform_bridge/filter.cc:241-246 | A trailers call that continues forwards exactly the trailers answered, names lowered |
| BridgeForwarding.DataResumeForwardsHeaders | library/common/extensions/filters/http/platform_bridge/filter.cc:201-206 | A data call that resumes forwards the pending headers as answered |
| BridgeForwarding.TrailersResumeForwardsBoth | library/common/extensions/filters/http/platform_bridge/filter.cc:258-275 | A trailers call that resumes forwards pending headers and trailers as answered |
| BridgeForwarding.PostedResumeForwardsBoth | library/common/extensions/filters/http/platform_bridge/filter.cc:427-457 | A posted resume forwards pending headers and trailers as answered |
| BridgeRuns.StopsAndResumesAlternate | library/common/extensions/filters/http/platform_bridge/filter.cc:373-392 | In every run of both directions, resumes are as many as Stopped-to-Ongoing transitions and alternate with stops |
| BridgeRuns.StaleResumeChangesNothing | library/common/extensions/filters/http/platform_bridge/filter.cc:390-392 | A posted resume in an ongoing state leaves the whole state alone |
| BridgePending.WrongDirectionStrandsExactly | library/common/extensions/filters/http/platform_bridge/filter.h:109 | A step of the other direction ends a stop if and only if it resumes; then the stopped direction stays as it was through any number of its own posted resumes, between any steps of the other one that do not stop again |
| BridgePending.WrongDirectionResumeStrands | library/common/extensions/filters/http/platform_bridge/filter.h:109 | From the start: a run into that state, with headers pending and not forwarded |
| HttpDispatcher.DirectStream.MapLocalResponseToError | library/common/http/dispatcher.cc:77-95 | Error code 503 or undefined, and the attempt count stored in a signed field when it parses |
| HttpDispatcher.Dispatcher.OnReady | library/common/http/dispatcher.cc:213-227 | The initial queue is appended to the loop in order, and is not cleared |
| HttpDispatcher.Dispatcher.PostClosure | library/common/http/dispatcher.cc:229-241 | A post goes to the loop once ready and to the initial queue before |
| HttpDispatcher.Dispatcher.EncodeHeadersCall | library/common/http/dispatcher.cc:32-75 | Bookkeeping, removal, interception of local replies and calls made, for every response |
| HttpDispatcher.Dispatcher.InterceptLocalReply | library/common/http/dispatcher.cc:54-61 | A local reply becomes bookkeeping, or an error at once when it has no body |
| HttpDispatcher.Dispatcher.EncodeDataCall | library/common/http/dispatcher.cc:97-131 | Data is passed on, or becomes the message of the stored error |
| HttpDispatcher.Dispatcher.EncodeTrailersCall | library/common/http/dispatcher.cc:133-144 | Trailers are passed on and complete the stream |
| HttpDispatcher.Dispatcher.OnCompleteCallback | library/common/http/dispatcher.cc:152-160 | One counter by success, then completion |
| HttpDispatcher.Dispatcher.OnErrorCallback | library/common/http/dispatcher.cc:162-179 | The stored code, message and attempt count, or reset, nothing and -1 |
| HttpDispatcher.Dispatcher.OnCancelCallback | library/common/http/dispatcher.cc:181-185 | The cancel counter, then the cancellation |
| HttpDispatcher.Dispatcher.Reset | library/common/http/dispatcher.cc:194-207 | Reset callbacks of any re-entrant content, then removal and one error if the stream is still in the map |
| HttpDispatcher.Dispatcher.FailIfPresent | library/common/http/dispatcher.cc:199-206 | A stream already gone is left alone |
| HttpDispatcher.Dispatcher.StartStream | library/common/http/dispatcher.cc:243-263 | A fresh stream enters the map unless the handle is taken |
| HttpDispatcher.Dispatcher.SendToDecoder | library/common/http/dispatcher.cc:265-348 | A request call reaches the decoder of a present stream and is swallowed otherwise |
| HttpDispatcher.Dispatcher.CancelStream | library/common/http/dispatcher.cc:350-374 | A present stream is removed, counted and told of its cancellation |
| HttpDispatcher.Dispatcher.RunClosure | library/common/http/dispatcher.cc:243-374 | The loop runs the oldest closure, and after a cancellation its reset callbacks |
| HttpDispatcher.Dispatcher.RemoveStream | library/common/http/dispatcher.cc:389-409 | The stream leaves the map and is handed to deferred deletion |
| HttpDispatcher.Dispatcher.ClearDeferredList | library/common/http/dispatcher.cc:396-403 | Deferred streams are deleted, in order |
| DispatcherLifecycle.RunKeeps | library/common/http/dispatcher.cc:194-409 | Every legal run keeps the invariant tying each stream's place to its log and its deferred deletions |
| DispatcherLifecycle.OneTerminalCallback | library/common/types/c_types.h:221-253 | In every interleaving with re-entrant resets: at most one terminal callback a stream, nothing after it, and a started stream is in the map exactly while it has had none |
| DispatcherLifecycle.FifoAcrossReady | library/common/http/dispatcher.cc:213-241 | Operations executed followed by those waiting are those posted, in order, none lost or doubled |
| DispatcherLifecycle.SecondReadyDoubles | library/common/http/dispatcher.cc:217-225 | A second ready keeps that order if and only if nothing had been queued |
| DispatcherLifecycle.StreamAccounting | library/common/http/dispatcher.cc:146-185 | Counters plus live streams are the streams started; each finished stream was handed over exactly once, others never |
| DispatcherRequests.DecoderGetsPrefix | library/common/http/dispatcher.cc:265-348 | With the start posted before its sends, decoder calls are a prefix of the sends, all of them while the stream lives, none after its terminal callback |
| DispatcherCallbacks.CallbackLogRefines | library/common/http/dispatcher.cc:32-179 | In every run, what the platform is told about a stream is a simple function of what reached it: one error for a local reply, exactly unless trailers or a cancellation follow its headers, and otherwise event by event |
| DispatcherCallbacks.SingleErrorExactly | library/common/http/dispatcher.cc:52-61 | A local reply is told as a single error exactly when it ends with its headers, or something other than trailers or a cancellation follows |
| DispatcherCallbacks.LocalReplyIsTold | library/common/http/dispatcher.cc:54-95 | In every run, a reply outside 200 to 299 without the upstream-service-time header is told as one error: a connection failure if and only if its status is 503, an undefined error otherwise, with its body, and with its attempt count n, n - 2^32 from 2^31 on, or -1 |
| DispatcherCallbacks.OrdinaryReplyIsTold | library/common/http/dispatcher.cc:63-74 | In every run, a reply from 200 to 299 or with that header is told event by event |
| DispatcherCallbacks.OutcomeOfResponse | library/common/http/dispatcher.cc:39-41 | A response that ran to its end is a success exactly when its status is from 200 to 299 |
| DispatcherCallbacks.CountersCountVerdicts | library/common/http/dispatcher.cc:152-185 | In every run, each counter is the number of finished streams whose events have that outcome |
| GrpcWire.GrpcStream.SendMessageSwift | library/swift/src/grpc/GRPCStream.swift:43-62 | Two sends that together are exactly one frame, on hosts of either byte order |
| GrpcWire.GrpcStream.SendMessageKotlin | library/kotlin/src/io/envoyproxy/envoymobile/grpc/GRPCStream.kt:32-51 | Two sends that together are exactly one frame |
| GrpcWire.Frame | library/swift/src/grpc/GRPCStream.swift:44-48 | A zero flag, four length bytes, the message |
| GrpcWire.LengthBytesAreOrdered | library/kotlin/src/io/envoyproxy/envoymobile/grpc/GRPCStream.kt:43-46 | Big endian: the length bytes of frames are ordered, first byte first, exactly as the lengths are, and a length below 256 is the last of them |
| GrpcWire.HostOrder | library/swift/src/grpc/GRPCStream.swift:55-56 | A little-endian host keeps the lowest byte of a word first, a big-endian host last |
| GrpcWire.SwapMeetsWireFormat | library/swift/src/grpc/GRPCStream.swift:55-56 | The byte swaps of printer and parser meet the wire format on either byte order |
| GrpcWire.UniqueDecomposition | library/swift/src/grpc/GRPCStream.swift:44-48 | Bytes determine their frames and incomplete rest |
| SwiftDeframer.IntegerAtIndex | library/swift/src/grpc/Data+Extension.swift:10-22 | The bytes at the index, or nothing exactly when the data is too small |
| SwiftDeframer.ResponseReader.OnResponseData | library/swift/src/grpc/GRPCStreamPrototype.swift:56-65 | A chunk is appended and the captured variables become those of one call |
| SwiftDeframer.ResponseReader.Process | library/swift/src/grpc/GRPCStreamPrototype.swift:132-174 | The recursion in place ends, by buffer length then phase, with the specified buffer, phase and messages |
| SwiftDeframer.ProcessDecomposes | library/swift/src/grpc/GRPCStreamPrototype.swift:132-174 | One call on zero flags splits the buffer into whole frames and a strict prefix of one frame, and the phase is a function of that prefix |
| SwiftDeframer.ProcessLoss | library/swift/src/grpc/GRPCStreamPrototype.swift:141-146 | One call keeps the byte count if and only if every flag reached is zero, and never makes bytes up |
| SwiftDeframer.FeedExplains | library/swift/src/grpc/GRPCStreamPrototype.swift:58-65 | One more chunk keeps frames plus buffer equal to the bytes received |
| SwiftDeframer.Lossless | library/swift/src/grpc/GRPCStreamPrototype.swift:132-174 | For every chunking of zero flags, re-framed messages followed by the buffer are exactly the bytes received |
| SwiftDeframer.LosslessExactlyOnZeroFlags | library/swift/src/grpc/GRPCStreamPrototype.swift:132-174 | For every chunking of any bytes, the byte count is kept if and only if every flag reached is zero |
| SwiftDeframer.ChunkingIrrelevant | library/swift/src/grpc/GRPCStreamPrototype.swift:52-68 | Messages, buffer and phase depend only on the bytes, however they are cut |
| SwiftDeframer.RoundTrip | library/swift/src/grpc/GRPCStreamPrototype.swift:132-174 | Every list of printed messages, cut in any way, is read back in order with an empty buffer in the first phase |
| SwiftDeframer.ChunkingIrrelevantExactly | library/swift/src/grpc/GRPCStreamPrototype.swift:132-174 | For any bytes, all ways of cutting them give the same messages, buffer and phase if and only if no zero byte follows the first non-zero flag; there is none exactly when every flag is zero |
| SwiftDeframer.ChunkingMattersAfterNonZeroFlag | library/swift/src/grpc/GRPCStreamPrototype.swift:141-146 | An instance: the six bytes of a bad flag and an empty frame, cut in two ways, give different messages |
| KotlinDeframer.ResponseReader.OnResponseData | library/kotlin/src/io/envoyproxy/envoymobile/grpc/GRPCStreamPrototype.kt:50-64 | A chunk is appended; the messages delivered and, unless the call does not return, the buffer and phase are those of one call |
| KotlinDeframer.ResponseReader.Process | library/kotlin/src/io/envoyproxy/envoymobile/grpc/GRPCStreamPrototype.kt:136-202 | The recursion in place delivers the specified messages, also before a throw or an endless recursion, and yields the specified buffer and phase; a throw leaves an empty buffer |
| KotlinDeframer.OutcomeIsThatOfTheRecursion | library/kotlin/src/io/envoyproxy/envoymobile/grpc/GRPCStreamPrototype.kt:136-202 | The outcome of a call is that of its nested activations, one for each entry into the source's body; it is endless if and only if they never end, and then they deliver its messages followed by empty ones |
| KotlinDeframer.StaysInSync | library/kotlin/src/io/envoyproxy/envoymobile/grpc/GRPCStreamPrototype.kt:159-175 | The stored length stays that of the bytes at the front |
| KotlinDeframer.Wrap | library/kotlin/src/io/envoyproxy/envoymobile/grpc/GRPCStreamPrototype.kt:168-172 | The 32-bit signed number congruent to the length modulo 2^32 |
| KotlinDeframer.BadFlagIsSkipped | library/kotlin/src/io/envoyproxy/envoymobile/grpc/GRPCStreamPrototype.kt:151-157 | A non-zero flag drops the bytes at hand without a message, and the flag of the next bytes is not looked at |
| KotlinDeframer.AgreeExactlyOnShortFrames | library/kotlin/src/io/envoyproxy/envoymobile/grpc/GRPCStreamPrototype.kt:159-198 | One call on zero flags agrees with Swift's if and only if every length reached is at most 2^31 - 6 |
| KotlinDeframer.LongLength | library/kotlin/src/io/envoyproxy/envoymobile/grpc/GRPCStreamPrototype.kt:172-190 | Beyond it the call first reports an empty message that was not sent, and then throws, never returns, or goes on, by the range of the length |
| KotlinDeframer.AgreeOnEveryChunking | library/kotlin/src/io/envoyproxy/envoymobile/grpc/GRPCStreamPrototype.kt:159-198 | On every chunking of zero-flag short frames both deframers emit the same messages and keep the same buffer |
| KotlinDeframer.AgreeOnChunkingExactly | library/kotlin/src/io/envoyproxy/envoymobile/grpc/GRPCStreamPrototype.kt:159-198 | For every chunking of zero-flag bytes, the two deframers agree if and only if every length reached is short |
| KotlinDeframer.Lossless | library/kotlin/src/io/envoyproxy/envoymobile/grpc/GRPCStreamPrototype.kt:136-202 | For every chunking of zero-flag short frames, re-framed messages followed by the buffer are exactly the bytes received |
| KotlinDeframer.RoundTrip | library/kotlin/src/io/envoyproxy/envoymobile/grpc/GRPCStreamPrototype.kt:136-202 | Every list of printed messages of at most 2^31 - 6 bytes, cut in any way, is read back in order with nothing left over |
| EnvoyConfiguration.ResolveTemplate | library/java/src/io/envoyproxy/envoymobile/engine/EnvoyConfiguration.java:59-87 | The loop over filters, the chain of replacements and the check compute the specified text or raise |
| ConfigurationKeys.StatsDomainResolves | library/java/src/io/envoyproxy/envoymobile/engine/EnvoyConfiguration.java:69 | Between any plain texts, the token of this key alone gives way to the stats domain |
| ConfigurationKeys.FilterChainResolves | library/java/src/io/envoyproxy/envoymobile/engine/EnvoyConfiguration.java:60-70 | The same for the chain: the filter template once for every filter name, in order, with the name in place of its token |
| ConfigurationKeys.ConnectTimeoutResolves | library/java/src/io/envoyproxy/envoymobile/engine/EnvoyConfiguration.java:71 | The same for the printed connect timeout |
| ConfigurationKeys.DnsRefreshRateResolves | library/java/src/io/envoyproxy/envoymobile/engine/EnvoyConfiguration.java:72 | The same for the printed refresh rate |
| ConfigurationKeys.DnsFailureBaseResolves | library/java/src/io/envoyproxy/envoymobile/engine/EnvoyConfiguration.java:73-74 | The same for the printed base rate |
| ConfigurationKeys.DnsFailureMaxResolves | library/java/src/io/envoyproxy/envoymobile/engine/EnvoyConfiguration.java:75-76 | The same for the printed maximal rate |
| ConfigurationKeys.StatsFlushResolves | library/java/src/io/envoyproxy/envoymobile/engine/EnvoyConfiguration.java:77 | The same for the printed flush interval |
| ConfigurationKeys.DeviceOsResolves | library/java/src/io/envoyproxy/envoymobile/engine/EnvoyConfiguration.java:78 | The same for the constant Android |
| ConfigurationKeys.AppVersionResolves | library/java/src/io/envoyproxy/envoymobile/engine/EnvoyConfiguration.java:79 | The same for the application version |
| ConfigurationKeys.AppIdResolves | library/java/src/io/envoyproxy/envoymobile/engine/EnvoyConfiguration.java:80 | The same for the application id |
| ConfigurationKeys.VirtualClustersResolves | library/java/src/io/envoyproxy/envoymobile/engine/EnvoyConfiguration.java:81 | The same for the virtual clusters |
| Template.ReplaceIsSubstitute | library/java/src/io/envoyproxy/envoymobile/engine/EnvoyConfiguration.java:69 | One string replacement is one substitution of a token |
| Template.ChainIsSubstitution | library/java/src/io/envoyproxy/envoymobile/engine/EnvoyConfiguration.java:68-81 | A chain of replacements is the chain of substitutions |
| Template.ChainIsSimultaneousInAnyOrder | library/java/src/io/envoyproxy/envoymobile/engine/EnvoyConfiguration.java:68-81 | For values without tokens the chain is the simultaneous substitution, in whatever order the replacements are made |
| Template.CheckFiresExactly | library/java/src/io/envoyproxy/envoymobile/engine/EnvoyConfiguration.java:83-85 | The text contains the double brace exactly when a token remains |
| EnvoyConfiguration.ResolvesExactly | library/java/src/io/envoyproxy/envoymobile/engine/EnvoyConfiguration.java:59-87 | For all templates and filter templates, resolution raises if and only if a key is left over, and otherwise is the substitution |
| EnvoyConfiguration.ResolutionIsSimultaneousExactly | library/java/src/io/envoyproxy/envoymobile/engine/EnvoyConfiguration.java:59-87 | For all templates and filter templates, resolution is the simultaneous substitution if and only if a key is left over, so that both fail, or no inserted filter has a key whose replacement comes later |
| EnvoyConfiguration.LaterKeyResolves | library/java/src/io/envoyproxy/envoymobile/engine/EnvoyConfiguration.java:68-81 | Where they differ: a filter template that uses a later key is resolved, though at once it would fail |
| Decimals.ParsePrint | library/kotlin/src/io/envoyproxy/envoymobile/RetryPolicy.kt:39 | A printed number parses back exactly when it is within the bounds of the type |
| Decimals.ParseExactly | library/kotlin/src/io/envoyproxy/envoymobile/RetryPolicy.kt:39-48 | A text parses exactly when it is digits after at most one sign with a value in decimal places within the bounds |
| Decimals.PrintIsNumeral | library/swift/src/RetryPolicyMapper.swift:7-8 | A number is printed as its decimal digits, without plus sign or leading zeros |
| RetryPolicies.OutboundHeadersSwift | library/swift/src/RetryPolicyMapper.swift:5-24 | The headers of a policy |
| RetryPolicies.OutboundHeadersKotlin | library/kotlin/src/io/envoyproxy/envoymobile/RetryPolicyMapper.kt:8-26 | The same headers, built in another order |
| RetryReading.NamesWritten | library/swift/src/RetryPolicyMapper.swift:5-24 | Exactly the headers of those names are written, the last two only when they have a value |
| RetryReading.NumbersWritten | library/swift/src/RetryPolicyMapper.swift:6-9 | Count and timeouts under their names as printed numbers, an absent total as 0 |
| RetryReading.RulesWritten | library/swift/src/RetryPolicyMapper.swift:11-17 | Each rule in order under its text, then the announcing text exactly when there are codes |
| RetryReading.CodesWritten | library/swift/src/RetryPolicyMapper.swift:12-15 | The codes in order as printed numbers |
| RetryReading.RuleReadExactly | library/swift/src/RetryPolicy.swift:38-61 | Each rule is read exactly from its text, in any letter case on Swift; the announcing text is skipped |
| RetryReading.RulesReadInOrder | library/swift/src/RetryPolicy.swift:38-61 | Texts one after the other give their rules one after the other |
| RetryReading.ReadExactly | library/kotlin/src/io/envoyproxy/envoymobile/RetryPolicy.kt:38-50 | For all headers: no policy exactly without a count in the bounds of the type, failure exactly on an empty Kotlin list, an unknown rule text, or a try timeout above a total that is not 0 |
| RetryReading.FoundHolds | library/swift/src/RetryPolicyMapper.swift:29-46 | A policy that is read has its count, its rules, the numbers among the codes in order, and both timeouts, each from the header of its name |
| RetryPolicies.AddRetryPolicy | library/swift/src/RequestHeadersBuilder.swift:29-35 | In any order, the policy's headers replace those of the builder and the others stay |
| RetryPolicies.ReadPrintedRules | library/swift/src/RetryPolicy.swift:38-61 | Rules read back in order and the announcing rule vanishes |
| RetryPolicies.BuilderRoundTripExactly | library/kotlin/src/io/envoyproxy/envoymobile/RetryPolicy.kt:38-50 | Through a builder, every valid policy is read back if and only if the builder holds no stale status codes or try timeout |
| RetryPolicies.SecondPolicyReadsMixed | library/swift/src/RequestHeadersBuilder.swift:29-35 | For any two valid policies added in turn, what is read back: the second with the status codes and try timeout of the first where it has none, or a failure exactly when the timeouts do not fit |
| RetryPolicies.StaleCodesReached | library/swift/src/RetryPolicyMapper.swift:12-15 | Two valid policies that read back as the first |
| RetryPolicies.StaleTimeoutReached | library/kotlin/src/io/envoyproxy/envoymobile/RetryPolicyMapper.kt:15-17 | Two valid policies that cannot be read back |
| RetryPolicies.RoundTrip | library/swift/src/RetryPolicyMapper.swift:5-46 | Every valid policy is read back from its own headers, an absent total timeout as 0, and passes the timeout check |
| HeaderBridge.ToNativeHeaders | library/objective-c/EnvoyBridgeUtility.h:34-56 | The fill index ends at the counted length and the array holds every pair in order |
| HeaderBridge.FlattenAt | library/objective-c/EnvoyBridgeUtility.h:45-51 | Value j of key i lands as the pair of that key and that value, after the values of the earlier keys |
| HeaderBridge.ToIosHeaders | library/objective-c/EnvoyBridgeUtility.h:76-96 | Pairs are grouped by key, values in order |
| HeaderBridge.RegroupHolds | library/objective-c/EnvoyBridgeUtility.h:86-91 | Each key that stands first in a pair holds exactly the values of its pairs, in order |
| HeaderBridge.ToJniHeaders | library/java/src/io/envoyproxy/envoymobile/engine/JniBridgeUtility.java:16-27 | Keys and values alternate, pair by pair |
| HeaderBridge.InterleaveAlternates | library/java/src/io/envoyproxy/envoymobile/engine/JniBridgeUtility.java:22-23 | Every key stands directly before its value |
| HeaderBridge.ToNativeFromFlat | library/common/jni/jni_utility.cc:82-113 | The pairs whose alternation is the flat array |
| HeaderBridge.InterleaveInjective | library/common/jni/jni_utility.cc:82-85 | The flat array determines its pairs |
| HeaderBridge.JvmBridgeUtility.PassHeader | library/java/src/io/envoyproxy/envoymobile/engine/JvmBridgeUtility.java:30-55 | The pair joins the values of its key and the count goes up by one |
| HeaderBridge.JvmBridgeUtility.RetrieveHeaders | library/java/src/io/envoyproxy/envoymobile/engine/JvmBridgeUtility.java:62-67 | The map is handed over and the state reset |
| HeaderBridge.JvmBridgeUtility.PassAll | library/common/jni/jni_interface.cc:112-154 | Validation succeeds exactly when the announced number is the number of pairs; the map is the grouped pairs, and no pairs give null |
| HeaderBridge.MapSurvivesExactly | library/objective-c/EnvoyBridgeUtility.h:34-96 | In every iteration order, flattening and regrouping returns the map, value order kept, if and only if no value list is empty |
| HeaderBridge.JavaRoundTripExactly | library/java/src/io/envoyproxy/envoymobile/engine/JvmBridgeUtility.java:30-75 | Through Java, the map comes back exactly when it is not empty and no value list is; null comes back exactly when it has no value |
| EngineShutdown.StepKeeps | library/common/engine.cc:24-105 | Every step without fault keeps the protocol's invariant |
| EngineShutdown.ShutdownIsSafe | library/common/engine.cc:75-105 | In every interleaving without faults, exit is only requested on a live event dispatcher, on_exit is called at most once and after main is gone, and the destructor returns only after it |
| EngineShutdown.NeverStuck | library/common/engine.cc:88-105 | Some step without fault can be taken until the destructor has returned |
| EngineShutdown.DestructorReturns | library/common/engine.cc:82-105 | Every interleaving ends within 16 steps, and one that cannot go on has returned from the destructor |
| EngineShutdown.SpuriousWakeExactly | library/common/engine.cc:93-104 | With spurious wake-ups only, every run that cannot go on has returned, and it requested exit on a missing dispatcher exactly when the destructor reacquired the mutex before the run thread ever took it |
| EngineShutdown.FailedConstructionExactly | library/common/engine.cc:26-46 | With failing construction only, a run that cannot go on has returned from the destructor if and only if construction did not fail, and waits for ever if and only if it did |
| EngineShutdown.UnaskedLoopExitExactly | library/common/engine.cc:69-100 | With unasked loop exits only, a run that cannot go on has returned without harm if and only if exit was requested before main was reset; otherwise it hit a destroyed dispatcher or waits for ever |
| EngineShutdown.SpuriousWakeBreaks | library/common/engine.cc:93-100 | That harm is reached |
| EngineShutdown.FailedConstructionBreaks | library/common/engine.cc:37-46 | Waiting for ever after a failed construction is reached |
| EngineShutdown.UnaskedLoopExitBreaks | library/common/engine.cc:69-75 | Waiting for ever after an unasked loop exit is reached |
| EngineShutdown.UnaskedLoopExitDestroysDispatcher | library/common/engine.cc:75-100 | Exit on a destroyed dispatcher is reached: main is reset without the mutex, between the check and the request |

## Left out

- Envoy itself (connection manager, router, real buffers and header maps, libevent): byte sequences, lists of pairs and the filter manager contract above stand for it; header maps that merge repeated names and the limits of buffers are not modelled.
- Assertion filter: every branch depends on Envoy's matcher, which is not part of this model.
- A platform filter without an initializer or without a resume callback, and its destruction: the constructor leaves the iteration state unset in the first case; a resume on a filter that is gone is a no-op.
- Raw memory: malloc, release functions, shared and weak pointers; payloads are values.
- UTF-8 and UTF-16 conversion: strings are compared as sequences of characters; Kotlin byte buffers start at position 0.
- Chunking of streams with non-zero gRPC compression flags in Kotlin, beyond the chunk with the flag and the next one: both languages leave compression as future work; for Swift, loss and dependence on chunking are exact.
- KotlinDeframer.ResponseReader.Process: does not say what the buffer holds during an endless recursion, because the call never returns; feeding on after a throw is not modelled.
- HttpDispatcher.Dispatcher.SendToDecoder: does not model the cluster and forwarded-proto headers that are set on request headers before they reach the decoder, because they depend on Envoy's header map and add only easy members.
- Integer width of native header counts, of counters and of the Java header count: unbounded here.
- The text of the attempt-count header: whether it parses is part of the response headers.
- Swift assertions in release builds, where a violated timeout check goes on; lower-casing beyond the Latin letters.
- Sending metadata and informational responses, the cluster chosen for a request, stats clients, builders other than addRetryPolicy, mocks, engine builders and enum tables: they would only add easy members.
- Network monitors, the registry of retained resources, example apps, documentation and build files.
