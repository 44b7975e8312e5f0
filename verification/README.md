# A verified model of the mqtt-go client

mqtt-go is a client for MQTT 3.1.1. This project models its core in Dafny and proves what that core
guarantees over whole runs, over whole connections and for all inputs. `dafny verify dfyconfig.toml`
checks it.

**Retry engine** (`retryclient.go`). `RetryModel` gives the engine as a transition function over its
two queues, its list of established subscriptions and the memory that its queued closures share, with
a history kept for the proofs. `RetryClientObject.RetryClient` is the object of the source; each of its
methods is proved to take the step of that function. An event is a call on the client or one turn of
its loop; each network attempt gets an environment (`Sender.Net`) that decides whether the
client is connected, the fate of every write (delivered or not, whatever error is reported), whether
acknowledgements arrive, the granted codes and the new packet identifier. A run is any sequence of
events. The whole-run theorems are in `RetryAcceptance`, `RetryOrder`, `RetryBlocks`, `RetryConservation`, `RetryLoss`,
`RetryWire`, `RetryDelivery`, `RetryEffects`, `RetrySubscriptions`, `RetryFlag`, `RetryMemory`,
`RetryPanics`, `RetryIdentifiers` and `RetryCollisions`; `RetryExamples` holds runs that show their hypotheses to be
needed.

**Sender** (`publish.go`). `Sender` gives `publishImpl` and its two retry closures as a resumable state
machine, and composes it with a broker of section 4.3.3 of MQTT 3.1.1, in both of the methods that the
standard allows. `SenderObject.Publication` is the message that the closures share and update.

**Receiver and router** (`serve.go`, `client.go`). `Receiver` takes the reading loop from the bytes of a
connection to deliveries and answers. `Signaller` routes acknowledgements to waiters. Both rest on
`Matching`: a table of latest openings of a key. `ReceiverWire` writes the packets of a broker out byte for
byte and carries the results from those bytes to deliveries, answers and waiters.

**Codec** (`packet.go`, `serve.go`, `publish.go`, `connect.go`, `subscribe.go`, `unsubscribe.go`).
`Framing`, `Utf8`, `PublishCodec`, `Requests` and `ConnectCodec`, with decoders for the requests written
from the standard, and the layout of every packet in literal bytes.

**Algorithms**: `Subscriptions` (removal in place), `PacketId`, `TopicFilter`, `Transport` (the write loop).

An `int` of the source is taken to have 64 bits. Errors are an `Outcome`: a value, an error, or a panic.

## What the code does not guarantee

Each of these is proved, and where a property fails its exact condition is stated.

- A PUBREL write that fails leads back to PUBLISH (`publish.go:211-212`). If the broker had already had a
  PUBREL, the next trouble-free attempt makes it release the message a second time, and only then:
  `Sender.RegressionReleasesTwice`, `Sender.RegressionHappens`.
- A Retry pass that breaks queues the whole old queue again (`retryclient.go:450-451`). Each entry that it
  had run puts its operation in one place more; an operation is in exactly one place if and only if this
  never happened to it: `RetryConservation.OncePerOperation`. A QoS 2 message can then be acknowledged and
  released twice: `RetryExamples.BrokenPassDeliversTwice`. Messages to which it did not happen keep all
  guarantees of the sender: `RetryDelivery.DeliveredOnce`.
- A continuation that fails does not raise `newRetryByError`: the loop closes the connection exactly after a
  turn in which a first attempt failed with a retryable error (`RetryFlag.ClosesExactly`), and after a broken
  pass nothing more is attempted until the next Retry (`RetryOrder.StalledUntilRetry`).
- Resubscribe behind a pending Unsubscribe brings the topic back, in the run of
  `RetryExamples.UnsubscribeUndone`; the exact condition is in `RetrySubscriptions.ResubscribeExact`.
- A SUBACK that rejects a topic writes code 0x80 into the slice that a queued continuation still holds;
  running that continuation panics, in the run of `RetryExamples.RejectedSubscribePanics`. When a run panics
  is stated exactly, for every run, in `RetryPanics.PanicExact`. If calls that can be packed are made, no
  Unsubscribe names a topic twice and Disconnect is called once, a run panics only if a pass broke after
  having run a Subscribe: `RetryPanics.NeverPanics`.
- `serve` panics on a SUBACK shorter than two bytes (`suback.go:26`) and on a length field whose tenth byte
  shifts a one into the sign (`serve.go:30`), and on no other stream: `Receiver.CrashExact`.
- The removal scan covers stale slots (`subscriptions.go:32`). A topic named twice can drop another
  subscription or panic: `Subscriptions.RepeatedTopicOverRemoves`, exact condition in
  `Subscriptions.RemovalExact`.
- The surrogate test in `unpackString` (`packet.go:168`) can never fire, since the conversion to runes
  gives U+FFFD instead; ill-formed UTF-8 is accepted and rewritten: `Utf8.RunesRange`,
  `Utf8.NormalisedExact`, `PublishCodec.ParseThenPack`.
- `write` slices `b[i : l-i]` (`client.go:104`): after a short write without an error it never
  returns nil: `Transport.ShortNeverDone`, exact condition in `Transport.WriteExact`.
- Not every set of options makes a CONNECT packet that section 3.1 of MQTT 3.1.1 allows:
  `ConnectCodec.ConnectConforms`. A will of undefined QoS is sent with QoS 0: `ConnectCodec.ConnectRoundTrip`.
- Section 4.7.2 excludes topics that start with `$` from filters that start with a wildcard. The code does not:
  `#` and `+/a` both match `$S/a` (`TopicFilter.ReservedInputs`). It differs from the standard exactly there
  (`TopicFilter.ReservedExact`), and every filter that starts with a wildcard is affected (`TopicFilter.ConformsExact`).
- Two messages can meet in the retry queue under one packet identifier if both callers chose it, and also if one
  caller chose it and the client drew it for the other: `RetryCollisions.CanShare`. They stay apart in every run if
  and only if both callers left the identifier to the client or both chose one and these differ
  (`RetryCollisions.ApartExact`), although each new client starts its counter at random (`uniqid.go:28`) and
  queued messages keep theirs.

The doc comment of `Retry` speaks of all queued requests (`retryclient.go:437`), while the code stops at the
first retryable error of a continuation; the model follows the code.

## Model

| member | source | states |
|---|---|---|
| `RetryLoss.PromisedNeverLost` | retryclient.go:140-238 | In every reachable state an accepted operation that its own task did not give up waits in the queue of calls, is held by a retry queue entry, was acknowledged, or ended with a non-retryable error |
| `RetryLoss.NotGivenUp` | retryclient.go:141-175 | No task gives up a Subscribe, an Unsubscribe, or a QoS 1 or 2 message that the client of that very task takes |
| `RetryLoss.DroppedExactly` | retryclient.go:141-175 | In every run an operation was given up unattempted if and only if its own task found a client that refuses it, or a QoS 0 message a waiting retry queue |
| `RetryAcceptance.AcceptedExactly` | retryclient.go:103-138 | In every run the accepted tasks are, in order, those pushed by its calls before the first Disconnect: every Subscribe and Unsubscribe, and a message if there is no client yet or it has QoS at most 2 and a payload below a non-zero limit |
| `RetryAcceptance.CallExactly` | publish.go:112-120 | One call: its request is stored as given and queued, or nothing changes |
| `RetryAcceptance.RejectedAsGivenUp` | retryclient.go:112-143 | A call is rejected under a limit exactly when its own task on a client with that limit would give it up |
| `RetryAcceptance.StoppedExactly` | retryclient.go:241-254 | A client is stopped exactly after Disconnect |
| `RetryAcceptance.EncodableExact` | packet.go:79-129 | A request counts as packable exactly when its packer does not panic |
| `RetryConservation.NoLoss` | retryclient.go:140-176 | The same for any accepted operation, with "given up unattempted" as the one further possibility |
| `RetryConservation.AlwaysBalanced` | retryclient.go:438-455 | Conservation law of every reachable state: an operation is in as many places (queued, acknowledged, ended) as it was issued, plus one for each time that a broken pass had run an entry of it |
| `RetryConservation.OncePerOperation` | retryclient.go:443-454 | The same as a number: one place if issued, and one more per doubling; exactly one place if and only if issued and never doubled |
| `RetryConservation.AcceptanceOrder` | retryclient.go:377-391 | First attempts of called operations happen in the order of acceptance, for every pattern of failures |
| `RetryConservation.ExpansionOrder` | retryclient.go:424-435 | The operations that a Resubscribe adds take its place: first attempted after whatever was issued for earlier tasks and before any operation accepted later |
| `RetryBlocks.AlwaysBlocks` | retryclient.go:328-350 | In every reachable state the issued operations are, task by task in the order run, the called operation unless given up, and a block of consecutive new numbers for a Resubscribe |
| `RetryBlocks.BlockOrder` | retryclient.go:328-350 | Whatever an earlier task issued is first attempted before anything that a later task issued |
| `RetryBlocks.TurnBlock` | retryclient.go:341-350 | A turn issues exactly the block of its task |
| `RetryBlocks.ResubscribeIssues` | retryclient.go:429-433 | One new operation per saved subscription, consecutively |
| `RetryConservation.DroppedNotIssued` | retryclient.go:163-175 | Nothing is both given up and issued |
| `RetryOrder.AlwaysOrdered` | retryclient.go:202-207 | Invariant of every reachable state: shape of the retry queue, issued = attempted followed by fresh entries, no repetition, accepted = run followed by waiting |
| `RetryOrder.FirstAttemptsInOrder` | retryclient.go:163-175 | The retry queue is all resume entries, then all fresh entries; fresh entries run at most once, in the order of issue |
| `RetryOrder.RetryPass` | retryclient.go:438-455 | A pass that breaks has run no fresh entry and leaves the new continuation followed by exactly the old queue; one that does not break has attempted everything issued |
| `RetryOrder.PassResult` | retryclient.go:443-454 | The same from the middle of a pass, for any point at which it breaks |
| `RetryOrder.StalledUntilRetry` | retryclient.go:163-175 | While the retry queue is not empty, nothing but a Retry attempts anything or takes anything out of it |
| `RetryOrder.BrokenPassKeepsConnection` | retryclient.go:443-454 | A broken pass leaves `newRetryByError` as it was |
| `RetryFlag.ClosesExactly` | retryclient.go:352-356 | In every run, a turn ends with the flag raised if and only if some operation first attempted in that turn failed that attempt with a retryable error |
| `RetryFlag.AlwaysLowered` | retryclient.go:355 | Between turns the flag is down |
| `RetryFlag.AlwaysFlagged` | retryclient.go:155-158 | Every attempt is recorded and the flag means what it should, over every reachable state |
| `RetryWire.IdentityInEveryRun` | publish.go:136-139 | In every run: first PUBLISH with DUP 0, later ones with DUP 1, otherwise the message as given, one non-zero identifier in all PUBLISH and PUBREL packets |
| `RetryWire.AlwaysIdentified` | publish.go:167-169 | The invariant behind it, over every reachable state |
| `RetryDelivery.EngineRefinesChain` | retryclient.go:144-161 | In every run, packets and standing of each message that no broken pass had run are exactly those of the sender's chain under the environments of its attempts |
| `RetryDelivery.DeliveredOnce` | publish.go:132-226 | End to end, for a QoS 2 message that no broken pass had run: at most one release unless a PUBREL write failed after the broker had one; exactly one once it is acknowledged |
| `RetryDelivery.AlwaysTracks` | retryclient.go:438-455 | The refinement in every reachable state, for all messages that were never doubled |
| `RetryEffects.EachAppliedOnce` | retryclient.go:179-200 | The established list is the effect of the operations first attempted since the last Resubscribe, each once and in order; with the pending ones it is the effect of those issued |
| `RetryEffects.AlwaysEffective` | subscriptions.go:23-41 | The invariant behind it, over every reachable state |
| `RetrySubscriptions.ResubscribeMoves` | retryclient.go:424-435 | For any pending operations: after a Resubscribe the list to come is what these make of an empty list, followed by the established entries |
| `RetrySubscriptions.ResubscribeExact` | retryclient.go:424-435 | With distinct topics in each pending Unsubscribe, Resubscribe never lowers the prospective number of entries of a topic, and keeps it if and only if no pending Unsubscribe needs an established entry |
| `RetrySubscriptions.PendingUnsubscribeUndone` | retryclient.go:424-435 | The failing family: a pending Unsubscribe of an established topic is undone |
| `RetrySubscriptions.ResubscribeConserves` | retryclient.go:424-435 | Established entries and entries of pending Subscribe operations are the same multiset, QoS included, before and after, over any failures |
| `RetrySubscriptions.HeadStart` | subscriptions.go:29-41 | How many extra entries of a topic survive a list of operations: all of them exactly when no Unsubscribe underflows |
| `RetryExamples.BrokenPassDeliversTwice` | retryclient.go:449-453 | A run with one broken pass in which a QoS 2 message is acknowledged twice and released twice, by a broker of either method |
| `RetryExamples.RejectedSubscribePanics` | subscribe.go:104-110 | A run of one Subscribe, one broken pass and a rejecting SUBACK that ends in a panic |
| `RetryExamples.UnsubscribeUndone` | retryclient.go:424-435 | A run that meets the hypotheses above: the topic is back after the Resubscribe, whatever the network does |
| `RetryPanics.PanicExact` | subscribe.go:42-54 | Every run: it has panicked if and only if in some step Disconnect was called again, a first attempt took too much off the list or found a connected client and a request that cannot be packed, or a pass ran, connected, the continuation of a Subscribe whose last SUBACK rejected a topic |
| `RetryPanics.NeverPanics` | retryclient.go:443-454 | With sound calls and at most one Disconnect, a run never panics unless a pass broke after having run a Subscribe |
| `RetryPanics.SoundStep` | retryclient.go:341-356 | With sound calls, a second Disconnect and a rejected continuation are the only panics |
| `RetryPanics.StepSafe` | retryclient.go:341-356 | The exact condition for one step from any reachable state |
| `RetryPanics.AlwaysRecorded` | subscribe.go:104-110 | In every reachable state memory is exactly what the recorded attempts made of the requests, and continuations belong to requests that could be packed |
| `RetryPanics.EndedExactly` | error.go:117-151 | In every run an operation ended with a non-retryable error if and only if one of its attempts found no connection, a client that refuses it, a write failing with EOF (at QoS 0: failing), or a SUBACK of the wrong length |
| `RetryPanics.AckedExactly` | publish.go:178-224 | In every run an operation was acknowledged if and only if one of its attempts was connected, took the message, wrote what it had to and had PUBACK, PUBREC and PUBCOMP, a SUBACK of the right length, or UNSUBACK; at QoS 0 nothing more |
| `RetryPanics.CodesInPlace` | subscribe.go:105-107 | In every run, topic i of a Subscribe is in memory as requested, with code i of its last SUBACK |
| `RetryMemory.TryKept` | subscribe.go:104-110 | An attempt keeps a request but for identifier and DUP flag of a message, and puts code i of a SUBACK into topic i |
| `RetryMemory.EndsExactly` | publish.go:132-226 | When an attempt ends for good, by request, stage and environment |
| `RetryMemory.AcksExactly` | publish.go:132-226 | When an attempt returns nil, by request, stage and environment |
| `RetryMemory.ResumeCrash` | subscribe.go:38-61 | A continuation panics exactly when the client is connected and the last SUBACK rejected a topic |
| `RetryIdentifiers.InFlightApart` | uniqid.go:27-37 | In every run in which no client draws an identifier twice within a task, queued continuations of two messages with compatible requests have different identifiers, whatever others chose |
| `RetryIdentifiers.AlwaysNumbered` | publish.go:136-138 | The invariant behind it: drawn identifiers in the queue are distinct in every reachable state |
| `RetryIdentifiers.CounterDrawsDistinct` | uniqid.go:31-37 | The draws of a task are distinct if its calls of the counter fall into a window of 65535 |
| `RetryCollisions.ApartExact` | publish.go:136-138 | Two messages stay apart in every run if and only if both callers left the identifier to the client, or both chose one and these differ |
| `RetryCollisions.CanShare` | publish.go:136-138 | For any other two, a run in which they meet under one identifier, chosen twice or chosen and drawn |
| `RetryModel.FirstAttempt` | retryclient.go:144-161 | A first attempt is recorded as one and adds at most its own continuation at the end of the queue |
| `RetryModel.Submit` | retryclient.go:140-176 | An operation is issued or given up, exactly as it is refused or not; requests, tasks and the number of cells stay |
| `RetryModel.RunResume` | retryclient.go:448-451 | A resume entry touches neither queue nor list |
| `RetryModel.RetryFrom` | retryclient.go:438-455 | A pass issues nothing, gives up nothing and keeps entries within memory |
| `RetryModel.ResubscribeFrom` | retryclient.go:424-435 | The loop makes exactly one new request for each saved subscription unless it panics, gives up nothing and keeps what was issued |
| `RetryModel.ResubscribeKeeps` | retryclient.go:430-432 | Whatever each turn of that loop keeps, the loop keeps |
| `RetryModel.After` | retryclient.go:294-358 | Every run keeps tasks and entries referring to stored requests |
| `RetryClientObject.RetryClient.constructor` | retryclient.go:28-52 | A new client is the initial state |
| `RetryClientObject.RetryClient.PushTask` | retryclient.go:377-391 | Accepts and appends, or refuses once stopped |
| `RetryClientObject.RetryClient.Call` | retryclient.go:103-138 | Takes the step of the transition function; accepts exactly when not stopped and, for a message on a client, QoS is at most 2 and the payload below a non-zero limit |
| `RetryClientObject.RetryClient.Resubscribe` | retryclient.go:424-435 | Takes the step of the transition function |
| `RetryClientObject.RetryClient.Retry` | retryclient.go:438-456 | Takes the step of the transition function |
| `RetryClientObject.RetryClient.Disconnect` | retryclient.go:241-254 | Takes the step of the transition function; a second call panics |
| `RetryClientObject.RetryClient.Apply` | retryclient.go:180-212 | The list after appending, or after the removal that `Subscriptions.RemovalExact` describes, or a panic |
| `RetryClientObject.RetryClient.FirstAttempt` | retryclient.go:144-230 | The new state is that of the first attempt in the transition function |
| `RetryClientObject.RetryClient.Submit` | retryclient.go:140-238 | The new state is that of `Submit` in the transition function |
| `RetryClientObject.RetryClient.RunResume` | retryclient.go:448-451 | The new state, and the continuation that is to be queued |
| `RetryClientObject.RetryClient.RunEntry` | retryclient.go:448-451 | The same for either kind of entry |
| `RetryClientObject.RetryClient.RunRetry` | retryclient.go:438-455 | The loop over the queue ends in the state of the recursive pass |
| `RetryClientObject.RetryClient.RunResubscribe` | retryclient.go:424-435 | The loop over the saved list ends in the state of the recursive loop |
| `RetryClientObject.RetryClient.Turn` | retryclient.go:341-356 | One turn is one step; the connection is closed exactly when the flag is raised at its end (`RetryFlag.ClosesExactly` says when) |
| `Sender.AtMostOnce` | publish.go:132-226 | Over any attempts and connections, unless a PUBREL write failed after the broker had one, received packets have the form PUBLISH* PUBREL* and the broker releases at most once |
| `Sender.ExactlyOnce` | publish.go:196-223 | If acknowledgements come only from a broker that has the packet they answer, a chain that returned nil was released at least once, and exactly once under the same hypothesis |
| `Sender.RegressionReleasesTwice` | publish.go:210-213 | That hypothesis is exact: a chain waiting to resend violates it if and only if a trouble-free attempt makes the broker release twice |
| `Sender.RegressionHappens` | publish.go:211-212 | Such a chain exists for every QoS 2 message |
| `Sender.AtLeastOnce` | publish.go:178-186 | With such a broker, a QoS 1 chain that returned nil was released |
| `Sender.SplitAttempt` | publish.go:171-224 | The ways an attempt that starts with PUBLISH can go; it returns nil at QoS 1 only on PUBACK and sends PUBREL only on PUBREC |
| `Sender.RetransmissionIdentity` | publish.go:136-139 | Along every chain: DUP 0 first and DUP 1 after, one non-zero identifier, the message otherwise as given |
| `Sender.InOrderReleases` | publish.go:196-223 | Closed form of the broker's state after PUBLISH* PUBREL* |
| `Sender.RunChainOk` | publish.go:132-226 | The invariant of every QoS 2 chain |
| `SenderObject.Publication.Impl` | publish.go:132-226 | Message, packets and result are those of the state machine |
| `SenderObject.Publication.Publish` | publish.go:124-130 | The same for a first attempt, with validation |
| `SenderObject.Publication.RetryPublish` | publish.go:167-169 | The same for a resend |
| `SenderObject.Publication.RetryPublish2` | publish.go:197-222 | The same for PUBREL |
| `SenderObject.Publication.Deliver` | publish.go:132-226 | Calling each continuation as it is returned runs exactly the chain |
| `Receiver.Serve` | serve.go:45-187 | From the bytes of a connection: actions and end are those of the loop over the parsed packets, up to the first write error |
| `Receiver.Handle` | serve.go:54-185 | The body of the loop does one turn of the state machine, write errors included |
| `Receiver.NextPacket` | serve.go:48-67 | Takes one packet off the stream, or ends as the stream ends |
| `Receiver.CrashExact` | suback.go:22-31 | A stream makes the loop panic if and only if what it cannot parse starts with a negative length or a SUBACK shorter than two bytes |
| `Receiver.BufferExact` | serve.go:91-135 | `subBuffer` holds m for an identifier if and only if m is its latest QoS 2 PUBLISH and no PUBREL came since |
| `Receiver.BufferTable` | serve.go:47 | The whole buffer as a table of the packets that filled it |
| `Receiver.RunExact` | serve.go:71-139 | The loop goes on exactly while its writes succeed, and has then done all that is due, in order |
| `Receiver.RunStopped` | serve.go:82-96 | At the first failing write, all that was due up to it was done, except that write |
| `Receiver.AcknowledgementOrder` | serve.go:71-139 | PUBACK, PUBREC and PUBCOMP identifiers are those of QoS 1 PUBLISH, QoS 2 PUBLISH and matched PUBREL packets, in order |
| `Receiver.DeliveryOrder` | serve.go:71-139 | The handler gets exactly the QoS 0 and 1 messages with their packets and the QoS 2 messages with the PUBREL that releases them, in order |
| `Receiver.DeliveredFirst` | serve.go:76-84 | A message is handed over before its receipt is written |
| `Receiver.ArrivalOrder` | serve.go:98-172 | The router gets exactly the acknowledgement packets, in order, under their kind and identifier |
| `Receiver.ReleasedExact` | serve.go:120-139 | A PUBREL releases a PUBLISH exactly when no QoS 2 PUBLISH and no PUBREL of that identifier lies between |
| `Receiver.PublishBetween` | serve.go:120-139 | Two releases of one identifier have a new PUBLISH with it between them |
| `Receiver.ChainReleasesOnce` | serve.go:120-139 | Any number of PUBLISH packets and then of PUBREL packets is one release, of the last PUBLISH, at the first PUBREL |
| `Receiver.PublishStream` | serve.go:65-69 | Any stream of packed messages is taken in as exactly these messages, then ends |
| `ReceiverWire.PacketReads` | serve.go:54-185 | Every packet a broker sends, in literal bytes, is taken in as its kind, identifier and codes, whatever follows |
| `ReceiverWire.StreamParses` | serve.go:45-52 | Any mix of such packets is taken in as exactly these packets |
| `ReceiverWire.RefusedExactly` | serve.go:180-184 | Which flags, lengths and types are refused, and how |
| `ReceiverWire.StreamRouted` | serve.go:98-172 | From bytes to the router: exactly the kind and identifier of each acknowledgement is closed, in order |
| `ReceiverWire.PacketWakes` | serve.go:98-119 | An acknowledgement packet wakes the waiter that registered last for its kind and identifier |
| `Receiver.RunStops` | serve.go:82-84 | After a failed write nothing happens any more |
| `Signaller.RouteExact` | client.go:158-200 | Under any interleaving, an acknowledgement reaches a waiter if and only if it made the latest registration of that kind and identifier and nothing consumed it since; none is dropped |
| `Signaller.OneEach` | client.go:158-200 | Each waiter gets at most one acknowledgement, each acknowledgement at most one waiter |
| `Signaller.RegisteredEmpty` | serve.go:103-108 | After any history every registered channel is empty |
| `Signaller.Distinct` | publish.go:148-165 | Registered channels are distinct |
| `Signaller.Signaller.Register` | publish.go:150-156 | A fresh empty channel replaces any earlier one for the key |
| `Signaller.Signaller.Take` | client.go:158-200 | Returns the channel of the key and deletes it |
| `Signaller.Signaller.Arrive` | serve.go:98-108 | The registered waiter finds exactly this acknowledgement in its channel; other waiters and the invariant are untouched |
| `Signaller.Channel.TrySend` | serve.go:104-107 | A send on a full channel is dropped |
| `Matching.TableExact` | serve.go:47 | A table of openings holds exactly the latest ones that were not closed |
| `Matching.MateExact` | client.go:158-167 | A closing takes an opening exactly when no mark of the key lies between |
| `Matching.PairedUnique` | client.go:158-167 | Pairs are one to one |
| `Matching.OpenedBetween` | serve.go:125-134 | Between two effective closings there is an opening |
| `Framing.RemainingLengthDigits` | packet.go:92-116 | The shift-and-mask code writes the base-128 digits of section 2.2.3, and panics exactly beyond 268435455 |
| `Framing.DigitsField` | packet.go:92-116 | The digits are a complete field that denotes the number |
| `Framing.DigitsShortest` | packet.go:92-116 | No complete field for the number is shorter |
| `Framing.DigitsLength` | packet.go:92-116 | One to four bytes |
| `Framing.FieldsPrefixFree` | packet.go:92-116 | No field is a proper prefix of another |
| `Framing.AccumulatedValue` | serve.go:28-37 | The decoder's accumulation gives the number the field denotes, up to nine bytes |
| `Framing.Pack` | packet.go:79-90 | Two loops over the parts produce header, length and concatenation, or panic |
| `Framing.ReadLength` | serve.go:28-37 | The loop takes exactly the length field and accumulates what it adds up to, or runs out |
| `Framing.NegativeExact` | serve.go:30 | The length comes out negative exactly when a tenth byte is odd |
| `Framing.ReadPacket` | serve.go:21-43 | The packet at the front, its rest, or the end-of-file errors of `io.ReadFull`; a negative length panics |
| `Framing.ReadPacked` | serve.go:21-43 | Reading a packed packet gives back type, flag and contents and leaves exactly the rest |
| `Framing.ReadTruncated` | serve.go:21-43 | Every strict prefix of a packed packet fails, with EOF where a read finds nothing and else with an unexpected EOF |
| `Framing.StreamRoundTrip` | serve.go:45-52 | Any concatenation of packed packets reads back as these packets with nothing left over |
| `Framing.StreamCut` | serve.go:45-52 | A stream cut at any byte reads as a prefix of its packets, then an end-of-file error |
| `Utf8.UnpackString` | packet.go:155-173 | The loop over the runes gives the specified text or error |
| `Utf8.NormalisedExact` | packet.go:166 | The conversion to runes and back is the identity exactly on well-formed UTF-8 |
| `Utf8.RunesRange` | packet.go:166-171 | No rune that comes out of the conversion is a surrogate |
| `Utf8.ZeroRune` | packet.go:168 | U+0000 is found exactly when a zero byte is there |
| `Utf8.StringRoundTrip` | packet.go:122-173 | A packed string unpacks to itself if and only if it is well-formed UTF-8 without U+0000 |
| `Utf8.PackUint16` | packet.go:131-136 | Two bytes, the high one first |
| `Utf8.UnpackUint16` | packet.go:151-153 | The number of two bytes, the high one first |
| `Utf8.DecodeEncoded` | packet.go:166 | Every encoded scalar value is decoded as itself, whatever follows |
| `Utf8.ValidExact` | packet.go:165-172 | Well-formed text is exactly the encoding of a sequence of scalar values |
| `PublishCodec.PackPublish` | publish.go:80-109 | Header bits and parts make the packet of section 3.3; bad QoS, overlong topic or packet panic |
| `PublishCodec.PublishLayout` | publish.go:80-109 | The packet in literal bytes, as section 3.3 lays it out |
| `PublishCodec.Parse` | publish.go:43-78 | Fields and errors as specified from flag and contents |
| `PublishCodec.ParseRefusesExactly` | publish.go:48-72 | Which contents are refused, and how |
| `PublishCodec.PublishRoundTrip` | publish.go:43-109 | Pack, read, parse gives the message back (identifier above QoS 0) if and only if its topic is well-formed UTF-8 without U+0000, and consumes exactly the packet |
| `PublishCodec.ParsePublished` | publish.go:43-109 | For every message that packs: what parsing makes of it, clean topic or not |
| `PublishCodec.ParseThenPack` | publish.go:43-109 | Packing a parsed packet restores flag and contents if and only if its topic was well-formed UTF-8 |
| `Requests.PackSubscribe` | subscribe.go:38-61 | The loop makes the payload of section 3.8.3; panics exactly for a QoS above 2 or a length that does not fit |
| `Requests.PackUnsubscribe` | unsubscribe.go:26-37 | The same for section 3.10.3 |
| `Requests.RequestLayout` | subscribe.go:56-60 | Both packets in literal bytes up to the payload |
| `Requests.PayloadLayout` | unsubscribe.go:27-30 | Both payloads, filter by filter, in literal bytes |
| `Requests.SubscribeRoundTrip` | subscribe.go:38-61 | A decoder from the standard recovers identifier and every list, of any length |
| `Requests.UnsubscribeRoundTrip` | unsubscribe.go:26-37 | The same for UNSUBSCRIBE |
| `Requests.RequestsInjective` | subscribe.go:38-61 | No two requests share a packet |
| `ConnectCodec.PackConnect` | connect.go:54-96 | Flag byte and payload, built side by side, are those of section 3.1; overlong parts panic |
| `ConnectCodec.ConnectLayout` | connect.go:86-95 | The packet in literal bytes up to the payload |
| `ConnectCodec.AddWill` | connect.go:62-77 | Flags and payload of a will |
| `ConnectCodec.AddText` | connect.go:78-85 | Flag and payload of a user name or password, none when empty |
| `ConnectCodec.Begin` | connect.go:55-77 | Flags and payload for identifier, session and will |
| `ConnectCodec.ConnectRoundTrip` | connect.go:54-96 | A decoder from the standard recovers every option set in all that a packet carries |
| `ConnectCodec.ConnectInjective` | connect.go:54-96 | Two option sets share a packet if and only if they agree in that |
| `ConnectCodec.ConnectConforms` | connect.go:58-85 | The packet obeys the rules of section 3.1 if and only if the level is 4, a password comes with a user name, and an empty identifier with a clean session |
| `Subscriptions.RemovalExact` | subscriptions.go:29-41 | The removal agrees with dropping the first entry of each topic if and only if no scan stops at a stale slot; otherwise it panics or is strictly shorter |
| `Subscriptions.RemovesOnePerTopic` | subscriptions.go:29-41 | Distinct topics: no panic, nothing invented, exactly one entry less of each present topic |
| `Subscriptions.RemovalKeepsOthers` | subscriptions.go:29-41 | Distinct topics: every entry of another topic stays, QoS included, as often as before |
| `Subscriptions.RemovalIsFiltering` | subscriptions.go:29-41 | Distinct topics in the list too: the removal is filtering |
| `Subscriptions.RepeatedTopicOverRemoves` | subscriptions.go:29-41 | A repeated topic drops another subscription, or panics |
| `Subscriptions.RemoveInPlace` | subscriptions.go:29-41 | The nested loops over the array give the specified list or panic |
| `PacketId.IdSource.InitID` | uniqid.go:27-29 | The counter starts at the random number plus one |
| `PacketId.IdSource.NewID` | uniqid.go:31-37 | Counter and identifier advance, zero is skipped by at most one recursive call |
| `PacketId.NextId` | uniqid.go:31-37 | Each identifier is the successor in the cycle 1 to 65535, through every wrap of the counter |
| `PacketId.NthClosed` | uniqid.go:31-37 | The k-th identifier is ((first - 1 + k) mod 65535) + 1 |
| `PacketId.WindowDistinct` | uniqid.go:31-37 | Never 0; two identifiers are equal exactly when their calls are a multiple of 65535 apart |
| `PacketId.TicketsDistinct` | uniqid.go:32 | Concurrent callers: any 65536 consecutive atomic adds give different low bits |
| `TopicFilter.NewTopicFilter` | filter.go:27-47 | Accepts exactly the non-empty strings of the wildcard grammar by characters, and returns their levels |
| `TopicFilter.ValidationExact` | filter.go:34-45 | The check by levels equals the grammar by characters of section 4.7.1 |
| `TopicFilter.JoinSplit` | filter.go:31 | Joining undoes splitting; so splitting is injective |
| `TopicFilter.SplitJoin` | filter.go:31 | Splitting undoes joining |
| `TopicFilter.Match` | filter.go:49-66 | The scan decides the recursive relation, for any filter |
| `TopicFilter.MatchesExact` | filter.go:49-66 | For a valid filter that relation is the rule of section 4.7.1 on all levels at once |
| `TopicFilter.LiteralMatch` | filter.go:49-66 | A filter without wildcards matches a topic exactly when the strings are equal |
| `TopicFilter.SubtreeMatch` | filter.go:53-57 | `prefix/#` matches the prefix and what lies below it, and nothing else |
| `TopicFilter.ReservedExact` | filter.go:49-66 | For every valid filter and topic, `Match` is what sections 4.7.1 and 4.7.2 want if and only if it is not a topic starting with `$` covered by a filter that starts with a wildcard |
| `TopicFilter.ConformsExact` | filter.go:49-66 | A valid filter is right on every topic if and only if it does not start with a wildcard |
| `TopicFilter.ReservedInputs` | filter.go:53-63 | `#` and `+/a` match `$S/a`, which the standard excludes |
| `Transport.Write` | client.go:99-111 | The loop behaves as specified for any replies of the transport |
| `Transport.WriteExact` | client.go:99-111 | `write` returns nil if and only if the first call that takes anything takes the whole packet |
| `Transport.TookPrefix` | client.go:103-109 | The transport took a prefix of the packet, all of it when the result is nil |
| `Transport.ShortNeverDone` | client.go:104 | After a short write without an error the loop never succeeds |
| `Transport.WriteUnderContract` | client.go:99-111 | Under the contract of `io.Writer` one call decides: nil with the whole packet, or an error with a prefix |
| `Transport.HalfWrite` | client.go:104 | Half a packet taken without an error makes the loop offer nothing, again and again |
| `Transport.OverHalfWrite` | client.go:104 | More than half a packet, but not all, taken without an error makes the loop panic |

## Left out

- RetrySubscriptions.ResubscribeExact: counts entries only for pending Unsubscribe operations with distinct topics, because a repeated topic takes entries by position; `RetrySubscriptions.ResubscribeMoves` covers all of them.
- Goroutine scheduling, mutexes and real time: steps are atomic, any call and any turn of the loop may come next, and only safety is claimed.
- The gate of the loop on `chConnectErr` and `chConnSwitch` (`retryclient.go:300-326`): the model lets a turn come at any time, connected or not, which covers every gated run.
- Contexts: queued closures run with `context.Background()` (`retryclient.go:296`), so their `ctx.Done()` branches are dead; a response timeout is one of the ways in which an acknowledgement does not arrive.
- `DirectlyPublishQoS0` (`retryclient.go:108-110`): it bypasses the queue by design.
- A caller that changes a message or slice after handing it over: requests are stored as values when they are accepted.
- Statistics, `OnError`, `Ping`, keep-alive, `Disconnect` packets, and `Disconnect` before `SetClient`.
- The reconnect loop (`reconnclient.go`): its calls of Resubscribe and Retry are events in any order here; its doubling wait is an easy addition.
- A task that draws more than 65535 identifiers: `RetryIdentifiers.CounterDrawsDistinct` covers every shorter one.
- The connection with a real broker: `Sender` has one packet identifier at the broker, and honesty of acknowledgements is a stated hypothesis.
- Receiving from a channel and the CONNACK and PINGRESP channels: `Signaller` shows that sends never block even if no waiter reads.
- Allocation limits for announced lengths (`serve.go:38`): a length that is not negative is taken to be allocated.
- `dialer.go`, TLS, WebSocket, `paho/`, `mock/`, `servemux.go`, `Error.Is` and text output: plumbing or presentation.
- CONNACK, PUBACK, PUBREC, PUBREL, PUBCOMP, UNSUBACK and PINGRESP parsers appear only inside `Receiver`, without round trips of their own.
