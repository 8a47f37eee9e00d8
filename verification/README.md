# Verified model of the EdgeX messaging client

This project models the client-side core of the EdgeX message bus client (a Go library that speaks
MQTT and NATS) and proves what it guarantees:

* **Request and response.** Any number of `DoRequest` runs on one MQTT client, interleaved step by
  step with the broker, with the goroutines that run message handlers, with lost connections and the
  replay of the subscription table, and with the subscribe and unsubscribe calls of the client's other
  users. The same program of a request (`Advance`) is run by the method `DoRequest` and by the
  interleaved protocol.
* **The MQTT subscription table.** A map changed by operations that can fail partway, and replayed to
  the broker in whatever order Go ranges over it.
* **Topics and subjects.** The translation of MQTT topic filters into NATS subjects, against the
  matching rules of section 4.7 of OASIS MQTT 3.1.1 and those of NATS.
* **The NATS wire format.** A printer and a parser over message headers, and the message id by which
  a broker recognises a repeated publication.
* **The NATS client.** Its table against the subscriptions that are live on the server, and the
  callback that hands a message over and then acknowledges it.
* **Critical operations.** A registry, a wait group, and every interleaving of registrations, signals,
  waits and timeouts.
* **Payloads.** Several representations of one payload, with base64 (section 4 of RFC 4648) concrete.

`dafny verify dfyconfig.toml` checks everything.

## How it is modelled

Objects that the library updates in place are classes here (`MqttClient.Client`, `NatsClient.Client`,
`NatsDelivery.Subscriber`, `CriticalOpsManager.CriticalOperationManager`, `RequestResponse.Channel`,
`MessageEnvelopes.EnvelopeRef`). Their methods are proved against functions on values, and the lemmas
are about those functions, over whole histories and runs.

Concurrency is a labelled transition system in two places. `RequestProtocol` and `CriticalOps` define
the state, when a step can be taken, and what it does to each part of the state; `RequestInvariant` and
`CriticalOpsSafety` prove invariants of every step and so of every run; `RequestSafety`, `RequestReplay`,
`RequestOutcomes` and `OtherUsers` say what follows, and `RequestLimits` where that ends. In the request protocol the
broker is described by two maps: the subscriptions it holds for certain, and those it may hold because a
request for them, or for their removal, has not been confirmed. A panic of Go's runtime (a send on a
closed channel, a second close, a misused wait group) is a state from which no step is possible, and it
is proved when it can be reached.

What the environment does is a parameter: the token that a broker operation returns, the error of an
acknowledgement, the handle of a new NATS subscription, the order of a range over a map, the identifier
made for a request, the codecs for JSON and CBOR. Of the codecs it is assumed that decoding inverts
encoding (`Lawful`), and in module `PayloadConversion` that a decoder accepts only what starts like JSON
(`ReadsOnlyJson`), that strings and byte slices are encoded with quotes or a head around them
(`StringsAreFramed`, `BytesAreFramed`), or that encodings of different lengths are different values
(`LengthTellsValuesApart`), each only in the lemmas that say so.

## Where the code falls short of what it seems to promise

Each of these is proved, with the exact condition under which the code is right.

* A query value is cut at its first colon on the wire (`ColonInValueIsCut`, `QueryRoundTrip`).
* `a/#` matches `a` on an MQTT broker and `a.>` does not match `a` on a NATS server; NATS also refuses
  empty levels and knows no hidden `$` topics (`ParentLevelIsLost`, `TranslationAgreesExactlyWhen`).
* Subscribing to a NATS topic again forgets the first subscription, which then stays live for good
  (`ResubscribingLosesHandle`, `TableAgreesExactlyWhenNothingOverwritten`).
* A request whose deferred unsubscribe has returned can still make its client panic on its channels
  exactly when it is not settled (`CleanedUpRequestPanicsExactlyWhenNotSettled`), and there are two ways
  to get there. The unsubscribe fails, the channels are closed all the same, and a response comes late
  (`LateMessagePanicsExactlyWhenNotLeft`, `FailedUnsubscribeCanPanic`) or a replay fails for the entry
  that is left (`ReplayPanicsOnClosedChannel`). Or the unsubscribe succeeds
  while a handler that had started before, or that blocks on a full channel, still has something to
  send (`PendingHandlerPanics`, `PendingHandlerCanPanic`).
* The connect handler sends a failed replay's error to a one-slot channel while it holds the mutex that
  the deferred unsubscribe needs. With an unread error in the channel of a request that has given up,
  it waits for good, and nobody can subscribe or unsubscribe on the client any more (`ReplayCanGetStuck`,
  `StuckForever`, `ReplayCanUnblockExactlyWhenNotStuck`). If the request has closed the channel, or
  has left an error in it and goes on to close it, the send is not blocked for good, but it can only
  panic (`ReplayCanOnlyPanic`). The error can be handed over exactly when the
  channel is open, and has room or belongs to a request that will still read it
  (`ReplayCanHandOverExactlyWhenTaken`).
* A finish signal that is registered again while an earlier operation on it is pending (blocked, or
  counted down and not deleted, since `Done` runs before the delete) has one registry entry, which the
  first of them to end takes away (`SharedSignalVanishes`). Registering an idle signal is always right,
  and registering a pending one never is (`RegisteringLosesExactlyWhenPending`,
  `LosesOperationExactlyWhenShared`).
* Registering an operation between a waiter's release and its waking up panics
  (`PanicsExactlyWhenReused`, `ReuseCanPanic`).
* Client ids and correlation ids of varying length can share a message id (`VaryingLengthsCanCollide`).
* A string payload is converted to bytes as it is, but read back as base64. To a reader that wants a
  string it is never the same again, to one that wants bytes only when it is empty, and to one that
  wants a value of some type never if it has not the shape of base64, and never in JSON unless it cannot
  be read at all, because no text is both JSON and the base64 of JSON (`StringReadersNeverReadTextAlike`,
  `ByteReadersReadTextAlikeExactlyWhenEmpty`, `TextReadAlikeIsBase64`, `JsonTextIsReadInOneWay`).
* The comment of `DoRequest` says that it publishes and then subscribes; the code subscribes first, and
  `NoResponseIsMissed` depends on it.

## Model

| member | source | states |
|---|---|---|
| RequestSafety.ResponsesAreNotMixedUp | internal/pkg/request.go:44-83 | In every interleaving, a request that returns a response returns one that was delivered on its own response topic, which is no other request's |
| RequestSafety.ResponsesCarryTheirRequestId | internal/pkg/request.go:44-83 | If whoever publishes on a response topic uses that request's identifier, the returned identifier is the request's own, though the code never compares them |
| RequestReplay.NoResponseIsMissed | internal/pkg/request.go:54-69 | From publish until the deferred unsubscribe, the response topic is in the table with the request's own handler; it is at the broker with that handler exactly unless the connection was lost after the acknowledgement and no replay has renewed it since; and such a loss is repaired by the next replay that ends without a failure for the topic |
| RequestReplay.ReplayReachesEveryEntry | internal/pkg/mqtt/client.go:135-147 | A replay that has ended, whatever else happened in between: each entry of the table was subscribed exactly once, and nothing else; as many errors were sent as subscriptions failed; and unless the connection was lost again, the broker has every entry that succeeded, with its own handler |
| RequestReplay.ReplaySendsOwnError | internal/pkg/mqtt/client.go:140-146 | What a replay sends is the error of the subscription before, for that entry's own channel |
| RequestReplay.ReplayedRequestIsHeld | internal/pkg/mqtt/client.go:135-147 | After a replay that ended without a failure for its topic, and without another loss, a published request is at the broker |
| RequestReplay.ReplayCanEnd | internal/pkg/mqtt/client.go:135-147 | From every state in which a replay can start there is a run in which it ends with every entry renewed |
| RequestSafety.HeldUnlessLost | internal/pkg/request.go:54-69 | The broker has a published request's subscription exactly unless it was lost after the acknowledgement and not renewed |
| RequestOutcomes.OutcomesCameFromRun | internal/pkg/request.go:54-83 | The outcome of a request in any run: a response is a message dispatched on its topic, as it was decoded; an error received is that of a message on its topic that could not be decoded or of a failed replay of its topic; a publish error, a timeout and a subscribe error are its own; and it has left exactly if its own unsubscribe succeeded |
| RequestOutcomes.AlwaysAllCame | internal/pkg/mqtt/client.go:284-296 | Everything on its way to a request was raised by a step of the run on its own topic |
| OtherUsers.OwnTableIsTheirs | internal/pkg/mqtt/client.go:404-429 | The other users' own table in a run is the one of a client that only they used |
| OtherUsers.OwnSubscriptionsAreHeld | internal/pkg/mqtt/client.go:135-147 | Of the other topics, the broker has exactly those in that table that were not lost since, with their own handlers |
| OtherUsers.OwnCallsDecideWhatMayRun | internal/pkg/mqtt/client.go:206-224 | After their unsubscribe succeeded no handler runs for a topic; an attempt to subscribe may make one run |
| OtherUsers.MayRunUntilUnsubscribed | internal/pkg/mqtt/client.go:206-224 | A lost connection, or an unsubscribe that is not confirmed yet, keeps no handler from running |
| OtherUsers.OwnCallsTakeEffect | internal/pkg/mqtt/client.go:404-429 | Whenever nobody holds the mutex, any call of another user can be made, and has its effect on the table |
| RequestSafety.ResponseReachesRequest | internal/pkg/request.go:74-83 | Unless the connection was lost after the broker acknowledged the subscription and no replay has renewed it since, the first response published gets into the request's channel, and a waiting request can take it |
| RequestSafety.RaisedResponseIsNeverDropped | internal/pkg/mqtt/client.go:279-297 | On every schedule, whatever a handler has raised for a request is about to be sent, in its channel, or taken, and a request that waits for it can take it, or a send for it can go through |
| RequestSafety.SendsNeitherPanicNorBlock | internal/pkg/request.go:47-64 | If unsubscribes succeed and leave no handler pending, nothing is ever sent on or closes a closed channel, and with at most one message and one error raised for a request, none of their sends waits |
| RequestSafety.ChannelsAreClosedOnce | internal/pkg/request.go:61-65 | In every run each channel is closed at most once, only after a successful subscribe, and exactly once by the time the request is over |
| RequestSafety.CleanupExactlyOnceInEveryRun | internal/pkg/request.go:56-65 | In every run, a request that is over has unsubscribed exactly once if its subscribe succeeded and never otherwise |
| RequestSafety.TableIsConserved | internal/pkg/mqtt/client.go:206-224 | In every run, the table is the other users' own table plus the entries of requests in flight and of requests whose unsubscribe failed, with those entries' contents |
| RequestLimits.CleanedUpRequestPanicsExactlyWhenNotSettled | internal/pkg/request.go:61-65 | In every reachable state in which a request's deferred unsubscribe has returned: some continuation panics on its channels exactly when that unsubscribe failed or a handler still has a message or an error for it |
| RequestLimits.StepKeepsSettled | internal/pkg/request.go:61-65 | A request that has left and has nothing on its way to it stays so in every step, and no step panics on its channels |
| RequestLimits.LateMessagePanicsExactlyWhenNotLeft | internal/pkg/request.go:61-65 | After a request is over, a message that comes then can run its handler, and panics, exactly when its unsubscribe failed |
| RequestLimits.PendingHandlerPanics | internal/pkg/mqtt/client.go:284-296 | A handler that still has something for a request that is over panics when it sends it, whether the unsubscribe succeeded or not |
| RequestLimits.FailedUnsubscribeCanPanic | internal/pkg/request.go:61-65 | Every configuration has a run in which the late message panics |
| RequestLimits.PendingHandlerCanPanic | internal/pkg/request.go:61-65 | Every configuration has a run that unsubscribes successfully and can still panic |
| RequestLimits.SubscribeCanFail | internal/pkg/request.go:55-59 | Every configuration has a run in which a request is refused, with its token's error |
| RequestLimits.PublishCanFail | internal/pkg/request.go:67-70 | Every configuration has a run in which a request fails to publish, with any error |
| RequestLimits.StuckStaysStuck | internal/pkg/mqtt/client.go:135-147 | A connect handler that waits for a full error channel, whose request waits for the mutex, stays so in every step, and no step that needs the mutex can be taken |
| RequestLimits.StuckForever | internal/pkg/mqtt/client.go:135-147 | So it stays over every continuation, short of a panic |
| RequestLimits.ReplayCanHandOverExactlyWhenTaken | internal/pkg/mqtt/client.go:144-146 | In every reachable state, a replay with an error for a request can put it on the request's channel without a panic in some continuation exactly when the channel is open, and has room or belongs to a request that will still read it |
| RequestLimits.ReplayCanUnblockExactlyWhenNotStuck | internal/pkg/mqtt/client.go:144-146 | In every reachable state, a replay with an error for a request is blocked for good exactly when it is stuck; otherwise its send goes through or panics in some continuation |
| RequestLimits.ReplayHandsOverOrIsStuckOrPanics | internal/pkg/mqtt/client.go:144-146 | There is no fourth way, and a stuck replay cannot hand over its error |
| RequestLimits.ReplayPanicsOnClosedChannel | internal/pkg/mqtt/client.go:144-146 | After a failed unsubscribe and the close of its channels, the next replay that fails for a request panics |
| RequestLimits.ReplayCanOnlyPanic | internal/pkg/mqtt/client.go:144-146 | Every configuration has a run to a replay that is not stuck and cannot hand over its error |
| RequestLimits.ReplayGetsStuck | internal/pkg/mqtt/client.go:135-147 | A request that has given up with an unread error in its channel gets the next replay that fails for it stuck |
| RequestLimits.ReplayCanGetStuck | internal/pkg/mqtt/client.go:135-147 | Every configuration has a run in which the replay gets stuck |
| RequestSafety.CleanRunsStayQuiet | internal/pkg/request.go:61-65 | Along clean runs nothing is on its way to a request that has cleaned up, and nothing has panicked |
| RequestSafety.ConfirmedIsHeld | internal/pkg/mqtt/client.go:129-148 | While a request listens, the broker has its subscription exactly when it was confirmed since the last connection loss; once it has published, that is so exactly unless the connection was lost after the acknowledgement and no replay has renewed it |
| RequestInvariant.InvariantAlways | internal/pkg/request.go:32-84 | The inductive invariant of the protocol (programs, channels and everything raised for them, table, broker, mutex) holds after every run |
| RequestInvariant.StepKeepsInvariant | internal/pkg/request.go:32-84 | Every step that does not panic keeps the invariant |
| RequestInvariant.DispatchedToOwner | internal/pkg/mqtt/client.go:279-297 | A message runs a request's handler only if it came in on that request's topic |
| RequestResponse.CleanupExactlyOnce | internal/pkg/request.go:56-83 | On the publish error, timeout, error and success exits alike: one unsubscribe and one close of each channel if and only if the subscribe succeeded |
| RequestResponse.ProgramCounts | internal/pkg/request.go:56-83 | How often each of the four effects has happened at every point of the program |
| RequestResponse.DoRequest | internal/pkg/request.go:32-84 | For every outcome around the request: the message that is published carries the caller's identifier, or the fresh one exactly if the caller's is blank, and the response topic is the prefix, a slash and that identifier; the result is the failure, the timeout or what was received; the client's table; one subscribe call, and one unsubscribe exactly when that succeeded; the closed channels and the log |
| RequestResponse.AwaitResponse | internal/pkg/request.go:74-83 | The three-way select returns what was picked |
| RequestResponse.CleanUp | internal/pkg/request.go:61-65 | The deferred function makes one unsubscribe call, ignores its outcome, and closes both channels |
| RequestResponse.RequestLeavesTableAlone | internal/pkg/request.go:54-65 | On a fresh response topic, with a successful unsubscribe, the table is as it was |
| RequestResponse.SubscribesAndUnsubscribes | internal/pkg/request.go:54-65 | What the two operations of a request come to: no change, the removal of its topic, or an entry that is left |
| MqttClient.GetTokenError | internal/pkg/mqtt/client.go:307-323 | No error exactly when the operation completed in time without one; a timeout error exactly when it was late; the token's own message if it has one |
| MqttClient.Client.Subscribe | internal/pkg/mqtt/client.go:404-429 | A failure at topic i leaves the first i topics subscribed, sends i + 1 subscriptions to the broker, and returns that token's error |
| MqttClient.Client.Unsubscribe | internal/pkg/mqtt/client.go:206-224 | Removes all listed topics, or none if the token failed |
| MqttClient.Client.OnConnect | internal/pkg/mqtt/client.go:129-148 | The replay, in any order of the map: the broker calls, the errors sent and the unchanged table; and where it blocks, at the first entry whose token failed and whose channel never takes the error, with everything before it done |
| MqttClient.NoneBlocksMeans | internal/pkg/mqtt/client.go:142-147 | An entry holds a replay up exactly when its token failed and nobody takes the error from its channel |
| MqttClient.TableReflectsLastEffects | internal/pkg/mqtt/client.go:404-429 | After any history with any outcomes, the table holds exactly the topics whose last successful operation subscribed them, as that operation did |
| MqttClient.LastEffectIsLast | internal/pkg/mqtt/client.go:404-429 | The last effect on a topic is one after which no other touches it |
| MqttClient.TableIsWellKeyed | internal/pkg/mqtt/client.go:421-426 | After any history, every entry's topic is its key |
| MqttClient.SubscribedEntry | internal/pkg/mqtt/client.go:408-427 | A subscribed topic's entry: its own topic, the client's quality of service, the kind of handler asked for with the topic's own message channel, and the call's error channel; the last one counts |
| MqttClient.OtherEntries | internal/pkg/mqtt/client.go:421-426 | Topics that are not subscribed keep their entries |
| MqttClient.SubscribeCallsAre | internal/pkg/mqtt/client.go:410-419 | The broker calls of a subscribe, one by one, and how many there are |
| MqttClient.ReconnectRestoresTable | internal/pkg/mqtt/client.go:129-148 | To an emptied broker, in any order: every entry is subscribed once with its own quality of service and handler; the broker holds at least those whose token succeeded; each failing entry and no other gets one error, its own token's, on its own channel |
| MqttClient.HeldAfterReplayIs | internal/pkg/mqtt/client.go:137-147 | What the broker holds after the replay, topic by topic |
| MqttClient.ReplayErrorsAre | internal/pkg/mqtt/client.go:140-147 | The errors sent in a replay are those of the failing entries, in order |
| Topics.TopicRoundTrip | internal/pkg/nats/topics.go:34-46 | Translating a topic and back is the identity exactly when it is free of `.`, `*` and `>` |
| Topics.SubjectRoundTrip | internal/pkg/nats/topics.go:34-46 | Translating a subject and back is the identity exactly when it is free of `/`, `+` and `#` |
| Topics.TranslationIsInjective | internal/pkg/nats/topics.go:36-39 | Clean topics with one subject are one topic |
| Topics.ResponseTopicsAreDistinct | internal/pkg/request.go:44-45 | With slash-free identifiers, a response topic determines its prefix and its identifier |
| Topics.ResponseSubjectsAreDistinct | internal/pkg/request.go:44-45 | Concurrent NATS requests with distinct clean identifiers wait on distinct subjects |
| Topics.TokensOfTranslation | internal/pkg/nats/topics.go:34-39 | Splitting into levels commutes with translating |
| Topics.TokensMatchTranslation | internal/pkg/nats/topics.go:34-39 | NATS matching of translated levels is MQTT matching of the levels, less the parent level of a final `#` |
| Topics.TranslationMatching | internal/pkg/nats/topics.go:34-39 | What a translated subscription delivers, for every well-formed filter and topic without NATS syntax |
| Topics.TranslationPreservesMatching | internal/pkg/nats/topics.go:34-39 | Without empty levels and `$`, matching is preserved, with the parent level of `/#` as the one exception |
| Topics.TranslationAgreesExactlyWhen | internal/pkg/nats/topics.go:34-39 | The exact condition under which both brokers agree on a filter and a topic |
| Topics.ParentLevelIsLost | internal/pkg/nats/topics.go:26-32 | The concrete filter and topic on which they disagree |
| Topics.LiteralFilterMatchesItself | internal/pkg/request.go:49-52 | A filter without wildcards, such as a response topic, matches its own topic and no other |
| Topics.DollarTopics | internal/pkg/nats/topics.go:34-39 | On the MQTT side, a filter that starts with a wildcard does not match topics that start with a dollar sign (section 4.7.2), and nothing else is special |
| Topics.FiltersAre | internal/pkg/nats/topics.go:26-28 | Every joining of literal levels, `+` levels and a last `#` is a filter that the theorems cover |
| NatsMarshaller.Marshal | internal/pkg/nats/marshaller.go:80-106 | The message for an envelope, with the query lines in the order of the range; the payload's error |
| NatsMarshaller.AddQueryLines | internal/pkg/nats/marshaller.go:94-99 | One header line for each query parameter, in any order of the map |
| NatsMarshaller.Unmarshal | internal/pkg/nats/marshaller.go:108-138 | What any message does to any target, whether it ends well, with a bad error code, or with an index out of range |
| NatsMarshaller.IntactExactlyWhenColons | internal/pkg/nats/marshaller.go:128-135 | On any message, indexing the split lines is safe exactly when every line has a colon |
| NatsMarshaller.OutcomeOfUnmarshal | internal/pkg/nats/marshaller.go:119-135 | For any message: a bad error code is reported exactly when there is one that is no numeral of 64 bits, and then code and query are untouched; a missing one leaves the code; and it panics exactly when some query line has no colon |
| NatsMarshaller.WrittenLinesDecode | internal/pkg/nats/marshaller.go:94-98 | Every line that is written can be indexed when it is read, so unmarshalling a marshalled message never panics |
| NatsMarshaller.DecodingIgnoresOrder | internal/pkg/nats/marshaller.go:94-98 | The decoded map is the same for every order of the range exactly when parameters read back under one key have one value |
| NatsMarshaller.DistinctKeysDecode | internal/pkg/nats/marshaller.go:128-135 | With colon-free keys distinct after trimming, each key comes back trimmed, with its value before the value's first colon, trimmed |
| NatsMarshaller.QueryRoundTrip | internal/pkg/nats/marshaller.go:128-135 | Query parameters survive exactly when all keys and values are colon-free and trimmed |
| NatsMarshaller.EncodedHeaders | internal/pkg/nats/marshaller.go:89-103 | What each header of a marshalled message holds; the message id disturbs none |
| NatsMarshaller.DecodedAfterEncoded | internal/pkg/nats/marshaller.go:80-138 | Unmarshalling a marshalled envelope always succeeds and gives back all its fields, whatever the target held |
| NatsMarshaller.MarshalRoundTrip | internal/pkg/nats/marshaller.go:80-138 | A byte payload's envelope comes back, with the topic received and a missing query map empty, exactly when the topic is clean and the query is clean |
| NatsMarshaller.TypedPayloadCrossesTheWire | internal/pkg/nats/marshaller.go:80-138 | A typed payload marshalled, unmarshalled and read as its own type is the payload that was sent |
| NatsMarshaller.ColonInValueIsCut | internal/pkg/nats/marshaller.go:132-133 | A concrete query value that is cut |
| NatsMarshaller.JsonMarshal | internal/pkg/nats/marshaller.go:37-55 | The message of the JSON marshaller: the encoded envelope, and no header but the message id when delivery is exactly once; or the encoder's error |
| NatsMarshaller.JsonUnmarshal | internal/pkg/nats/marshaller.go:57-65 | The decoded envelope with the received topic, or the decoder's error |
| NatsMarshaller.JsonMessageCarriesEnvelope | internal/pkg/nats/marshaller.go:37-65 | What is received is what the decoder makes of the encoded envelope, with the topic exactly when it is clean |
| NatsMarshaller.MarshallersShareMessageId | internal/pkg/nats/marshaller.go:45-48 | Both marshallers give an envelope the same subject and the same message id, and one at all exactly when delivery is exactly once |
| GoStrings.AtoiOfItoa | internal/pkg/nats/marshaller.go:119-126 | A printed error code is parsed back exactly when it fits 64 bits |
| GoStrings.AtoiExactlyNumerals | internal/pkg/nats/marshaller.go:119-124 | A text is parsed as a number exactly when it is an optional sign, leading zeros and the number's digits, and the number fits 64 bits |
| GoStrings.DigitsAreDecimal | internal/pkg/nats/marshaller.go:93 | Two numbers and their digits |
| GoStrings.SplitJoins | internal/pkg/nats/marshaller.go:132 | Splitting is inverted by joining and leaves no separator in a piece |
| GoStrings.JoinSplits | internal/pkg/request.go:45 | Joining pieces without the separator is inverted by splitting |
| GoStrings.SplitHead | internal/pkg/nats/marshaller.go:132-133 | The first piece is the text before the first separator, and there is one piece exactly when there is no separator |
| GoStrings.TrimSpaceTrims | internal/pkg/nats/marshaller.go:133 | Trimming gives a trimmed text, and leaves exactly the trimmed texts alone |
| GoStrings.TrimSpaceCutsSpace | internal/pkg/nats/marshaller.go:133 | Trimming cuts off white space at both ends and nothing else |
| GoStrings.AsciiSpaces | internal/pkg/nats/marshaller.go:133 | Which ASCII characters are white space |
| GoStrings.TrimSpaceEmptiesExactlyWhenSpace | internal/pkg/request.go:40 | Trimming leaves nothing of exactly the texts of white space only |
| MapOrders.OrderIndependence | internal/pkg/nats/marshaller.go:95-98 | Every order of a range fills the same map exactly when items that share a key share their value |
| MessageIds.SharedMessageIdExactlyWhen | internal/pkg/nats/marshaller.go:100-103 | Two pairs of client and correlation id share a message id exactly when a dash can be read as the separator in two places |
| MessageIds.FixedLengthIdsDiffer | internal/pkg/nats/marshaller.go:100-103 | With correlation ids of one length, the message id determines both parts |
| MessageIds.OneMessagePerPair | internal/pkg/nats/marshaller.go:45-48 | Over any publications and retries, a broker that keeps one message per id keeps exactly the first message of every pair |
| MessageIds.VaryingLengthsCanCollide | internal/pkg/nats/marshaller.go:100-103 | Two pairs with ids of different lengths of which the second is dropped |
| NatsClient.Client.Subscribe | internal/pkg/nats/client.go:163-207 | The subscriptions asked for, up to and with the first refusal; the entries and live handles of those granted before it; the error |
| NatsClient.SubscribedEntries | internal/pkg/nats/client.go:168-204 | Up to the first refusal, each topic is in the table with the handle granted last, and the server was asked on the translated subject, in the queue group, with the topic's own message channel and the call's error channel; all other entries stay |
| NatsClient.Client.Unsubscribe | internal/pkg/nats/client.go:215-243 | The new table, the live handles and the list of errors |
| NatsClient.UnsubscribeRemoves | internal/pkg/nats/client.go:222-240 | Removes precisely the listed topics whose handle was nil or was unsubscribed at one of its turns, and changes no other entry, repeated topics and failures notwithstanding |
| NatsClient.UnsubscribeReports | internal/pkg/nats/client.go:222-242 | Reports one error for each failed attempt, in order, and nothing else |
| NatsClient.LostIsAllThatIsLost | internal/pkg/nats/client.go:168-206 | After any run, the live subscriptions are the table's handles and the overwritten ones, which no entry refers to |
| NatsClient.TableAgreesExactlyWhenNothingOverwritten | internal/pkg/nats/client.go:168-206 | After any run, the live subscriptions are exactly the table's non-nil handles if and only if no subscribe replaced an entry that still had one |
| NatsClient.ResubscribingLosesHandle | internal/pkg/nats/client.go:203 | The run that leaves a live subscription behind |
| NatsDelivery.Subscriber.OnMessage | internal/pkg/nats/client.go:174-197 | The callback's effects in order: envelope or decode error, then the acknowledgement of the configured kind if there is a reply subject, then its error |
| NatsDelivery.AcksFollowHandOvers | internal/pkg/nats/client.go:174-197 | Over every run, each acknowledgement comes right after its own message was handed over, and each reported error right after its failed acknowledgement |
| NatsDelivery.EventsFitDeliveries | internal/pkg/nats/client.go:174-197 | Every event of a run belongs to a delivery, in order: its own envelope or decode error, and an acknowledgement that is synchronous exactly when delivery is exactly once, with its own result |
| NatsDelivery.RunDoesWhatIsCalledFor | internal/pkg/nats/client.go:174-197 | Each message is handed over once for each delivery, acknowledged once for each with a reply subject, and an error reported once for each acknowledgement that fails |
| NatsDelivery.HandOversAndAcks | internal/pkg/nats/client.go:183-196 | At every point of every run, acknowledgements are at most handovers; and if messages come again only after a failed acknowledgement, handovers are at most one plus the reported errors |
| NatsDelivery.CompletedDeliveries | internal/pkg/nats/client.go:174-197 | The same between two callbacks, and without the one if every acknowledgement failed |
| CriticalOpsSafety.WaitIsSound | internal/pkg/criticalops.go:54-67 | In every interleaving, when a wait has returned true, every operation registered before the call was signalled with a signal of its own or by a close, and counted down |
| CriticalOpsSafety.ReturnsExactlyWhenSelected | internal/pkg/criticalops.go:61-66 | In every run a wait has returned true exactly if its select took the done channel, and false exactly if it took the timer |
| CriticalOpsSafety.SignalsAreThoseGiven | internal/pkg/criticalops.go:44 | What counts as signalled is what the program has sent and closed |
| CriticalOpsSafety.DoneIsClosedAtMostOnce | internal/pkg/criticalops.go:55-59 | A waiter's done channel is closed at most once, after a timeout too, and before it reports success |
| CriticalOpsSafety.SleepsOnlyWhileOutstanding | internal/pkg/criticalops.go:56-59 | No wake-up is lost: a waiter sleeps only while some operation is outstanding |
| CriticalOpsSafety.CounterIsConserved | internal/pkg/criticalops.go:38-50 | In every reachable state the counter is the number of registrations whose goroutine has not run Done, and not negative |
| CriticalOpsSafety.RegistryEmptiesOut | internal/pkg/criticalops.go:46-48 | Once every goroutine has ended and no registration is under way, the registry is empty and the counter zero, repeated signals or not |
| CriticalOpsSafety.RegistryIsExact | internal/pkg/criticalops.go:38-50 | If a signal is registered again only once it is pending no more, the registry holds exactly the signals whose registration or goroutine is pending |
| CriticalOpsSafety.DistinctSignalsAreIdle | internal/pkg/criticalops.go:38-50 | Pairwise distinct signals meet that condition |
| CriticalOpsSafety.CounterIsAtMostRegistry | internal/pkg/criticalops.go:41-46 | Under that condition, the counter is at most the registry's size, because Done runs before the delete |
| CriticalOpsSafety.SharedSignalVanishes | internal/pkg/criticalops.go:41-48 | From every such state with a free lock and two pending operations on one signal, in any phases and closed or not, there is a run after which the chosen one is pending and its signal is not in the registry |
| CriticalOpsSafety.LosesOperationExactlyWhenShared | internal/pkg/criticalops.go:41-48 | A pending operation can drop out of the registry, although only idle signals are registered from there on, exactly when two pending operations share a signal |
| CriticalOpsSafety.RegisteringLosesExactlyWhenPending | internal/pkg/criticalops.go:38-50 | Registering a signal lets a pending operation drop out of the registry exactly when the signal is pending |
| CriticalOpsSafety.PanicsExactlyWhenReused | internal/pkg/criticalops.go:56-59 | In every reachable state, a step panics exactly when a woken waiter finds the counter raised again |
| CriticalOpsSafety.NoReuseNoPanic | internal/pkg/criticalops.go:38-67 | A run that registers nothing between a waiter's release and its waking up never panics |
| CriticalOpsSafety.ReuseCanPanic | internal/pkg/criticalops.go:38-59 | From every state with a released waiter, a registration can make it panic |
| CriticalOpsSafety.InvariantAlways | internal/pkg/criticalops.go:38-67 | The inductive invariant of counter, waiters, signals and registry holds after every run |
| CriticalOpsManager.CriticalOperationManager.RegisterCriticalOperation | internal/pkg/criticalops.go:38-50 | An uninterrupted registration is these three steps of the protocol, and does not panic |
| CriticalOpsManager.CriticalOperationManager.FinishOperation | internal/pkg/criticalops.go:43-49 | An uninterrupted goroutine is these three steps, receive, count down, delete |
| CriticalOpsManager.CriticalOperationManager.WaitForCriticalOperations | internal/pkg/criticalops.go:54-67 | Whatever all other goroutines do meanwhile, the wait's own steps are these; it succeeds exactly when its goroutine got past the wait group without a panic and the timer does not win, and its waiter has then returned true; and then everything registered before the call has been counted down |
| CriticalOpsManager.CriticalOperationManager.StartWait | internal/pkg/criticalops.go:55-57 | A new waiter passes the wait group or falls asleep |
| CriticalOpsManager.CriticalOperationManager.FinishWait | internal/pkg/criticalops.go:58-66 | A waiter that passed closes its channel, and returns true unless the timer wins |
| CriticalOpsManager.CriticalOperationManager.GiveUpWait | internal/pkg/criticalops.go:64-66 | The timer fires while the waiter's goroutine sleeps |
| CriticalOpsManager.WaiterLeftAlone | internal/pkg/criticalops.go:54-67 | Other goroutines can do nothing to a waiter but wake it |
| CriticalOpsManager.CriticalOperationManager.ResumeWait | internal/pkg/criticalops.go:56-66 | A wait that slept and was woken returns true unless the timer wins, and panics exactly when something is outstanding again |
| MessageEnvelopes.RepresentationIndependence | pkg/types/message_envelope.go:231-285 | A value, its encoded bytes and their base64 text all read as the value, for JSON and CBOR |
| MessageEnvelopes.CborPayloads | pkg/types/message_envelope.go:298-319 | What the CBOR codec encodes is what CBOR content is converted to, and all its representations read as the value |
| MessageEnvelopes.JsonPayloads | pkg/types/message_envelope.go:293-315 | The same for JSON content and the JSON codec |
| MessageEnvelopes.BytesAreDecoded | pkg/types/message_envelope.go:253-283 | Bytes and their base64 are read by the content type's own codec, with its value or its error |
| MessageEnvelopes.EncodingFailures | pkg/types/message_envelope.go:274-300 | A value that the content type's codec cannot encode fails with that error |
| MessageEnvelopes.UnsupportedContentTypes | pkg/types/message_envelope.go:303-322 | Every other content type fails, and the error names it |
| MessageEnvelopes.PlainPayloads | pkg/types/message_envelope.go:232-252 | A missing payload becomes no bytes under any content type; bytes and strings are their own bytes |
| MessageEnvelopes.BytesThroughText | pkg/types/message_envelope.go:258-267 | Bytes come back unchanged from their base64 text |
| PayloadConversion.ConversionIsInvisible | pkg/types/message_envelope.go:231-285 | Converting any payload but a string to bytes first changes nothing for a reader that wants a string or a value of some type |
| PayloadConversion.ByteReadersReadAlikeExactlyWhenBytes | pkg/types/message_envelope.go:231-285 | For a reader that wants bytes, it changes nothing exactly when the payload was bytes |
| PayloadConversion.ByteReadersReadTextAlikeExactlyWhenEmpty | pkg/types/message_envelope.go:235-267 | A string is the same bytes before and after being converted exactly when it is empty |
| PayloadConversion.StringReadersNeverReadTextAlike | pkg/types/message_envelope.go:235-257 | A string that was converted is never the same string again |
| PayloadConversion.TextFailsExactlyWhenNotBase64 | pkg/types/message_envelope.go:258-263 | For every other reader, a string fails as base64 exactly when it has not the shape of base64, and its converted bytes never do |
| PayloadConversion.TextReadAlikeIsBase64 | pkg/types/message_envelope.go:253-263 | So for every reader but one that wants a string, a string that reads the same before and after being converted has the shape of base64 |
| PayloadConversion.UnsupportedTextReadsAlikeExactlyWhenBase64 | pkg/types/message_envelope.go:235-272 | With a content type that is not supported, a string fails alike exactly when it has the shape of base64 |
| PayloadConversion.NotJsonAndItsBase64 | pkg/types/message_envelope.go:258-272 | No text is both JSON and the base64 of JSON |
| PayloadConversion.JsonTextIsReadInOneWay | pkg/types/message_envelope.go:253-272 | With JSON content, a string can be read either before or after being converted, if at all, and never both |
| PayloadConversion.JsonOfValueNeverReadsAlike | pkg/types/message_envelope.go:253-272 | A value's JSON text, and the base64 of it, never read the same before and after being converted |
| PayloadConversion.ReadableTextReadsAlikeExactlyWhenEmpty | pkg/types/message_envelope.go:253-272 | With encodings that tell values apart by their length, a string that can be read reads the same before and after exactly when it is empty |
| PayloadConversion.LawfulCodecCanReadTextAlike | pkg/types/message_envelope.go:253-272 | Without such a law nothing can be said: a codec that inverts its encoder may read every base64 text alike |
| MessageEnvelopes.EnvelopeRef.ConvertPayloadToByteArray | pkg/types/message_envelope.go:222-229 | The envelope holds the converted bytes, or is unchanged and the error returned |
| Base64.GroupsRoundTrip | pkg/types/message_envelope.go:260 | Decoding the groups of encoded bytes gives the bytes |
| Base64.RoundTrip | pkg/types/message_envelope.go:260 | Encoded text can be decoded with line breaks put in anywhere |
| Base64.AlphabetIsStandard | pkg/types/message_envelope.go:260 | The alphabet of table 1 of RFC 4648 |
| Base64.TestVector | pkg/types/message_envelope.go:260 | A test vector of section 10 of RFC 4648 |
| Base64.LineBreaksAreSkipped | pkg/types/message_envelope.go:260 | A carriage return and a line feed can stand anywhere |
| Base64.DecodesExactlyWhenBase64 | pkg/types/message_envelope.go:260-263 | A text can be decoded exactly when, without line breaks, it is whole groups of the alphabet with at most two pads at the end |

## Left out

- Paho, NATS and JetStream connections, timers, sockets, logging: what they do is a parameter of a method or a step of a protocol.
- TLS, certificates, broker URLs, configuration loading and option parsing: glue over foreign calls.
- The JSON and CBOR formats and UUID generation: codecs are parameters with a decode-inverts-encode law, and identifiers are parameters that the protocol takes to be pairwise distinct.
- The MQTT envelope encoding is one call of a codec; the JSON marshaller's codec is a parameter.
- The envelope that the binary data handler makes of a message; that the right kind of handler is installed is modelled.
- Command clients, the factory, the no-op clients, the mocks, envelope constructors and the size limit on publishing: each is settled by reading one branch.
- The encoding of NATS headers as bytes, and the validity of NATS subjects beyond empty tokens.
- The request protocol is that of the MQTT client; for the NATS client only the distinctness of response subjects is proved.
- A subscribe or unsubscribe call by another user of the client is one step of the request protocol, and what is delivered on such users' channels is not followed.
- A broker operation's token is one value: the source reads the token's error several times and it could change between two reads.
- GetMsgPayload: the target type is a byte slice, a string or a named type, so a target that is an interface type is not modelled.
- PayloadConversion.ReadableTextReadsAlikeExactlyWhenEmpty: a CBOR decoder that reads one value from encodings of several lengths, or a type that decodes itself, does not meet its law, and may read both alike.
- MqttClient.Client.Subscribe: the handler is the pair of channels it captured, and the quality of service is one constant of the client.
- CriticalOpsSafety.PanicsExactlyWhenReused: an Add or a Wait of the wait group is one atomic step, so Go's best-effort panics for an Add that overlaps a Wait inside that step are not modelled.
- NatsDelivery.HandOversAndAcks: it is about one subscription, whose callback handles one message at a time; overlapping subscriptions each hand a message over.
- RequestSafety.ResponsesAreNotMixedUp: it assumes distinct slash-free identifiers and response topics without wildcards, as the source does without checking.
