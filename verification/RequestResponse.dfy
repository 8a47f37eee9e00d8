/**
  One request: subscribe to a topic of its own, publish, wait for whatever comes first, and clean up.
  `Advance` is the program of a request as a state machine, which `DoRequest` runs through by itself
  and which any number of requests run through side by side in module RequestProtocol.
 */
module RequestResponse {
  import opened Wrappers
  import opened GoStrings
  import opened Topics
  import opened MessageEnvelopes
  import opened MqttClient

  datatype RequestResult<V> =
    | Response(envelope: MessageEnvelope<V>)
    | SubscribeFailed(error: BusError)
    | PublishFailed(error: BusError)
    | TimedOut
    | ErrorReceived(error: BusError)

  /** Where a request is; `left` says whether its deferred unsubscribe succeeded. */
  datatype Pc<V> =
    | Idle
    | Subscribing
    | Refused(error: BusError)
    | Subscribed
    | Waiting
    | Leaving(result: RequestResult<V>)
    | Unsubscribing(result: RequestResult<V>)
    | ClosingErrors(result: RequestResult<V>, left: bool)
    | ClosingMessages(result: RequestResult<V>, left: bool)
    | Finished(result: RequestResult<V>, left: bool)

  datatype Action<V> =
    | CallSubscribe
    | SubscribeReturns(error: Option<BusError>)
    | PublishReturns(error: Option<BusError>)
    | TimerFires
    | ReceiveError(problem: BusError)
    | ReceiveMessage(message: MessageEnvelope<V>)
    | CallUnsubscribe
    | UnsubscribeReturns(error: Option<BusError>)
    | CloseErrors
    | CloseMessages

  function Advance<V>(pc: Pc<V>, action: Action<V>): Option<Pc<V>> {
    match (pc, action)
    case (Idle, CallSubscribe) => Some(Subscribing)
    case (Subscribing, SubscribeReturns(Some(error))) => Some(Refused(error))
    case (Subscribing, SubscribeReturns(None)) => Some(Subscribed)
    case (Subscribed, PublishReturns(Some(error))) => Some(Leaving(PublishFailed(error)))
    case (Subscribed, PublishReturns(None)) => Some(Waiting)
    case (Waiting, TimerFires) => Some(Leaving(TimedOut))
    case (Waiting, ReceiveError(error)) => Some(Leaving(ErrorReceived(error)))
    case (Waiting, ReceiveMessage(message)) => Some(Leaving(Response(message)))
    case (Leaving(result), CallUnsubscribe) => Some(Unsubscribing(result))
    case (Unsubscribing(result), UnsubscribeReturns(error)) => Some(ClosingErrors(result, error == None))
    case (ClosingErrors(result, left), CloseErrors) => Some(ClosingMessages(result, left))
    case (ClosingMessages(result, left), CloseMessages) => Some(Finished(result, left))
    case _ => None
  }

  /** Where a request is after a sequence of actions; None when its program cannot take them. */
  function Program<V>(log: seq<Action<V>>): Option<Pc<V>> {
    if log == [] then Some(Idle)
    else
      var n := |log| - 1;
      match Program(log[..n])
      case None => None
      case Some(pc) => Advance(pc, log[n])
  }

  lemma ProgramStarts<V>()
    ensures Program<V>([]) == Some(Idle)
  {
  }

  /** Appends an action to a log. */
  function Record<V>(log: seq<Action<V>>, action: Action<V>): (r: seq<Action<V>>)
    ensures Program(log).Some? ==> Program(r) == Advance(Program(log).value, action)
  {
    assert (log + [action])[..|log|] == log;
    log + [action]
  }

  function Count<V>(log: seq<Action<V>>, counts: Action<V> -> bool): nat {
    if log == [] then 0
    else
      var n := |log| - 1;
      Count(log[..n], counts) + if counts(log[n]) then 1 else 0
  }

  predicate HasSubscribed<V>(pc: Pc<V>) {
    !pc.Idle? && !pc.Subscribing? && !pc.Refused?
  }

  predicate IsOver<V>(pc: Pc<V>) {
    pc.Refused? || pc.Finished?
  }

  /** The deferred function is entered on each of the four ways out of a request that subscribed. */
  lemma {:induction false} ProgramCounts<V>(log: seq<Action<V>>)
    requires Program(log).Some?
    ensures var pc := Program(log).value;
            && Count(log, (a: Action<V>) => a == SubscribeReturns(None)) == (if HasSubscribed(pc) then 1 else 0)
            && Count(log, (a: Action<V>) => a.CallUnsubscribe?)
               == (if HasSubscribed(pc) && !pc.Subscribed? && !pc.Waiting? && !pc.Leaving? then 1 else 0)
            && Count(log, (a: Action<V>) => a.CloseErrors?) == (if pc.ClosingMessages? || pc.Finished? then 1 else 0)
            && Count(log, (a: Action<V>) => a.CloseMessages?) == (if pc.Finished? then 1 else 0)
  {
    if log != [] {
      ProgramCounts(log[..|log| - 1]);
    }
  }

  /**
    A request that is over has unsubscribed exactly once, and closed each of its channels exactly
    once, if and only if its subscribe call succeeded; otherwise it did none of the three.
   */
  lemma CleanupExactlyOnce<V>(log: seq<Action<V>>)
    requires Program(log).Some? && IsOver(Program(log).value)
    ensures var subscribed := Count(log, (a: Action<V>) => a == SubscribeReturns(None));
            && subscribed <= 1
            && (subscribed == 1 <==> Program(log).value.Finished?)
            && Count(log, (a: Action<V>) => a.CallUnsubscribe?) == subscribed
            && Count(log, (a: Action<V>) => a.CloseErrors?) == subscribed
            && Count(log, (a: Action<V>) => a.CloseMessages?) == subscribed
  {
    ProgramCounts(log);
  }

  // ----- DoRequest, run by itself -----

  /** A Go channel made with room for one element. */
  class Channel<T> {
    var buffer: seq<T>
    var closed: bool

    constructor ()
      ensures buffer == [] && !closed
    {
      buffer, closed := [], false;
    }

    method Send(x: T)
      requires !closed && |buffer| < 1
      modifies this
      ensures buffer == old(buffer) + [x] && !closed
    {
      buffer := buffer + [x];
    }

    method Receive() returns (x: T)
      requires buffer != []
      modifies this
      ensures x == old(buffer)[0] && buffer == old(buffer)[1..] && closed == old(closed)
    {
      x := buffer[0];
      buffer := buffer[1..];
    }

    method Close()
      requires !closed
      modifies this
      ensures closed && buffer == old(buffer)
    {
      closed := true;
    }
  }

  /** The channels that a client's handlers send on. */
  datatype End<V> = Messages(messages: Channel<MessageEnvelope<V>>) | Errors(errors: Channel<BusError>)

  datatype Choice = Timer | Error | Message

  /** What happens around a request: the broker's answers, what arrives in time, and what `select` picks. */
  datatype World<V> = World(
    freshId: string,
    subscribeToken: Token,
    publishError: Option<BusError>,
    message: Option<MessageEnvelope<V>>,
    error: Option<BusError>,
    choice: Choice,
    unsubscribeToken: Token)

  /** `select` picks a channel only when something has arrived on it. */
  predicate IsPossible<V>(world: World<V>) {
    && (world.choice == Choice.Error ==> world.error.Some?)
    && (world.choice == Choice.Message ==> world.message.Some?)
  }

  /**
    What a request does to the client's table: nothing if it could not subscribe, nothing but the removal of
    its topic if it could unsubscribe again, and otherwise an entry that is left with its two channels.
   */
  function TableAfterRequest<V>(
    table: Table<End<V>>, qos: nat, topic: string, messages: Channel<MessageEnvelope<V>>, errs: Channel<BusError>,
    world: World<V>)
    : Table<End<V>>
  {
    if !Succeeded(world.subscribeToken) then table
    else if Succeeded(world.unsubscribeToken) then table - {topic}
    else
      var handler := Handler(false, Messages(messages), Errors(errs));
      table[topic := ExistingSubscription(topic, qos, handler, Errors(errs))]
  }

  lemma SubscribesAndUnsubscribes<V>(
    table: Table<End<V>>, qos: nat, topic: string, messages: Channel<MessageEnvelope<V>>, errs: Channel<BusError>,
    world: World<V>)
    ensures var topics := [TopicChannel(topic, Messages(messages))];
            var with := Applied(table, qos, Operation.Subscribe(topics, Errors(errs), false, [world.subscribeToken]));
            TableAfterRequest(table, qos, topic, messages, errs, world)
            == if Succeeded(world.subscribeToken)
               then Applied(with, qos, Operation.Unsubscribe([topic], world.unsubscribeToken)) else with
  {
    var topics := [TopicChannel(topic, Messages(messages))];
    OneToken(world.subscribeToken);
    assert topics[..1] == topics;
    OneSubscription(table, qos, topics[0], Errors(errs));
    var entry := NewSubscription(qos, false, topics[0], Errors(errs));
    assert Without(table[topic := entry], [topic]) == table - {topic};
  }

  /** The select between the timer, the error channel and the message channel. */
  method AwaitResponse<V>(
    messages: Channel<MessageEnvelope<V>>, errs: Channel<BusError>, world: World<V>, ghost before: seq<Action<V>>)
    returns (result: RequestResult<V>, ghost log: seq<Action<V>>)
    requires IsPossible(world) && world.publishError == None
    requires messages.buffer == [] && errs.buffer == [] && !messages.closed && !errs.closed
    requires Program(before) == Some(Waiting)
    modifies messages, errs
    ensures world.choice == Timer ==> result == TimedOut
    ensures world.choice == Choice.Error ==> result == ErrorReceived(world.error.value)
    ensures world.choice == Choice.Message ==> result == Response(world.message.value)
    ensures Program(log) == Some(Leaving(result))
    ensures !messages.closed && !errs.closed
  {
    if world.error.Some? {
      errs.Send(world.error.value);
    }
    if world.message.Some? {
      messages.Send(world.message.value);
    }
    match world.choice {
      case Timer =>
        log := Record(before, TimerFires);
        result := TimedOut;
      case Error =>
        var e := errs.Receive();
        log := Record(before, ReceiveError(e));
        result := ErrorReceived(e);
      case Message =>
        var m := messages.Receive();
        log := Record(before, ReceiveMessage(m));
        result := Response(m);
    }
  }

  /** The deferred function: unsubscribe, whatever comes of it, then close both channels. */
  method CleanUp<V>(
    client: Client<End<V>>, responseTopic: string, messages: Channel<MessageEnvelope<V>>, errs: Channel<BusError>,
    world: World<V>, ghost before: seq<Action<V>>, ghost result: RequestResult<V>)
    returns (ghost log: seq<Action<V>>)
    requires !messages.closed && !errs.closed
    requires Program(before) == Some(Leaving(result))
    modifies client, messages, errs
    ensures client.existingSubscriptions
         == Applied(old(client.existingSubscriptions), client.qos,
             Operation.Unsubscribe([responseTopic], world.unsubscribeToken))
    ensures client.brokerCalls == old(client.brokerCalls) + [UnsubscribeCall([responseTopic])]
    ensures client.sentErrors == old(client.sentErrors)
    ensures Program(log) == Some(Finished(result, Succeeded(world.unsubscribeToken)))
    ensures messages.closed && errs.closed
  {
    hide Program, Applied;
    log := Record(before, CallUnsubscribe);
    var error := client.Unsubscribe([responseTopic], world.unsubscribeToken);
    log := Record(log, UnsubscribeReturns(error));
    errs.Close();
    log := Record(log, CloseErrors);
    messages.Close();
    log := Record(log, CloseMessages);
  }

  lemma OneToken(token: Token)
    ensures Accepted([token]) == if Succeeded(token) then 1 else 0
    ensures Attempted([token]) == 1
  {
  }

  lemma OneCall<C>(qos: nat, tc: TopicChannel<C>, errors: C)
    ensures [tc][..1] == [tc]
    ensures CallsFor(qos, false, [tc], errors) == [SubscribeCall(tc.topic, qos, Handler(false, tc.messages, errors))]
  {
  }

  /** The broker calls of a request: one subscribe, and if it succeeded, one unsubscribe of the same topic. */
  function CallsOfRequest<V>(
    qos: nat, topic: string, messages: Channel<MessageEnvelope<V>>, errs: Channel<BusError>, world: World<V>)
    : seq<BrokerCall<End<V>>>
  {
    [SubscribeCall(topic, qos, Handler(false, Messages(messages), Errors(errs)))]
    + if Succeeded(world.subscribeToken) then [UnsubscribeCall([topic])] else []
  }

  method DoRequest<V>(
    client: Client<End<V>>, request: MessageEnvelope<V>, requestTopic: string, responseTopicPrefix: string,
    world: World<V>)
    returns (result: RequestResult<V>, published: Option<(MessageEnvelope<V>, string)>,
             messages: Channel<MessageEnvelope<V>>, errs: Channel<BusError>, ghost log: seq<Action<V>>)
    requires IsPossible(world)
    modifies client
    ensures fresh(messages) && fresh(errs)
    ensures var id := if AllSpace(request.requestID) then world.freshId else request.requestID;
            var topic := responseTopicPrefix + "/" + id;
            && client.existingSubscriptions
               == TableAfterRequest(old(client.existingSubscriptions), client.qos, topic, messages, errs, world)
            && client.brokerCalls == old(client.brokerCalls) + CallsOfRequest(client.qos, topic, messages, errs, world)
    ensures client.sentErrors == old(client.sentErrors)
    ensures !Succeeded(world.subscribeToken) ==> published == None
    ensures Succeeded(world.subscribeToken) && AllSpace(request.requestID) ==>
              published == Some((request.(requestID := world.freshId), requestTopic))
    ensures Succeeded(world.subscribeToken) && !AllSpace(request.requestID) ==>
              published == Some((request, requestTopic))
    ensures Succeeded(world.subscribeToken) ==>
              && (world.publishError.Some? ==> result == PublishFailed(world.publishError.value))
              && (world.publishError == None ==>
                    && (world.choice == Timer ==> result == TimedOut)
                    && (world.choice == Choice.Error ==> result == ErrorReceived(world.error.value))
                    && (world.choice == Choice.Message ==> result == Response(world.message.value)))
              && Program(log) == Some(Finished(result, Succeeded(world.unsubscribeToken)))
    ensures !Succeeded(world.subscribeToken) ==>
              && result
                  == SubscribeFailed(GetTokenError(world.subscribeToken, SUBSCRIBE_OPERATION, SUBSCRIBE_FAILED).value)
              && Program(log) == Some(Refused(result.error))
    ensures messages.closed == errs.closed == Succeeded(world.subscribeToken)
  {
    hide Program, Applied, Accepted, Attempted, CallsFor, TrimSpace, AllSpace, ResponseTopic, TableAfterRequest;
    ProgramStarts<V>();
    TrimSpaceEmptiesExactlyWhenSpace(request.requestID);
    OneToken(world.subscribeToken);
    var requestMessage := request;
    if |TrimSpace(requestMessage.requestID)| == 0 {
      requestMessage := requestMessage.(requestID := world.freshId);
    }
    var responseTopic := ResponseTopic(responseTopicPrefix, requestMessage.requestID);
    errs := new Channel();
    messages := new Channel();
    published := None;
    SubscribesAndUnsubscribes(client.existingSubscriptions, client.qos, responseTopic, messages, errs, world);

    log := Record([], CallSubscribe);
    OneCall(client.qos, TopicChannel(responseTopic, Messages(messages)), Errors(errs));
    var error := client.Subscribe(
      [TopicChannel(responseTopic, Messages(messages))], Errors(errs), false, [world.subscribeToken]);
    log := Record(log, SubscribeReturns(error));
    if error.Some? {
      result := SubscribeFailed(error.value);
      return;
    }

    published := Some((requestMessage, requestTopic));
    error := world.publishError;
    log := Record(log, PublishReturns(error));
    if error.Some? {
      result := PublishFailed(error.value);
    } else {
      result, log := AwaitResponse(messages, errs, world, log);
    }

    log := CleanUp(client, responseTopic, messages, errs, world, log, result);
  }

  /** On a response topic of its own, a request that could unsubscribe leaves the table as it found it. */
  lemma RequestLeavesTableAlone<V>(
    table: Table<End<V>>, qos: nat, topic: string, messages: Channel<MessageEnvelope<V>>, errs: Channel<BusError>,
    world: World<V>)
    requires topic !in table && Succeeded(world.unsubscribeToken)
    ensures TableAfterRequest(table, qos, topic, messages, errs, world) == table
  {
    assert table - {topic} == table;
  }

  lemma OneSubscription<C>(table: Table<C>, qos: nat, tc: TopicChannel<C>, errors: C)
    ensures WithSubscriptions(table, qos, false, [tc], errors)
        == table[tc.topic := NewSubscription(qos, false, tc, errors)]
  {
    assert [tc][..0] == [];
    assert WithSubscriptions(table, qos, false, [tc][..0], errors) == table;
  }
}
