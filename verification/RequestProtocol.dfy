/**
  Any number of requests on one MQTT client, interleaved step by step with each other, with the
  handlers that the client runs for arriving messages, with reconnects that replay the subscription
  table, and with the client's own subscribe and unsubscribe calls.
 */
module RequestProtocol {
  import opened Wrappers
  import opened Topics
  import opened MessageEnvelopes
  import opened MqttClient
  import opened RequestResponse

  /** Payloads of types other than bytes and strings are stood for by their encoding. */
  type Envelope = MessageEnvelope<seq<byte>>

  // ----- The requests -----

  datatype Request = Request(responseTopicPrefix: string, id: string)

  datatype Config = Config(requests: seq<Request>, qos: nat)
  {
    predicate Has(i: nat) {
      i < |requests|
    }

    function TopicOf(i: nat): string
      requires Has(i)
    {
      ResponseTopic(requests[i].responseTopicPrefix, requests[i].id)
    }

    /** Identifiers are pairwise distinct and slash-free, and response topics hold no wildcard. */
    ghost predicate IsValid() {
      && (forall i :: 0 <= i < |requests| ==> '/' !in requests[i].id && '+' !in TopicOf(i) && '#' !in TopicOf(i))
      && (forall i, j :: 0 <= i < j < |requests| ==> requests[i].id != requests[j].id)
    }

    ghost predicate IsResponseTopic(topic: string) {
      exists i :: 0 <= i < |requests| && TopicOf(i) == topic
    }
  }

  /** The two channels of each request, and the channels of everybody else. */
  datatype Chan = MessagesOf(request: nat) | ErrorsOf(request: nat) | UserChan(name: nat)

  function HandlerOf(i: nat): Handler<Chan> {
    Handler(false, MessagesOf(i), ErrorsOf(i))
  }

  function ChannelFor(c: Config, i: nat): TopicChannel<Chan>
    requires c.Has(i)
  {
    TopicChannel(c.TopicOf(i), MessagesOf(i))
  }

  function EntryOf(c: Config, i: nat): ExistingSubscription<Chan>
    requires c.Has(i)
  {
    NewSubscription(c.qos, false, ChannelFor(c, i), ErrorsOf(i))
  }

  // ----- The state -----

  /** A channel with room for one element, and how often it has been closed. */
  datatype Mailbox<T> = Mailbox(buffer: seq<T>, closes: nat)
  {
    predicate HasRoom() {
      |buffer| < 1
    }

    /** A send blocks while the buffer is full, unless the channel is closed: then it panics. */
    predicate TakesSend() {
      closes > 0 || HasRoom()
    }
  }

  /**
    `sendingMessages` and `sendingErrors` are what handlers that run for this request are about to
    put on its channels; `raisedMessages` and `raisedErrors` count all that were ever to be put there.
   */
  datatype RequestState = RequestState(
    pc: Pc<seq<byte>>,
    log: seq<Action<seq<byte>>>,
    messages: Mailbox<Envelope>,
    errs: Mailbox<BusError>,
    sendingMessages: multiset<Envelope>,
    sendingErrors: multiset<BusError>,
    raisedMessages: nat,
    raisedErrors: nat)

  /** Who holds the client's subscription mutex. */
  datatype Mutex =
    | Unlocked
    | Subscriber(request: nat, acknowledged: bool)
    | Unsubscriber(request: nat)
    | Replayer(todo: set<string>, sending: Option<(Chan, BusError)>)

  /**
    `held` are the subscriptions that the broker has for certain. `maybe` are those it may have: asked
    for but not confirmed, asked to be removed but not confirmed, or held before the connection was
    lost. `own` is the table that the client's own subscribe and unsubscribe calls would have produced
    without any request. `crashed` is a send on, or a close of, a closed channel.
   */
  datatype State = State(
    requests: seq<RequestState>,
    table: Table<Chan>,
    own: Table<Chan>,
    held: map<string, Handler<Chan>>,
    maybe: map<string, Handler<Chan>>,
    mutex: Mutex,
    crashed: bool)

  function InitialRequest(): RequestState {
    RequestState(Idle, [], Mailbox([], 0), Mailbox([], 0), multiset{}, multiset{}, 0, 0)
  }

  function Initial(c: Config): State {
    State(seq(|c.requests|, i => InitialRequest()), map[], map[], map[], map[], Unlocked, false)
  }

  // ----- The steps -----

  /** What a request, or a handler that runs for it, does next. */
  datatype Move =
      // The request takes the mutex and sends its subscription to the broker; later the call returns,
      // stores the entry if the token succeeded, and releases the mutex.
    | AsksToSubscribe
    | HearsSubscribed(token: Token)
      // Publishing returns; the select takes the timer, an error or a message.
    | HearsPublished(error: Option<BusError>)
    | TimesOut
    | TakesError
    | TakesMessage
      // The deferred function: unsubscribe under the mutex, then close both channels.
    | AsksToUnsubscribe
    | HearsUnsubscribed(token: Token)
    | ClosesErrors
    | ClosesMessages
      // A handler's send goes through: the channel has room, or is closed.
    | SendsMessage(message: Envelope)
    | SendsError(problem: BusError)

  datatype Step =
    | By(i: nat, move: Move)
      // The broker acknowledges the subscription of the request that holds the mutex.
    | Acknowledge(i: nat)
      // A message on `topic` starts the handler of a matching subscription, which decodes it and is
      // then about to send the result.
    | Dispatch(filter: string, topic: string, decoded: Result<Envelope, string>)
      // The connection goes down. The connect handler takes the mutex, subscribes the entries again one
      // by one, puts each failure on the entry's own channel before it goes on, and releases the mutex.
    | ConnectionLost
    | ReplayStarts
    | ReplaySubscribes(filter: string, token: Token)
    | ReplaySends
    | ReplayEnds
      // A whole subscribe or unsubscribe call by somebody else on the client, under the mutex.
    | OwnOperation(op: Operation<Chan>)

  function SubscribeOp(c: Config, i: nat, token: Token): Operation<Chan>
    requires c.Has(i)
  {
    Operation.Subscribe([ChannelFor(c, i)], ErrorsOf(i), false, [token])
  }

  /** The client's other users have channels and topics of their own. */
  ghost predicate IsOwnOperation(c: Config, op: Operation<Chan>) {
    && IsOperation(op)
    && match op
       case Subscribe(topics, errors, _, _) =>
         errors.UserChan? && forall k :: 0 <= k < |topics| ==>
             topics[k].messages.UserChan? && !c.IsResponseTopic(topics[k].topic)
       case Unsubscribe(names, _) => forall k :: 0 <= k < |names| ==> !c.IsResponseTopic(names[k])
       case Reconnect => false
  }

  /** The broker or the client may still run this handler for a message that matches `filter`. */
  predicate MayRun(s: State, filter: string) {
    filter in s.held || filter in s.maybe
  }

  function Registered(s: State, filter: string): Handler<Chan>
    requires MayRun(s, filter)
  {
    if filter in s.held then s.held[filter] else s.maybe[filter]
  }

  ghost predicate CanMove(s: State, i: nat, move: Move)
    requires i < |s.requests|
  {
    var r := s.requests[i];
    match move
    case AsksToSubscribe => r.pc.Idle? && s.mutex == Unlocked
    case HearsSubscribed(token) =>
      r.pc.Subscribing? && s.mutex.Subscriber? && s.mutex.request == i && (Succeeded(token) ==> s.mutex.acknowledged)
    case HearsPublished(_) => r.pc.Subscribed?
    case TimesOut => r.pc.Waiting?
    case TakesError => r.pc.Waiting? && r.errs.buffer != []
    case TakesMessage => r.pc.Waiting? && r.messages.buffer != []
    case AsksToUnsubscribe => r.pc.Leaving? && s.mutex == Unlocked
    case HearsUnsubscribed(_) => r.pc.Unsubscribing? && s.mutex == Unsubscriber(i)
    case ClosesErrors => r.pc.ClosingErrors?
    case ClosesMessages => r.pc.ClosingMessages?
    case SendsMessage(message) => message in r.sendingMessages && r.messages.TakesSend()
    case SendsError(problem) => problem in r.sendingErrors && r.errs.TakesSend()
  }

  ghost predicate Enabled(c: Config, s: State, step: Step) {
    && !s.crashed
    && |s.requests| == |c.requests|
    && match step
       case By(i, move) => c.Has(i) && CanMove(s, i, move)
       case Acknowledge(i) => c.Has(i) && s.mutex == Subscriber(i, false)
       case Dispatch(filter, topic, _) => MayRun(s, filter) && MqttMatches(filter, topic)
       case ConnectionLost => true
       case ReplayStarts => s.mutex == Unlocked
       case ReplaySubscribes(filter, _) =>
           s.mutex.Replayer? && s.mutex.sending == None && filter in s.mutex.todo && filter in s.table
       case ReplaySends => s.mutex.Replayer? && s.mutex.sending.Some? && ReplayCanSend(c, s, s.mutex.sending.value.0)
       case ReplayEnds => s.mutex == Replayer({}, None)
       case OwnOperation(op) => s.mutex == Unlocked && IsOwnOperation(c, op)
  }

  /** The channels of the client's other users are read in time. */
  predicate ReplayCanSend(c: Config, s: State, channel: Chan)
    requires |s.requests| == |c.requests|
  {
    channel.ErrorsOf? ==> c.Has(channel.request) && s.requests[channel.request].errs.TakesSend()
  }

  // ----- What a step does to each part of the state -----

  /** The action that a move is in the program of the request that makes it. */
  ghost function ActionOf(r: RequestState, move: Move): Option<Action<seq<byte>>> {
    match move
    case AsksToSubscribe => Some(CallSubscribe)
    case HearsSubscribed(token) =>
      Some(SubscribeReturns(GetTokenError(token, SUBSCRIBE_OPERATION, SUBSCRIBE_FAILED)))
    case HearsPublished(error) => Some(PublishReturns(error))
    case TimesOut => Some(TimerFires)
    case TakesError => if r.errs.buffer != [] then Some(ReceiveError(r.errs.buffer[0])) else None
    case TakesMessage => if r.messages.buffer != [] then Some(ReceiveMessage(r.messages.buffer[0])) else None
    case AsksToUnsubscribe => Some(CallUnsubscribe)
    case HearsUnsubscribed(token) =>
      Some(UnsubscribeReturns(GetTokenError(token, UNSUBSCRIBE_OPERATION, UNSUBSCRIBE_FAILED)))
    case ClosesErrors => Some(CloseErrors)
    case ClosesMessages => Some(CloseMessages)
    case _ => None
  }

  /** A close of a closed channel, or a send on one. */
  ghost predicate Crashes(c: Config, s: State, step: Step)
    requires Enabled(c, s, step)
  {
    match step
    case By(i, ClosesErrors) => s.requests[i].errs.closes > 0
    case By(i, ClosesMessages) => s.requests[i].messages.closes > 0
    case By(i, SendsMessage(_)) => s.requests[i].messages.closes > 0
    case By(i, SendsError(_)) => s.requests[i].errs.closes > 0
    case ReplaySends =>
      var channel := s.mutex.sending.value.0;
      channel.ErrorsOf? && s.requests[channel.request].errs.closes > 0
    case _ => false
  }

  /** A request after it took an action of its program. */
  function Acted(r: RequestState, action: Action<seq<byte>>): RequestState {
    match Advance(r.pc, action)
    case None => r
    case Some(pc) => r.(pc := pc, log := r.log + [action])
  }

  /** What a move does to the request's channels, and to what is on its way to them. */
  function OnChannels(r: RequestState, move: Move): RequestState {
    match move
    case TakesError => r.(errs := r.errs.(buffer := if r.errs.buffer == [] then [] else r.errs.buffer[1..]))
    case TakesMessage =>
        r.(messages := r.messages.(buffer := if r.messages.buffer == [] then [] else r.messages.buffer[1..]))
    case ClosesErrors => r.(errs := r.errs.(closes := r.errs.closes + 1))
    case ClosesMessages => r.(messages := r.messages.(closes := r.messages.closes + 1))
    case SendsMessage(message) =>
      r.(sendingMessages := r.sendingMessages - multiset{message},
         messages := r.messages.(buffer := r.messages.buffer + [message]))
    case SendsError(problem) =>
      r.(sendingErrors := r.sendingErrors - multiset{problem}, errs := r.errs.(buffer := r.errs.buffer + [problem]))
    case _ => r
  }

  ghost function Moved(r: RequestState, move: Move): RequestState {
    var action := ActionOf(r, move);
    OnChannels(if action.Some? then Acted(r, action.value) else r, move)
  }

  function RaiseError(r: RequestState, problem: BusError): RequestState {
    r.(sendingErrors := r.sendingErrors + multiset{problem}, raisedErrors := r.raisedErrors + 1)
  }

  function RaiseMessage(r: RequestState, message: Envelope): RequestState {
    r.(sendingMessages := r.sendingMessages + multiset{message}, raisedMessages := r.raisedMessages + 1)
  }

  /** What a step that no request takes does to request `i`: a handler starts, or a replay has an error for it. */
  ghost function FromOutside(c: Config, s: State, step: Step, i: nat, r: RequestState): RequestState
    requires Enabled(c, s, step)
  {
    match step
    case Dispatch(filter, topic, decoded) => (
      var handler := Registered(s, filter);
      match HandledMessage(topic, decoded)
      case Message(message) => if handler.messages == MessagesOf(i) then RaiseMessage(r, message) else r
      case Problem(problem) => if handler.errors == ErrorsOf(i) then RaiseError(r, problem) else r
    )
    case ReplaySubscribes(filter, token) =>
      if !Succeeded(token) && s.table[filter].errors == ErrorsOf(i) then r.(raisedErrors := r.raisedErrors + 1) else r
    case ReplaySends =>
      var (channel, error) := s.mutex.sending.value;
      if channel == ErrorsOf(i) then r.(errs := r.errs.(buffer := r.errs.buffer + [error])) else r
    case _ => r
  }

  ghost function RequestAfter(c: Config, s: State, step: Step, i: nat): RequestState
    requires Enabled(c, s, step) && c.Has(i)
  {
    if step.By? && step.i == i then Moved(s.requests[i], step.move) else FromOutside(c, s, step, i, s.requests[i])
  }

  ghost function TableAfterStep(c: Config, s: State, step: Step): Table<Chan>
    requires Enabled(c, s, step)
  {
    match step
    case By(i, HearsSubscribed(token)) => Applied(s.table, c.qos, SubscribeOp(c, i, token))
    case By(i, HearsUnsubscribed(token)) => Applied(s.table, c.qos, Operation.Unsubscribe([c.TopicOf(i)], token))
    case OwnOperation(op) => Applied(s.table, c.qos, op)
    case _ => s.table
  }

  ghost function OwnAfter(c: Config, s: State, step: Step): Table<Chan>
    requires Enabled(c, s, step)
  {
    if step.OwnOperation? then Applied(s.own, c.qos, step.op) else s.own
  }

  function HandlersOf(table: Table<Chan>): map<string, Handler<Chan>> {
    map k | k in table :: table[k].handler
  }

  ghost function HeldAfter(c: Config, s: State, step: Step): map<string, Handler<Chan>>
    requires Enabled(c, s, step)
  {
    match step
    case Acknowledge(i) => s.held[c.TopicOf(i) := HandlerOf(i)]
    case By(i, AsksToUnsubscribe) => s.held - {c.TopicOf(i)}
    case ConnectionLost => map[]
    case ReplaySubscribes(filter, token) =>
      if Succeeded(token) then s.held[s.table[filter].topic := s.table[filter].handler] else s.held
    case OwnOperation(Subscribe(topics, errors, binary, tokens)) =>
      s.held + HandlersOf(WithSubscriptions(map[], c.qos, binary, topics[..Accepted(tokens)], errors))
    case OwnOperation(Unsubscribe(names, _)) => s.held - set t | t in names
    case _ => s.held
  }

  ghost function MaybeAfter(c: Config, s: State, step: Step): map<string, Handler<Chan>>
    requires Enabled(c, s, step)
  {
    match step
    case By(i, AsksToSubscribe) => s.maybe[c.TopicOf(i) := HandlerOf(i)]
    case By(i, AsksToUnsubscribe) => s.maybe + s.held
    case By(i, HearsUnsubscribed(token)) => if Succeeded(token) then s.maybe - {c.TopicOf(i)} else s.maybe
    case ConnectionLost => s.maybe + s.held
    case ReplaySubscribes(filter, token) =>
      if Succeeded(token) then s.maybe else s.maybe[s.table[filter].topic := s.table[filter].handler]
    case OwnOperation(Subscribe(topics, errors, binary, tokens)) =>
      s.maybe + HandlersOf(WithSubscriptions(map[], c.qos, binary, topics[..Attempted(tokens)], errors))
    case OwnOperation(Unsubscribe(names, token)) =>
      if Succeeded(token) then s.maybe - set t | t in names else s.maybe + s.held
    case _ => s.maybe
  }

  ghost function MutexAfter(c: Config, s: State, step: Step): Mutex
    requires Enabled(c, s, step)
  {
    match step
    case By(i, AsksToSubscribe) => Subscriber(i, false)
    case By(_, HearsSubscribed(_)) => Unlocked
    case By(i, AsksToUnsubscribe) => Unsubscriber(i)
    case By(_, HearsUnsubscribed(_)) => Unlocked
    case Acknowledge(i) => Subscriber(i, true)
    case ReplayStarts => Replayer(s.table.Keys, None)
    case ReplaySubscribes(filter, token) =>
      var error := ReplayError(s.table[filter], token);
      Replayer(s.mutex.todo - {filter}, if error == None then None else Some((s.table[filter].errors, error.value)))
    case ReplaySends => Replayer(s.mutex.todo, None)
    case ReplayEnds => Unlocked
    case _ => s.mutex
  }

  ghost function Apply(c: Config, s: State, step: Step): State
    requires Enabled(c, s, step)
  {
    if Crashes(c, s, step) then s.(crashed := true)
    else
      State(seq(|c.requests|, i requires 0 <= i < |c.requests| => RequestAfter(c, s, step, i)),
            TableAfterStep(c, s, step), OwnAfter(c, s, step),
            HeldAfter(c, s, step), MaybeAfter(c, s, step), MutexAfter(c, s, step), false)
  }

  // ----- Runs -----

  /** The state after a sequence of steps from the start; None when one of them could not be taken. */
  ghost function After(c: Config, run: seq<Step>): Option<State> {
    if run == [] then Some(Initial(c))
    else
      var n := |run| - 1;
      match After(c, run[..n])
      case None => None
      case Some(s) => if Enabled(c, s, run[n]) then Some(Apply(c, s, run[n])) else None
  }
}
