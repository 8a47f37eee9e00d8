/** The MQTT client's subscription table: subscribing, unsubscribing, and replaying it on a reconnect. */
module MqttClient {
  import opened Wrappers
  import opened MapOrders
  import opened MessageEnvelopes

  // ----- Tokens -----

  datatype BusError =
    | TimeoutError(operation: string, message: string)
    | OperationError(operation: string, message: string)
    | DecodeError(message: string)

  const SUBSCRIBE_OPERATION := "Subscribe"
  const UNSUBSCRIBE_OPERATION := "Unsubscribe"
  const SUBSCRIBE_FAILED := "Failed to create subscription"
  const UNSUBSCRIBE_FAILED := "Failed to unsubscribe"

  /** How a broker operation went: whether it completed in time, and the error its token holds. */
  datatype Token = Token(inTime: bool, error: Option<string>)

  function GetTokenError(token: Token, operation: string, defaultTimeoutMessage: string): (r: Option<BusError>)
    ensures r == None <==> Succeeded(token)
    ensures r.Some? ==> !r.value.DecodeError? && r.value.operation == operation
    ensures r.Some? ==> (r.value.TimeoutError? <==> !token.inTime)
    ensures r.Some? ==> r.value.message == if token.error.Some? then token.error.value else defaultTimeoutMessage
  {
    var hasTimedOut := !token.inTime;
    if hasTimedOut && token.error.Some? then Some(TimeoutError(operation, token.error.value))
    else if hasTimedOut && token.error == None then Some(TimeoutError(operation, defaultTimeoutMessage))
    else if token.error.Some? then Some(OperationError(operation, token.error.value))
    else None
  }

  predicate Succeeded(token: Token) {
    token.inTime && token.error == None
  }

  // ----- Handlers -----

  /** The closure made by `newMessageHandler` or `newBinaryDataMessageHandler`: the channels it captured. */
  datatype Handler<C> = Handler(binary: bool, messages: C, errors: C)

  datatype Item<V> = Message(envelope: MessageEnvelope<V>) | Problem(error: BusError)

  /** What the handler from `newMessageHandler` puts on a channel when a message arrives on `topic`. */
  function HandledMessage<V>(topic: string, decoded: Result<MessageEnvelope<V>, string>): Item<V> {
    match decoded
    case Failure(message) => Problem(DecodeError(message))
    case Success(envelope) => Message(envelope.(receivedTopic := topic))
  }

  // ----- The table -----

  datatype ExistingSubscription<C> = ExistingSubscription(topic: string, qos: nat, handler: Handler<C>, errors: C)

  type Table<C> = map<string, ExistingSubscription<C>>

  predicate IsWellKeyed<C>(table: Table<C>) {
    forall k :: k in table ==> table[k].topic == k
  }

  function NewSubscription<C>(qos: nat, binary: bool, tc: TopicChannel<C>, errors: C): ExistingSubscription<C> {
    ExistingSubscription(tc.topic, qos, Handler(binary, tc.messages, errors), errors)
  }

  /** The table after `topics` were subscribed one after another without a failure. */
  function WithSubscriptions<C>(
    table: Table<C>, qos: nat, binary: bool, topics: seq<TopicChannel<C>>, errors: C): Table<C>
  {
    if topics == [] then table
    else
      var n := |topics| - 1;
      WithSubscriptions(table, qos, binary, topics[..n], errors)
        [topics[n].topic := NewSubscription(qos, binary, topics[n], errors)]
  }

  /** How many tokens succeed before the first that does not. */
  function Accepted(tokens: seq<Token>): (n: nat)
    ensures n <= |tokens|
    ensures forall i :: 0 <= i < n ==> Succeeded(tokens[i])
    ensures n < |tokens| ==> !Succeeded(tokens[n])
  {
    if tokens == [] || !Succeeded(tokens[0]) then 0 else 1 + Accepted(tokens[1..])
  }

  /** How many topics are sent to the broker: those up to the first failure, and the one that fails. */
  function Attempted(tokens: seq<Token>): (n: nat)
    ensures n <= |tokens|
  {
    if Accepted(tokens) == |tokens| then |tokens| else Accepted(tokens) + 1
  }

  function Without<C>(table: Table<C>, topics: seq<string>): Table<C> {
    map k | k in table && k !in topics :: table[k]
  }

  /** An operation of the client, with the tokens that the broker operations in it returned. */
  datatype Operation<C> =
    | Subscribe(topics: seq<TopicChannel<C>>, errors: C, binary: bool, tokens: seq<Token>)
    | Unsubscribe(names: seq<string>, token: Token)
    | Reconnect

  predicate IsOperation<C>(op: Operation<C>) {
    op.Subscribe? ==> |op.tokens| == |op.topics|
  }

  function Applied<C>(table: Table<C>, qos: nat, op: Operation<C>): Table<C>
    requires IsOperation(op)
  {
    match op
    case Subscribe(topics, errors, binary, tokens) =>
      WithSubscriptions(table, qos, binary, topics[..Accepted(tokens)], errors)
    case Unsubscribe(names, token) => if Succeeded(token) then Without(table, names) else table
    case Reconnect => table
  }

  // ----- The client -----

  datatype BrokerCall<C> =
    | SubscribeCall(topic: string, qos: nat, handler: Handler<C>)
    | UnsubscribeCall(topics: seq<string>)

  function CallFor<C>(s: ExistingSubscription<C>): BrokerCall<C> {
    SubscribeCall(s.topic, s.qos, s.handler)
  }

  function CallsFor<C>(qos: nat, binary: bool, topics: seq<TopicChannel<C>>, errors: C): seq<BrokerCall<C>> {
    seq(|topics|, i requires 0 <= i < |topics| => CallFor(NewSubscription(qos, binary, topics[i], errors)))
  }

  function ReplayCalls<C>(table: Table<C>, order: seq<string>): seq<BrokerCall<C>>
    requires forall i :: 0 <= i < |order| ==> order[i] in table
  {
    seq(|order|, i requires 0 <= i < |order| => CallFor(table[order[i]]))
  }

  const RECREATE_FAILED := "Failed to re-create subscription for topic="

  function ReplayError<C>(s: ExistingSubscription<C>, token: Token): Option<BusError> {
    GetTokenError(token, SUBSCRIBE_OPERATION, RECREATE_FAILED + s.topic)
  }

  /** The replay fails for the entry, and nobody ever takes the error from the entry's channel. */
  predicate Blocks<C>(s: ExistingSubscription<C>, token: Token, isTaken: bool) {
    ReplayError(s, token).Some? && !isTaken
  }

  /** Entries of the table, each of them once. */
  ghost predicate IsVisit<C>(table: Table<C>, order: seq<string>) {
    IsOrderOf(order, set k | k in order) && forall i :: 0 <= i < |order| ==> order[i] in table
  }

  predicate NoneBlocks<C>(table: Table<C>, order: seq<string>, tokens: string -> Token, isTaken: string -> bool)
    requires forall i :: 0 <= i < |order| ==> order[i] in table
  {
    forall i :: 0 <= i < |order| ==> !Blocks(table[order[i]], tokens(order[i]), isTaken(order[i]))
  }

  /** An entry holds a replay up exactly when its token failed and its error is never taken. */
  lemma NoneBlocksMeans<C>(table: Table<C>, order: seq<string>, tokens: string -> Token, isTaken: string -> bool)
    requires forall i :: 0 <= i < |order| ==> order[i] in table
    ensures NoneBlocks(table, order, tokens, isTaken) <==>
            forall k :: k in table && k in order ==> Succeeded(tokens(k)) || isTaken(k)
    ensures forall k :: k in table ==>
              (Blocks(table[k], tokens(k), isTaken(k)) <==> !Succeeded(tokens(k)) && !isTaken(k))
  {
    hide GetTokenError;
    if NoneBlocks(table, order, tokens, isTaken) {
      forall k | k in table && k in order
        ensures Succeeded(tokens(k)) || isTaken(k)
      {
        var i :| 0 <= i < |order| && order[i] == k;
        assert !Blocks(table[order[i]], tokens(order[i]), isTaken(order[i]));
      }
    }
  }

  lemma OrderIsVisit<C>(table: Table<C>, order: seq<string>, keys: set<string>)
    requires IsOrderOf(order, keys) && keys <= table.Keys
    ensures IsVisit(table, order)
  {
    assert keys == set k | k in order;
  }

  /** The errors that a replay in this order puts on the entries' own channels. */
  function ReplayErrors<C>(table: Table<C>, order: seq<string>, tokens: string -> Token): seq<(C, BusError)>
    requires forall i :: 0 <= i < |order| ==> order[i] in table
  {
    if order == [] then []
    else
      var n := |order| - 1;
      var error := ReplayError(table[order[n]], tokens(order[n]));
      ReplayErrors(table, order[..n], tokens) + if error.Some? then [(table[order[n]].errors, error.value)] else []
  }

  lemma AcceptedFrom(tokens: seq<Token>, i: nat)
    requires i < |tokens|
    ensures Accepted(tokens[i..]) == if Succeeded(tokens[i]) then 1 + Accepted(tokens[i + 1..]) else 0
  {
    assert tokens[i..][1..] == tokens[i + 1..];
  }

  lemma NothingSubscribed<C>(
    table: Table<C>, qos: nat, binary: bool, topics: seq<TopicChannel<C>>, errors: C, tokens: seq<Token>)
    ensures WithSubscriptions(table, qos, binary, topics[..0], errors) == table
    ensures CallsFor(qos, binary, topics[..0], errors) == []
    ensures tokens[0..] == tokens && Accepted(tokens[|tokens|..]) == 0
  {
  }

  lemma OneMoreSubscription<C>(
    table: Table<C>, qos: nat, binary: bool, topics: seq<TopicChannel<C>>, errors: C, i: nat)
    requires i < |topics|
    ensures WithSubscriptions(table, qos, binary, topics[..i + 1], errors)
         == WithSubscriptions(table, qos, binary, topics[..i], errors)
              [topics[i].topic := NewSubscription(qos, binary, topics[i], errors)]
    ensures CallsFor(qos, binary, topics[..i + 1], errors)
         == CallsFor(qos, binary, topics[..i], errors) + [CallFor(NewSubscription(qos, binary, topics[i], errors))]
  {
    assert topics[..i + 1][..i] == topics[..i];
  }

  lemma WithoutOneMore<C>(table: Table<C>, topics: seq<string>, i: nat)
    requires i < |topics|
    ensures Without(table, topics[..i + 1]) == Without(table, topics[..i]) - {topics[i]}
  {
    assert topics[..i + 1] == topics[..i] + [topics[i]];
  }

  lemma NothingReplayed<C>(table: Table<C>, tokens: string -> Token, isTaken: string -> bool)
    ensures ReplayCalls(table, []) == [] && ReplayErrors(table, [], tokens) == []
    ensures IsOrderOf([], table.Keys - table.Keys) && IsVisit(table, []) && NoneBlocks(table, [], tokens, isTaken)
  {
  }

  lemma OneMoreReplay<C>(
    table: Table<C>, order: seq<string>, k: string, tokens: string -> Token, isTaken: string -> bool)
    requires k in table && forall i :: 0 <= i < |order| ==> order[i] in table
    ensures ReplayCalls(table, order + [k]) == ReplayCalls(table, order) + [CallFor(table[k])]
    ensures ReplayErrors(table, order + [k], tokens)
         == ReplayErrors(table, order, tokens)
          + (var error := ReplayError(table[k], tokens(k));
             if error.Some? then [(table[k].errors, error.value)] else [])
    ensures NoneBlocks(table, order + [k], tokens, isTaken)
       <==> NoneBlocks(table, order, tokens, isTaken) && !Blocks(table[k], tokens(k), isTaken(k))
  {
    hide Blocks, ReplayError;
    var longer := order + [k];
    assert longer[..|order|] == order && longer[|order|] == k;
    assert forall i :: 0 <= i < |order| ==> longer[i] == order[i];
  }

  /** `brokerCalls` and `sentErrors` record what the client did to the broker and to its callers' channels. */
  class Client<C(==)> {
    const qos: nat
    var existingSubscriptions: Table<C>
    var brokerCalls: seq<BrokerCall<C>>
    var sentErrors: seq<(C, BusError)>

    constructor (qos: nat)
      ensures this.qos == qos && existingSubscriptions == map[] && brokerCalls == [] && sentErrors == []
    {
      this.qos := qos;
      existingSubscriptions, brokerCalls, sentErrors := map[], [], [];
    }

    /** `tokens[i]` is what the broker answers to the i-th subscription, if it is attempted. */
    method Subscribe(topics: seq<TopicChannel<C>>, messageErrors: C, binary: bool, tokens: seq<Token>)
      returns (error: Option<BusError>)
      requires |tokens| == |topics|
      modifies this
      ensures existingSubscriptions
           == Applied(old(existingSubscriptions), qos, Operation.Subscribe(topics, messageErrors, binary, tokens))
      ensures error == if Accepted(tokens) == |topics| then None
                       else GetTokenError(tokens[Accepted(tokens)], SUBSCRIBE_OPERATION, SUBSCRIBE_FAILED)
      ensures brokerCalls == old(brokerCalls) + CallsFor(qos, binary, topics[..Attempted(tokens)], messageErrors)
      ensures sentErrors == old(sentErrors)
    {
      hide CallsFor, Accepted, WithSubscriptions;
      NothingSubscribed(existingSubscriptions, qos, binary, topics, messageErrors, tokens);
      var i := 0;
      while i < |topics|
        invariant 0 <= i <= |topics|
        invariant Accepted(tokens) == i + Accepted(tokens[i..])
        invariant existingSubscriptions
               == WithSubscriptions(old(existingSubscriptions), qos, binary, topics[..i], messageErrors)
        invariant brokerCalls == old(brokerCalls) + CallsFor(qos, binary, topics[..i], messageErrors)
        invariant sentErrors == old(sentErrors)
      {
        var tc := topics[i];
        var handler := Handler(binary, tc.messages, messageErrors);
        brokerCalls := brokerCalls + [SubscribeCall(tc.topic, qos, handler)];
        OneMoreSubscription(old(existingSubscriptions), qos, binary, topics, messageErrors, i);
        AcceptedFrom(tokens, i);
        error := GetTokenError(tokens[i], SUBSCRIBE_OPERATION, SUBSCRIBE_FAILED);
        if error.Some? {
          return;
        }
        existingSubscriptions :=
            existingSubscriptions[tc.topic := ExistingSubscription(tc.topic, qos, handler, messageErrors)];
        i := i + 1;
      }
      assert topics[..i] == topics;
      error := None;
    }

    method Unsubscribe(topics: seq<string>, token: Token) returns (error: Option<BusError>)
      modifies this
      ensures existingSubscriptions == Applied(old(existingSubscriptions), qos, Operation.Unsubscribe(topics, token))
      ensures error == GetTokenError(token, UNSUBSCRIBE_OPERATION, UNSUBSCRIBE_FAILED)
      ensures brokerCalls == old(brokerCalls) + [UnsubscribeCall(topics)]
      ensures sentErrors == old(sentErrors)
    {
      brokerCalls := brokerCalls + [UnsubscribeCall(topics)];
      error := GetTokenError(token, UNSUBSCRIBE_OPERATION, UNSUBSCRIBE_FAILED);
      if error.Some? {
        return;
      }
      var i := 0;
      while i < |topics|
        invariant 0 <= i <= |topics|
        invariant existingSubscriptions == Without(old(existingSubscriptions), topics[..i])
        invariant brokerCalls == old(brokerCalls) + [UnsubscribeCall(topics)]
        invariant sentErrors == old(sentErrors)
      {
        existingSubscriptions := existingSubscriptions - {topics[i]};
        WithoutOneMore(old(existingSubscriptions), topics, i);
        i := i + 1;
      }
      assert topics[..i] == topics;
    }

    /**
      `tokens` gives the broker's answer for each entry, and `isTaken` says whether the entry's channel
      takes an error sooner or later. `order` are the entries visited, in the order of Go's range over the
      map. A send that is never taken blocks the handler, with the mutex held, at the entry returned.
     */
    method OnConnect(tokens: string -> Token, isTaken: string -> bool)
      returns (blockedAt: Option<string>, ghost order: seq<string>)
      modifies this
      ensures existingSubscriptions == Applied(old(existingSubscriptions), qos, Operation.Reconnect)
      ensures IsVisit(existingSubscriptions, order)
      ensures brokerCalls == old(brokerCalls) + ReplayCalls(existingSubscriptions, order)
      ensures blockedAt == None ==>
                && IsOrderOf(order, existingSubscriptions.Keys)
                && NoneBlocks(existingSubscriptions, order, tokens, isTaken)
                && sentErrors == old(sentErrors) + ReplayErrors(existingSubscriptions, order, tokens)
      ensures blockedAt.Some? ==> !Succeeded(tokens(blockedAt.value)) && !isTaken(blockedAt.value)
      ensures blockedAt.Some? ==>
                && order != [] && blockedAt.value == order[|order| - 1]
                && NoneBlocks(existingSubscriptions, order[..|order| - 1], tokens, isTaken)
                && Blocks(existingSubscriptions[blockedAt.value], tokens(blockedAt.value), isTaken(blockedAt.value))
                && sentErrors == old(sentErrors) + ReplayErrors(existingSubscriptions, order[..|order| - 1], tokens)
    {
      hide ReplayCalls, ReplayErrors, GetTokenError, IsOrderOf, NoneBlocks;
      order := [];
      NothingReplayed(existingSubscriptions, tokens, isTaken);
      var remaining := existingSubscriptions.Keys;
      while remaining != {}
        invariant remaining <= existingSubscriptions.Keys
        invariant existingSubscriptions == old(existingSubscriptions)
        invariant IsOrderOf(order, existingSubscriptions.Keys - remaining) && IsVisit(existingSubscriptions, order)
        invariant NoneBlocks(existingSubscriptions, order, tokens, isTaken)
        invariant brokerCalls == old(brokerCalls) + ReplayCalls(existingSubscriptions, order)
        invariant sentErrors == old(sentErrors) + ReplayErrors(existingSubscriptions, order, tokens)
        decreases |remaining|
      {
        var k :| k in remaining;
        var subscription := existingSubscriptions[k];
        brokerCalls := brokerCalls + [SubscribeCall(subscription.topic, subscription.qos, subscription.handler)];
        var error := GetTokenError(tokens(k), SUBSCRIBE_OPERATION, RECREATE_FAILED + subscription.topic);
        VisitNext(order, existingSubscriptions.Keys, remaining, k);
        OneMoreReplay(existingSubscriptions, order, k, tokens, isTaken);
        OrderIsVisit(existingSubscriptions, order + [k], existingSubscriptions.Keys - (remaining - {k}));
        assert (order + [k])[..|order|] == order;
        order := order + [k];
        if error.Some? {
          if !isTaken(k) {
            return Some(k), order;
          }
          sentErrors := sentErrors + [(subscription.errors, error.value)];
        }
        remaining := remaining - {k};
      }
      assert existingSubscriptions.Keys - remaining == existingSubscriptions.Keys;
      blockedAt := None;
    }
  }

  // ----- The table over whole histories -----

  predicate IsHistory<C>(history: seq<Operation<C>>) {
    forall i :: 0 <= i < |history| ==> IsOperation(history[i])
  }

  /** The table of a client that went through `history`. */
  function TableAfter<C>(qos: nat, history: seq<Operation<C>>): Table<C>
    requires IsHistory(history)
  {
    if history == [] then map[]
    else
      var n := |history| - 1;
      Applied(TableAfter(qos, history[..n]), qos, history[n])
  }

  /** A broker operation that succeeded, in terms of the topics it is about. */
  datatype Effect<C> = Put(subscription: ExistingSubscription<C>) | Remove(topics: seq<string>)
  {
    predicate Touches(topic: string) {
      match this
      case Put(s) => s.topic == topic
      case Remove(topics) => topic in topics
    }
  }

  /** The operations that succeeded: a subscribe call counts up to its first failing topic. */
  function EffectsOf<C>(qos: nat, op: Operation<C>): seq<Effect<C>>
    requires IsOperation(op)
  {
    match op
    case Subscribe(topics, errors, binary, tokens) => Puts(qos, binary, topics[..Accepted(tokens)], errors)
    case Unsubscribe(names, token) => if Succeeded(token) then [Remove(names)] else []
    case Reconnect => []
  }

  function Puts<C>(qos: nat, binary: bool, topics: seq<TopicChannel<C>>, errors: C): seq<Effect<C>> {
    seq(|topics|, i requires 0 <= i < |topics| => Put(NewSubscription(qos, binary, topics[i], errors)))
  }

  function AllEffects<C>(qos: nat, history: seq<Operation<C>>): seq<Effect<C>>
    requires IsHistory(history)
  {
    if history == [] then []
    else
      var n := |history| - 1;
      AllEffects(qos, history[..n]) + EffectsOf(qos, history[n])
  }

  /** The last effect on `topic`, if there is one. */
  function LastEffectOn<C>(effects: seq<Effect<C>>, topic: string): (r: Option<Effect<C>>) {
    if effects == [] then None
    else
      var n := |effects| - 1;
      if effects[n].Touches(topic) then Some(effects[n]) else LastEffectOn(effects[..n], topic)
  }

  lemma {:induction false} LastEffectIsLast<C>(effects: seq<Effect<C>>, topic: string)
    ensures match LastEffectOn(effects, topic)
            case None => forall i :: 0 <= i < |effects| ==> !effects[i].Touches(topic)
            case Some(effect) =>
              exists i :: 0 <= i < |effects| && effects[i] == effect && effect.Touches(topic)
                && forall j :: i < j < |effects| ==> !effects[j].Touches(topic)
  {
    if effects != [] {
      var n := |effects| - 1;
      if !effects[n].Touches(topic) {
        LastEffectIsLast(effects[..n], topic);
        assert forall i :: 0 <= i < n ==> effects[..n][i] == effects[i];
      }
    }
  }

  /** The table holds for `topic` what the last effect on it says. */
  ghost predicate Reflects<C>(table: Table<C>, effects: seq<Effect<C>>, topic: string) {
    match LastEffectOn(effects, topic)
    case Some(Put(s)) => topic in table && table[topic] == s
    case _ => topic !in table
  }

  lemma {:induction false} SubscriptionsReflect<C>(
    table: Table<C>, effects: seq<Effect<C>>, qos: nat, binary: bool, topics: seq<TopicChannel<C>>, errors: C,
        topic: string)
    requires Reflects(table, effects, topic)
    ensures Reflects(WithSubscriptions(table, qos, binary, topics, errors),
        effects + Puts(qos, binary, topics, errors), topic)
    decreases |topics|
  {
    if topics == [] {
      assert effects + Puts(qos, binary, topics, errors) == effects;
    } else {
      var n := |topics| - 1;
      SubscriptionsReflect(table, effects, qos, binary, topics[..n], errors, topic);
      var all := effects + Puts(qos, binary, topics, errors);
      assert all[..|all| - 1] == effects + Puts(qos, binary, topics[..n], errors);
    }
  }

  /**
    After any history of subscribe, unsubscribe and reconnect calls with any outcomes, the table
    holds exactly the topics whose last successful operation subscribed them, as that operation did.
   */
  lemma {:induction false} TableReflectsLastEffects<C>(qos: nat, history: seq<Operation<C>>, topic: string)
    requires IsHistory(history)
    ensures Reflects(TableAfter(qos, history), AllEffects(qos, history), topic)
  {
    if history != [] {
      var n := |history| - 1;
      TableReflectsLastEffects(qos, history[..n], topic);
      var before, effects := TableAfter(qos, history[..n]), AllEffects(qos, history[..n]);
      match history[n]
      case Subscribe(topics, errors, binary, tokens) =>
        SubscriptionsReflect(before, effects, qos, binary, topics[..Accepted(tokens)], errors, topic);
      case Unsubscribe(names, token) =>
        if Succeeded(token) {
          assert (effects + [Remove(names)])[..|effects|] == effects;
        } else {
          assert effects + [] == effects;
        }
      case Reconnect =>
        assert effects + [] == effects;
    }
  }

  /** Every entry is keyed by its own topic. */
  lemma TableIsWellKeyed<C>(qos: nat, history: seq<Operation<C>>)
    requires IsHistory(history)
    ensures IsWellKeyed(TableAfter(qos, history))
  {
    forall k | k in TableAfter(qos, history)
      ensures TableAfter(qos, history)[k].topic == k
    {
      TableReflectsLastEffects(qos, history, k);
      LastEffectIsLast(AllEffects(qos, history), k);
    }
  }

  // ----- What an entry holds -----

  /** The last of the given topics that is this one. */
  predicate IsLastOf<C>(topics: seq<TopicChannel<C>>, i: nat, topic: string) {
    i < |topics| && topics[i].topic == topic && forall j :: i < j < |topics| ==> topics[j].topic != topic
  }

  /**
    A subscribed topic gets an entry of its own, with the client's quality of service, the handler that was
    asked for, made of the topic's own message channel and the call's error channel, and that error channel.
    The last one counts if a topic is listed twice.
   */
  lemma {:induction false} SubscribedEntry<C>(
    table: Table<C>, qos: nat, binary: bool, topics: seq<TopicChannel<C>>, errors: C, topic: string, i: nat)
    requires IsLastOf(topics, i, topic)
    ensures var after := WithSubscriptions(table, qos, binary, topics, errors);
            && topic in after
            && after[topic] == ExistingSubscription(topic, qos, Handler(binary, topics[i].messages, errors), errors)
    decreases |topics|
  {
    var n := |topics| - 1;
    if i < n {
      assert topics[n].topic != topic;
      SubscribedEntry(table, qos, binary, topics[..n], errors, topic, i);
    }
  }

  /** All other entries stay as they are. */
  lemma {:induction false} OtherEntries<C>(
    table: Table<C>, qos: nat, binary: bool, topics: seq<TopicChannel<C>>, errors: C, topic: string)
    requires forall i :: 0 <= i < |topics| ==> topics[i].topic != topic
    ensures var after := WithSubscriptions(table, qos, binary, topics, errors);
            (topic in after <==> topic in table) && (topic in after ==> after[topic] == table[topic])
    decreases |topics|
  {
    if topics != [] {
      OtherEntries(table, qos, binary, topics[..|topics| - 1], errors, topic);
    }
  }

  /** The broker is asked for each of the topics in order, with the same quality of service and handler. */
  lemma SubscribeCallsAre<C>(qos: nat, binary: bool, topics: seq<TopicChannel<C>>, errors: C, tokens: seq<Token>)
    requires |tokens| == |topics|
    ensures |CallsFor(qos, binary, topics, errors)| == |topics|
    ensures forall i :: 0 <= i < |topics| ==>
              CallsFor(qos, binary, topics, errors)[i]
              == SubscribeCall(topics[i].topic, qos, Handler(binary, topics[i].messages, errors))
    ensures (forall i :: 0 <= i < |tokens| ==> Succeeded(tokens[i])) ==> Attempted(tokens) == |topics|
    ensures forall n ::
              0 <= n < |tokens| && !Succeeded(tokens[n]) && (forall i :: 0 <= i < n ==> Succeeded(tokens[i])) ==>
              Attempted(tokens) == n + 1 && Accepted(tokens) == n
  {
  }

  // ----- Reconnecting -----

  /** The broker's answer to a subscription: what the token says, and whether the broker took it. */
  datatype Reply = Reply(token: Token, taken: bool)

  predicate IsHonest(reply: Reply) {
    Succeeded(reply.token) ==> reply.taken
  }

  /** What a broker that had forgotten everything holds after the replay. */
  function HeldAfterReplay<C>(table: Table<C>, order: seq<string>, replies: string -> Reply): map<string, BrokerCall<C>>
    requires forall i :: 0 <= i < |order| ==> order[i] in table
  {
    if order == [] then map[]
    else
      var n := |order| - 1;
      var held := HeldAfterReplay(table, order[..n], replies);
      if replies(order[n]).taken then held[table[order[n]].topic := CallFor(table[order[n]])] else held
  }

  function FailedTopics(order: seq<string>, replies: string -> Reply): seq<string> {
    if order == [] then []
    else
      var n := |order| - 1;
      FailedTopics(order[..n], replies) + if Succeeded(replies(order[n]).token) then [] else [order[n]]
  }

  lemma {:induction false} HeldAfterReplayIs<C>(
    table: Table<C>, order: seq<string>, replies: string -> Reply, topic: string)
    requires IsWellKeyed(table) && forall i :: 0 <= i < |order| ==> order[i] in table
    ensures topic in HeldAfterReplay(table, order, replies) <==> topic in order && replies(topic).taken
    ensures topic in HeldAfterReplay(table, order, replies) ==>
              topic in table && HeldAfterReplay(table, order, replies)[topic] == CallFor(table[topic])
  {
    if order != [] {
      var n := |order| - 1;
      HeldAfterReplayIs(table, order[..n], replies, topic);
      assert topic in order <==> topic in order[..n] || topic == order[n];
      assert order[n] in table;
    }
  }

  lemma {:induction false} FailedTopicsAre(order: seq<string>, keys: set<string>, replies: string -> Reply)
    requires IsOrderOf(order, keys)
    ensures IsOrderOf(FailedTopics(order, replies), set k | k in keys && !Succeeded(replies(k).token))
    decreases |order|
  {
    if order != [] {
      var n := |order| - 1;
      var rest := keys - {order[n]};
      assert forall k :: k in order <==> k in order[..n] || k == order[n];
      FailedTopicsAre(order[..n], rest, replies);
      var failed := set k | k in keys && !Succeeded(replies(k).token);
      var failedRest := set k | k in rest && !Succeeded(replies(k).token);
      if Succeeded(replies(order[n]).token) {
        assert failed == failedRest;
      } else {
        assert failed == failedRest + {order[n]};
        AppendToOrder(FailedTopics(order[..n], replies), failedRest, order[n]);
      }
    } else {
      assert keys == {};
    }
  }

  lemma {:induction false} ReplayErrorsAre<C>(table: Table<C>, order: seq<string>, replies: string -> Reply)
    requires forall i :: 0 <= i < |order| ==> order[i] in table
    ensures var failed := FailedTopics(order, replies);
            var errors := ReplayErrors(table, order, k => replies(k).token);
            && |errors| == |failed|
            && forall i :: 0 <= i < |failed| ==>
                 && failed[i] in table
                 && ReplayError(table[failed[i]], replies(failed[i]).token).Some?
                 && errors[i]
                     == (table[failed[i]].errors, ReplayError(table[failed[i]], replies(failed[i]).token).value)
  {
    if order != [] {
      var n := |order| - 1;
      ReplayErrorsAre(table, order[..n], replies);
    }
  }

  /**
    A replay of a well-keyed table to an emptied broker, in any order: the broker holds every entry
    whose token succeeded, with the entry's own quality of service and handler, and nothing that is
    not in the table; and each entry whose token failed, and no other, gets exactly one error, on its
    own channel.
   */
  lemma ReconnectRestoresTable<C>(table: Table<C>, order: seq<string>, replies: string -> Reply)
    requires IsWellKeyed(table) && IsOrderOf(order, table.Keys)
    requires forall k :: k in table ==> IsHonest(replies(k))
    ensures var held := HeldAfterReplay(table, order, replies);
            && (forall k :: k in table && Succeeded(replies(k).token) ==> k in held)
            && (forall k :: k in held ==> k in table && held[k] == SubscribeCall(k, table[k].qos, table[k].handler))
    ensures var failed := FailedTopics(order, replies);
            var errors := ReplayErrors(table, order, k => replies(k).token);
            && IsOrderOf(failed, set k | k in table && !Succeeded(replies(k).token))
            && |errors| == |failed|
            && forall i :: 0 <= i < |failed| ==>
                 && failed[i] in table && errors[i].0 == table[failed[i]].errors
                 && Some(errors[i].1) == GetTokenError(replies(failed[i]).token, "Subscribe",
                                                       "Failed to re-create subscription for topic=" + failed[i])
    ensures |ReplayCalls(table, order)| == |table|
            && forall i :: 0 <= i < |order| ==>
                 ReplayCalls(table, order)[i] == SubscribeCall(order[i], table[order[i]].qos, table[order[i]].handler)
  {
    forall k
      ensures k in HeldAfterReplay(table, order, replies) <==> k in order && replies(k).taken
      ensures k in HeldAfterReplay(table, order, replies) ==>
                k in table && HeldAfterReplay(table, order, replies)[k] == CallFor(table[k])
    {
      HeldAfterReplayIs(table, order, replies, k);
    }
    ReplayErrorsAre(table, order, replies);
    FailedTopicsAre(order, table.Keys, replies);
    assert (set k | k in table.Keys && !Succeeded(replies(k).token))
        == (set k | k in table && !Succeeded(replies(k).token));
    OrderHasSizeOfKeys(order, table.Keys);
    assert "Subscribe" == SUBSCRIBE_OPERATION && "Failed to re-create subscription for topic=" == RECREATE_FAILED;
  }
}
