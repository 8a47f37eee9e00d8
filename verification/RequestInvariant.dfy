/** What holds in every state that any interleaving of module RequestProtocol can reach. */
module RequestInvariant {
  import opened Wrappers
  import opened Topics
  import opened MessageEnvelopes
  import opened MqttClient
  import opened RequestResponse
  import opened RequestProtocol

  type RequestPc = Pc<seq<byte>>

  // ----- Where a request is -----

  /** The deferred unsubscribe has returned. */
  predicate HasCleanedUp(pc: RequestPc) {
    pc.ClosingErrors? || pc.ClosingMessages? || pc.Finished?
  }

  predicate HasLeft(pc: RequestPc) {
    HasCleanedUp(pc) && pc.left
  }

  /** From a successful subscribe until a successful unsubscribe, which may never come. */
  predicate IsInTable(pc: RequestPc) {
    pc.Subscribed? || pc.Waiting? || pc.Leaving? || pc.Unsubscribing? || (HasCleanedUp(pc) && !pc.left)
  }

  function ResultOf(pc: RequestPc): Option<RequestResult<seq<byte>>> {
    if pc.Leaving? || pc.Unsubscribing? || HasCleanedUp(pc) then Some(pc.result) else None
  }

  function TakenMessages(pc: RequestPc): nat {
    if ResultOf(pc).Some? && ResultOf(pc).value.Response? then 1 else 0
  }

  function TakenErrors(pc: RequestPc): nat {
    if ResultOf(pc).Some? && ResultOf(pc).value.ErrorReceived? then 1 else 0
  }

  // ----- The invariant -----

  /**
    A request by itself: its program, its channels, and the whereabouts of everything that was ever
    raised for it. `replaying` is how many errors a replay is about to put on its error channel.
   */
  ghost predicate RequestOk(c: Config, i: nat, r: RequestState, replaying: nat)
    requires c.Has(i)
  {
    && Program(r.log) == Some(r.pc)
    && |r.messages.buffer| <= 1 && |r.errs.buffer| <= 1
    && r.errs.closes == (if r.pc.ClosingMessages? || r.pc.Finished? then 1 else 0)
    && r.messages.closes == (if r.pc.Finished? then 1 else 0)
    && r.raisedMessages == |r.sendingMessages| + |r.messages.buffer| + TakenMessages(r.pc)
    && r.raisedErrors == |r.sendingErrors| + |r.errs.buffer| + TakenErrors(r.pc) + replaying
    && (forall e :: e in r.sendingMessages ==> e.receivedTopic == c.TopicOf(i))
    && (forall e :: e in r.messages.buffer ==> e.receivedTopic == c.TopicOf(i))
    && (TakenMessages(r.pc) == 1 ==> r.pc.result.envelope.receivedTopic == c.TopicOf(i))
  }

  function ReplayErrorsFor(mutex: Mutex, i: nat): nat {
    if mutex.Replayer? && mutex.sending.Some? && mutex.sending.value.0 == ErrorsOf(i) then 1 else 0
  }

  /** The table is the client's own table, plus the entry of every request that is in it. */
  ghost predicate TableOk(c: Config, s: State)
    requires |s.requests| == |c.requests|
  {
    && (forall i :: 0 <= i < |c.requests| ==>
          && (c.TopicOf(i) in s.table <==> IsInTable(s.requests[i].pc))
          && (c.TopicOf(i) in s.table ==> s.table[c.TopicOf(i)] == EntryOf(c, i)))
    && (forall k :: !c.IsResponseTopic(k) ==> SameAt(s.table, s.own, k))
    && (forall k :: k in s.own ==> IsOwnEntry(c, k, s.own[k]))
  }

  predicate SameAt(t1: Table<Chan>, t2: Table<Chan>, k: string) {
    (k in t1 <==> k in t2) && (k in t1 ==> t1[k] == t2[k])
  }

  ghost predicate IsOwnEntry(c: Config, k: string, entry: ExistingSubscription<Chan>) {
    && !c.IsResponseTopic(k)
    && entry.topic == k && entry.errors.UserChan?
    && entry.handler.messages.UserChan? && entry.handler.errors.UserChan?
  }

  /** A filter that is a request's response topic has that request's handler, and no other filter does. */
  ghost predicate HandlerOk(c: Config, filter: string, handler: Handler<Chan>) {
    && (forall i :: 0 <= i < |c.requests| && c.TopicOf(i) == filter ==> handler == HandlerOf(i))
    && (!c.IsResponseTopic(filter) ==> handler.messages.UserChan? && handler.errors.UserChan?)
  }

  ghost predicate HandlersOk(c: Config, registered: map<string, Handler<Chan>>) {
    forall f :: f in registered ==> HandlerOk(c, f, registered[f])
  }

  /** The broker has nothing left of a request that has left, and may have something of every other. */
  ghost predicate GoneOk(c: Config, s: State)
    requires |s.requests| == |c.requests|
  {
    forall i :: 0 <= i < |c.requests| ==> IsWhereItShouldBe(s.held, s.maybe, c.TopicOf(i), s.requests[i].pc)
  }

  predicate IsWhereItShouldBe(
    held: map<string, Handler<Chan>>, maybe: map<string, Handler<Chan>>, topic: string, pc: RequestPc)
  {
    && (HasLeft(pc) ==> topic !in held && topic !in maybe)
    && (pc.Unsubscribing? ==> topic !in held)
    && (!pc.Idle? && !HasLeft(pc) ==> topic in maybe)
  }

  ghost predicate BrokerOk(c: Config, s: State)
    requires |s.requests| == |c.requests|
  {
    HandlersOk(c, s.held) && HandlersOk(c, s.maybe) && GoneOk(c, s)
  }

  ghost predicate MutexOk(c: Config, s: State)
    requires |s.requests| == |c.requests|
  {
    && (forall i :: 0 <= i < |c.requests| ==>
          && (s.requests[i].pc.Subscribing? <==> s.mutex.Subscriber? && s.mutex.request == i)
          && (s.requests[i].pc.Unsubscribing? <==> s.mutex == Unsubscriber(i)))
    && (s.mutex.Replayer? ==>
          && s.mutex.todo <= s.table.Keys
          && (s.mutex.sending.Some? ==>
              s.mutex.sending.value.0.UserChan? || IsErrorsOfEntry(c, s, s.mutex.sending.value.0)))
  }

  predicate IsErrorsOfEntry(c: Config, s: State, channel: Chan) {
    channel.ErrorsOf? && c.Has(channel.request) && c.TopicOf(channel.request) in s.table
  }

  ghost predicate Invariant(c: Config, s: State) {
    && |s.requests| == |c.requests|
    && (forall i :: 0 <= i < |c.requests| ==> RequestOk(c, i, s.requests[i], ReplayErrorsFor(s.mutex, i)))
    && TableOk(c, s)
    && BrokerOk(c, s)
    && MutexOk(c, s)
  }

  // ----- Response topics -----

  lemma TopicsAreDistinct(c: Config)
    requires c.IsValid()
    ensures forall i, j :: 0 <= i < |c.requests| && 0 <= j < |c.requests| && c.TopicOf(i) == c.TopicOf(j) ==> i == j
    ensures forall i :: 0 <= i < |c.requests| ==> c.IsResponseTopic(c.TopicOf(i))
  {
    forall i, j | 0 <= i < |c.requests| && 0 <= j < |c.requests| && c.TopicOf(i) == c.TopicOf(j)
      ensures i == j
    {
      ResponseTopicsAreDistinct(
        c.requests[i].responseTopicPrefix, c.requests[i].id, c.requests[j].responseTopicPrefix, c.requests[j].id);
    }
  }

  lemma ResponseTopicMatchesItself(c: Config, i: nat, topic: string)
    requires c.IsValid() && c.Has(i)
    ensures MqttMatches(c.TopicOf(i), topic) <==> topic == c.TopicOf(i)
  {
    LiteralFilterMatchesItself(c.TopicOf(i), topic);
  }

  /** The handler that a message runs is a request's only if the message came in on that request's topic. */
  lemma DispatchedToOwner(c: Config, s: State, filter: string, topic: string)
    requires c.IsValid() && |s.requests| == |c.requests| && BrokerOk(c, s)
    requires MayRun(s, filter) && MqttMatches(filter, topic)
    ensures var handler := Registered(s, filter);
            || (handler.messages.UserChan? && handler.errors.UserChan?)
            || exists i :: 0 <= i < |c.requests| && handler == HandlerOf(i) && filter == topic == c.TopicOf(i)
  {
    hide MqttMatches, Config.TopicOf;
    if c.IsResponseTopic(filter) {
      var i :| 0 <= i < |c.requests| && c.TopicOf(i) == filter;
      ResponseTopicMatchesItself(c, i, topic);
    }
  }

  // ----- Every step keeps every request -----

  lemma ActedAlongProgram(r: RequestState, action: Action<seq<byte>>)
    requires Program(r.log) == Some(r.pc) && Advance(r.pc, action).Some?
    ensures Acted(r, action) == r.(pc := Advance(r.pc, action).value, log := r.log + [action])
    ensures Program(r.log + [action]) == Advance(r.pc, action)
  {
    var log := Record(r.log, action);
  }

  /** A move's effect on channels leaves the program alone, and only some moves have one. */
  lemma ChannelsKeepPc(r: RequestState, move: Move)
    ensures OnChannels(r, move).pc == r.pc && OnChannels(r, move).log == r.log
    ensures || move.TakesError? || move.TakesMessage? || move.ClosesErrors? || move.ClosesMessages?
            || move.SendsMessage? || move.SendsError? || OnChannels(r, move) == r
  {
  }

  lemma QuietMoveKeepsRequest(c: Config, s: State, i: nat, move: Move)
    requires c.Has(i) && |s.requests| == |c.requests| && CanMove(s, i, move)
    requires RequestOk(c, i, s.requests[i], ReplayErrorsFor(s.mutex, i))
    requires !move.TakesError? && !move.TakesMessage? && !move.ClosesErrors? && !move.ClosesMessages?
          && !move.SendsMessage? && !move.SendsError?
    ensures RequestOk(c, i, Moved(s.requests[i], move), ReplayErrorsFor(s.mutex, i))
  {
    hide Program, Config.TopicOf, GetTokenError, OnChannels;
    var r, action := s.requests[i], ActionOf(s.requests[i], move);
    ActedAlongProgram(r, action.value);
    ChannelsKeepPc(Acted(r, action.value), move);
  }

  lemma TakeKeepsRequest(c: Config, i: nat, r: RequestState, move: Move, replaying: nat)
    requires c.Has(i) && RequestOk(c, i, r, replaying) && r.pc.Waiting?
    requires (move.TakesError? && r.errs.buffer != []) || (move.TakesMessage? && r.messages.buffer != [])
    ensures RequestOk(c, i, Moved(r, move), replaying)
  {
    hide Program, Config.TopicOf;
    ActedAlongProgram(r, ActionOf(r, move).value);
    if move.TakesMessage? {
      assert r.messages.buffer[0] in r.messages.buffer;
    }
  }

  lemma CloseKeepsRequest(c: Config, i: nat, r: RequestState, move: Move, replaying: nat)
    requires c.Has(i) && RequestOk(c, i, r, replaying)
    requires (move.ClosesErrors? && r.pc.ClosingErrors?) || (move.ClosesMessages? && r.pc.ClosingMessages?)
    ensures RequestOk(c, i, Moved(r, move), replaying)
  {
    hide Program, Config.TopicOf;
    ActedAlongProgram(r, ActionOf(r, move).value);
  }

  lemma SendKeepsRequest(c: Config, i: nat, r: RequestState, move: Move, replaying: nat)
    requires c.Has(i) && RequestOk(c, i, r, replaying)
    requires || (move.SendsMessage? && move.message in r.sendingMessages && r.messages.HasRoom())
             || (move.SendsError? && move.problem in r.sendingErrors && r.errs.HasRoom())
    ensures RequestOk(c, i, Moved(r, move), replaying)
  {
    hide Program, Config.TopicOf;
  }

  /** A request keeps its invariant in every move that it can make and that does not crash. */
  lemma MoveKeepsRequest(c: Config, s: State, i: nat, move: Move)
    requires c.Has(i) && |s.requests| == |c.requests| && CanMove(s, i, move)
    requires RequestOk(c, i, s.requests[i], ReplayErrorsFor(s.mutex, i))
    requires move.SendsMessage? ==> s.requests[i].messages.HasRoom()
    requires move.SendsError? ==> s.requests[i].errs.HasRoom()
    ensures RequestOk(c, i, Moved(s.requests[i], move), ReplayErrorsFor(s.mutex, i))
  {
    hide RequestOk, Moved;
    var r, replaying := s.requests[i], ReplayErrorsFor(s.mutex, i);
    if move.TakesError? || move.TakesMessage? {
      TakeKeepsRequest(c, i, r, move, replaying);
    } else if move.ClosesErrors? || move.ClosesMessages? {
      CloseKeepsRequest(c, i, r, move, replaying);
    } else if move.SendsMessage? || move.SendsError? {
      SendKeepsRequest(c, i, r, move, replaying);
    } else {
      QuietMoveKeepsRequest(c, s, i, move);
    }
  }

  lemma CloseDoesNotCrash(c: Config, s: State, i: nat, move: Move)
    requires c.Has(i) && |s.requests| == |c.requests| && CanMove(s, i, move)
    requires RequestOk(c, i, s.requests[i], ReplayErrorsFor(s.mutex, i))
    ensures move.ClosesErrors? ==> s.requests[i].errs.closes == 0
    ensures move.ClosesMessages? ==> s.requests[i].messages.closes == 0
  {
    hide Program, Config.TopicOf;
  }

  lemma RaiseMessageKeepsRequest(c: Config, i: nat, r: RequestState, replaying: nat, message: Envelope)
    requires c.Has(i) && RequestOk(c, i, r, replaying) && message.receivedTopic == c.TopicOf(i)
    ensures RequestOk(c, i, RaiseMessage(r, message), replaying)
  {
    hide Program, Config.TopicOf;
  }

  lemma RaiseErrorKeepsRequest(c: Config, i: nat, r: RequestState, replaying: nat, problem: BusError)
    requires c.Has(i) && RequestOk(c, i, r, replaying)
    ensures RequestOk(c, i, RaiseError(r, problem), replaying)
  {
    hide Program, Config.TopicOf;
  }

  lemma ReplayKeepsRequest(c: Config, i: nat, r: RequestState, error: BusError)
    requires c.Has(i)
    ensures RequestOk(c, i, r, 0) ==> RequestOk(c, i, r.(raisedErrors := r.raisedErrors + 1), 1)
    ensures RequestOk(c, i, r, 1) && r.errs.HasRoom() ==>
        RequestOk(c, i, r.(errs := r.errs.(buffer := r.errs.buffer + [error])), 0)
  {
    hide Program, Config.TopicOf;
  }

  lemma StepKeepsRequest(c: Config, s: State, step: Step, i: nat)
    requires c.IsValid() && |s.requests| == |c.requests| && c.Has(i) && BrokerOk(c, s)
    requires RequestOk(c, i, s.requests[i], ReplayErrorsFor(s.mutex, i))
    requires Enabled(c, s, step) && !Crashes(c, s, step)
    ensures RequestOk(c, i, RequestAfter(c, s, step, i), ReplayErrorsFor(MutexAfter(c, s, step), i))
  {
    hide RequestOk, Config.TopicOf, BrokerOk, MqttMatches, IsOwnOperation, Moved, RaiseMessage, RaiseError;
    var r := s.requests[i];
    match step
    case By(j, move) => if i == j { MoveKeepsRequest(c, s, i, move); }
    case Dispatch(filter, topic, decoded) =>
      DispatchedToOwner(c, s, filter, topic);
      if Registered(s, filter) == HandlerOf(i) {
        match HandledMessage(topic, decoded)
        case Message(message) => RaiseMessageKeepsRequest(c, i, r, ReplayErrorsFor(s.mutex, i), message);
        case Problem(problem) => RaiseErrorKeepsRequest(c, i, r, ReplayErrorsFor(s.mutex, i), problem);
      }
    case ReplaySubscribes(_, _) => ReplayKeepsRequest(c, i, r, DecodeError(""));
    case ReplaySends => ReplayKeepsRequest(c, i, r, s.mutex.sending.value.1);
    case _ =>
  }

  // ----- Every step keeps the table, the broker's subscriptions and the mutex in order -----

  /** What the table, the broker and the mutex have to know of a request. */
  datatype Status = Status(idle: bool, inTable: bool, left: bool, subscribing: bool, unsubscribing: bool)

  function StatusOf(pc: RequestPc): Status {
    Status(pc.Idle?, IsInTable(pc), HasLeft(pc), pc.Subscribing?, pc.Unsubscribing?)
  }

  /** Only the moves that take or release the mutex change a request's status. */
  function NextStatus(status: Status, move: Move): Status {
    match move
    case AsksToSubscribe => Status(false, false, false, true, false)
    case HearsSubscribed(token) => Status(false, Succeeded(token), false, false, false)
    case AsksToUnsubscribe => Status(false, true, false, false, true)
    case HearsUnsubscribed(token) => Status(false, !Succeeded(token), Succeeded(token), false, false)
    case _ => status
  }

  function NextStatusOf(s: State, step: Step, i: nat): Status
    requires i < |s.requests|
  {
    var status := StatusOf(s.requests[i].pc);
    if step.By? && step.i == i then NextStatus(status, step.move) else status
  }

  lemma StatusAfterMove(s: State, i: nat, move: Move)
    requires i < |s.requests| && CanMove(s, i, move)
    ensures StatusOf(Moved(s.requests[i], move).pc) == NextStatus(StatusOf(s.requests[i].pc), move)
  {
    hide GetTokenError, Succeeded, OnChannels;
    var r, action := s.requests[i], ActionOf(s.requests[i], move);
    ChannelsKeepPc(if action.Some? then Acted(r, action.value) else r, move);
  }

  lemma StatusAfterStep(c: Config, s: State, step: Step, i: nat)
    requires Enabled(c, s, step) && c.Has(i)
    ensures StatusOf(RequestAfter(c, s, step, i).pc) == NextStatusOf(s, step, i)
  {
    hide Config.TopicOf, MqttMatches, IsOwnOperation, Moved, StatusOf, NextStatus;
    if step.By? && step.i == i {
      StatusAfterMove(s, i, step.move);
    }
  }

  // The table.

  /** Subscribing does the same to two tables, and does nothing at a topic that is not subscribed. */
  lemma {:induction false} SubscriptionsAt(
    t1: Table<Chan>, t2: Table<Chan>, qos: nat, binary: bool, topics: seq<TopicChannel<Chan>>, errors: Chan, k: string)
    requires SameAt(t1, t2, k)
    ensures SameAt(WithSubscriptions(t1, qos, binary, topics, errors),
        WithSubscriptions(t2, qos, binary, topics, errors), k)
    ensures || SameAt(WithSubscriptions(t1, qos, binary, topics, errors), t1, k)
            || exists j ::
                0 <= j < |topics| && topics[j].topic == k && k in WithSubscriptions(t1, qos, binary, topics, errors)
                 && WithSubscriptions(t1, qos, binary, topics, errors)[k]
                     == NewSubscription(qos, binary, topics[j], errors)
    decreases |topics|
  {
    if topics != [] {
      SubscriptionsAt(t1, t2, qos, binary, topics[..|topics| - 1], errors, k);
    }
  }

  /** Somebody else's operation leaves response topics alone, and puts only entries of its own. */
  lemma OwnOperationAt(c: Config, t1: Table<Chan>, t2: Table<Chan>, op: Operation<Chan>, k: string)
    requires IsOwnOperation(c, op) && SameAt(t1, t2, k)
    ensures SameAt(Applied(t1, c.qos, op), Applied(t2, c.qos, op), k)
    ensures || SameAt(Applied(t1, c.qos, op), t1, k)
            || (!c.IsResponseTopic(k) && (k in Applied(t1, c.qos, op) ==> IsOwnEntry(c, k, Applied(t1, c.qos, op)[k])))
  {
    hide Config.IsResponseTopic, WithSubscriptions;
    if op.Subscribe? {
      SubscriptionsAt(t1, t2, c.qos, op.binary, op.topics[..Accepted(op.tokens)], op.errors, k);
    }
  }

  lemma SubscribeOpPutsEntry(c: Config, i: nat, table: Table<Chan>, token: Token)
    requires c.Has(i)
    ensures Applied(table, c.qos, SubscribeOp(c, i, token))
        == if Succeeded(token) then table[c.TopicOf(i) := EntryOf(c, i)] else table
  {
    hide Config.TopicOf;
    OneToken(token);
    OneSubscription(table, c.qos, ChannelFor(c, i), ErrorsOf(i));
    assert [ChannelFor(c, i)][..1] == [ChannelFor(c, i)];
  }

  lemma UnsubscribeOpRemoves(c: Config, i: nat, table: Table<Chan>, token: Token)
    requires c.Has(i)
    ensures Applied(table, c.qos, Operation.Unsubscribe([c.TopicOf(i)], token))
         == if Succeeded(token) then table - {c.TopicOf(i)} else table
  {
    hide Config.TopicOf;
  }

  ghost predicate StatusesFollow(c: Config, s: State, step: Step)
    requires Enabled(c, s, step)
  {
    forall i :: 0 <= i < |c.requests| ==>
      StatusOf(RequestAfter(c, s, step, i).pc) == NextStatusOf(s, step, i)
  }

  lemma AllStatusesFollow(c: Config, s: State, step: Step)
    requires Enabled(c, s, step)
    ensures StatusesFollow(c, s, step)
  {
    hide RequestAfter, StatusOf, NextStatus, CanMove, MqttMatches, IsOwnOperation;
    forall i | 0 <= i < |c.requests|
      ensures StatusOf(RequestAfter(c, s, step, i).pc) == NextStatusOf(s, step, i)
    {
      StatusAfterStep(c, s, step, i);
    }
  }

  lemma HearingSubscribedKeepsTable(c: Config, s: State, i: nat, token: Token)
    requires c.IsValid() && |s.requests| == |c.requests| && TableOk(c, s)
        && Enabled(c, s, By(i, HearsSubscribed(token)))
    ensures TableOk(c, Apply(c, s, By(i, HearsSubscribed(token))))
  {
    hide Config.TopicOf, Applied, RequestAfter, HeldAfter, MaybeAfter, MutexAfter, IsOwnEntry, EntryOf;
    TopicsAreDistinct(c);
    AllStatusesFollow(c, s, By(i, HearsSubscribed(token)));
    SubscribeOpPutsEntry(c, i, s.table, token);
  }

  lemma HearingUnsubscribedKeepsTable(c: Config, s: State, i: nat, token: Token)
    requires c.IsValid() && |s.requests| == |c.requests| && TableOk(c, s)
        && Enabled(c, s, By(i, HearsUnsubscribed(token)))
    ensures TableOk(c, Apply(c, s, By(i, HearsUnsubscribed(token))))
  {
    hide Config.TopicOf, Applied, RequestAfter, HeldAfter, MaybeAfter, MutexAfter, IsOwnEntry, EntryOf;
    TopicsAreDistinct(c);
    AllStatusesFollow(c, s, By(i, HearsUnsubscribed(token)));
    UnsubscribeOpRemoves(c, i, s.table, token);
  }

  lemma StepKeepsTable(c: Config, s: State, step: Step)
    requires c.IsValid() && |s.requests| == |c.requests| && TableOk(c, s) && Enabled(c, s, step) && !Crashes(c, s, step)
    requires !step.OwnOperation? && (step.By? ==> !step.move.HearsSubscribed? && !step.move.HearsUnsubscribed?)
    ensures TableOk(c, Apply(c, s, step))
  {
    hide Config.TopicOf, Applied, RequestAfter, MqttMatches, HeldAfter, MaybeAfter, MutexAfter, IsOwnEntry, EntryOf;
    AllStatusesFollow(c, s, step);
    assert TableAfterStep(c, s, step) == s.table && OwnAfter(c, s, step) == s.own;
  }

  lemma OwnOperationKeepsTable(c: Config, s: State, op: Operation<Chan>)
    requires c.IsValid() && |s.requests| == |c.requests| && TableOk(c, s) && Enabled(c, s, OwnOperation(op))
    ensures TableOk(c, Apply(c, s, OwnOperation(op)))
  {
    hide Config.TopicOf, Applied, RequestAfter, HeldAfter, MaybeAfter, MutexAfter, IsOwnEntry, EntryOf, SameAt;
    var s' := Apply(c, s, OwnOperation(op));
    TopicsAreDistinct(c);
    AllStatusesFollow(c, s, OwnOperation(op));
    assert forall t: Table<Chan>, k :: SameAt(t, t, k) by { SameAsItself(); }
    forall i | 0 <= i < |c.requests|
      ensures SameAt(s'.table, s.table, c.TopicOf(i))
    {
      OwnOperationAt(c, s.table, s.table, op, c.TopicOf(i));
    }
    forall k | !c.IsResponseTopic(k)
      ensures SameAt(s'.table, s'.own, k)
    {
      OwnOperationAt(c, s.table, s.own, op, k);
    }
    forall k | k in s'.own
      ensures IsOwnEntry(c, k, s'.own[k])
    {
      OwnOperationAt(c, s.own, s.own, op, k);
      SameAtMeans(s'.own, s.own, k);
    }
    forall i | 0 <= i < |c.requests|
      ensures c.TopicOf(i) in s'.table <==> c.TopicOf(i) in s.table
      ensures c.TopicOf(i) in s'.table ==> s'.table[c.TopicOf(i)] == s.table[c.TopicOf(i)]
    {
      SameAtMeans(s'.table, s.table, c.TopicOf(i));
    }
  }

  lemma SameAsItself()
    ensures forall t: Table<Chan>, k :: SameAt(t, t, k)
  {
  }

  lemma SameAtMeans(t1: Table<Chan>, t2: Table<Chan>, k: string)
    ensures SameAt(t1, t2, k) <==> (k in t1 <==> k in t2) && (k in t1 ==> t1[k] == t2[k])
  {
  }

  // The broker.

  lemma HandlersOfOwnSubscriptions(c: Config, op: Operation<Chan>, n: nat)
    requires IsOwnOperation(c, op) && op.Subscribe? && n <= |op.topics|
    ensures var handlers := HandlersOf(WithSubscriptions(map[], c.qos, op.binary, op.topics[..n], op.errors));
            forall f :: f in handlers ==> !c.IsResponseTopic(f) && HandlerOk(c, f, handlers[f])
  {
    hide Config.IsResponseTopic, Config.TopicOf, WithSubscriptions;
    var table := WithSubscriptions(map[], c.qos, op.binary, op.topics[..n], op.errors);
    forall f | f in table
      ensures !c.IsResponseTopic(f) && table[f].handler.messages.UserChan? && table[f].handler.errors.UserChan?
      ensures HandlerOk(c, f, table[f].handler)
    {
      SubscriptionsAt(map[], map[], c.qos, op.binary, op.topics[..n], op.errors, f);
      NoRequestWithoutResponseTopic(c, f);
    }
  }

  lemma NoRequestWithoutResponseTopic(c: Config, f: string)
    requires !c.IsResponseTopic(f)
    ensures forall i :: 0 <= i < |c.requests| ==> c.TopicOf(i) != f
  {
    hide Config.TopicOf;
  }

  /** Entries of the table are registered with the handlers that belong to their topics. */
  lemma EntriesHaveTheirHandlers(c: Config, s: State, filter: string)
    requires c.IsValid() && |s.requests| == |c.requests| && TableOk(c, s) && filter in s.table
    ensures s.table[filter].topic == filter && HandlerOk(c, filter, s.table[filter].handler)
    ensures s.table[filter].errors.UserChan? || IsErrorsOfEntry(c, s, s.table[filter].errors)
    ensures forall i :: 0 <= i < |c.requests| && HasLeft(s.requests[i].pc) ==> filter != c.TopicOf(i)
  {
    hide Config.TopicOf;
    TopicsAreDistinct(c);
    if c.IsResponseTopic(filter) {
      var i :| 0 <= i < |c.requests| && c.TopicOf(i) == filter;
    } else {
      NoRequestWithoutResponseTopic(c, filter);
    }
  }

  lemma StepKeepsHeld(c: Config, s: State, step: Step)
    requires c.IsValid() && |s.requests| == |c.requests| && TableOk(c, s) && HandlersOk(c, s.held)
    requires Enabled(c, s, step)
    ensures HandlersOk(c, HeldAfter(c, s, step))
  {
    hide Config.TopicOf, MqttMatches, TableOk, HandlersOf, WithSubscriptions, CanMove;
    TopicsAreDistinct(c);
    match step
    case OwnOperation(op) => if op.Subscribe? { HandlersOfOwnSubscriptions(c, op, Accepted(op.tokens)); }
    case ReplaySubscribes(filter, _) => EntriesHaveTheirHandlers(c, s, filter);
    case _ =>
  }

  lemma StepKeepsMaybe(c: Config, s: State, step: Step)
    requires c.IsValid() && |s.requests| == |c.requests| && TableOk(c, s) && HandlersOk(c, s.held)
        && HandlersOk(c, s.maybe)
    requires Enabled(c, s, step)
    ensures HandlersOk(c, MaybeAfter(c, s, step))
  {
    hide Config.TopicOf, MqttMatches, TableOk, HandlersOf, WithSubscriptions, CanMove;
    TopicsAreDistinct(c);
    match step
    case OwnOperation(op) => if op.Subscribe? { HandlersOfOwnSubscriptions(c, op, Attempted(op.tokens)); }
    case ReplaySubscribes(filter, _) => EntriesHaveTheirHandlers(c, s, filter);
    case _ =>
  }

  /** Once a request has left, nothing puts its topic back; and while it is leaving, nothing confirms it. */
  lemma StepKeepsGoneAt(c: Config, s: State, step: Step, i: nat)
    requires c.IsValid() && |s.requests| == |c.requests| && TableOk(c, s) && MutexOk(c, s) && c.Has(i)
    requires IsWhereItShouldBe(s.held, s.maybe, c.TopicOf(i), s.requests[i].pc)
    requires Enabled(c, s, step) && !Crashes(c, s, step)
    ensures IsWhereItShouldBe(HeldAfter(c, s, step), MaybeAfter(c, s, step), c.TopicOf(i),
        RequestAfter(c, s, step, i).pc)
  {
    hide Config.TopicOf, RequestAfter, MqttMatches, TableOk, HandlersOf, WithSubscriptions;
    TopicsAreDistinct(c);
    StatusAfterStep(c, s, step, i);
    match step
    case OwnOperation(op) =>
      if op.Subscribe? {
        HandlersOfOwnSubscriptions(c, op, Accepted(op.tokens));
        HandlersOfOwnSubscriptions(c, op, Attempted(op.tokens));
      }
    case ReplaySubscribes(filter, _) => EntriesHaveTheirHandlers(c, s, filter);
    case _ =>
  }

  lemma StepKeepsGone(c: Config, s: State, step: Step)
    requires c.IsValid() && |s.requests| == |c.requests| && TableOk(c, s) && GoneOk(c, s) && MutexOk(c, s)
    requires Enabled(c, s, step) && !Crashes(c, s, step)
    ensures GoneOk(c, Apply(c, s, step))
  {
    hide Config.TopicOf, RequestAfter, HeldAfter, MaybeAfter, TableAfterStep, OwnAfter, MutexAfter, TableOk, MutexOk,
        IsWhereItShouldBe;
    forall i | 0 <= i < |c.requests|
      ensures IsWhereItShouldBe(HeldAfter(c, s, step), MaybeAfter(c, s, step), c.TopicOf(i),
          RequestAfter(c, s, step, i).pc)
    {
      StepKeepsGoneAt(c, s, step, i);
    }
  }

  lemma StepKeepsMutex(c: Config, s: State, step: Step)
    requires c.IsValid() && |s.requests| == |c.requests| && TableOk(c, s) && MutexOk(c, s)
    requires Enabled(c, s, step) && !Crashes(c, s, step)
    ensures MutexOk(c, Apply(c, s, step))
  {
    hide Config.TopicOf, Applied, RequestAfter, MqttMatches, OwnAfter, HeldAfter, MaybeAfter, TableOk, IsOwnOperation,
        ReplayError;
    AllStatusesFollow(c, s, step);
    if step.ReplaySubscribes? {
      EntriesHaveTheirHandlers(c, s, step.filter);
    }
  }

  /** Any step that does not crash keeps the whole invariant, and so does one that does. */
  lemma StepKeepsInvariant(c: Config, s: State, step: Step)
    requires c.IsValid() && Invariant(c, s) && Enabled(c, s, step)
    ensures Invariant(c, Apply(c, s, step))
  {
    hide RequestOk, TableOk, HandlersOk, GoneOk, MutexOk, RequestAfter, TableAfterStep, OwnAfter, HeldAfter,
        MaybeAfter, MutexAfter;
    if !Crashes(c, s, step) {
      forall i | 0 <= i < |c.requests|
        ensures RequestOk(c, i, RequestAfter(c, s, step, i), ReplayErrorsFor(MutexAfter(c, s, step), i))
      {
        StepKeepsRequest(c, s, step, i);
      }
      match step {
        case By(i, HearsSubscribed(token)) => HearingSubscribedKeepsTable(c, s, i, token);
        case By(i, HearsUnsubscribed(token)) => HearingUnsubscribedKeepsTable(c, s, i, token);
        case OwnOperation(op) => OwnOperationKeepsTable(c, s, op);
        case _ => StepKeepsTable(c, s, step);
      }
      StepKeepsHeld(c, s, step);
      StepKeepsMaybe(c, s, step);
      StepKeepsGone(c, s, step);
      StepKeepsMutex(c, s, step);
    } else {
      CrashChangesNothing(c, s);
    }
  }

  lemma CrashChangesNothing(c: Config, s: State)
    requires Invariant(c, s)
    ensures Invariant(c, s.(crashed := true))
  {
    hide RequestOk, HandlersOk;
  }

  lemma InitialInvariant(c: Config)
    requires c.IsValid()
    ensures Invariant(c, Initial(c))
  {
    hide Config.TopicOf;
  }

  /** The invariant holds after every run. */
  lemma {:induction false} InvariantAlways(c: Config, run: seq<Step>)
    requires c.IsValid() && After(c, run).Some?
    ensures Invariant(c, After(c, run).value)
  {
    hide Invariant, Enabled, Apply;
    if run == [] {
      InitialInvariant(c);
    } else {
      var n := |run| - 1;
      InvariantAlways(c, run[..n]);
      StepKeepsInvariant(c, After(c, run[..n]).value, run[n]);
    }
  }
}
