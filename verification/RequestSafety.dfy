/** What every interleaving of requests on one client guarantees, and where the guarantees end. */
module RequestSafety {
  import opened Wrappers
  import opened Topics
  import opened MessageEnvelopes
  import opened MqttClient
  import opened RequestResponse
  import opened RequestProtocol
  import opened RequestInvariant

  lemma OneMoreStep(c: Config, run: seq<Step>, step: Step)
    requires After(c, run).Some? && Enabled(c, After(c, run).value, step)
    ensures After(c, run + [step]) == Some(Apply(c, After(c, run).value, step))
  {
    assert (run + [step])[..|run|] == run;
  }

  // ----- Correlation -----

  /** A response is delivered on the topic of the request that returns it, and on no other request's. */
  lemma ResponsesAreNotMixedUp(c: Config, run: seq<Step>, i: nat)
    requires c.IsValid() && After(c, run).Some? && c.Has(i)
    ensures var result := ResultOf(After(c, run).value.requests[i].pc);
            result.Some? && result.value.Response? ==>
              && result.value.envelope.receivedTopic == c.TopicOf(i)
              && forall j :: 0 <= j < |c.requests| && j != i ==> result.value.envelope.receivedTopic != c.TopicOf(j)
  {
    hide Config.TopicOf, After, TableOk, BrokerOk, MutexOk;
    InvariantAlways(c, run);
    TopicsAreDistinct(c);
  }

  /** Whoever publishes on a request's response topic does so with that request's identifier. */
  ghost predicate HasHonestResponder(c: Config, step: Step) {
    step.Dispatch? && step.decoded.Success? ==>
      forall i :: 0 <= i < |c.requests| && c.TopicOf(i) == step.topic ==>
          step.decoded.value.requestID == c.requests[i].id
  }

  /** All messages that are anywhere on their way to request `i` carry its identifier. */
  ghost predicate CarriesId(id: string, r: RequestState) {
    && (forall e :: e in r.sendingMessages ==> e.requestID == id)
    && (forall e :: e in r.messages.buffer ==> e.requestID == id)
    && (TakenMessages(r.pc) == 1 ==> r.pc.result.envelope.requestID == id)
  }

  lemma ActedCarriesId(r: RequestState, action: Action<seq<byte>>, id: string)
    requires CarriesId(id, r)
    requires action.ReceiveMessage? ==> action.message.requestID == id
    ensures CarriesId(id, Acted(r, action))
  {
  }

  lemma MoveCarriesId(s: State, i: nat, move: Move, id: string)
    requires i < |s.requests| && CanMove(s, i, move) && CarriesId(id, s.requests[i])
    ensures CarriesId(id, Moved(s.requests[i], move))
  {
    hide GetTokenError, Acted;
    var r := s.requests[i];
    if move.TakesMessage? {
      assert r.messages.buffer[0] in r.messages.buffer;
    }
    var action := ActionOf(r, move);
    if action.Some? {
      ActedCarriesId(r, action.value, id);
    }
    ChannelsCarryId(if action.Some? then Acted(r, action.value) else r, move, id);
  }

  lemma ChannelsCarryId(r: RequestState, move: Move, id: string)
    requires CarriesId(id, r) && (move.SendsMessage? ==> move.message.requestID == id)
    ensures CarriesId(id, OnChannels(r, move))
  {
    hide TakenMessages;
  }

  lemma StepCarriesId(c: Config, s: State, step: Step, i: nat)
    requires c.IsValid() && Invariant(c, s) && Enabled(c, s, step) && c.Has(i)
    requires HasHonestResponder(c, step) && CarriesId(c.requests[i].id, s.requests[i])
    ensures CarriesId(c.requests[i].id, RequestAfter(c, s, step, i))
  {
    hide Config.TopicOf, MqttMatches, Moved, TableOk, HandlersOk, GoneOk, MutexOk, RequestOk, IsOwnOperation;
    if step.By? && step.i == i {
      MoveCarriesId(s, i, step.move, c.requests[i].id);
    } else if step.Dispatch? {
      DispatchedToOwner(c, s, step.filter, step.topic);
    }
  }

  lemma {:induction false} IdsAlwaysCarried(c: Config, run: seq<Step>, i: nat)
    requires c.IsValid() && After(c, run).Some? && c.Has(i)
    requires forall k :: 0 <= k < |run| ==> HasHonestResponder(c, run[k])
    ensures CarriesId(c.requests[i].id, After(c, run).value.requests[i])
  {
    hide Invariant, Enabled, RequestAfter, HasHonestResponder, CarriesId;
    if run == [] {
      NothingCarried(c, i);
    } else {
      var n := |run| - 1;
      IdsAlwaysCarried(c, run[..n], i);
      InvariantAlways(c, run[..n]);
      var s := After(c, run[..n]).value;
      StepCarriesId(c, s, run[n], i);
    }
  }

  lemma NothingCarried(c: Config, i: nat)
    requires c.Has(i)
    ensures CarriesId(c.requests[i].id, Initial(c).requests[i])
  {
  }

  /** With honest responders, the identifier in a response is the request's own. */
  lemma ResponsesCarryTheirRequestId(c: Config, run: seq<Step>, i: nat)
    requires c.IsValid() && After(c, run).Some? && c.Has(i)
    requires forall k :: 0 <= k < |run| ==> HasHonestResponder(c, run[k])
    ensures var result := ResultOf(After(c, run).value.requests[i].pc);
            result.Some? && result.value.Response? ==> result.value.envelope.requestID == c.requests[i].id
  {
    hide After;
    IdsAlwaysCarried(c, run, i);
  }

  // ----- No response is missed -----

  ghost predicate ConfirmedAfter(c: Config, step: Step, i: nat, before: bool)
    requires c.Has(i)
  {
    match step
    case ConnectionLost => false
    case Acknowledge(j) => i == j || before
    case ReplaySubscribes(filter, token) => (filter == c.TopicOf(i) && Succeeded(token)) || before
    case _ => before
  }

  /** The broker confirmed the subscription, at first or in a replay, after the connection was last lost. */
  ghost predicate ConfirmedSinceLoss(c: Config, run: seq<Step>, i: nat)
    requires c.Has(i)
  {
    run != [] && ConfirmedAfter(c, run[|run| - 1], i, ConfirmedSinceLoss(c, run[..|run| - 1], i))
  }

  ghost predicate LostAfter(c: Config, step: Step, i: nat, before: bool)
    requires c.Has(i)
  {
    match step
    case ConnectionLost => true
    case Acknowledge(j) => i != j && before
    case ReplaySubscribes(filter, token) => before && !(filter == c.TopicOf(i) && Succeeded(token))
    case _ => before
  }

  /** The connection was lost after the broker acknowledged the subscription, and no replay has renewed it since. */
  ghost predicate LostWithoutReplay(c: Config, run: seq<Step>, i: nat)
    requires c.Has(i)
  {
    run != [] && LostAfter(c, run[|run| - 1], i, LostWithoutReplay(c, run[..|run| - 1], i))
  }

  lemma {:induction false} NeverLost(c: Config, run: seq<Step>, i: nat)
    requires c.Has(i) && ConnectionLost !in run
    ensures !LostWithoutReplay(c, run, i)
  {
    hide Config.TopicOf;
    if run != [] {
      assert run[|run| - 1] in run;
      NeverLost(c, run[..|run| - 1], i);
    }
  }

  /** From the subscribe call until the deferred unsubscribe. */
  predicate Listens(pc: RequestPc) {
    pc.Subscribing? || pc.Subscribed? || pc.Waiting? || pc.Leaving?
  }

  ghost predicate ConfirmationLasts(c: Config, s: State, i: nat, confirmed: bool)
    requires |s.requests| == |c.requests| && c.Has(i)
  {
    && (confirmed ==> !s.requests[i].pc.Idle? && (Listens(s.requests[i].pc) ==> c.TopicOf(i) in s.held))
    && (c.TopicOf(i) in s.held ==> confirmed)
  }

  /** From its publish until its deferred unsubscribe. */
  predicate HasPublished(pc: RequestPc) {
    pc.Subscribed? || pc.Waiting? || pc.Leaving?
  }

  /** Once its subscribe call has heard from the broker, only a lost connection can undo the confirmation. */
  ghost predicate ConfirmationComes(c: Config, s: State, i: nat, confirmed: bool, lost: bool)
    requires |s.requests| == |c.requests| && c.Has(i)
  {
    && (s.mutex == Subscriber(i, true) || HasPublished(s.requests[i].pc) ==> confirmed || lost)
    && !(confirmed && lost)
  }

  lemma ListeningAfterMove(s: State, i: nat, move: Move)
    requires i < |s.requests| && CanMove(s, i, move)
    ensures !Moved(s.requests[i], move).pc.Idle? || s.requests[i].pc.Idle?
    ensures Listens(Moved(s.requests[i], move).pc) ==>
        s.requests[i].pc.Idle? || (Listens(s.requests[i].pc) && !move.AsksToUnsubscribe?)
  {
    hide GetTokenError, OnChannels;
    var r, action := s.requests[i], ActionOf(s.requests[i], move);
    ChannelsKeepPc(if action.Some? then Acted(r, action.value) else r, move);
  }

  lemma StepKeepsConfirmation(c: Config, s: State, step: Step, i: nat, before: bool, after: bool)
    requires c.IsValid() && Invariant(c, s) && Enabled(c, s, step) && !Crashes(c, s, step) && c.Has(i)
    requires ConfirmationLasts(c, s, i, before)
    requires after == ConfirmedAfter(c, step, i, before)
    ensures ConfirmationLasts(c, Apply(c, s, step), i, after)
  {
    hide Config.TopicOf, MqttMatches, Moved, HandlersOk, GoneOk, RequestOk,
         TableAfterStep, OwnAfter, MaybeAfter, MutexAfter, WithSubscriptions, HandlersOf;
    TopicsAreDistinct(c);
    match step
    case By(j, move) => ListeningAfterMove(s, j, move);
    case ReplaySubscribes(filter, _) => EntriesHaveTheirHandlers(c, s, filter);
    case OwnOperation(op) => if op.Subscribe? { HandlersOfOwnSubscriptions(c, op, Accepted(op.tokens)); }
    case _ =>
  }

  lemma PublishedAfterMove(s: State, i: nat, move: Move)
    requires i < |s.requests| && CanMove(s, i, move)
    ensures HasPublished(Moved(s.requests[i], move).pc) ==>
              HasPublished(s.requests[i].pc) || (move.HearsSubscribed? && s.mutex == Subscriber(i, true))
  {
    hide GetTokenError, OnChannels;
    var r, action := s.requests[i], ActionOf(s.requests[i], move);
    ChannelsKeepPc(if action.Some? then Acted(r, action.value) else r, move);
  }

  lemma StepKeepsComing(c: Config, s: State, step: Step, i: nat, confirmed: bool, lost: bool)
    requires |s.requests| == |c.requests| && Enabled(c, s, step) && !Crashes(c, s, step) && c.Has(i)
    requires ConfirmationComes(c, s, i, confirmed, lost)
    ensures ConfirmationComes(c, Apply(c, s, step), i, ConfirmedAfter(c, step, i, confirmed),
        LostAfter(c, step, i, lost))
  {
    hide Config.TopicOf, MqttMatches, Moved, TableAfterStep, OwnAfter, HeldAfter, MaybeAfter, HasPublished,
        IsOwnOperation;
    if step.By? {
      PublishedAfterMove(s, step.i, step.move);
    }
    if !step.By? || step.i != i {
      OthersStandStill(c, s, step, i);
    }
  }

  lemma OthersStandStill(c: Config, s: State, step: Step, i: nat)
    requires Enabled(c, s, step) && c.Has(i) && !(step.By? && step.i == i)
    ensures RequestAfter(c, s, step, i).pc == s.requests[i].pc
  {
    hide Config.TopicOf, MqttMatches, IsOwnOperation;
  }

  /**
    While a request listens, the broker has its subscription exactly when it was confirmed since the
    connection was last lost; and once it has published, that is so exactly unless the connection was lost
    after the broker acknowledged the subscription, and no replay has renewed it since.
   */
  lemma {:induction false} ConfirmedIsHeld(c: Config, run: seq<Step>, i: nat)
    requires c.IsValid() && After(c, run).Some? && c.Has(i)
    ensures |After(c, run).value.requests| == |c.requests|
    ensures !After(c, run).value.crashed ==>
              && ConfirmationLasts(c, After(c, run).value, i, ConfirmedSinceLoss(c, run, i))
              && ConfirmationComes(c, After(c, run).value, i, ConfirmedSinceLoss(c, run, i),
                  LostWithoutReplay(c, run, i))
  {
    hide Invariant, Enabled, Crashes, RequestAfter, ConfirmationLasts, ConfirmationComes, ConfirmedAfter, LostAfter,
        Config.TopicOf;
    InvariantAlways(c, run);
    InvariantHasAllRequests(c, After(c, run).value);
    if run == [] {
      NothingConfirmed(c, i);
    } else {
      var n := |run| - 1;
      ConfirmedIsHeld(c, run[..n], i);
      InvariantAlways(c, run[..n]);
      var s := After(c, run[..n]).value;
      if !Crashes(c, s, run[n]) {
        NotCrashedBefore(c, s, run[n]);
        var confirmed, lost := ConfirmedSinceLoss(c, run[..n], i), LostWithoutReplay(c, run[..n], i);
        StepKeepsConfirmation(c, s, run[n], i, confirmed, ConfirmedSinceLoss(c, run, i));
        StepKeepsComing(c, s, run[n], i, confirmed, lost);
      }
    }
  }

  lemma InvariantHasAllRequests(c: Config, s: State)
    requires Invariant(c, s)
    ensures |s.requests| == |c.requests|
  {
  }

  lemma NotCrashedBefore(c: Config, s: State, step: Step)
    requires Enabled(c, s, step)
    ensures !s.crashed
  {
  }

  lemma NothingConfirmed(c: Config, i: nat)
    requires c.Has(i)
    ensures ConfirmationLasts(c, Initial(c), i, false) && ConfirmationComes(c, Initial(c), i, false, false)
  {
  }

  /**
    From its publish until its deferred unsubscribe, a request's entry is in the table with its own
    handler, so that every replay renews it; and the broker has the subscription, with that handler,
    exactly unless the connection was lost after the broker acknowledged the subscription, and no replay
    has renewed it since.
   */
  lemma HeldUnlessLost(c: Config, run: seq<Step>, i: nat)
    requires c.IsValid() && After(c, run).Some? && c.Has(i)
    requires !After(c, run).value.crashed
    ensures var s := After(c, run).value;
            |s.requests| == |c.requests| &&
            (HasPublished(s.requests[i].pc) ==>
               && c.TopicOf(i) in s.table && s.table[c.TopicOf(i)] == EntryOf(c, i)
               && (c.TopicOf(i) in s.held <==> ConfirmedSinceLoss(c, run, i))
               && (c.TopicOf(i) in s.held ==> s.held[c.TopicOf(i)] == HandlerOf(i))
               && (c.TopicOf(i) in s.held <==> !LostWithoutReplay(c, run, i)))
    ensures ConnectionLost !in run ==> !LostWithoutReplay(c, run, i)
  {
    hide Config.TopicOf, After, ConfirmedSinceLoss, LostWithoutReplay, RequestOk, MutexOk, EntryOf;
    InvariantAlways(c, run);
    ConfirmedIsHeld(c, run, i);
    if ConnectionLost !in run {
      NeverLost(c, run, i);
    }
  }

  /** A response for a confirmed request that has had none yet: its handler starts, and can send at once. */
  lemma ResponseArrives(c: Config, s: State, i: nat, response: Envelope)
    requires c.IsValid() && Invariant(c, s) && !s.crashed && c.Has(i)
    requires c.TopicOf(i) in s.held && s.requests[i].raisedMessages == 0
    requires s.requests[i].pc.Subscribed? || s.requests[i].pc.Waiting?
    ensures var topic := c.TopicOf(i);
            var received := response.(receivedTopic := topic);
            var dispatch := Dispatch(topic, topic, Success(response));
            && Enabled(c, s, dispatch)
            && (var s1 := Apply(c, s, dispatch);
                && Enabled(c, s1, By(i, SendsMessage(received)))
                && (var s2 := Apply(c, s1, By(i, SendsMessage(received)));
                    && |s2.requests| == |c.requests| && !s2.crashed
                    && s2.requests[i].pc == s.requests[i].pc
                    && s2.requests[i].messages.buffer == [received]))
  {
    hide Config.TopicOf, MqttMatches, EntryOf, MutexOk, TableOk, GoneOk, Program,
         TableAfterStep, OwnAfter, MaybeAfter, HeldAfter, MutexAfter;
    assert RequestOk(c, i, s.requests[i], ReplayErrorsFor(s.mutex, i));
    var topic := c.TopicOf(i);
    ResponseTopicMatchesItself(c, i, topic);
    var s1 := Apply(c, s, Dispatch(topic, topic, Success(response)));
    assert s1.requests[i] == RaiseMessage(s.requests[i], response.(receivedTopic := topic));
  }

  lemma WaitingRequestTakesMessage(c: Config, s: State, i: nat, message: Envelope)
    requires c.Has(i) && |s.requests| == |c.requests| && !s.crashed
    requires s.requests[i].pc.Waiting? && s.requests[i].messages.buffer == [message]
    ensures Enabled(c, s, By(i, TakesMessage))
    ensures var s' := Apply(c, s, By(i, TakesMessage));
            |s'.requests| == |c.requests| && s'.requests[i].pc == Leaving(Response(message))
  {
    hide TableAfterStep, OwnAfter, MaybeAfter, HeldAfter, MutexAfter;
  }

  /**
    The first response that is published on the topic of a request that still listens gets into its
    channel, and a request that waits can take it from there, unless the connection was lost after the
    broker acknowledged the subscription, and no replay has renewed it since.
   */
  lemma ResponseReachesRequest(c: Config, run: seq<Step>, i: nat, response: Envelope)
    requires c.IsValid() && After(c, run).Some? && c.Has(i)
    requires var s := After(c, run).value;
             && !s.crashed && |s.requests| == |c.requests|
             && (s.requests[i].pc.Subscribed? || s.requests[i].pc.Waiting?)
             && s.requests[i].raisedMessages == 0
    requires !LostWithoutReplay(c, run, i)
    ensures var received := response.(receivedTopic := c.TopicOf(i));
            var arrival :=
                run + [Dispatch(c.TopicOf(i), c.TopicOf(i), Success(response)), By(i, SendsMessage(received))];
            && After(c, arrival).Some?
            && |After(c, arrival).value.requests| == |c.requests|
            && After(c, arrival).value.requests[i].messages.buffer == [received]
            && (After(c, run).value.requests[i].pc.Waiting? ==>
                  && After(c, arrival + [By(i, TakesMessage)]).Some?
                  && |After(c, arrival + [By(i, TakesMessage)]).value.requests| == |c.requests|
                  && After(c, arrival + [By(i, TakesMessage)]).value.requests[i].pc == Leaving(Response(received)))
  {
    hide Config.TopicOf, After, ConfirmedSinceLoss, LostWithoutReplay, Invariant, Enabled, Apply;
    var s := After(c, run).value;
    InvariantAlways(c, run);
    HeldUnlessLost(c, run, i);
    ResponseArrives(c, s, i, response);
    var received := response.(receivedTopic := c.TopicOf(i));
    var dispatch, send := Dispatch(c.TopicOf(i), c.TopicOf(i), Success(response)), By(i, SendsMessage(received));
    var arrival := run + [dispatch, send];
    OneMoreStep(c, run, dispatch);
    OneMoreStep(c, run + [dispatch], send);
    assert run + [dispatch] + [send] == arrival;
    if s.requests[i].pc.Waiting? {
      WaitingRequestTakesMessage(c, After(c, arrival).value, i, received);
      OneMoreStep(c, arrival, By(i, TakesMessage));
    }
  }

  /**
    On every schedule, a response that was raised for a request is not dropped: while the request
    waits, it can take one at once, or some handler's send for it can go through at once.
   */
  lemma RaisedResponseIsNeverDropped(c: Config, run: seq<Step>, i: nat)
    requires c.IsValid() && After(c, run).Some? && c.Has(i)
    requires !After(c, run).value.crashed
    ensures var s := After(c, run).value;
            |s.requests| == |c.requests| &&
            var r := s.requests[i];
            && r.raisedMessages == |r.sendingMessages| + |r.messages.buffer| + TakenMessages(r.pc)
            && (r.pc.Waiting? && r.raisedMessages > 0 ==>
                  || Enabled(c, s, By(i, TakesMessage))
                  || exists m :: m in r.sendingMessages && Enabled(c, s, By(i, SendsMessage(m))))
  {
    hide Config.TopicOf, After, TableOk, BrokerOk, MutexOk, Program;
    InvariantAlways(c, run);
    var s := After(c, run).value;
    var r := s.requests[i];
    assert RequestOk(c, i, r, ReplayErrorsFor(s.mutex, i));
    if r.pc.Waiting? && r.raisedMessages > 0 && r.messages.buffer == [] {
      var m :| m in r.sendingMessages;
      assert Enabled(c, s, By(i, SendsMessage(m)));
    }
  }

  // ----- Channels -----

  /** Every unsubscribe succeeds, and when it returns no handler still has something for the request. */
  ghost predicate IsCleanStep(s: State, step: Step) {
    step.By? && step.move.HearsUnsubscribed? && step.i < |s.requests| ==>
      && Succeeded(step.move.token)
      && s.requests[step.i].sendingMessages == multiset{}
      && s.requests[step.i].sendingErrors == multiset{}
  }

  ghost predicate IsCleanRun(c: Config, run: seq<Step>)
    requires After(c, run).Some?
  {
    run == [] ||
      var n := |run| - 1;
      IsCleanRun(c, run[..n]) && IsCleanStep(After(c, run[..n]).value, run[n])
  }

  ghost predicate IsQuietOnceOver(r: RequestState) {
    HasCleanedUp(r.pc) ==> r.pc.left && r.sendingMessages == multiset{} && r.sendingErrors == multiset{}
  }

  ghost predicate IsQuiet(s: State) {
    !s.crashed && forall i :: 0 <= i < |s.requests| ==> IsQuietOnceOver(s.requests[i])
  }

  lemma ChannelsStayQuiet(r: RequestState, move: Move)
    ensures r.sendingMessages == multiset{} ==> OnChannels(r, move).sendingMessages == multiset{}
    ensures r.sendingErrors == multiset{} ==> OnChannels(r, move).sendingErrors == multiset{}
  {
  }

  lemma PcStaysQuiet(s: State, i: nat, move: Move)
    requires i < |s.requests| && CanMove(s, i, move) && IsCleanStep(s, By(i, move)) && IsQuietOnceOver(s.requests[i])
    ensures var r, action := s.requests[i], ActionOf(s.requests[i], move);
            IsQuietOnceOver(if action.Some? then Acted(r, action.value) else r)
  {
    hide GetTokenError;
  }

  lemma MoveStaysQuiet(s: State, i: nat, move: Move)
    requires i < |s.requests| && CanMove(s, i, move) && IsCleanStep(s, By(i, move)) && IsQuietOnceOver(s.requests[i])
    ensures IsQuietOnceOver(Moved(s.requests[i], move))
  {
    hide CanMove, IsCleanStep, ActionOf, Acted, OnChannels;
    var r, action := s.requests[i], ActionOf(s.requests[i], move);
    PcStaysQuiet(s, i, move);
    ChannelsStayQuiet(if action.Some? then Acted(r, action.value) else r, move);
    ChannelsKeepPc(if action.Some? then Acted(r, action.value) else r, move);
  }

  lemma QuietStepDoesNotCrash(c: Config, s: State, step: Step)
    requires c.IsValid() && Invariant(c, s) && Enabled(c, s, step) && IsQuiet(s)
    ensures !Crashes(c, s, step)
  {
    hide Config.TopicOf, MqttMatches, HandlersOk, GoneOk, Program, EntryOf;
    if step.By? {
      assert IsQuietOnceOver(s.requests[step.i]);
      assert RequestOk(c, step.i, s.requests[step.i], ReplayErrorsFor(s.mutex, step.i));
    } else if step.ReplaySends? && s.mutex.sending.value.0.ErrorsOf? {
      var j := s.mutex.sending.value.0.request;
      assert IsQuietOnceOver(s.requests[j]);
      assert RequestOk(c, j, s.requests[j], ReplayErrorsFor(s.mutex, j));
    }
  }

  lemma StepStaysQuiet(c: Config, s: State, step: Step, i: nat)
    requires c.IsValid() && Invariant(c, s) && Enabled(c, s, step) && IsQuiet(s) && IsCleanStep(s, step) && c.Has(i)
    ensures IsQuietOnceOver(RequestAfter(c, s, step, i))
  {
    hide Config.TopicOf, MqttMatches, TableOk, RequestOk, MutexOk, Moved, IsOwnOperation, IsCleanStep;
    if step.By? && step.i == i {
      MoveStaysQuiet(s, i, step.move);
    } else if step.Dispatch? {
      DispatchedToOwner(c, s, step.filter, step.topic);
    }
  }

  lemma {:induction false} CleanRunsStayQuiet(c: Config, run: seq<Step>)
    requires c.IsValid() && After(c, run).Some? && IsCleanRun(c, run)
    ensures IsQuiet(After(c, run).value)
  {
    hide Invariant, Enabled, Crashes, RequestAfter, IsCleanStep, IsQuietOnceOver;
    if run == [] {
      NobodyIsOver(c);
    } else {
      var n := |run| - 1;
      CleanRunsStayQuiet(c, run[..n]);
      InvariantAlways(c, run[..n]);
      var s := After(c, run[..n]).value;
      QuietStepDoesNotCrash(c, s, run[n]);
      forall i | 0 <= i < |c.requests|
        ensures IsQuietOnceOver(RequestAfter(c, s, run[n], i))
      {
        StepStaysQuiet(c, s, run[n], i);
      }
    }
  }

  lemma NobodyIsOver(c: Config)
    ensures IsQuiet(Initial(c))
  {
  }

  /**
    Channel safety. If every unsubscribe succeeds and leaves no handler behind, nothing is ever sent on
    or closes a closed channel; and a request for which at most one message and one error are raised
    never keeps a handler or a replay waiting: each of their sends can go through at once.
   */
  lemma SendsNeitherPanicNorBlock(c: Config, run: seq<Step>, i: nat)
    requires c.IsValid() && After(c, run).Some? && IsCleanRun(c, run) && c.Has(i)
    ensures var s := After(c, run).value;
            && !s.crashed && |s.requests| == |c.requests|
            && (s.requests[i].raisedMessages <= 1 ==>
                  forall m :: m in s.requests[i].sendingMessages ==>
                    Enabled(c, s, By(i, SendsMessage(m))) && !Crashes(c, s, By(i, SendsMessage(m))))
            && (s.requests[i].raisedErrors <= 1 ==>
                  && (forall e :: e in s.requests[i].sendingErrors ==>
                        Enabled(c, s, By(i, SendsError(e))) && !Crashes(c, s, By(i, SendsError(e))))
                  && (ReplayErrorsFor(s.mutex, i) == 1 ==> Enabled(c, s, ReplaySends) && !Crashes(c, s, ReplaySends)))
  {
    hide Config.TopicOf, After, IsCleanRun, TableOk, BrokerOk, MutexOk, Program;
    InvariantAlways(c, run);
    CleanRunsStayQuiet(c, run);
    var s := After(c, run).value;
    var r := s.requests[i];
    assert RequestOk(c, i, r, ReplayErrorsFor(s.mutex, i));
    forall m | m in r.sendingMessages && r.raisedMessages <= 1
      ensures Enabled(c, s, By(i, SendsMessage(m))) && !Crashes(c, s, By(i, SendsMessage(m)))
    {
      AtLeastOne(r.sendingMessages, m);
    }
    forall e | e in r.sendingErrors && r.raisedErrors <= 1
      ensures Enabled(c, s, By(i, SendsError(e))) && !Crashes(c, s, By(i, SendsError(e)))
    {
      AtLeastOne(r.sendingErrors, e);
    }
    if ReplayErrorsFor(s.mutex, i) == 1 && r.raisedErrors <= 1 {
      assert Enabled(c, s, ReplaySends);
      QuietStepDoesNotCrash(c, s, ReplaySends);
    }
  }

  lemma AtLeastOne<T>(m: multiset<T>, x: T)
    requires x in m
    ensures |m| >= 1
  {
    assert |m - multiset{x}| == |m| - 1;
  }

  /** On every run, each channel is closed at most once, and only by a request whose subscribe succeeded. */
  lemma ChannelsAreClosedOnce(c: Config, run: seq<Step>, i: nat)
    requires c.IsValid() && After(c, run).Some? && c.Has(i)
    ensures var s := After(c, run).value;
            && |s.requests| == |c.requests|
            && s.requests[i].errs.closes <= 1 && s.requests[i].messages.closes <= 1
            && (s.requests[i].errs.closes == 1 || s.requests[i].messages.closes == 1 ==>
                HasSubscribed(s.requests[i].pc))
            && (s.requests[i].pc.Finished? ==> s.requests[i].errs.closes == s.requests[i].messages.closes == 1)
            && (s.requests[i].pc.Refused? ==> s.requests[i].errs.closes == s.requests[i].messages.closes == 0)
  {
    hide Config.TopicOf, After, TableOk, BrokerOk, MutexOk, Program;
    InvariantAlways(c, run);
  }

  /** On every run, a request that is over has unsubscribed and cleaned up exactly as its own program says. */
  lemma CleanupExactlyOnceInEveryRun(c: Config, run: seq<Step>, i: nat)
    requires c.IsValid() && After(c, run).Some? && c.Has(i)
    requires |After(c, run).value.requests| == |c.requests| && IsOver(After(c, run).value.requests[i].pc)
    ensures var log := After(c, run).value.requests[i].log;
            var subscribed := Count(log, (a: Action<seq<byte>>) => a == SubscribeReturns(None));
            && (subscribed == 1 <==> After(c, run).value.requests[i].pc.Finished?)
            && Count(log, (a: Action<seq<byte>>) => a.CallUnsubscribe?) == subscribed <= 1
  {
    hide Config.TopicOf, After, TableOk, BrokerOk, MutexOk, Program, Count;
    InvariantAlways(c, run);
    CleanupExactlyOnce(After(c, run).value.requests[i].log);
  }

  // ----- The table -----

  /**
    On every run, the table is what the client's other users made of it by themselves, plus the entry
    of each request between its subscribe and its unsubscribe, plus the entry of each request whose
    unsubscribe failed.
   */
  lemma TableIsConserved(c: Config, run: seq<Step>, k: string)
    requires c.IsValid() && After(c, run).Some?
    ensures var s := After(c, run).value;
            && |s.requests| == |c.requests|
            && (k in s.own ==> !c.IsResponseTopic(k) && k in s.table && s.table[k] == s.own[k])
            && (k in s.table && k !in s.own <==>
                  exists i :: 0 <= i < |c.requests| && c.TopicOf(i) == k && IsInTable(s.requests[i].pc))
            && (forall i :: 0 <= i < |c.requests| && c.TopicOf(i) == k && k in s.table ==> s.table[k] == EntryOf(c, i))
  {
    hide Config.TopicOf, After, RequestOk, BrokerOk, MutexOk, EntryOf;
    InvariantAlways(c, run);
    TopicsAreDistinct(c);
    var s := After(c, run).value;
    if k in s.own {
      assert IsOwnEntry(c, k, s.own[k]) && SameAt(s.table, s.own, k);
    } else if !c.IsResponseTopic(k) {
      assert SameAt(s.table, s.own, k);
    }
  }
}
