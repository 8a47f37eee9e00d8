/** Where the guarantees of requests on one client end: exactly when one can panic, or lock the client up. */
module RequestLimits {
  import opened Wrappers
  import opened Topics
  import opened MessageEnvelopes
  import opened MqttClient
  import opened RequestResponse
  import opened RequestProtocol
  import opened RequestInvariant
  import opened RequestSafety

  // ----- Panics on a request's channels -----

  /** The step panics on one of the channels of request `i`. */
  ghost predicate CrashesOn(c: Config, s: State, step: Step, i: nat)
    requires Enabled(c, s, step)
  {
    && Crashes(c, s, step)
    && match step
       case By(j, _) => j == i
       case ReplaySends => s.mutex.sending.value.0 == ErrorsOf(i)
       case _ => false
  }

  /** The run can be continued until some step panics on one of the channels of request `i`. */
  ghost predicate CanCrashOn(c: Config, run: seq<Step>, i: nat) {
    exists more, step :: CrashesAfter(c, run + more, step, i)
  }

  ghost predicate CrashesAfter(c: Config, run: seq<Step>, step: Step, i: nat) {
    && After(c, run).Some?
    && Enabled(c, After(c, run).value, step)
    && CrashesOn(c, After(c, run).value, step, i)
  }

  /** The unsubscribe succeeded, and no handler that started before still has something for the request. */
  ghost predicate IsSettled(r: RequestState) {
    HasCleanedUp(r.pc) && r.pc.left && r.sendingMessages == multiset{} && r.sendingErrors == multiset{}
  }

  lemma StepKeepsSettled(c: Config, s: State, step: Step, i: nat)
    requires c.IsValid() && Invariant(c, s) && Enabled(c, s, step) && c.Has(i)
    requires IsSettled(s.requests[i])
    ensures IsSettled(RequestAfter(c, s, step, i))
    ensures !CrashesOn(c, s, step, i)
  {
    hide Config.TopicOf, MqttMatches, RequestOk, Moved, IsOwnOperation, HandlersOk;
    TopicsAreDistinct(c);
    if step.Dispatch? {
      DispatchedToOwner(c, s, step.filter, step.topic);
    } else if step.By? && step.i == i {
      MoveKeepsSettled(c, s, i, step.move);
    }
  }

  lemma MoveKeepsSettled(c: Config, s: State, i: nat, move: Move)
    requires c.Has(i) && |s.requests| == |c.requests| && CanMove(s, i, move) && IsSettled(s.requests[i])
    requires RequestOk(c, i, s.requests[i], ReplayErrorsFor(s.mutex, i))
    ensures IsSettled(Moved(s.requests[i], move))
    ensures move.ClosesErrors? || move.ClosesMessages?
    ensures s.requests[i].errs.closes == 0 || move.ClosesMessages?
    ensures s.requests[i].messages.closes == 0
  {
    hide Program, Config.TopicOf, GetTokenError;
  }

  lemma {:induction false} SettledStaysSettled(c: Config, run: seq<Step>, more: seq<Step>, i: nat)
    requires c.IsValid() && After(c, run).Some? && After(c, run + more).Some? && c.Has(i)
    requires |After(c, run).value.requests| == |c.requests| && IsSettled(After(c, run).value.requests[i])
    ensures |After(c, run + more).value.requests| == |c.requests|
    ensures IsSettled(After(c, run + more).value.requests[i])
    decreases |more|
  {
    hide Invariant, Enabled, Crashes, RequestAfter, IsSettled;
    if more == [] {
      assert run + more == run;
    } else {
      var n := |more| - 1;
      assert (run + more)[..|run + more| - 1] == run + more[..n];
      SettledStaysSettled(c, run, more[..n], i);
      InvariantAlways(c, run + more[..n]);
      StepKeepsSettled(c, After(c, run + more[..n]).value, more[n], i);
    }
  }

  /** A handler that still has something for a request that is over panics when it sends it. */
  lemma PendingHandlerPanics(c: Config, run: seq<Step>, i: nat)
    requires c.IsValid() && After(c, run).Some? && c.Has(i)
    requires var s := After(c, run).value;
             && !s.crashed && |s.requests| == |c.requests| && s.requests[i].pc.Finished?
             && (s.requests[i].sendingMessages != multiset{} || s.requests[i].sendingErrors != multiset{})
    ensures CanCrashOn(c, run, i)
  {
    hide Config.TopicOf, After, TableOk, BrokerOk, MutexOk, Program;
    InvariantAlways(c, run);
    var s := After(c, run).value;
    var r := s.requests[i];
    assert RequestOk(c, i, r, ReplayErrorsFor(s.mutex, i));
    assert run + [] == run;
    if r.sendingMessages != multiset{} {
      var m :| m in r.sendingMessages;
      assert CrashesAfter(c, run + [], By(i, SendsMessage(m)), i);
    } else {
      var e :| e in r.sendingErrors;
      assert CrashesAfter(c, run + [], By(i, SendsError(e)), i);
    }
  }

  /**
    A late message on the topic of a request that is over can run its handler, and panic on the closed
    channel, exactly when the request's unsubscribe failed.
   */
  lemma LateMessagePanicsExactlyWhenNotLeft(c: Config, run: seq<Step>, i: nat, late: Envelope)
    requires c.IsValid() && After(c, run).Some? && c.Has(i)
    requires var s := After(c, run).value;
             !s.crashed && |s.requests| == |c.requests| && s.requests[i].pc.Finished?
    ensures var s := After(c, run).value;
            var topic := c.TopicOf(i);
            var dispatch := Dispatch(topic, topic, Success(late));
            && (Enabled(c, s, dispatch) <==> !s.requests[i].pc.left)
            && (!s.requests[i].pc.left ==>
                  CrashesAfter(c, run + [dispatch], By(i, SendsMessage(late.(receivedTopic := topic))), i))
  {
    hide Config.TopicOf, After, MqttMatches, TableOk, MutexOk, Program;
    InvariantAlways(c, run);
    TopicsAreDistinct(c);
    var s := After(c, run).value;
    var topic := c.TopicOf(i);
    ResponseTopicMatchesItself(c, i, topic);
    if !s.requests[i].pc.left {
      var received := late.(receivedTopic := topic);
      var dispatch := Dispatch(topic, topic, Success(late));
      OneMoreStep(c, run, dispatch);
      var s1 := Apply(c, s, dispatch);
      assert s1.requests[i] == RaiseMessage(s.requests[i], received);
    }
  }

  lemma MovesKeepPending(r: RequestState, move: Move)
    requires !move.SendsMessage? && !move.SendsError?
    ensures Moved(r, move).sendingMessages == r.sendingMessages
    ensures Moved(r, move).sendingErrors == r.sendingErrors
  {
    hide GetTokenError;
  }

  /** Request `i` makes a move that only it and the mutex care about. */
  lemma MakesMove(c: Config, run: seq<Step>, i: nat, move: Move)
    requires c.IsValid() && After(c, run).Some? && c.Has(i)
    requires var s := After(c, run).value; !s.crashed && |s.requests| == |c.requests| && CanMove(s, i, move)
    requires !move.SendsMessage? && !move.SendsError?
    ensures After(c, run + [By(i, move)]).Some?
    ensures var s := After(c, run).value;
            var s' := After(c, run + [By(i, move)]).value;
            && !s'.crashed && |s'.requests| == |c.requests|
            && s'.requests[i].pc == Moved(s.requests[i], move).pc
            && s'.requests[i].sendingMessages == s.requests[i].sendingMessages
            && s'.requests[i].sendingErrors == s.requests[i].sendingErrors
            && s'.mutex == (match move
                            case AsksToSubscribe => Subscriber(i, false)
                            case AsksToUnsubscribe => Unsubscriber(i)
                            case HearsSubscribed(_) => Unlocked
                            case HearsUnsubscribed(_) => Unlocked
                            case _ => s.mutex)
  {
    hide After, Moved, CanMove, TableAfterStep, OwnAfter, MaybeAfter, HeldAfter, Config.TopicOf, TableOk, BrokerOk,
        MutexOk;
    InvariantAlways(c, run);
    CloseDoesNotCrash(c, After(c, run).value, i, move);
    MovesKeepPending(After(c, run).value.requests[i], move);
    OneMoreStep(c, run, By(i, move));
  }

  function NextClose(pc: RequestPc): Move {
    if pc.ClosingErrors? then ClosesErrors else ClosesMessages
  }

  lemma PcAfterClose(r: RequestState)
    requires r.pc.ClosingErrors? || r.pc.ClosingMessages?
    ensures Moved(r, NextClose(r.pc)).pc
         == if r.pc.ClosingErrors? then ClosingMessages(r.pc.result, r.pc.left) else Finished(r.pc.result, r.pc.left)
  {
  }

  /** Request `i` has come to its end, with the same outcome, and the same things pending for it. */
  ghost predicate IsFinishedAs(c: Config, s: State, i: nat, r: RequestState) {
    && !s.crashed && |s.requests| == |c.requests| && c.Has(i) && HasCleanedUp(r.pc)
    && s.requests[i].pc == Finished(r.pc.result, r.pc.left)
    && s.requests[i].sendingMessages == r.sendingMessages && s.requests[i].sendingErrors == r.sendingErrors
  }

  /** A request that has cleaned up can always close its channels, whatever is pending for it. */
  lemma UntilFinished(c: Config, run: seq<Step>, i: nat, steps: nat) returns (more: seq<Step>)
    requires c.IsValid() && After(c, run).Some? && c.Has(i)
    requires var s := After(c, run).value;
             && !s.crashed && |s.requests| == |c.requests| && HasCleanedUp(s.requests[i].pc)
             && steps == if s.requests[i].pc.Finished? then 0 else if s.requests[i].pc.ClosingMessages? then 1 else 2
    ensures After(c, run + more).Some?
    ensures IsFinishedAs(c, After(c, run + more).value, i, After(c, run).value.requests[i])
    decreases steps
  {
    hide After, Config.TopicOf, Moved, Invariant;
    var r := After(c, run).value.requests[i];
    if steps == 0 {
      more := [];
      assert run + more == run;
    } else {
      var close := NextClose(r.pc);
      PcAfterClose(r);
      MakesMove(c, run, i, close);
      var rest := UntilFinished(c, run + [By(i, close)], i, steps - 1);
      more := [By(i, close)] + rest;
      assert run + [By(i, close)] + rest == run + more;
    }
  }

  lemma CanCrashLater(c: Config, run: seq<Step>, more: seq<Step>, i: nat)
    requires CanCrashOn(c, run + more, i)
    ensures CanCrashOn(c, run, i)
  {
    hide After, CrashesAfter;
    var rest, step :| CrashesAfter(c, run + more + rest, step, i);
    assert run + more + rest == run + (more + rest);
  }

  /** A request that is over and not settled has a continuation that panics. */
  lemma UnsettledRequestCanPanic(c: Config, run: seq<Step>, i: nat)
    requires c.IsValid() && After(c, run).Some? && c.Has(i)
    requires var s := After(c, run).value;
             !s.crashed && |s.requests| == |c.requests| && s.requests[i].pc.Finished? && !IsSettled(s.requests[i])
    ensures CanCrashOn(c, run, i)
  {
    hide After, Enabled, CrashesOn;
    if !After(c, run).value.requests[i].pc.left {
      var late: Envelope := MessageEnvelope("", "", "", "", 0, Nil, "", None);
      LateMessagePanicsExactlyWhenNotLeft(c, run, i, late);
    } else {
      PendingHandlerPanics(c, run, i);
    }
  }

  /**
    Once the deferred unsubscribe of a request has returned, its client can still panic on its channels
    exactly when that unsubscribe failed, or a handler that had started before still has a message or an
    error for it.
   */
  lemma CleanedUpRequestPanicsExactlyWhenNotSettled(c: Config, run: seq<Step>, i: nat)
    requires c.IsValid() && After(c, run).Some? && c.Has(i)
    requires var s := After(c, run).value;
             !s.crashed && |s.requests| == |c.requests| && HasCleanedUp(s.requests[i].pc)
    ensures CanCrashOn(c, run, i) <==> !IsSettled(After(c, run).value.requests[i])
  {
    hide Config.TopicOf, After, Enabled, CrashesOn, Invariant;
    var r := After(c, run).value.requests[i];
    if IsSettled(r) {
      forall more, step
        ensures !CrashesAfter(c, run + more, step, i)
      {
        if CrashesAfter(c, run + more, step, i) {
          SettledStaysSettled(c, run, more, i);
          InvariantAlways(c, run + more);
          StepKeepsSettled(c, After(c, run + more).value, step, i);
        }
      }
    } else {
      var steps := if r.pc.Finished? then 0 else if r.pc.ClosingMessages? then 1 else 2;
      var more := UntilFinished(c, run, i, steps);
      UnsettledRequestCanPanic(c, run + more, i);
      CanCrashLater(c, run, more, i);
    }
  }

  // ----- Two ways to that panic -----

  const OK := Token(true, None)
  const FAILED := Token(false, None)

  /** Request `i` is at `pc`, handlers have `pending` for it, and nobody holds the mutex. */
  ghost predicate IsAt(c: Config, run: seq<Step>, i: nat, pc: RequestPc, pending: multiset<Envelope>) {
    && After(c, run).Some? && !After(c, run).value.crashed
    && |After(c, run).value.requests| == |c.requests| && c.Has(i)
    && After(c, run).value.requests[i].pc == pc && After(c, run).value.mutex == Unlocked
    && After(c, run).value.requests[i].sendingMessages == pending
  }

  lemma Subscribes(c: Config, run: seq<Step>, i: nat)
    requires c.IsValid() && IsAt(c, run, i, Idle, multiset{})
    ensures IsAt(c, run + [By(i, AsksToSubscribe), Acknowledge(i), By(i, HearsSubscribed(OK))], i, Subscribed,
        multiset{})
  {
    hide Config.TopicOf, TableAfterStep, OwnAfter, MaybeAfter, HeldAfter, After;
    MakesMove(c, run, i, AsksToSubscribe);
    var run1 := run + [By(i, AsksToSubscribe)];
    OneMoreStep(c, run1, Acknowledge(i));
    MakesMove(c, run1 + [Acknowledge(i)], i, HearsSubscribed(OK));
    assert run1 + [Acknowledge(i)] + [By(i, HearsSubscribed(OK))]
        == run + [By(i, AsksToSubscribe), Acknowledge(i), By(i, HearsSubscribed(OK))];
  }

  /** A response comes in, and its handler is about to send it. */
  lemma ResponseComes(c: Config, run: seq<Step>, i: nat, response: Envelope)
    requires c.IsValid() && IsAt(c, run, i, Subscribed, multiset{})
    ensures var topic := c.TopicOf(i);
            IsAt(c, run + [Dispatch(topic, topic, Success(response))], i, Subscribed,
                 multiset{response.(receivedTopic := topic)})
  {
    hide Config.TopicOf, After, MqttMatches, TableOk, MutexOk, Program, RequestOk,
         TableAfterStep, OwnAfter, MaybeAfter, HeldAfter;
    InvariantAlways(c, run);
    var s, topic := After(c, run).value, c.TopicOf(i);
    ResponseTopicMatchesItself(c, i, topic);
    var dispatch := Dispatch(topic, topic, Success(response));
    OneMoreStep(c, run, dispatch);
    assert Apply(c, s, dispatch).requests[i] == RaiseMessage(s.requests[i], response.(receivedTopic := topic));
  }

  lemma GivesUp(c: Config, run: seq<Step>, i: nat, pending: multiset<Envelope>)
    requires c.IsValid() && IsAt(c, run, i, Subscribed, pending)
    ensures IsAt(c, run + [By(i, HearsPublished(None)), By(i, TimesOut)], i, Leaving(TimedOut), pending)
  {
    hide Config.TopicOf, After;
    MakesMove(c, run, i, HearsPublished(None));
    MakesMove(c, run + [By(i, HearsPublished(None))], i, TimesOut);
    assert run + [By(i, HearsPublished(None))] + [By(i, TimesOut)]
        == run + [By(i, HearsPublished(None)), By(i, TimesOut)];
  }

  lemma Leaves(c: Config, run: seq<Step>, i: nat, pending: multiset<Envelope>, token: Token)
    requires c.IsValid() && IsAt(c, run, i, Leaving(TimedOut), pending)
    ensures IsAt(c, run + [By(i, AsksToUnsubscribe), By(i, HearsUnsubscribed(token))], i,
                 ClosingErrors(TimedOut, Succeeded(token)), pending)
  {
    hide Config.TopicOf, After;
    MakesMove(c, run, i, AsksToUnsubscribe);
    MakesMove(c, run + [By(i, AsksToUnsubscribe)], i, HearsUnsubscribed(token));
    assert run + [By(i, AsksToUnsubscribe)] + [By(i, HearsUnsubscribed(token))]
        == run + [By(i, AsksToUnsubscribe), By(i, HearsUnsubscribed(token))];
  }

  lemma Closes(c: Config, run: seq<Step>, i: nat, pending: multiset<Envelope>, left: bool)
    requires c.IsValid() && IsAt(c, run, i, ClosingErrors(TimedOut, left), pending)
    ensures IsAt(c, run + [By(i, ClosesErrors), By(i, ClosesMessages)], i, Finished(TimedOut, left), pending)
  {
    hide Config.TopicOf, After;
    MakesMove(c, run, i, ClosesErrors);
    MakesMove(c, run + [By(i, ClosesErrors)], i, ClosesMessages);
    assert run + [By(i, ClosesErrors)] + [By(i, ClosesMessages)] == run + [By(i, ClosesErrors), By(i, ClosesMessages)];
  }

  lemma StartsIdle(c: Config, i: nat)
    requires c.Has(i)
    ensures IsAt(c, [], i, Idle, multiset{})
  {
  }

  /** A request that has subscribed times out, unsubscribes with this outcome, and closes its channels. */
  lemma TimesOutAndCloses(c: Config, run: seq<Step>, i: nat, pending: multiset<Envelope>, token: Token)
    returns (longer: seq<Step>)
    requires c.IsValid() && IsAt(c, run, i, Subscribed, pending)
    ensures IsAt(c, longer, i, Finished(TimedOut, Succeeded(token)), pending)
  {
    hide After, IsAt;
    GivesUp(c, run, i, pending);
    var run1 := run + [By(i, HearsPublished(None)), By(i, TimesOut)];
    Leaves(c, run1, i, pending, token);
    var run2 := run1 + [By(i, AsksToUnsubscribe), By(i, HearsUnsubscribed(token))];
    Closes(c, run2, i, pending, Succeeded(token));
    longer := run2 + [By(i, ClosesErrors), By(i, ClosesMessages)];
  }

  lemma JustSubscribed(c: Config, i: nat) returns (run: seq<Step>)
    requires c.IsValid() && c.Has(i)
    ensures IsAt(c, run, i, Subscribed, multiset{})
  {
    StartsIdle(c, i);
    Subscribes(c, [], i);
    run := [] + [By(i, AsksToSubscribe), Acknowledge(i), By(i, HearsSubscribed(OK))];
  }

  /** Any request can be refused, with the error of whatever its token says. */
  lemma SubscribeCanFail(c: Config, i: nat, token: Token)
    requires c.IsValid() && c.Has(i) && !Succeeded(token)
    ensures exists run, error ::
              && GetTokenError(token, SUBSCRIBE_OPERATION, SUBSCRIBE_FAILED) == Some(error)
              && IsAt(c, run, i, Refused(error), multiset{})
  {
    hide After, Config.TopicOf;
    StartsIdle(c, i);
    MakesMove(c, [], i, AsksToSubscribe);
    var run := [] + [By(i, AsksToSubscribe)];
    MakesMove(c, run, i, HearsSubscribed(token));
    var error := GetTokenError(token, SUBSCRIBE_OPERATION, SUBSCRIBE_FAILED).value;
    assert IsAt(c, run + [By(i, HearsSubscribed(token))], i, Refused(error), multiset{});
  }

  /** And any request that has subscribed can fail to publish, with any error, and then cleans up like every other. */
  lemma PublishCanFail(c: Config, i: nat, error: BusError)
    requires c.IsValid() && c.Has(i)
    ensures exists run :: IsAt(c, run, i, Leaving(PublishFailed(error)), multiset{})
  {
    hide After, Config.TopicOf;
    var run := JustSubscribed(c, i);
    MakesMove(c, run, i, HearsPublished(Some(error)));
    assert IsAt(c, run + [By(i, HearsPublished(Some(error)))], i, Leaving(PublishFailed(error)), multiset{});
  }

  /** Any request can time out, fail to unsubscribe, and then be sent a response: its client panics. */
  lemma FailedUnsubscribeCanPanic(c: Config, i: nat, late: Envelope)
    requires c.IsValid() && c.Has(i)
    ensures exists run, step :: CrashesAfter(c, run, step, i)
  {
    hide After, CrashesOn, Enabled;
    var run := JustSubscribed(c, i);
    run := TimesOutAndCloses(c, run, i, multiset{}, FAILED);
    LateMessagePanicsExactlyWhenNotLeft(c, run, i, late);
  }

  /** And any request can time out and unsubscribe cleanly while the handler of a response is about to send it. */
  lemma PendingHandlerCanPanic(c: Config, i: nat, response: Envelope)
    requires c.IsValid() && c.Has(i)
    ensures exists run ::
              && IsAt(c, run, i, Finished(TimedOut, true), multiset{response.(receivedTopic := c.TopicOf(i))})
              && CanCrashOn(c, run, i)
  {
    hide After, CrashesOn, Enabled, Config.TopicOf;
    var run := JustSubscribed(c, i);
    ResponseComes(c, run, i, response);
    var topic := c.TopicOf(i);
    run := TimesOutAndCloses(c, run + [Dispatch(topic, topic, Success(response))], i,
        multiset{response.(receivedTopic := topic)}, OK);
    PendingHandlerPanics(c, run, i);
  }

  // ----- A replay that never ends -----

  /** The connect handler, which holds the mutex, has an error for request `i`. */
  predicate ReplayHasErrorFor(s: State, i: nat) {
    s.mutex.Replayer? && s.mutex.sending.Some? && s.mutex.sending.value.0 == ErrorsOf(i)
  }

  /** Its channel is full, and the request that could empty it waits for the mutex. */
  ghost predicate IsStuck(c: Config, s: State, i: nat) {
    && |s.requests| == |c.requests| && c.Has(i) && ReplayHasErrorFor(s, i)
    && s.requests[i].pc.Leaving? && !s.requests[i].errs.TakesSend()
  }

  /** The step takes the subscription mutex, or is taken while it is held. */
  predicate NeedsMutex(step: Step) {
    match step
    case By(_, move) =>
        move.AsksToSubscribe? || move.HearsSubscribed? || move.AsksToUnsubscribe? || move.HearsUnsubscribed?
    case Acknowledge(_) => true
    case Dispatch(_, _, _) => false
    case ConnectionLost => false
    case _ => true
  }

  /** A stuck replay stays stuck, and nothing that needs the mutex can be done on the client any more. */
  lemma StuckStaysStuck(c: Config, s: State, step: Step, i: nat)
    requires IsStuck(c, s, i) && Enabled(c, s, step)
    ensures !NeedsMutex(step)
    ensures !Crashes(c, s, step) ==> IsStuck(c, Apply(c, s, step), i)
  {
    hide Config.TopicOf, MqttMatches, GetTokenError, TableAfterStep, OwnAfter, HeldAfter, MaybeAfter, IsOwnOperation;
  }

  lemma {:induction false} StuckForever(c: Config, run: seq<Step>, more: seq<Step>, i: nat)
    requires After(c, run).Some? && After(c, run + more).Some?
    requires IsStuck(c, After(c, run).value, i)
    ensures After(c, run + more).value.crashed || IsStuck(c, After(c, run + more).value, i)
    decreases |more|
  {
    hide Enabled, Apply, Crashes, IsStuck;
    if more == [] {
      assert run + more == run;
    } else {
      var n := |more| - 1;
      assert (run + more)[..|run + more| - 1] == run + more[..n];
      StuckForever(c, run, more[..n], i);
      var s := After(c, run + more[..n]).value;
      NotCrashedBefore(c, s, more[n]);
      StuckStaysStuck(c, s, more[n], i);
      CrashingStepCrashes(c, s, more[n]);
    }
  }

  lemma CrashingStepCrashes(c: Config, s: State, step: Step)
    requires Enabled(c, s, step)
    ensures Crashes(c, s, step) ==> Apply(c, s, step).crashed
  {
    hide Crashes;
  }

  /** A replay that starts, and fails for a request that is in the table, has an error for it. */
  lemma ReplayFails(c: Config, run: seq<Step>, i: nat)
    requires c.IsValid() && After(c, run).Some? && c.Has(i)
    requires var s := After(c, run).value;
             !s.crashed && |s.requests| == |c.requests| && s.mutex == Unlocked && IsInTable(s.requests[i].pc)
    ensures var replay := [ReplayStarts, ReplaySubscribes(c.TopicOf(i), FAILED)];
            && After(c, run + replay).Some?
            && var r, s' := After(c, run).value.requests[i], After(c, run + replay).value;
               && !s'.crashed && |s'.requests| == |c.requests| && ReplayHasErrorFor(s', i)
               && s'.requests[i].pc == r.pc && s'.requests[i].errs == r.errs
  {
    hide Config.TopicOf, After, MqttMatches, RequestOk, BrokerOk, MutexOk, Program, IsOwnOperation,
         OwnAfter, HeldAfter, MaybeAfter;
    InvariantAlways(c, run);
    var fails := ReplaySubscribes(c.TopicOf(i), FAILED);
    OneMoreStep(c, run, ReplayStarts);
    OneMoreStep(c, run + [ReplayStarts], fails);
    assert run + [ReplayStarts] + [fails] == run + [ReplayStarts, fails];
  }

  /** A request that gives up with an error left in its channel gets stuck when its replay fails. */
  lemma ReplayGetsStuck(c: Config, run: seq<Step>, i: nat)
    requires c.IsValid() && After(c, run).Some? && c.Has(i)
    requires var s := After(c, run).value;
             && !s.crashed && |s.requests| == |c.requests| && s.mutex == Unlocked
             && s.requests[i].pc.Leaving? && s.requests[i].errs.buffer != []
    ensures var replay := [ReplayStarts, ReplaySubscribes(c.TopicOf(i), FAILED)];
            After(c, run + replay).Some? && IsStuck(c, After(c, run + replay).value, i)
  {
    hide Config.TopicOf, After, TableOk, BrokerOk, MutexOk, Program;
    InvariantAlways(c, run);
    assert RequestOk(c, i, After(c, run).value.requests[i], ReplayErrorsFor(After(c, run).value.mutex, i));
    ReplayFails(c, run, i);
  }

  /** Request `i` has subscribed or given up, nobody holds the mutex, and an error waits in its channel. */
  ghost predicate HasUnreadError(c: Config, run: seq<Step>, i: nat, pc: RequestPc) {
    && After(c, run).Some? && !After(c, run).value.crashed
    && |After(c, run).value.requests| == |c.requests| && c.Has(i)
    && After(c, run).value.requests[i].pc == pc && After(c, run).value.mutex == Unlocked
    && After(c, run).value.requests[i].errs.buffer != []
  }

  /** A message that cannot be decoded comes in on the response topic, and its handler is about to send the error. */
  lemma ErrorIsRaised(c: Config, run: seq<Step>, i: nat)
    requires c.IsValid() && IsAt(c, run, i, Subscribed, multiset{})
    ensures var dispatch := Dispatch(c.TopicOf(i), c.TopicOf(i), Failure(""));
            && After(c, run + [dispatch]).Some?
            && var s' := After(c, run + [dispatch]).value;
               && !s'.crashed && |s'.requests| == |c.requests| && s'.mutex == Unlocked
               && s'.requests[i] == RaiseError(After(c, run).value.requests[i], DecodeError(""))
  {
    hide Config.TopicOf, After, MqttMatches, TableOk, MutexOk, RequestOk, Program,
         TableAfterStep, OwnAfter, MaybeAfter, HeldAfter;
    InvariantAlways(c, run);
    var s, topic := After(c, run).value, c.TopicOf(i);
    ResponseTopicMatchesItself(c, i, topic);
    OneMoreStep(c, run, Dispatch(topic, topic, Failure("")));
  }

  lemma ErrorIsSent(c: Config, run: seq<Step>, i: nat, problem: BusError)
    requires After(c, run).Some? && !After(c, run).value.crashed && c.Has(i) && After(c, run).value.mutex == Unlocked
    requires |After(c, run).value.requests| == |c.requests|
    requires var r := After(c, run).value.requests[i];
             r.pc == Subscribed && problem in r.sendingErrors && r.errs == Mailbox([], 0)
    ensures HasUnreadError(c, run + [By(i, SendsError(problem))], i, Subscribed)
  {
    hide Config.TopicOf, After, TableAfterStep, OwnAfter, MaybeAfter, HeldAfter;
    OneMoreStep(c, run, By(i, SendsError(problem)));
  }

  lemma ErrorComes(c: Config, run: seq<Step>, i: nat) returns (longer: seq<Step>)
    requires c.IsValid() && IsAt(c, run, i, Subscribed, multiset{})
    ensures HasUnreadError(c, longer, i, Subscribed)
  {
    hide Config.TopicOf, After, TableOk, BrokerOk, MutexOk, Program;
    InvariantAlways(c, run);
    var s, topic := After(c, run).value, c.TopicOf(i);
    assert RequestOk(c, i, s.requests[i], ReplayErrorsFor(s.mutex, i));
    longer := run;
    if s.requests[i].errs.buffer == [] {
      ErrorIsRaised(c, run, i);
      longer := run + [Dispatch(topic, topic, Failure(""))];
      ErrorIsSent(c, longer, i, DecodeError(""));
      longer := longer + [By(i, SendsError(DecodeError("")))];
    }
  }

  lemma GivesUpWithError(c: Config, run: seq<Step>, i: nat)
    requires c.IsValid() && HasUnreadError(c, run, i, Subscribed)
    ensures HasUnreadError(c, run + [By(i, HearsPublished(None))] + [By(i, TimesOut)], i, Leaving(TimedOut))
  {
    hide Config.TopicOf, After, Program, TableAfterStep, OwnAfter, MaybeAfter, HeldAfter;
    OneMoreStep(c, run, By(i, HearsPublished(None)));
    OneMoreStep(c, run + [By(i, HearsPublished(None))], By(i, TimesOut));
  }

  /** Every configuration has a run in which the replay gets stuck. */
  lemma ReplayCanGetStuck(c: Config, i: nat)
    requires c.IsValid() && c.Has(i)
    ensures exists run :: After(c, run).Some? && IsStuck(c, After(c, run).value, i)
  {
    hide After, IsStuck, IsAt, Config.TopicOf;
    var run := JustSubscribed(c, i);
    run := ErrorComes(c, run, i);
    GivesUpWithError(c, run, i);
    ReplayGetsStuck(c, run + [By(i, HearsPublished(None))] + [By(i, TimesOut)], i);
  }

  /** The run can be continued until the replay's send does not block any more: it goes through, or panics. */
  ghost predicate ReplayCanUnblock(c: Config, run: seq<Step>, i: nat) {
    exists more ::
      && After(c, run + more).Some?
      && ReplayHasErrorFor(After(c, run + more).value, i)
      && Enabled(c, After(c, run + more).value, ReplaySends)
  }

  /** The connect handler holds an error only for a request that is in the table. */
  lemma ReplayedRequestIsInTable(c: Config, s: State, i: nat)
    requires c.IsValid() && Invariant(c, s) && ReplayHasErrorFor(s, i)
    ensures c.Has(i) && IsInTable(s.requests[i].pc) && !s.requests[i].pc.Unsubscribing?
    ensures RequestOk(c, i, s.requests[i], 1)
  {
    hide Config.TopicOf, RequestOk, BrokerOk;
  }

  lemma CanGoOnAfter(c: Config, run: seq<Step>, move: Move, i: nat)
    requires c.IsValid() && After(c, run).Some? && c.Has(i)
    requires var s := After(c, run).value;
             && !s.crashed && |s.requests| == |c.requests| && CanMove(s, i, move)
             && ReplayHasErrorFor(s, i) && RequestOk(c, i, s.requests[i], 1)
    requires move == HearsPublished(None) || move.TakesError? || move.ClosesErrors?
    ensures After(c, run + [By(i, move)]).Some?
    ensures var s, s' := After(c, run).value, After(c, run + [By(i, move)]).value;
            && !s'.crashed && |s'.requests| == |c.requests| && ReplayHasErrorFor(s', i)
            && (move == HearsPublished(None) ==>
                s'.requests[i].pc.Waiting? && s'.requests[i].errs == s.requests[i].errs)
            && (!move.HearsPublished? ==> s'.requests[i].errs.TakesSend())
            && (move.TakesError? ==> s'.requests[i].errs.HasRoom() && s'.requests[i].errs.closes == 0)
  {
    hide After, TableAfterStep, OwnAfter, MaybeAfter, HeldAfter, Config.TopicOf, Program;
    OneMoreStep(c, run, By(i, move));
  }

  /** A replay with an error for a request is blocked for good exactly when it is stuck. */
  lemma ReplayCanUnblockExactlyWhenNotStuck(c: Config, run: seq<Step>, i: nat)
    requires c.IsValid() && After(c, run).Some? && c.Has(i)
    requires !After(c, run).value.crashed && ReplayHasErrorFor(After(c, run).value, i)
    ensures ReplayCanUnblock(c, run, i) <==> !IsStuck(c, After(c, run).value, i)
  {
    hide After, Enabled, Config.TopicOf, Invariant, RequestOk;
    InvariantAlways(c, run);
    var s := After(c, run).value;
    InvariantHasAllRequests(c, s);
    ReplayedRequestIsInTable(c, s, i);
    if IsStuck(c, s, i) {
      forall more | After(c, run + more).Some?
        ensures !Enabled(c, After(c, run + more).value, ReplaySends)
      {
        StuckForever(c, run, more, i);
        if Enabled(c, After(c, run + more).value, ReplaySends) {
          NotCrashedBefore(c, After(c, run + more).value, ReplaySends);
          StuckStaysStuck(c, After(c, run + more).value, ReplaySends, i);
        }
      }
    } else {
      var more := UntilItFits(c, run, i);
      FitsWhenTaken(c, After(c, run + more).value, i);
    }
  }

  lemma FitsWhenTaken(c: Config, s: State, i: nat)
    requires !s.crashed && |s.requests| == |c.requests| && c.Has(i) && ReplayHasErrorFor(s, i)
        && s.requests[i].errs.TakesSend()
    ensures Enabled(c, s, ReplaySends)
  {
  }

  /** What a request has to do before its error channel has room, or is closed. */
  lemma UntilItFits(c: Config, run: seq<Step>, i: nat) returns (more: seq<Step>)
    requires c.IsValid() && After(c, run).Some? && c.Has(i)
    requires var s := After(c, run).value;
             && !s.crashed && |s.requests| == |c.requests| && ReplayHasErrorFor(s, i) && !IsStuck(c, s, i)
             && IsInTable(s.requests[i].pc) && !s.requests[i].pc.Unsubscribing? && RequestOk(c, i, s.requests[i], 1)
    ensures After(c, run + more).Some?
    ensures var s' := After(c, run + more).value;
            !s'.crashed && |s'.requests| == |c.requests| && ReplayHasErrorFor(s', i) && s'.requests[i].errs.TakesSend()
  {
    hide After, Config.TopicOf, Program, Invariant;
    var r := After(c, run).value.requests[i];
    if r.errs.TakesSend() {
      more := [];
      assert run + more == run;
    } else if r.pc.Subscribed? {
      var publish, take := By(i, HearsPublished(None)), By(i, TakesError);
      CanGoOnAfter(c, run, HearsPublished(None), i);
      InvariantAlways(c, run + [publish]);
      ReplayedRequestIsInTable(c, After(c, run + [publish]).value, i);
      CanGoOnAfter(c, run + [publish], TakesError, i);
      more := [publish, take];
      assert run + [publish] + [take] == run + more;
    } else {
      var move := if r.pc.Waiting? then TakesError else ClosesErrors;
      CanGoOnAfter(c, run, move, i);
      more := [By(i, move)];
    }
  }

  // ----- What becomes of a replay's error -----

  /** The run can be continued until the replay puts its error on the request's channel without a panic. */
  ghost predicate ReplayCanHandOver(c: Config, run: seq<Step>, i: nat) {
    exists more :: CanHandOverAfter(c, run + more, i)
  }

  ghost predicate CanHandOverAfter(c: Config, run: seq<Step>, i: nat) {
    && After(c, run).Some?
    && ReplayHasErrorFor(After(c, run).value, i)
    && Enabled(c, After(c, run).value, ReplaySends)
    && !Crashes(c, After(c, run).value, ReplaySends)
  }

  /** The error channel is open, and has room or is about to be read. */
  ghost predicate TakesReplayError(r: RequestState) {
    r.errs.closes == 0 && (r.errs.HasRoom() || r.pc.Subscribed? || r.pc.Waiting?)
  }

  /** If the channel cannot take the error, it never will, and the replay's send can only panic. */
  lemma StepKeepsRefusing(c: Config, s: State, step: Step, i: nat)
    requires c.IsValid() && Invariant(c, s) && Enabled(c, s, step) && c.Has(i)
    requires ReplayHasErrorFor(s, i) && !TakesReplayError(s.requests[i])
    ensures step == ReplaySends ==> Crashes(c, s, step)
    ensures !Crashes(c, s, step) ==>
              ReplayHasErrorFor(Apply(c, s, step), i) && !TakesReplayError(Apply(c, s, step).requests[i])
  {
    hide Config.TopicOf, MqttMatches, GetTokenError, TableOk, BrokerOk, RequestOk, IsOwnOperation,
         TableAfterStep, OwnAfter, HeldAfter, MaybeAfter, Program;
    ReplayedRequestIsInTable(c, s, i);
    RefusingRequestIsDone(c, s.requests[i], i);
  }

  lemma RefusingRequestIsDone(c: Config, r: RequestState, i: nat)
    requires c.Has(i) && RequestOk(c, i, r, 1) && IsInTable(r.pc) && !r.pc.Unsubscribing? && !TakesReplayError(r)
    ensures r.pc.Leaving? || HasCleanedUp(r.pc)
    ensures r.errs.closes == 0 ==> !r.errs.HasRoom() && (r.pc.Leaving? || r.pc.ClosingErrors?)
  {
    hide Program, Config.TopicOf;
  }

  lemma {:induction false} RefusesForGood(c: Config, run: seq<Step>, more: seq<Step>, i: nat)
    requires c.IsValid() && After(c, run).Some? && After(c, run + more).Some? && c.Has(i)
    requires |After(c, run).value.requests| == |c.requests|
    requires ReplayHasErrorFor(After(c, run).value, i) && !TakesReplayError(After(c, run).value.requests[i])
    ensures |After(c, run + more).value.requests| == |c.requests|
    ensures var s' := After(c, run + more).value;
            s'.crashed || (ReplayHasErrorFor(s', i) && !TakesReplayError(s'.requests[i]))
    decreases |more|
  {
    hide Invariant, Enabled, Apply, Crashes, TakesReplayError, ReplayHasErrorFor;
    InvariantAlways(c, run + more);
    InvariantHasAllRequests(c, After(c, run + more).value);
    if more == [] {
      assert run + more == run;
    } else {
      var n := |more| - 1;
      assert (run + more)[..|run + more| - 1] == run + more[..n];
      RefusesForGood(c, run, more[..n], i);
      var s := After(c, run + more[..n]).value;
      InvariantAlways(c, run + more[..n]);
      NotCrashedBefore(c, s, more[n]);
      StepKeepsRefusing(c, s, more[n], i);
      CrashingStepCrashes(c, s, more[n]);
    }
  }

  lemma RoomIsEnough(c: Config, s: State, i: nat)
    requires !s.crashed && |s.requests| == |c.requests| && c.Has(i) && ReplayHasErrorFor(s, i)
    requires s.requests[i].errs.HasRoom() && s.requests[i].errs.closes == 0
    ensures Enabled(c, s, ReplaySends) && !Crashes(c, s, ReplaySends)
  {
  }

  /** What a request that takes the error has to do before its channel has room. */
  lemma UntilThereIsRoom(c: Config, run: seq<Step>, i: nat) returns (more: seq<Step>)
    requires c.IsValid() && After(c, run).Some? && c.Has(i)
    requires var s := After(c, run).value;
             && !s.crashed && |s.requests| == |c.requests| && ReplayHasErrorFor(s, i)
             && TakesReplayError(s.requests[i]) && RequestOk(c, i, s.requests[i], 1)
    ensures After(c, run + more).Some?
    ensures var s' := After(c, run + more).value;
            && !s'.crashed && |s'.requests| == |c.requests| && ReplayHasErrorFor(s', i)
            && s'.requests[i].errs.HasRoom() && s'.requests[i].errs.closes == 0
  {
    hide After, Config.TopicOf, Program, Invariant;
    var r := After(c, run).value.requests[i];
    if r.errs.HasRoom() {
      more := [];
      assert run + more == run;
    } else if r.pc.Subscribed? {
      var publish, take := By(i, HearsPublished(None)), By(i, TakesError);
      CanGoOnAfter(c, run, HearsPublished(None), i);
      InvariantAlways(c, run + [publish]);
      ReplayedRequestIsInTable(c, After(c, run + [publish]).value, i);
      CanGoOnAfter(c, run + [publish], TakesError, i);
      more := [publish, take];
      assert run + [publish] + [take] == run + more;
    } else {
      CanGoOnAfter(c, run, TakesError, i);
      more := [By(i, TakesError)];
    }
  }

  /**
    A replay with an error for a request can hand it over, sooner or later, exactly when the request's
    error channel is open, and has room or belongs to a request that will still read it.
   */
  lemma ReplayCanHandOverExactlyWhenTaken(c: Config, run: seq<Step>, i: nat)
    requires c.IsValid() && After(c, run).Some? && c.Has(i)
    requires !After(c, run).value.crashed && ReplayHasErrorFor(After(c, run).value, i)
    ensures |After(c, run).value.requests| == |c.requests|
    ensures ReplayCanHandOver(c, run, i) <==> TakesReplayError(After(c, run).value.requests[i])
  {
    hide After, Enabled, Crashes, Config.TopicOf, Invariant, RequestOk, TakesReplayError, ReplayHasErrorFor;
    InvariantAlways(c, run);
    var s := After(c, run).value;
    InvariantHasAllRequests(c, s);
    ReplayedRequestIsInTable(c, s, i);
    if TakesReplayError(s.requests[i]) {
      var more := UntilThereIsRoom(c, run, i);
      RoomIsEnough(c, After(c, run + more).value, i);
      assert CanHandOverAfter(c, run + more, i);
    } else {
      forall more
        ensures !CanHandOverAfter(c, run + more, i)
      {
        if CanHandOverAfter(c, run + more, i) {
          RefusesForGood(c, run, more, i);
          InvariantAlways(c, run + more);
          NotCrashedBefore(c, After(c, run + more).value, ReplaySends);
          StepKeepsRefusing(c, After(c, run + more).value, ReplaySends, i);
        }
      }
    }
  }

  /** There is no fourth way: the error can be handed over, or the replay is stuck, or its send can only panic. */
  lemma ReplayHandsOverOrIsStuckOrPanics(c: Config, run: seq<Step>, i: nat)
    requires c.IsValid() && After(c, run).Some? && c.Has(i)
    requires !After(c, run).value.crashed && ReplayHasErrorFor(After(c, run).value, i)
    ensures ReplayCanHandOver(c, run, i) || IsStuck(c, After(c, run).value, i) || CanCrashOn(c, run, i)
    ensures !(ReplayCanHandOver(c, run, i) && IsStuck(c, After(c, run).value, i))
  {
    hide After, Enabled, Crashes, IsStuck, ReplayHasErrorFor;
    ReplayCanUnblockExactlyWhenNotStuck(c, run, i);
    if !IsStuck(c, After(c, run).value, i) && !ReplayCanHandOver(c, run, i) {
      var more :| && After(c, run + more).Some?
                  && ReplayHasErrorFor(After(c, run + more).value, i)
                  && Enabled(c, After(c, run + more).value, ReplaySends);
      assert !CanHandOverAfter(c, run + more, i);
      PanicOfReplay(c, After(c, run + more).value, i);
      assert CrashesAfter(c, run + more, ReplaySends, i);
    }
    if ReplayCanHandOver(c, run, i) {
      var more :| CanHandOverAfter(c, run + more, i);
      assert ReplayCanUnblock(c, run, i);
    }
  }

  lemma PanicOfReplay(c: Config, s: State, i: nat)
    requires Enabled(c, s, ReplaySends) && Crashes(c, s, ReplaySends) && ReplayHasErrorFor(s, i)
    ensures CrashesOn(c, s, ReplaySends, i)
  {
  }

  /** After a failed unsubscribe and the close of its channels, the next replay that fails for a request panics. */
  lemma ReplayPanicsOnClosedChannel(c: Config, run: seq<Step>, i: nat, result: RequestResult<seq<byte>>)
    requires c.IsValid() && After(c, run).Some? && c.Has(i)
    requires var s := After(c, run).value;
             && !s.crashed && |s.requests| == |c.requests| && s.mutex == Unlocked
             && s.requests[i].pc == Finished(result, false)
    ensures var replay := [ReplayStarts, ReplaySubscribes(c.TopicOf(i), FAILED)];
            CrashesAfter(c, run + replay, ReplaySends, i)
  {
    hide Config.TopicOf, After, TableOk, BrokerOk, MutexOk, Program;
    InvariantAlways(c, run);
    assert RequestOk(c, i, After(c, run).value.requests[i], ReplayErrorsFor(After(c, run).value.mutex, i));
    ReplayFails(c, run, i);
  }

  /** Every configuration has a run in which a replay can neither hand over its error nor is stuck. */
  lemma ReplayCanOnlyPanic(c: Config, i: nat)
    requires c.IsValid() && c.Has(i)
    ensures exists run ::
              && After(c, run).Some? && !After(c, run).value.crashed && ReplayHasErrorFor(After(c, run).value, i)
              && !IsStuck(c, After(c, run).value, i) && !ReplayCanHandOver(c, run, i)
  {
    hide After, IsAt, Config.TopicOf, ReplayCanHandOver, TableOk, BrokerOk, MutexOk, Program;
    var run := JustSubscribed(c, i);
    run := TimesOutAndCloses(c, run, i, multiset{}, FAILED);
    AtMeans(c, run, i, Finished(TimedOut, false), multiset{});
    ReplayFails(c, run, i);
    var longer := run + [ReplayStarts, ReplaySubscribes(c.TopicOf(i), FAILED)];
    InvariantAlways(c, longer);
    ReplayCanHandOverExactlyWhenTaken(c, longer, i);
    assert RequestOk(c, i, After(c, longer).value.requests[i], ReplayErrorsFor(After(c, longer).value.mutex, i));
  }

  lemma AtMeans(c: Config, run: seq<Step>, i: nat, pc: RequestPc, pending: multiset<Envelope>)
    requires IsAt(c, run, i, pc, pending)
    ensures After(c, run).Some? && !After(c, run).value.crashed && After(c, run).value.mutex == Unlocked
    ensures |After(c, run).value.requests| == |c.requests| && c.Has(i) && After(c, run).value.requests[i].pc == pc
  {
    hide After;
  }
}
