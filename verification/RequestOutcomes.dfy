/** Where the outcome of a request comes from: every response and every error was raised for it by a step of the run. */
module RequestOutcomes {
  import opened Wrappers
  import opened Topics
  import opened MessageEnvelopes
  import opened MqttClient
  import opened RequestResponse
  import opened RequestProtocol
  import opened RequestInvariant
  import opened RequestSafety

  // ----- What was raised for a request -----

  /** A message came in on the request's topic and was decoded to this one, but for the topic it notes. */
  ghost predicate RaisesMessage(step: Step, topic: string, message: Envelope) {
    && step.Dispatch? && step.topic == topic && step.decoded.Success?
    && message == step.decoded.value.(receivedTopic := topic)
  }

  /** A message came in on the request's topic and could not be decoded, or a replay failed for the topic. */
  ghost predicate RaisesError(step: Step, topic: string, problem: BusError) {
    || (step.Dispatch? && step.topic == topic && step.decoded.Failure? && problem == DecodeError(step.decoded.error))
    || (step.ReplaySubscribes? && step.filter == topic && !Succeeded(step.token)
        && Some(problem)
           == GetTokenError(step.token, "Subscribe", "Failed to re-create subscription for topic=" + topic))
  }

  ghost predicate MessageCame(run: seq<Step>, topic: string, message: Envelope) {
    exists k :: 0 <= k < |run| && RaisesMessage(run[k], topic, message)
  }

  ghost predicate ErrorCame(run: seq<Step>, topic: string, problem: BusError) {
    exists k :: 0 <= k < |run| && RaisesError(run[k], topic, problem)
  }

  lemma StillCame(run: seq<Step>, step: Step, topic: string)
    ensures forall m ::
              MessageCame(run, topic, m) || RaisesMessage(step, topic, m) ==> MessageCame(run + [step], topic, m)
    ensures forall e :: ErrorCame(run, topic, e) || RaisesError(step, topic, e) ==> ErrorCame(run + [step], topic, e)
  {
    hide RaisesMessage, RaisesError;
    assert (run + [step])[|run|] == step;
    assert forall k :: 0 <= k < |run| ==> (run + [step])[k] == run[k];
  }

  /** All messages and errors that are anywhere on their way to a request, or that it took, came on its topic. */
  ghost predicate AllCame(run: seq<Step>, topic: string, r: RequestState) {
    && (forall m :: m in r.sendingMessages || m in r.messages.buffer ==> MessageCame(run, topic, m))
    && (forall e :: e in r.sendingErrors || e in r.errs.buffer ==> ErrorCame(run, topic, e))
    && (TakenMessages(r.pc) == 1 ==> MessageCame(run, topic, r.pc.result.envelope))
    && (TakenErrors(r.pc) == 1 ==> ErrorCame(run, topic, r.pc.result.error))
  }

  ghost predicate ReplayErrorCame(run: seq<Step>, topic: string, mutex: Mutex, i: nat) {
    ReplayErrorsFor(mutex, i) == 1 ==> ErrorCame(run, topic, mutex.sending.value.1)
  }

  lemma ActedAllCame(run: seq<Step>, topic: string, r: RequestState, action: Action<seq<byte>>)
    requires AllCame(run, topic, r)
    requires action.ReceiveMessage? ==> MessageCame(run, topic, action.message)
    requires action.ReceiveError? ==> ErrorCame(run, topic, action.problem)
    ensures AllCame(run, topic, Acted(r, action))
  {
    hide MessageCame, ErrorCame;
  }

  lemma ChannelsAllCame(run: seq<Step>, topic: string, r: RequestState, move: Move)
    requires AllCame(run, topic, r)
    requires move.SendsMessage? ==> MessageCame(run, topic, move.message)
    requires move.SendsError? ==> ErrorCame(run, topic, move.problem)
    ensures AllCame(run, topic, OnChannels(r, move))
  {
    hide MessageCame, ErrorCame, TakenMessages, TakenErrors;
  }

  lemma MoveAllCame(s: State, i: nat, move: Move, run: seq<Step>, topic: string)
    requires i < |s.requests| && CanMove(s, i, move) && AllCame(run, topic, s.requests[i])
    ensures AllCame(run, topic, Moved(s.requests[i], move))
  {
    hide GetTokenError, Acted, OnChannels, MessageCame, ErrorCame, TakenMessages, TakenErrors;
    var r := s.requests[i];
    var action := ActionOf(r, move);
    if move.TakesMessage? {
      assert r.messages.buffer[0] in r.messages.buffer;
    }
    if move.TakesError? {
      assert r.errs.buffer[0] in r.errs.buffer;
    }
    if action.Some? {
      ActedAllCame(run, topic, r, action.value);
    }
    ChannelsAllCame(run, topic, if action.Some? then Acted(r, action.value) else r, move);
  }

  lemma LongerAllCame(run: seq<Step>, step: Step, topic: string, r: RequestState)
    requires AllCame(run, topic, r)
    ensures AllCame(run + [step], topic, r)
  {
    hide MessageCame, ErrorCame;
    StillCame(run, step, topic);
  }

  lemma StepAllCame(c: Config, s: State, step: Step, i: nat, run: seq<Step>)
    requires c.IsValid() && Invariant(c, s) && Enabled(c, s, step) && c.Has(i)
    requires AllCame(run, c.TopicOf(i), s.requests[i]) && ReplayErrorCame(run, c.TopicOf(i), s.mutex, i)
    ensures AllCame(run + [step], c.TopicOf(i), RequestAfter(c, s, step, i))
  {
    hide Config.TopicOf, MqttMatches, Moved, TableOk, HandlersOk, GoneOk, MutexOk, RequestOk, IsOwnOperation,
         MessageCame, ErrorCame, TakenMessages, TakenErrors;
    LongerAllCame(run, step, c.TopicOf(i), s.requests[i]);
    StillCame(run, step, c.TopicOf(i));
    if step.By? && step.i == i {
      MoveAllCame(s, i, step.move, run, c.TopicOf(i));
      LongerAllCame(run, step, c.TopicOf(i), Moved(s.requests[i], step.move));
    } else if step.Dispatch? {
      DispatchedToOwner(c, s, step.filter, step.topic);
    }
  }

  lemma StepReplayErrorCame(c: Config, s: State, step: Step, i: nat, run: seq<Step>)
    requires c.IsValid() && Invariant(c, s) && Enabled(c, s, step) && c.Has(i)
    requires ReplayErrorCame(run, c.TopicOf(i), s.mutex, i)
    ensures ReplayErrorCame(run + [step], c.TopicOf(i), MutexAfter(c, s, step), i)
  {
    hide Config.TopicOf, MqttMatches, HandlersOk, GoneOk, MutexOk, RequestOk, IsOwnOperation, ErrorCame, IsInTable,
         GetTokenError;
    StillCame(run, step, c.TopicOf(i));
    if step.ReplaySubscribes? {
      assert "Failed to re-create subscription for topic=" == RECREATE_FAILED && "Subscribe" == SUBSCRIBE_OPERATION;
      EntryOwnsErrors(c, s, step.filter, i);
    }
  }

  /** An entry that has a request's error channel is that request's. */
  lemma EntryOwnsErrors(c: Config, s: State, filter: string, i: nat)
    requires c.IsValid() && |s.requests| == |c.requests| && TableOk(c, s) && c.Has(i) && filter in s.table
    ensures s.table[filter].topic == filter
    ensures s.table[filter].errors == ErrorsOf(i) ==> filter == c.TopicOf(i)
  {
    hide Config.TopicOf;
    EntriesHaveTheirHandlers(c, s, filter);
    if c.IsResponseTopic(filter) {
      var j :| 0 <= j < |c.requests| && c.TopicOf(j) == filter;
      assert s.table[filter] == EntryOf(c, j);
    } else {
      assert SameAt(s.table, s.own, filter);
    }
  }

  lemma {:induction false} AlwaysAllCame(c: Config, run: seq<Step>, i: nat)
    requires c.IsValid() && After(c, run).Some? && c.Has(i)
    ensures |After(c, run).value.requests| == |c.requests|
    ensures AllCame(run, c.TopicOf(i), After(c, run).value.requests[i])
    ensures ReplayErrorCame(run, c.TopicOf(i), After(c, run).value.mutex, i)
  {
    hide Invariant, Enabled, RequestAfter, MutexAfter, AllCame, ReplayErrorCame, Config.TopicOf;
    InvariantAlways(c, run);
    InvariantHasAllRequests(c, After(c, run).value);
    if run == [] {
      NothingCame(c, i);
    } else {
      var n := |run| - 1;
      AlwaysAllCame(c, run[..n], i);
      InvariantAlways(c, run[..n]);
      var s := After(c, run[..n]).value;
      StepAllCame(c, s, run[n], i, run[..n]);
      StepReplayErrorCame(c, s, run[n], i, run[..n]);
      LongerReplayErrorCame(run[..n], run[n], c.TopicOf(i), s.mutex, i);
      LongerAllCame(run[..n], run[n], c.TopicOf(i), s.requests[i]);
      assert run[..n] + [run[n]] == run;
    }
  }

  lemma LongerReplayErrorCame(run: seq<Step>, step: Step, topic: string, mutex: Mutex, i: nat)
    requires ReplayErrorCame(run, topic, mutex, i)
    ensures ReplayErrorCame(run + [step], topic, mutex, i)
  {
    hide ErrorCame;
    StillCame(run, step, topic);
  }

  lemma NothingCame(c: Config, i: nat)
    requires c.Has(i)
    ensures AllCame([], c.TopicOf(i), Initial(c).requests[i]) && ReplayErrorCame([], c.TopicOf(i), Initial(c).mutex, i)
  {
  }

  // ----- The steps of a request -----

  /** The steps that its own outcomes are decided by. */
  ghost predicate PcCameFrom(run: seq<Step>, i: nat, pc: RequestPc) {
    && (pc.Refused? ==>
          exists token ::
            && By(i, HearsSubscribed(token)) in run
            && Some(pc.error) == GetTokenError(token, "Subscribe", "Failed to create subscription"))
    && (ResultOf(pc).Some? && ResultOf(pc).value.PublishFailed? ==> By(i, HearsPublished(Some(pc.result.error))) in run)
    && (ResultOf(pc).Some? && !ResultOf(pc).value.PublishFailed? ==> By(i, HearsPublished(None)) in run)
    && (ResultOf(pc).Some? && ResultOf(pc).value.TimedOut? ==> By(i, TimesOut) in run)
    && (ResultOf(pc).Some? ==> !ResultOf(pc).value.SubscribeFailed?)
    && (HasCleanedUp(pc) ==> exists token :: By(i, HearsUnsubscribed(token)) in run && pc.left == Succeeded(token))
    && (pc.Waiting? ==> By(i, HearsPublished(None)) in run)
  }

  lemma MovePcCameFrom(s: State, i: nat, move: Move, run: seq<Step>)
    requires i < |s.requests| && CanMove(s, i, move) && PcCameFrom(run, i, s.requests[i].pc)
    ensures PcCameFrom(run + [By(i, move)], i, Moved(s.requests[i], move).pc)
  {
    hide GetTokenError, OnChannels;
    var r, action := s.requests[i], ActionOf(s.requests[i], move);
    ChannelsKeepPc(if action.Some? then Acted(r, action.value) else r, move);
    LongerPcCameFrom(run, By(i, move), i, r.pc);
    assert (run + [By(i, move)])[|run|] == By(i, move);
    assert "Subscribe" == SUBSCRIBE_OPERATION && "Failed to create subscription" == SUBSCRIBE_FAILED;
    match move
    case HearsSubscribed(token) => assert By(i, HearsSubscribed(token)) in run + [By(i, move)];
    case HearsUnsubscribed(token) => assert By(i, HearsUnsubscribed(token)) in run + [By(i, move)];
    case _ =>
  }

  lemma LongerPcCameFrom(run: seq<Step>, step: Step, i: nat, pc: RequestPc)
    requires PcCameFrom(run, i, pc)
    ensures PcCameFrom(run + [step], i, pc)
  {
    hide GetTokenError;
    assert forall t :: t in run ==> t in run + [step];
  }

  lemma {:induction false} AlwaysPcCameFrom(c: Config, run: seq<Step>, i: nat)
    requires c.IsValid() && After(c, run).Some? && c.Has(i)
    ensures |After(c, run).value.requests| == |c.requests|
    ensures PcCameFrom(run, i, After(c, run).value.requests[i].pc)
  {
    hide Invariant, Enabled, RequestAfter, PcCameFrom;
    InvariantAlways(c, run);
    InvariantHasAllRequests(c, After(c, run).value);
    if run == [] {
      NoPcYet(c, i);
    } else {
      var n := |run| - 1;
      AlwaysPcCameFrom(c, run[..n], i);
      InvariantAlways(c, run[..n]);
      StepPcCameFrom(c, After(c, run[..n]).value, run[n], i, run[..n]);
      LongerPcCameFrom(run[..n], run[n], i, After(c, run[..n]).value.requests[i].pc);
      assert run[..n] + [run[n]] == run;
    }
  }

  lemma NoPcYet(c: Config, i: nat)
    requires c.Has(i)
    ensures PcCameFrom([], i, Initial(c).requests[i].pc)
  {
  }

  lemma StepPcCameFrom(c: Config, s: State, step: Step, i: nat, run: seq<Step>)
    requires Enabled(c, s, step) && c.Has(i) && PcCameFrom(run, i, s.requests[i].pc)
    ensures PcCameFrom(run + [step], i, RequestAfter(c, s, step, i).pc)
  {
    hide PcCameFrom, Moved, MqttMatches, IsOwnOperation;
    if step.By? && step.i == i {
      MovePcCameFrom(s, i, step.move, run);
    } else {
      LongerPcCameFrom(run, step, i, s.requests[i].pc);
      OthersStandStill(c, s, step, i);
    }
  }

  /**
    The outcome of a request in any run, and the steps it comes from: the response that was dispatched on
    its topic; the error of a message on its topic that could not be decoded, or of a replay of its topic;
    the error of its own publish; its own timer; or the error of its own subscribe call. And whether it has
    left is whether its own unsubscribe succeeded.
   */
  lemma OutcomesCameFromRun(c: Config, run: seq<Step>, i: nat)
    requires c.IsValid() && After(c, run).Some? && c.Has(i)
    ensures |After(c, run).value.requests| == |c.requests|
    ensures var pc := After(c, run).value.requests[i].pc;
            && PcCameFrom(run, i, pc)
            && (ResultOf(pc).Some? && ResultOf(pc).value.Response? ==>
                  MessageCame(run, c.TopicOf(i), ResultOf(pc).value.envelope))
            && (ResultOf(pc).Some? && ResultOf(pc).value.ErrorReceived? ==>
                  ErrorCame(run, c.TopicOf(i), ResultOf(pc).value.error))
  {
    hide PcCameFrom, MessageCame, ErrorCame, Config.TopicOf, After;
    AlwaysPcCameFrom(c, run, i);
    AlwaysAllCame(c, run, i);
  }
}
