/** The client's other users: what requests, reconnects and their own calls leave them with. */
module OtherUsers {
  import opened Wrappers
  import opened Topics
  import opened MessageEnvelopes
  import opened MqttClient
  import opened RequestResponse
  import opened RequestProtocol
  import opened RequestInvariant
  import opened RequestSafety

  // ----- Their table -----

  /** The whole calls of the client's other users, in the order of the run. */
  function OwnHistory(run: seq<Step>): seq<Operation<Chan>> {
    if run == [] then []
    else
      var n := |run| - 1;
      OwnHistory(run[..n]) + if run[n].OwnOperation? then [run[n].op] else []
  }

  /** Their own table is the one that a client would have that only they used. */
  lemma {:induction false} OwnTableIsTheirs(c: Config, run: seq<Step>)
    requires After(c, run).Some?
    ensures IsHistory(OwnHistory(run)) && After(c, run).value.own == TableAfter(c.qos, OwnHistory(run))
  {
    hide Applied, RequestAfter, TableAfterStep, HeldAfter, MaybeAfter, MutexAfter, MqttMatches, CanMove;
    if run != [] {
      var n := |run| - 1;
      OwnTableIsTheirs(c, run[..n]);
      var history := OwnHistory(run[..n]);
      if run[n].OwnOperation? {
        assert (history + [run[n].op])[..|history|] == history;
      } else {
        assert history + [] == history;
      }
    }
  }

  // ----- Their subscriptions at the broker -----

  predicate IsAmong(topics: seq<TopicChannel<Chan>>, k: string) {
    exists i :: 0 <= i < |topics| && topics[i].topic == k
  }

  /** Lost: with the connection, or by an attempt to unsubscribe; put right by a replay, or by subscribing again. */
  ghost predicate OwnLostAfter(step: Step, k: string, before: bool) {
    match step
    case ConnectionLost => true
    case ReplaySubscribes(filter, token) => before && !(filter == k && Succeeded(token))
    case OwnOperation(Subscribe(topics, _, _, tokens)) =>
      before && !(|topics| == |tokens| && IsAmong(topics[..Accepted(tokens)], k))
    case OwnOperation(Unsubscribe(names, _)) => before || k in names
    case _ => before
  }

  ghost predicate OwnLost(run: seq<Step>, k: string) {
    run != [] && OwnLostAfter(run[|run| - 1], k, OwnLost(run[..|run| - 1], k))
  }

  /** The broker has exactly the entries of the other users that are not lost, with their own handlers. */
  ghost predicate OwnIsHeld(s: State, k: string, lost: bool) {
    && (k in s.held <==> k in s.own && !lost)
    && (k in s.held ==> s.held[k] == s.own[k].handler)
  }

  lemma LastAmong(topics: seq<TopicChannel<Chan>>, k: string) returns (i: nat)
    requires IsAmong(topics, k)
    ensures IsLastOf(topics, i, k)
    decreases |topics|
  {
    var n := |topics| - 1;
    if topics[n].topic == k {
      i := n;
    } else {
      var j :| 0 <= j < |topics| && topics[j].topic == k;
      assert topics[..n][j] == topics[j];
      i := LastAmong(topics[..n], k);
    }
  }

  lemma SubscribingKeepsHeld(
    s: State, k: string, lost: bool, qos: nat, binary: bool, topics: seq<TopicChannel<Chan>>, errors: Chan)
    requires OwnIsHeld(s, k, lost)
    ensures var own := WithSubscriptions(s.own, qos, binary, topics, errors);
            var held := s.held + HandlersOf(WithSubscriptions(map[], qos, binary, topics, errors));
            && (k in held <==> k in own && !(lost && !IsAmong(topics, k)))
            && (k in held ==> held[k] == own[k].handler)
  {
    hide WithSubscriptions;
    if IsAmong(topics, k) {
      var i := LastAmong(topics, k);
      SubscribedEntry(s.own, qos, binary, topics, errors, k, i);
      SubscribedEntry(map[], qos, binary, topics, errors, k, i);
    } else {
      OtherEntries(s.own, qos, binary, topics, errors, k);
      OtherEntries(map[], qos, binary, topics, errors, k);
    }
  }

  lemma StepKeepsOwnHeld(c: Config, s: State, step: Step, k: string, lost: bool)
    requires c.IsValid() && Invariant(c, s) && Enabled(c, s, step) && !Crashes(c, s, step)
    requires !c.IsResponseTopic(k) && OwnIsHeld(s, k, lost)
    ensures OwnIsHeld(Apply(c, s, step), k, OwnLostAfter(step, k, lost))
  {
    hide Config.TopicOf, MqttMatches, RequestAfter, RequestOk, HandlersOk, GoneOk, MutexOk, TableAfterStep, MaybeAfter,
         MutexAfter, WithSubscriptions, HandlersOf, IsAmong;
    NoRequestWithoutResponseTopic(c, k);
    match step
    case OwnOperation(Subscribe(topics, errors, binary, tokens)) =>
      SubscribingKeepsHeld(s, k, lost, c.qos, binary, topics[..Accepted(tokens)], errors);
    case ReplaySubscribes(filter, _) =>
      EntriesHaveTheirHandlers(c, s, filter);
      SameAtMeans(s.table, s.own, k);
    case _ =>
  }

  /**
    In every run, of the topics that are no response topics the broker has exactly those that the other
    users' own table holds and that were not lost since, with their own handlers.
   */
  lemma {:induction false} OwnSubscriptionsAreHeld(c: Config, run: seq<Step>, k: string)
    requires c.IsValid() && After(c, run).Some? && !c.IsResponseTopic(k)
    requires !After(c, run).value.crashed
    ensures OwnIsHeld(After(c, run).value, k, OwnLost(run, k))
  {
    hide Enabled, Apply, Crashes, Invariant, OwnLostAfter, Config.IsResponseTopic;
    if run != [] {
      var n := |run| - 1;
      var s := After(c, run[..n]).value;
      NotCrashedBefore(c, s, run[n]);
      CrashedExactlyWhenCrashes(c, s, run[n]);
      OwnSubscriptionsAreHeld(c, run[..n], k);
      InvariantAlways(c, run[..n]);
      StepKeepsOwnHeld(c, s, run[n], k, OwnLost(run[..n], k));
    }
  }

  lemma CrashedExactlyWhenCrashes(c: Config, s: State, step: Step)
    requires Enabled(c, s, step)
    ensures Crashes(c, s, step) <==> Apply(c, s, step).crashed
  {
    hide Crashes;
  }

  /** What one of their calls makes of what the broker may still run for a topic. */
  lemma OwnCallsDecideWhatMayRun(c: Config, s: State, op: Operation<Chan>, k: string)
    requires Enabled(c, s, OwnOperation(op))
    ensures var after := Apply(c, s, OwnOperation(op));
            && (op.Unsubscribe? && Succeeded(op.token) && k in op.names ==> !MayRun(after, k))
            && (op.Unsubscribe? && !Succeeded(op.token) ==> (MayRun(after, k) <==> MayRun(s, k)))
            && (op.Unsubscribe? && k !in op.names ==> (MayRun(after, k) <==> MayRun(s, k)))
            && (op.Subscribe? && IsAmong(op.topics[..Attempted(op.tokens)], k) ==> MayRun(after, k))
  {
    hide RequestAfter, TableAfterStep, OwnAfter, MutexAfter, WithSubscriptions;
    if op.Subscribe? && IsAmong(op.topics[..Attempted(op.tokens)], k) {
      var topics := op.topics[..Attempted(op.tokens)];
      var i := LastAmong(topics, k);
      SubscribedEntry(map[], c.qos, op.binary, topics, op.errors, k, i);
    }
  }

  /** Losing the connection, or asking the broker to drop a topic, does not yet keep any handler from running. */
  lemma MayRunUntilUnsubscribed(c: Config, s: State, step: Step, k: string)
    requires Enabled(c, s, step) && !Crashes(c, s, step)
    requires step == ConnectionLost || (step.By? && step.move.AsksToUnsubscribe?)
    ensures MayRun(s, k) ==> MayRun(Apply(c, s, step), k)
  {
    hide Config.TopicOf, RequestAfter, TableAfterStep, OwnAfter, MutexAfter, MqttMatches;
  }

  /** Whenever nobody holds the mutex, another user can make any call, and the tables are what it makes of them. */
  lemma OwnCallsTakeEffect(c: Config, run: seq<Step>, op: Operation<Chan>)
    requires c.IsValid() && After(c, run).Some? && !After(c, run).value.crashed && After(c, run).value.mutex == Unlocked
    requires IsOwnOperation(c, op)
    ensures After(c, run + [OwnOperation(op)]).Some?
    ensures var s, s' := After(c, run).value, After(c, run + [OwnOperation(op)]).value;
            !s'.crashed && s'.table == Applied(s.table, c.qos, op) && s'.own == Applied(s.own, c.qos, op)
  {
    hide RequestAfter, HeldAfter, MaybeAfter, MqttMatches, CanMove, After, Applied;
    InvariantAlways(c, run);
    InvariantHasAllRequests(c, After(c, run).value);
    OneMoreStep(c, run, OwnOperation(op));
  }
}
