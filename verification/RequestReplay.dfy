/** What a reconnect achieves: a replay that ends has reached every entry of the table, and put things right. */
module RequestReplay {
  import opened Wrappers
  import opened MessageEnvelopes
  import opened Topics
  import opened MqttClient
  import opened RequestResponse
  import opened RequestProtocol
  import opened RequestInvariant
  import opened RequestSafety

  // ----- The steps of a replay -----

  function TimesSubscribed(steps: seq<Step>, filter: string): nat {
    if steps == [] then 0
    else
      var n := |steps| - 1;
      TimesSubscribed(steps[..n], filter) + if steps[n].ReplaySubscribes? && steps[n].filter == filter then 1 else 0
  }

  /** How many of the replay's subscriptions failed. */
  function Failures(steps: seq<Step>): nat {
    if steps == [] then 0
    else
      var n := |steps| - 1;
      Failures(steps[..n]) + if steps[n].ReplaySubscribes? && !Succeeded(steps[n].token) then 1 else 0
  }

  function Sends(steps: seq<Step>): nat {
    if steps == [] then 0
    else
      var n := |steps| - 1;
      Sends(steps[..n]) + if steps[n].ReplaySends? then 1 else 0
  }

  /** The error of the last subscription that failed, for its entry's own channel, if it was not sent yet. */
  function UnsentError(table: Table<Chan>, steps: seq<Step>): Option<(Chan, BusError)>
    requires forall k :: 0 <= k < |steps| && steps[k].ReplaySubscribes? ==> steps[k].filter in table
  {
    if steps == [] then None
    else
      var n := |steps| - 1;
      match steps[n]
      case ReplaySubscribes(filter, token) =>
        var message := "Failed to re-create subscription for topic=" + table[filter].topic;
        var error := GetTokenError(token, SUBSCRIBE_OPERATION, message);
        if error.Some? then Some((table[filter].errors, error.value)) else None
      case ReplaySends => None
      case _ => UnsentError(table, steps[..n])
  }

  /** The subscriptions that succeeded are at the broker, with their entries' handlers. */
  ghost predicate AreRenewed(table: Table<Chan>, steps: seq<Step>, held: map<string, Handler<Chan>>)
    requires forall k :: 0 <= k < |steps| && steps[k].ReplaySubscribes? ==> steps[k].filter in table
  {
    forall k :: 0 <= k < |steps| && steps[k].ReplaySubscribes? && Succeeded(steps[k].token) ==>
      steps[k].filter in held && held[steps[k].filter] == table[steps[k].filter].handler
  }

  /** The steps since a replay of `table` started, and the state they lead to. */
  ghost predicate IsReplaying(table: Table<Chan>, steps: seq<Step>, s: State) {
    && s.mutex.Replayer? && s.table == table && s.mutex.todo <= table.Keys
    && (forall k :: 0 <= k < |steps| && steps[k].ReplaySubscribes? ==> steps[k].filter in table)
    && (forall f :: TimesSubscribed(steps, f) == if f in table && f !in s.mutex.todo then 1 else 0)
    && s.mutex.sending == UnsentError(table, steps)
    && Failures(steps) == Sends(steps) + (if s.mutex.sending.Some? then 1 else 0)
    && (ConnectionLost !in steps ==> AreRenewed(table, steps, s.held))
  }

  lemma OneMoreInReplay(table: Table<Chan>, steps: seq<Step>, step: Step)
    requires forall k :: 0 <= k < |steps| && steps[k].ReplaySubscribes? ==> steps[k].filter in table
    requires step.ReplaySubscribes? ==> step.filter in table
    ensures var longer := steps + [step];
            && (forall k :: 0 <= k < |longer| && longer[k].ReplaySubscribes? ==> longer[k].filter in table)
            && (forall f :: TimesSubscribed(longer, f)
                  == TimesSubscribed(steps, f) + if step.ReplaySubscribes? && step.filter == f then 1 else 0)
            && Failures(longer) == Failures(steps) + (if step.ReplaySubscribes? && !Succeeded(step.token) then 1 else 0)
            && Sends(longer) == Sends(steps) + (if step.ReplaySends? then 1 else 0)
            && (!step.ReplaySubscribes? && !step.ReplaySends? ==>
                  UnsentError(table, longer) == UnsentError(table, steps))
            && (step.ReplaySends? ==> UnsentError(table, longer) == None)
            && (step.ReplaySubscribes? ==>
                  var error := ReplayError(table[step.filter], step.token);
                  UnsentError(table, longer)
                  == if error.Some? then Some((table[step.filter].errors, error.value)) else None)
            && (ConnectionLost !in longer ==> ConnectionLost !in steps && !step.ConnectionLost?)
  {
    hide GetTokenError;
    var longer := steps + [step];
    assert longer[..|steps|] == steps && longer[|steps|] == step;
    assert forall k :: 0 <= k < |steps| ==> longer[k] == steps[k];
    assert RECREATE_FAILED == "Failed to re-create subscription for topic=";
  }

  lemma StepKeepsRenewed(c: Config, table: Table<Chan>, steps: seq<Step>, s: State, step: Step)
    requires c.IsValid() && |s.requests| == |c.requests| && TableOk(c, s) && Enabled(c, s, step) && !step.ReplayEnds?
    requires s.mutex.Replayer? && s.table == table && !step.ConnectionLost?
    requires forall k :: 0 <= k < |steps| && steps[k].ReplaySubscribes? ==> steps[k].filter in table
    requires AreRenewed(table, steps, s.held)
    ensures AreRenewed(table, steps + [step], HeldAfter(c, s, step))
  {
    hide Config.TopicOf, MqttMatches, TableOk, IsOwnOperation, WithSubscriptions, HandlersOf;
    if step.ReplaySubscribes? {
      EntriesHaveTheirHandlers(c, s, step.filter);
    }
    assert forall k :: 0 <= k < |steps| ==> (steps + [step])[k] == steps[k];
  }

  lemma StepKeepsReplaying(c: Config, table: Table<Chan>, steps: seq<Step>, s: State, step: Step)
    requires c.IsValid() && |s.requests| == |c.requests| && TableOk(c, s)
    requires Enabled(c, s, step) && !Crashes(c, s, step) && !step.ReplayEnds?
    requires IsReplaying(table, steps, s)
    ensures IsReplaying(table, steps + [step], Apply(c, s, step))
  {
    hide Config.TopicOf, MqttMatches, TableOk, IsOwnOperation, RequestAfter, OwnAfter, MaybeAfter, HeldAfter,
         AreRenewed, TimesSubscribed, Failures, Sends, UnsentError, ReplayError;
    OneMoreInReplay(table, steps, step);
    if ConnectionLost !in steps + [step] {
      StepKeepsRenewed(c, table, steps, s, step);
    }
    if step.ReplaySubscribes? {
      FailsExactlyWhenError(s.table[step.filter], step.token);
    }
  }

  lemma FailsExactlyWhenError(entry: ExistingSubscription<Chan>, token: Token)
    ensures ReplayError(entry, token) == None <==> Succeeded(token)
  {
  }

  /** A run whose last part is a replay that has not ended. */
  lemma {:induction false} ReplayGoesOn(c: Config, before: seq<Step>, during: seq<Step>)
    requires c.IsValid() && After(c, before + [ReplayStarts] + during).Some? && ReplayEnds !in during
    requires !After(c, before + [ReplayStarts] + during).value.crashed
    ensures After(c, before).Some?
    ensures IsReplaying(After(c, before).value.table, during, After(c, before + [ReplayStarts] + during).value)
    decreases |during|
  {
    hide Enabled, Apply, Crashes, IsReplaying, Invariant;
    var run := before + [ReplayStarts] + during;
    if during == [] {
      assert run == before + [ReplayStarts];
      assert (before + [ReplayStarts])[..|before|] == before;
      ReplayBegins(c, After(c, before).value);
    } else {
      var n := |during| - 1;
      assert run[..|run| - 1] == before + [ReplayStarts] + during[..n];
      var s := After(c, run[..|run| - 1]).value;
      NotCrashedBefore(c, s, during[n]);
      CrashedOrNot(c, s, during[n]);
      ReplayGoesOn(c, before, during[..n]);
      InvariantAlways(c, run[..|run| - 1]);
      InvariantHasTable(c, s);
      StepKeepsReplaying(c, After(c, before).value.table, during[..n], s, during[n]);
      assert during[..n] + [during[n]] == during;
    }
  }

  lemma ReplayBegins(c: Config, s: State)
    requires Enabled(c, s, ReplayStarts)
    ensures IsReplaying(s.table, [], Apply(c, s, ReplayStarts))
  {
    hide RequestAfter, OwnAfter, MaybeAfter, HeldAfter;
  }

  lemma CrashedOrNot(c: Config, s: State, step: Step)
    requires Enabled(c, s, step)
    ensures Crashes(c, s, step) <==> Apply(c, s, step).crashed
  {
    hide Crashes;
  }

  lemma InvariantHasTable(c: Config, s: State)
    requires Invariant(c, s)
    ensures |s.requests| == |c.requests| && TableOk(c, s)
  {
    hide TableOk;
  }

  /**
    Each entry of the table was subscribed exactly once, and nothing else was; as many errors were sent as
    subscriptions failed; and unless the connection was lost, the broker has every entry whose subscription
    succeeded, with the entry's own handler.
   */
  ghost predicate HasReachedAll(table: Table<Chan>, during: seq<Step>, held: map<string, Handler<Chan>>) {
    && (forall k :: 0 <= k < |during| && during[k].ReplaySubscribes? ==> during[k].filter in table)
    && (forall f :: TimesSubscribed(during, f) == if f in table then 1 else 0)
    && Failures(during) == Sends(during)
    && (ConnectionLost !in during ==> AreRenewed(table, during, held))
  }

  lemma ReplayIsDone(c: Config, table: Table<Chan>, during: seq<Step>, s: State)
    requires IsReplaying(table, during, s) && Enabled(c, s, ReplayEnds)
    ensures var s' := Apply(c, s, ReplayEnds);
            !s'.crashed && s'.table == table && s'.mutex == Unlocked && HasReachedAll(table, during, s'.held)
  {
    hide RequestAfter, OwnAfter, MaybeAfter, AreRenewed, TimesSubscribed, Failures, Sends, UnsentError;
  }

  /** A replay that has ended, whatever else happened in between, has reached all entries. */
  lemma ReplayReachesEveryEntry(c: Config, before: seq<Step>, during: seq<Step>)
    requires c.IsValid() && After(c, before + [ReplayStarts] + during + [ReplayEnds]).Some? && ReplayEnds !in during
    ensures After(c, before).Some?
    ensures var s := After(c, before + [ReplayStarts] + during + [ReplayEnds]).value;
            && !s.crashed && s.table == After(c, before).value.table && s.mutex == Unlocked
            && HasReachedAll(s.table, during, s.held)
  {
    hide Enabled, Apply, IsReplaying, HasReachedAll;
    var run := before + [ReplayStarts] + during;
    assert (run + [ReplayEnds])[..|run|] == run;
    NotCrashedBefore(c, After(c, run).value, ReplayEnds);
    ReplayGoesOn(c, before, during);
    ReplayIsDone(c, After(c, before).value.table, during, After(c, run).value);
  }

  /** What is about to be sent is the error of the last subscription, which failed, for its entry's own channel. */
  ghost predicate IsErrorOfLast(table: Table<Chan>, during: seq<Step>, sending: Option<(Chan, BusError)>) {
    && (forall k :: 0 <= k < |during| && during[k].ReplaySubscribes? ==> during[k].filter in table)
    && sending.Some? && sending == UnsentError(table, during)
  }

  lemma ReplayHasErrorOfLast(c: Config, table: Table<Chan>, during: seq<Step>, s: State)
    requires IsReplaying(table, during, s) && Enabled(c, s, ReplaySends)
    ensures s.mutex.Replayer? && IsErrorOfLast(table, during, s.mutex.sending)
  {
    hide AreRenewed, TimesSubscribed, Failures, Sends, UnsentError;
  }

  /** Whenever a replay can send, it is that error. */
  lemma ReplaySendsOwnError(c: Config, before: seq<Step>, during: seq<Step>)
    requires c.IsValid() && After(c, before + [ReplayStarts] + during).Some? && ReplayEnds !in during
    requires Enabled(c, After(c, before + [ReplayStarts] + during).value, ReplaySends)
    ensures After(c, before).Some?
    ensures var s := After(c, before + [ReplayStarts] + during).value;
            s.mutex.Replayer? && IsErrorOfLast(After(c, before).value.table, during, s.mutex.sending)
  {
    hide After, Enabled, IsReplaying, IsErrorOfLast;
    NotCrashedBefore(c, After(c, before + [ReplayStarts] + during).value, ReplaySends);
    ReplayGoesOn(c, before, during);
    ReplayHasErrorOfLast(c, After(c, before).value.table, during, After(c, before + [ReplayStarts] + during).value);
  }

  // ----- A replay can always be carried out -----

  /** With a broker that accepts everything, a replay runs to its end from every state in which it can start. */
  lemma ReplayCanEnd(c: Config, run: seq<Step>) returns (during: seq<Step>)
    requires c.IsValid() && After(c, run).Some? && !After(c, run).value.crashed && After(c, run).value.mutex == Unlocked
    ensures After(c, run + [ReplayStarts] + during + [ReplayEnds]).Some?
    ensures ReplayEnds !in during && ConnectionLost !in during
    ensures forall k :: 0 <= k < |during| ==> during[k].ReplaySubscribes? && Succeeded(during[k].token)
  {
    hide After, Enabled, Apply;
    InvariantAlways(c, run);
    InvariantHasAllRequests(c, After(c, run).value);
    Starts(c, After(c, run).value);
    OneMoreStep(c, run, ReplayStarts);
    during := Renews(c, run + [ReplayStarts]);
    Ends(c, After(c, run + [ReplayStarts] + during).value);
    OneMoreStep(c, run + [ReplayStarts] + during, ReplayEnds);
  }

  ghost predicate IsRenewing(c: Config, s: State) {
    && !s.crashed && |s.requests| == |c.requests|
    && s.mutex.Replayer? && s.mutex.sending == None && s.mutex.todo <= s.table.Keys
  }

  lemma Starts(c: Config, s: State)
    requires !s.crashed && |s.requests| == |c.requests| && s.mutex == Unlocked
    ensures Enabled(c, s, ReplayStarts) && IsRenewing(c, Apply(c, s, ReplayStarts))
  {
    hide RequestAfter, OwnAfter, MaybeAfter, HeldAfter;
  }

  lemma Ends(c: Config, s: State)
    requires IsRenewing(c, s) && s.mutex.todo == {}
    ensures Enabled(c, s, ReplayEnds)
  {
  }

  lemma RenewsOne(c: Config, s: State, filter: string)
    requires IsRenewing(c, s) && filter in s.mutex.todo
    ensures var step := ReplaySubscribes(filter, Token(true, None));
            && Enabled(c, s, step) && IsRenewing(c, Apply(c, s, step))
            && Apply(c, s, step).mutex.todo == s.mutex.todo - {filter}
  {
    hide RequestAfter, OwnAfter, MaybeAfter, HeldAfter;
  }

  lemma {:induction false} Renews(c: Config, run: seq<Step>) returns (steps: seq<Step>)
    requires After(c, run).Some? && IsRenewing(c, After(c, run).value)
    ensures After(c, run + steps).Some? && IsRenewing(c, After(c, run + steps).value)
    ensures After(c, run + steps).value.mutex.todo == {}
    ensures forall k :: 0 <= k < |steps| ==> steps[k].ReplaySubscribes? && Succeeded(steps[k].token)
    decreases |After(c, run).value.mutex.todo|
  {
    hide After, Enabled, Apply;
    var todo := After(c, run).value.mutex.todo;
    if todo == {} {
      steps := [];
      assert run + steps == run;
    } else {
      var filter :| filter in todo;
      var step := ReplaySubscribes(filter, Token(true, None));
      RenewsOne(c, After(c, run).value, filter);
      OneMoreStep(c, run, step);
      var rest := Renews(c, run + [step]);
      steps := [step] + rest;
      assert run + [step] + rest == run + steps;
    }
  }

  // ----- What it means for a request -----

  /** From the broker's acknowledgement until the deferred unsubscribe, the subscription is not lost. */
  ghost predicate IsListenedFor(s: State, i: nat, lost: bool)
    requires i < |s.requests|
  {
    s.mutex == Subscriber(i, true) || HasPublished(s.requests[i].pc) ==> !lost
  }

  lemma StepKeepsListenedFor(c: Config, s: State, step: Step, i: nat, lost: bool)
    requires |s.requests| == |c.requests| && Enabled(c, s, step) && !Crashes(c, s, step) && c.Has(i)
    requires IsListenedFor(s, i, lost) && !step.ConnectionLost?
    ensures IsListenedFor(Apply(c, s, step), i, LostAfter(c, step, i, lost))
  {
    hide Config.TopicOf, MqttMatches, Moved, TableAfterStep, OwnAfter, HeldAfter, MaybeAfter, HasPublished,
         IsOwnOperation;
    if step.By? {
      PublishedAfterMove(s, step.i, step.move);
    }
    if !step.By? || step.i != i {
      OthersStandStill(c, s, step, i);
    }
  }

  lemma {:induction false} StaysListenedFor(c: Config, run: seq<Step>, more: seq<Step>, i: nat)
    requires c.IsValid() && After(c, run).Some? && After(c, run + more).Some? && c.Has(i)
    requires |After(c, run).value.requests| == |c.requests| && ConnectionLost !in more
    requires IsListenedFor(After(c, run).value, i, LostWithoutReplay(c, run, i))
    ensures |After(c, run + more).value.requests| == |c.requests|
    ensures After(c, run + more).value.crashed
         || IsListenedFor(After(c, run + more).value, i, LostWithoutReplay(c, run + more, i))
    decreases |more|
  {
    hide Invariant, Enabled, Apply, Crashes, IsListenedFor, LostAfter;
    InvariantAlways(c, run + more);
    InvariantHasAllRequests(c, After(c, run + more).value);
    if more == [] {
      assert run + more == run;
    } else {
      var n := |more| - 1;
      assert (run + more)[..|run + more| - 1] == run + more[..n];
      StaysListenedFor(c, run, more[..n], i);
      var s := After(c, run + more[..n]).value;
      NotCrashedBefore(c, s, more[n]);
      CrashedOrNot(c, s, more[n]);
      if !Crashes(c, s, more[n]) {
        StepKeepsListenedFor(c, s, more[n], i, LostWithoutReplay(c, run + more[..n], i));
      }
    }
  }

  /** The replay did not fail for this topic. */
  predicate SucceedsFor(steps: seq<Step>, topic: string) {
    forall k :: 0 <= k < |steps| && steps[k].ReplaySubscribes? && steps[k].filter == topic ==> Succeeded(steps[k].token)
  }

  /** A subscription that succeeded, with no loss after it, is not lost. */
  lemma {:induction false} RenewedIsNotLost(c: Config, run: seq<Step>, more: seq<Step>, i: nat)
    requires c.Has(i) && ConnectionLost !in more
    requires SucceedsFor(more, c.TopicOf(i)) && TimesSubscribed(more, c.TopicOf(i)) > 0
    ensures !LostWithoutReplay(c, run + more, i)
    decreases |more|
  {
    hide Config.TopicOf;
    var n := |more| - 1;
    assert (run + more)[..|run + more| - 1] == run + more[..n] && (run + more)[|run + more| - 1] == more[n];
    if TimesSubscribed(more[..n], c.TopicOf(i)) > 0 {
      RenewedIsNotLost(c, run, more[..n], i);
    }
  }

  ghost predicate IsCompletedReplay(
    c: Config, run: seq<Step>, before: seq<Step>, during: seq<Step>, after: seq<Step>, i: nat)
    requires c.Has(i)
  {
    && run == before + [ReplayStarts] + during + [ReplayEnds] + after
    && ReplayEnds !in during && ConnectionLost !in during && ConnectionLost !in after
    && SucceedsFor(during, c.TopicOf(i))
  }

  /** A replay has ended without a failure for the request's topic, and the connection was not lost since it started. */
  ghost predicate WasReplayed(c: Config, run: seq<Step>, i: nat)
    requires c.Has(i)
  {
    exists before, during, after :: IsCompletedReplay(c, run, before, during, after, i)
  }

  lemma {:induction false} RunsHavePrefixes(c: Config, run: seq<Step>, more: seq<Step>)
    requires After(c, run + more).Some?
    ensures After(c, run).Some?
    decreases |more|
  {
    hide Enabled, Apply;
    if more == [] {
      assert run + more == run;
    } else {
      var n := |more| - 1;
      assert (run + more)[..|run + more| - 1] == run + more[..n];
      RunsHavePrefixes(c, run, more[..n]);
    }
  }

  /**
    After a replay that has ended without a failure for its topic, and without another loss, the broker
    has the subscription of every request between its publish and its deferred unsubscribe.
   */
  lemma ReplayedRequestIsHeld(c: Config, run: seq<Step>, i: nat)
    requires c.IsValid() && After(c, run).Some? && c.Has(i) && WasReplayed(c, run, i)
    requires !After(c, run).value.crashed
    ensures var s := After(c, run).value;
            |s.requests| == |c.requests| &&
            (HasPublished(s.requests[i].pc) ==>
               && !LostWithoutReplay(c, run, i)
               && c.TopicOf(i) in s.held && s.held[c.TopicOf(i)] == HandlerOf(i))
  {
    hide After, Config.TopicOf, LostWithoutReplay, Invariant, SucceedsFor;
    var before, during, after :| IsCompletedReplay(c, run, before, during, after, i);
    var ended := before + [ReplayStarts] + during + [ReplayEnds];
    RunsHavePrefixes(c, ended, after);
    ReplayReachesEveryEntry(c, before, during);
    InvariantAlways(c, ended);
    InvariantHasAllRequests(c, After(c, ended).value);
    if HasPublished(After(c, ended).value.requests[i].pc) {
      HeldUnlessLost(c, ended, i);
      assert HasReachedAll(After(c, ended).value.table, during, After(c, ended).value.held);
      assert TimesSubscribed(during, c.TopicOf(i)) == 1;
      LastStepDoesNotCount(during, c.TopicOf(i));
      RenewedIsNotLost(c, before + [ReplayStarts], during + [ReplayEnds], i);
      assert before + [ReplayStarts] + (during + [ReplayEnds]) == ended;
    }
    StaysListenedFor(c, ended, after, i);
    HeldUnlessLost(c, run, i);
  }

  lemma LastStepDoesNotCount(during: seq<Step>, topic: string)
    ensures TimesSubscribed(during + [ReplayEnds], topic) == TimesSubscribed(during, topic)
    ensures SucceedsFor(during, topic) ==> SucceedsFor(during + [ReplayEnds], topic)
    ensures ConnectionLost !in during ==> ConnectionLost !in during + [ReplayEnds]
  {
    assert (during + [ReplayEnds])[..|during|] == during;
  }

  /**
    From its publish until its deferred unsubscribe, a request's entry is in the table with its own
    handler; and the broker has the subscription, with that handler, exactly unless the connection was lost
    after the broker acknowledged it and no replay has renewed it since. Such a loss is repaired by the next
    replay that ends without a failure for the topic, because a replay that ends has reached every entry.
   */
  lemma NoResponseIsMissed(c: Config, run: seq<Step>, i: nat)
    requires c.IsValid() && After(c, run).Some? && c.Has(i)
    requires !After(c, run).value.crashed
    ensures var s := After(c, run).value;
            |s.requests| == |c.requests| &&
            (HasPublished(s.requests[i].pc) ==>
               && c.TopicOf(i) in s.table && s.table[c.TopicOf(i)] == EntryOf(c, i)
               && (c.TopicOf(i) in s.held <==> !LostWithoutReplay(c, run, i))
               && (c.TopicOf(i) in s.held ==> s.held[c.TopicOf(i)] == HandlerOf(i))
               && (WasReplayed(c, run, i) ==> c.TopicOf(i) in s.held))
    ensures ConnectionLost !in run ==> !LostWithoutReplay(c, run, i)
  {
    hide After, Config.TopicOf, LostWithoutReplay, WasReplayed, EntryOf;
    HeldUnlessLost(c, run, i);
    if WasReplayed(c, run, i) {
      ReplayedRequestIsHeld(c, run, i);
    }
  }
}
