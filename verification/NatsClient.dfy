/** The NATS client: its subscription table, and what its callback does with a delivered message. */
module NatsClient {
  import opened Wrappers
  import opened Topics
  import opened MessageEnvelopes

  // ----- Subscriptions -----

  /** A pointer to a subscription that the server keeps until it is unsubscribed. */
  type Handle = nat

  type Table = map<string, Option<Handle>>

  /** The client's table, and the subscriptions that are live on the server. */
  datatype Subscriptions = Subscriptions(table: Table, live: set<Handle>)

  /** What `QueueSubscribe` returns: an error, or a handle, which may be nil. */
  datatype Answer = Refused(error: string) | Granted(handle: Option<Handle>)

  datatype ClientError =
    | NotConnected
    | CannotSubscribe(error: string)
    | CannotUnsubscribe(topic: string, error: string)

  function Put(s: Subscriptions, topic: string, handle: Option<Handle>): Subscriptions {
    Subscriptions(s.table[topic := handle], if handle.Some? then s.live + {handle.value} else s.live)
  }

  function PutAll(s: Subscriptions, topics: seq<string>, handles: seq<Option<Handle>>): Subscriptions
    requires |topics| == |handles|
  {
    if topics == [] then s
    else
      var n := |topics| - 1;
      Put(PutAll(s, topics[..n], handles[..n]), topics[n], handles[n])
  }

  /** The handles that are granted before the first refusal. */
  function GrantedHandles(answers: seq<Answer>): (r: seq<Option<Handle>>)
    ensures |r| <= |answers|
    ensures forall i :: 0 <= i < |r| ==> answers[i] == Granted(r[i])
    ensures |r| < |answers| ==> answers[|r|].Refused?
  {
    if answers == [] || answers[0].Refused? then [] else [answers[0].handle] + GrantedHandles(answers[1..])
  }

  function AfterSubscribe(s: Subscriptions, topics: seq<string>, answers: seq<Answer>): Subscriptions
    requires |topics| == |answers|
  {
    var handles := GrantedHandles(answers);
    PutAll(s, topics[..|handles|], handles)
  }

  /** One turn of the unsubscribe loop; `failure` is what unsubscribing the handle returns. */
  function UnsubscribeOne(s: Subscriptions, topic: string, failure: Option<string>): (Subscriptions, seq<ClientError>) {
    if topic !in s.table then (s, [])
    else
      match (s.table[topic], failure)
      case (None, _) => (s.(table := s.table - {topic}), [])
      case (Some(_), Some(error)) => (s, [CannotUnsubscribe(topic, error)])
      case (Some(handle), None) => (Subscriptions(s.table - {topic}, s.live - {handle}), [])
  }

  function AfterUnsubscribe(
    s: Subscriptions, topics: seq<string>, failures: seq<Option<string>>): (Subscriptions, seq<ClientError>)
    requires |topics| == |failures|
  {
    if topics == [] then (s, [])
    else
      var n := |topics| - 1;
      var (before, errors) := AfterUnsubscribe(s, topics[..n], failures[..n]);
      var (after, more) := UnsubscribeOne(before, topics[n], failures[n]);
      (after, errors + more)
  }

  /** A call of `QueueSubscribe` with a callback on these channels. */
  datatype QueueSubscription<C> = QueueSubscription(subject: string, queueGroup: string, messages: C, errors: C)

  function TopicsOf<C>(topics: seq<TopicChannel<C>>): seq<string> {
    seq(|topics|, i requires 0 <= i < |topics| => topics[i].topic)
  }

  function RequestsFor<C>(topics: seq<TopicChannel<C>>, queueGroup: string, errors: C): seq<QueueSubscription<C>> {
    seq(|topics|, i requires 0 <= i < |topics| =>
      QueueSubscription(TopicToSubject(topics[i].topic), queueGroup, topics[i].messages, errors))
  }

  /** `live` and `requests` stand for the server: what it keeps, and what it was asked for. */
  class Client<C> {
    const queueGroup: string
    var connected: bool
    var existingSubscriptions: Table
    var live: set<Handle>
    var requests: seq<QueueSubscription<C>>

    constructor (connected: bool, queueGroup: string)
      ensures this.connected == connected && this.queueGroup == queueGroup
      ensures State() == Subscriptions(map[], {}) && requests == []
    {
      this.connected, this.queueGroup := connected, queueGroup;
      existingSubscriptions, live, requests := map[], {}, [];
    }

    function State(): Subscriptions
      reads this
    {
      Subscriptions(existingSubscriptions, live)
    }

    /** `answers[i]` is what the server answers to the i-th subscription, if it gets that far. */
    method Subscribe(topics: seq<TopicChannel<C>>, messageErrors: C, answers: seq<Answer>)
      returns (error: Option<ClientError>)
      requires |topics| == |answers|
      modifies this
      ensures connected == old(connected)
      ensures !connected ==> error == Some(NotConnected) && State() == old(State()) && requests == old(requests)
      ensures connected ==>
                var granted := |GrantedHandles(answers)|;
                && State() == AfterSubscribe(old(State()), TopicsOf(topics), answers)
                && error == (if granted == |topics| then None else Some(CannotSubscribe(answers[granted].error)))
                && requests == old(requests)
                   + RequestsFor(
                       if granted == |topics| then topics else topics[..granted + 1], queueGroup, messageErrors)
    {
      if !connected {
        return Some(NotConnected);
      }
      hide TopicToSubject, IsSubscribedUpTo, Put, AfterSubscribe, RequestsFor, GrantedHandles, TopicsOf;
      ghost var before, asked := State(), requests;
      NothingSubscribed(before, topics, answers);
      NoRequests(topics, queueGroup, messageErrors);
      var i := 0;
      while i < |topics|
        invariant 0 <= i <= |topics|
        invariant connected
        invariant IsSubscribedUpTo(before, topics, answers, i, State())
        invariant requests == asked + RequestsFor(topics[..i], queueGroup, messageErrors)
      {
        NextRequest(topics, queueGroup, messageErrors, i);
        NextSubscribed(before, topics, answers, i, State());
        var subscription :=
            QueueSubscribe(TopicToSubject(topics[i].topic), topics[i].messages, messageErrors, answers[i]);
        if subscription.Refused? {
          return Some(CannotSubscribe(subscription.error));
        }
        existingSubscriptions := existingSubscriptions[topics[i].topic := subscription.handle];
        i := i + 1;
      }
      AllSubscribed(before, topics, answers, State());
      assert topics[..i] == topics;
      error := None;
    }

    /** The server's side of a subscription. */
    method QueueSubscribe(subject: string, messages: C, errors: C, answer: Answer) returns (subscription: Answer)
      modifies this`requests, this`live
      ensures subscription == answer
      ensures requests == old(requests) + [QueueSubscription(subject, queueGroup, messages, errors)]
      ensures live == old(live) + if answer.Granted? && answer.handle.Some? then {answer.handle.value} else {}
    {
      requests := requests + [QueueSubscription(subject, queueGroup, messages, errors)];
      if answer.Granted? && answer.handle.Some? {
        live := live + {answer.handle.value};
      }
      subscription := answer;
    }

    /** `failures[i]` is what unsubscribing the i-th topic's handle returns, if that is attempted. */
    method Unsubscribe(topics: seq<string>, failures: seq<Option<string>>) returns (errors: seq<ClientError>)
      requires |topics| == |failures|
      modifies this
      ensures connected == old(connected) && requests == old(requests)
      ensures !connected ==> errors == [NotConnected] && State() == old(State())
      ensures connected ==> (State(), errors) == AfterUnsubscribe(old(State()), topics, failures)
    {
      if !connected {
        return [NotConnected];
      }
      errors := [];
      var i := 0;
      while i < |topics|
        invariant 0 <= i <= |topics|
        invariant connected == old(connected) && requests == old(requests)
        invariant (State(), errors) == AfterUnsubscribe(old(State()), topics[..i], failures[..i])
      {
        var topic := topics[i];
        assert topics[..i + 1][..i] == topics[..i] && failures[..i + 1][..i] == failures[..i];
        var before := errors;
        i := i + 1;
        if topic !in existingSubscriptions {
          assert before + [] == errors;
          continue;
        }
        var subscription := existingSubscriptions[topic];
        if subscription.Some? {
          if failures[i - 1].Some? {
            errors := errors + [CannotUnsubscribe(topic, failures[i - 1].value)];
            continue;
          }
          live := live - {subscription.value};
        }
        existingSubscriptions := existingSubscriptions - {topic};
        assert before + [] == errors;
      }
      assert topics[..i] == topics && failures[..i] == failures;
    }
  }

  lemma NoRequests<C>(topics: seq<TopicChannel<C>>, queueGroup: string, errors: C)
    ensures RequestsFor(topics[..0], queueGroup, errors) == []
  {
  }

  lemma NextRequest<C>(topics: seq<TopicChannel<C>>, queueGroup: string, errors: C, i: nat)
    requires i < |topics|
    ensures RequestsFor(topics[..i + 1], queueGroup, errors)
         == RequestsFor(topics[..i], queueGroup, errors)
          + [QueueSubscription(TopicToSubject(topics[i].topic), queueGroup, topics[i].messages, errors)]
  {
    hide TopicToSubject;
    assert topics[..i + 1] == topics[..i] + [topics[i]];
  }

  predicate AllGrantedBefore(answers: seq<Answer>, i: nat) {
    i <= |GrantedHandles(answers)| && GrantedHandles(answers)[i..] == GrantedHandles(answers[i..])
  }

  lemma NextHandle(answers: seq<Answer>, i: nat)
    requires i < |answers| && AllGrantedBefore(answers, i)
    ensures answers[i].Refused? ==>
        |GrantedHandles(answers)| == i && GrantedHandles(answers)[..i] == GrantedHandles(answers)
    ensures answers[i].Granted? ==>
              && i < |GrantedHandles(answers)| && GrantedHandles(answers)[i] == answers[i].handle
              && AllGrantedBefore(answers, i + 1)
  {
    assert answers[i..][1..] == answers[i + 1..];
    if answers[i].Granted? {
      assert GrantedHandles(answers)[i..][1..] == GrantedHandles(answers)[i + 1..];
    }
  }

  lemma PutNext(s: Subscriptions, topics: seq<string>, handles: seq<Option<Handle>>, i: nat)
    requires i < |topics| && i < |handles|
    ensures PutAll(s, topics[..i + 1], handles[..i + 1])
        == Put(PutAll(s, topics[..i], handles[..i]), topics[i], handles[i])
  {
    assert topics[..i + 1][..i] == topics[..i] && handles[..i + 1][..i] == handles[..i];
  }

  /** The first `i` subscriptions were granted, and `now` is the state after them. */
  predicate IsSubscribedUpTo<C>(
    before: Subscriptions, topics: seq<TopicChannel<C>>, answers: seq<Answer>, i: nat, now: Subscriptions)
  {
    && |topics| == |answers| && i <= |GrantedHandles(answers)| && AllGrantedBefore(answers, i)
    && now == PutAll(before, TopicsOf(topics)[..i], GrantedHandles(answers)[..i])
  }

  lemma NothingSubscribed<C>(before: Subscriptions, topics: seq<TopicChannel<C>>, answers: seq<Answer>)
    requires |topics| == |answers|
    ensures IsSubscribedUpTo(before, topics, answers, 0, before)
  {
    assert answers[0..] == answers;
  }

  lemma NextSubscribed<C>(
    before: Subscriptions, topics: seq<TopicChannel<C>>, answers: seq<Answer>, i: nat, now: Subscriptions)
    requires i < |topics| && IsSubscribedUpTo(before, topics, answers, i, now)
    ensures answers[i].Refused? ==>
        |GrantedHandles(answers)| == i && now == AfterSubscribe(before, TopicsOf(topics), answers)
    ensures answers[i].Granted? ==>
              var next := Subscriptions(now.table[topics[i].topic := answers[i].handle],
                                        now.live + if answers[i].handle.Some? then {answers[i].handle.value} else {});
              IsSubscribedUpTo(before, topics, answers, i + 1, next)
  {
    hide GrantedHandles, PutAll, AllGrantedBefore;
    NextHandle(answers, i);
    if answers[i].Granted? {
      PutNext(before, TopicsOf(topics), GrantedHandles(answers), i);
      assert now.live + {} == now.live;
    }
  }

  lemma AllSubscribed<C>(before: Subscriptions, topics: seq<TopicChannel<C>>, answers: seq<Answer>, now: Subscriptions)
    requires |topics| == |answers| && IsSubscribedUpTo(before, topics, answers, |topics|, now)
    ensures |GrantedHandles(answers)| == |topics| && now == AfterSubscribe(before, TopicsOf(topics), answers)
  {
    hide PutAll;
    assert GrantedHandles(answers)[..|topics|] == GrantedHandles(answers);
  }

  // ----- Subscribing, topic by topic -----

  /** The last of the topics that is this one. */
  predicate IsLastOf(topics: seq<string>, i: nat, topic: string) {
    i < |topics| && topics[i] == topic && forall j :: i < j < |topics| ==> topics[j] != topic
  }

  /** A topic is in the table with the handle of its last subscription; all other entries stay as they are. */
  lemma {:induction false} PutEntries(
    s: Subscriptions, topics: seq<string>, handles: seq<Option<Handle>>, topic: string)
    requires |topics| == |handles|
    ensures var after := PutAll(s, topics, handles).table;
            && (forall i: nat :: IsLastOf(topics, i, topic) ==> topic in after && after[topic] == handles[i])
            && (topic !in topics ==>
                  (topic in after <==> topic in s.table) && (topic in after ==> after[topic] == s.table[topic]))
    decreases |topics|
  {
    if topics != [] {
      var n := |topics| - 1;
      PutEntries(s, topics[..n], handles[..n], topic);
      assert topics[n] in topics && forall t :: t in topics[..n] ==> t in topics;
      forall i: nat | IsLastOf(topics, i, topic) && i < n
        ensures IsLastOf(topics[..n], i, topic)
      {
        assert forall j :: i < j < n ==> topics[..n][j] == topics[j];
      }
    }
  }

  /**
    If the first `n` subscriptions are granted and the next one, if there is one, is refused, each of the
    first `n` topics is in the table with the handle granted last, all others stay as they are, and the
    server was asked for each of them and the one refused: on the translated subject, in the client's
    queue group, with the topic's own message channel and the call's error channel.
   */
  lemma SubscribedEntries<C>(
    s: Subscriptions, topics: seq<TopicChannel<C>>, answers: seq<Answer>, n: nat, queueGroup: string, errors: C,
    topic: string)
    requires |topics| == |answers| && n <= |topics| && (n < |topics| ==> answers[n].Refused?)
    requires forall i :: 0 <= i < n ==> answers[i].Granted?
    ensures var after, names := AfterSubscribe(s, TopicsOf(topics), answers).table, TopicsOf(topics)[..n];
            && |GrantedHandles(answers)| == n
            && (forall i: nat :: IsLastOf(names, i, topic) ==> topic in after && after[topic] == answers[i].handle)
            && (topic !in names ==>
                  (topic in after <==> topic in s.table) && (topic in after ==> after[topic] == s.table[topic]))
    ensures forall i :: 0 <= i < |topics| ==>
              TopicsOf(topics)[i] == topics[i].topic
              && RequestsFor(topics, queueGroup, errors)[i]
                 == QueueSubscription(TopicToSubject(topics[i].topic), queueGroup, topics[i].messages, errors)
  {
    hide PutAll, TopicToSubject;
    var handles := GrantedHandles(answers);
    PutEntries(s, TopicsOf(topics)[..n], handles, topic);
  }

  // ----- Unsubscribing, topic by topic -----

  /** The i-th turn of the loop finds a handle, and unsubscribing it fails. */
  predicate IsFailedAttempt(table: Table, topics: seq<string>, failures: seq<Option<string>>, i: nat)
    requires i < |topics| == |failures|
  {
    && topics[i] in table && table[topics[i]].Some?
    && forall j :: 0 <= j <= i && topics[j] == topics[i] ==> failures[j].Some?
  }

  function FailedAttempts(table: Table, topics: seq<string>, failures: seq<Option<string>>, n: nat): seq<ClientError>
    requires n <= |topics| == |failures|
  {
    if n == 0 then []
    else
      FailedAttempts(table, topics, failures, n - 1)
      + if IsFailedAttempt(table, topics, failures, n - 1)
        then [CannotUnsubscribe(topics[n - 1], failures[n - 1].value)] else []
  }

  /** Topic `k` is kept: it is not listed, or it has a handle that could never be unsubscribed. */
  predicate IsKept(table: Table, topics: seq<string>, failures: seq<Option<string>>, k: string)
    requires |topics| == |failures|
  {
    k in table && forall j :: 0 <= j < |topics| && topics[j] == k ==> table[k].Some? && failures[j].Some?
  }

  /**
    Unsubscribing removes precisely the listed topics whose handle was nil or could be unsubscribed at
    one of its turns, and changes nothing else in the table; repeated topics and failures are no obstacle.
   */
  lemma {:induction false} UnsubscribeRemoves(
    s: Subscriptions, topics: seq<string>, failures: seq<Option<string>>, k: string)
    requires |topics| == |failures|
    ensures var after := AfterUnsubscribe(s, topics, failures).0.table;
            && (k in after <==> IsKept(s.table, topics, failures, k))
            && (k in after ==> after[k] == s.table[k])
    decreases |topics|
  {
    if topics != [] {
      var n := |topics| - 1;
      UnsubscribeRemoves(s, topics[..n], failures[..n], k);
      UnsubscribeRemoves(s, topics[..n], failures[..n], topics[n]);
      assert forall j :: 0 <= j < n ==> topics[..n][j] == topics[j] && failures[..n][j] == failures[j];
    }
  }

  /** It reports one error for each failed attempt, in order, and nothing else. */
  lemma {:induction false} UnsubscribeReports(s: Subscriptions, topics: seq<string>, failures: seq<Option<string>>)
    requires |topics| == |failures|
    ensures AfterUnsubscribe(s, topics, failures).1 == FailedAttempts(s.table, topics, failures, |topics|)
    decreases |topics|
  {
    if topics != [] {
      var n := |topics| - 1;
      UnsubscribeReports(s, topics[..n], failures[..n]);
      UnsubscribeRemoves(s, topics[..n], failures[..n], topics[n]);
      SameAttempts(s.table, topics, failures, n, n);
      assert forall j :: 0 <= j < n ==> topics[..n][j] == topics[j] && failures[..n][j] == failures[j];
    }
  }

  lemma {:induction false} SameAttempts(
    table: Table, topics: seq<string>, failures: seq<Option<string>>, n: nat, m: nat)
    requires m <= n <= |topics| == |failures|
    ensures FailedAttempts(table, topics[..n], failures[..n], m) == FailedAttempts(table, topics, failures, m)
    decreases m
  {
    if m > 0 {
      SameAttempts(table, topics, failures, n, m - 1);
    }
  }

  // ----- Agreement between the table and the server -----

  ghost predicate IsHandleOf(table: Table, handle: Handle) {
    exists t :: t in table && table[t] == Some(handle)
  }

  /** No two topics share a handle. */
  predicate IsInjective(table: Table) {
    forall t1, t2 :: t1 in table && t2 in table && t1 != t2 && table[t1].Some? ==> table[t1] != table[t2]
  }

  /** The live subscriptions are the table's handles and the lost ones, which no entry refers to. */
  ghost predicate AgreesBut(s: Subscriptions, lost: set<Handle>) {
    && IsInjective(s.table)
    && (forall h :: h in s.live <==> IsHandleOf(s.table, h) || h in lost)
    && (forall h :: h in lost ==> !IsHandleOf(s.table, h))
  }

  /** The live subscriptions are exactly the table's handles. */
  ghost predicate Agrees(s: Subscriptions) {
    forall h :: h in s.live <==> IsHandleOf(s.table, h)
  }

  lemma AgreesExactlyWhenNothingLost(s: Subscriptions, lost: set<Handle>)
    requires AgreesBut(s, lost)
    ensures Agrees(s) <==> lost == {}
  {
    if lost != {} {
      var h :| h in lost;
      assert h in s.live && !IsHandleOf(s.table, h);
    }
  }

  /** The handle that subscribing to `topic` makes the table forget. */
  function Overwritten(table: Table, topic: string): set<Handle> {
    if topic in table && table[topic].Some? then {table[topic].value} else {}
  }

  lemma PutLoses(s: Subscriptions, lost: set<Handle>, topic: string, handle: Option<Handle>)
    requires AgreesBut(s, lost) && (handle.Some? ==> handle.value !in s.live)
    ensures AgreesBut(Put(s, topic, handle), lost + Overwritten(s.table, topic))
  {
    var after := Put(s, topic, handle);
    forall h: Handle
      ensures IsHandleOf(after.table, h) <==>
          handle == Some(h) || (IsHandleOf(s.table, h) && h !in Overwritten(s.table, topic))
    {
      if IsHandleOf(s.table, h) && h !in Overwritten(s.table, topic) {
        var t :| t in s.table && s.table[t] == Some(h);
        assert t != topic && after.table[t] == Some(h);
      }
      if handle == Some(h) {
        assert after.table[topic] == Some(h);
      }
      if IsHandleOf(after.table, h) {
        var t :| t in after.table && after.table[t] == Some(h);
        assert t == topic || (t in s.table && s.table[t] == Some(h));
      }
    }
    forall t | t in s.table && s.table[t].Some?
      ensures IsHandleOf(s.table, s.table[t].value)
    {
    }
  }

  lemma RemoveLosesNothing(s: Subscriptions, lost: set<Handle>, topic: string, failure: Option<string>)
    requires AgreesBut(s, lost)
    ensures AgreesBut(UnsubscribeOne(s, topic, failure).0, lost)
  {
    var after := UnsubscribeOne(s, topic, failure).0;
    forall h: Handle
      ensures IsHandleOf(after.table, h) <==>
          IsHandleOf(s.table, h) && (topic in after.table || topic !in s.table || s.table[topic] != Some(h))
    {
      if IsHandleOf(s.table, h) {
        var t :| t in s.table && s.table[t] == Some(h);
        assert t != topic && t in s.table ==> t in after.table && after.table[t] == Some(h);
      }
    }
  }

  datatype Call =
    | Subscribe(topics: seq<string>, answers: seq<Answer>)
    | Unsubscribe(names: seq<string>, failures: seq<Option<string>>)

  predicate IsCall(call: Call) {
    match call
    case Subscribe(topics, answers) => |topics| == |answers|
    case Unsubscribe(names, failures) => |names| == |failures|
  }

  function AfterCall(s: Subscriptions, call: Call): Subscriptions
    requires IsCall(call)
  {
    match call
    case Subscribe(topics, answers) => AfterSubscribe(s, topics, answers)
    case Unsubscribe(names, failures) => AfterUnsubscribe(s, names, failures).0
  }

  /** Every granted handle is new: the server does not have it yet. */
  ghost predicate PutsAreFresh(s: Subscriptions, topics: seq<string>, handles: seq<Option<Handle>>)
    requires |topics| == |handles|
  {
    topics == [] ||
      var n := |topics| - 1;
      && PutsAreFresh(s, topics[..n], handles[..n])
      && (handles[n].Some? ==> handles[n].value !in PutAll(s, topics[..n], handles[..n]).live)
  }

  /** The handles that a call makes the table forget. */
  function LostByPuts(s: Subscriptions, topics: seq<string>, handles: seq<Option<Handle>>): set<Handle>
    requires |topics| == |handles|
  {
    if topics == [] then {}
    else
      var n := |topics| - 1;
      LostByPuts(s, topics[..n], handles[..n]) + Overwritten(PutAll(s, topics[..n], handles[..n]).table, topics[n])
  }

  ghost predicate IsFresh(s: Subscriptions, call: Call)
    requires IsCall(call)
  {
    call.Subscribe? ==>
      var handles := GrantedHandles(call.answers);
      PutsAreFresh(s, call.topics[..|handles|], handles)
  }

  function LostBy(s: Subscriptions, call: Call): set<Handle>
    requires IsCall(call)
  {
    match call
    case Subscribe(topics, answers) => LostByPuts(s, topics[..|GrantedHandles(answers)|], GrantedHandles(answers))
    case Unsubscribe(_, _) => {}
  }

  lemma {:induction false} PutsLose(
    s: Subscriptions, lost: set<Handle>, topics: seq<string>, handles: seq<Option<Handle>>)
    requires |topics| == |handles| && AgreesBut(s, lost) && PutsAreFresh(s, topics, handles)
    ensures AgreesBut(PutAll(s, topics, handles), lost + LostByPuts(s, topics, handles))
    decreases |topics|
  {
    hide AgreesBut;
    if topics != [] {
      var n := |topics| - 1;
      PutsLose(s, lost, topics[..n], handles[..n]);
      var before := PutAll(s, topics[..n], handles[..n]);
      PutLoses(before, lost + LostByPuts(s, topics[..n], handles[..n]), topics[n], handles[n]);
      assert lost + LostByPuts(s, topics, handles)
          == lost + LostByPuts(s, topics[..n], handles[..n]) + Overwritten(before.table, topics[n]);
    } else {
      assert lost + {} == lost;
    }
  }

  lemma {:induction false} UnsubscribeLosesNothing(
    s: Subscriptions, lost: set<Handle>, topics: seq<string>, failures: seq<Option<string>>)
    requires |topics| == |failures| && AgreesBut(s, lost)
    ensures AgreesBut(AfterUnsubscribe(s, topics, failures).0, lost)
    decreases |topics|
  {
    hide AgreesBut, UnsubscribeOne;
    if topics != [] {
      var n := |topics| - 1;
      UnsubscribeLosesNothing(s, lost, topics[..n], failures[..n]);
      RemoveLosesNothing(AfterUnsubscribe(s, topics[..n], failures[..n]).0, lost, topics[n], failures[n]);
    }
  }

  /** A run of calls on a new client. */
  function AfterCalls(calls: seq<Call>): Subscriptions
    requires forall i :: 0 <= i < |calls| ==> IsCall(calls[i])
  {
    if calls == [] then Subscriptions(map[], {})
    else
      var n := |calls| - 1;
      AfterCall(AfterCalls(calls[..n]), calls[n])
  }

  function Lost(calls: seq<Call>): set<Handle>
    requires forall i :: 0 <= i < |calls| ==> IsCall(calls[i])
  {
    if calls == [] then {}
    else
      var n := |calls| - 1;
      Lost(calls[..n]) + LostBy(AfterCalls(calls[..n]), calls[n])
  }

  ghost predicate AreFresh(calls: seq<Call>)
    requires forall i :: 0 <= i < |calls| ==> IsCall(calls[i])
  {
    calls == [] ||
      var n := |calls| - 1;
      AreFresh(calls[..n]) && IsFresh(AfterCalls(calls[..n]), calls[n])
  }

  lemma {:induction false} LostIsAllThatIsLost(calls: seq<Call>)
    requires (forall i :: 0 <= i < |calls| ==> IsCall(calls[i])) && AreFresh(calls)
    ensures AgreesBut(AfterCalls(calls), Lost(calls))
  {
    hide PutsAreFresh, LostByPuts, GrantedHandles, PutAll, AfterUnsubscribe;
    if calls == [] {
      NothingLostYet();
    } else {
      hide AgreesBut;
      var n := |calls| - 1;
      LostIsAllThatIsLost(calls[..n]);
      var s, lost := AfterCalls(calls[..n]), Lost(calls[..n]);
      match calls[n]
      case Subscribe(topics, answers) =>
        var handles := GrantedHandles(answers);
        PutsLose(s, lost, topics[..|handles|], handles);
      case Unsubscribe(names, failures) =>
        UnsubscribeLosesNothing(s, lost, names, failures);
        assert lost + {} == lost;
    }
  }

  lemma NothingLostYet()
    ensures AgreesBut(Subscriptions(map[], {}), {})
  {
  }

  /**
    After any run of subscribe and unsubscribe calls, with any outcomes, the server's live
    subscriptions are exactly the table's handles if and only if no subscribe call replaced an entry
    that still had a handle.
   */
  lemma TableAgreesExactlyWhenNothingOverwritten(calls: seq<Call>)
    requires (forall i :: 0 <= i < |calls| ==> IsCall(calls[i])) && AreFresh(calls)
    ensures Agrees(AfterCalls(calls)) <==> Lost(calls) == {}
  {
    hide AfterCalls, Lost, AreFresh, AgreesBut;
    LostIsAllThatIsLost(calls);
    AgreesExactlyWhenNothingLost(AfterCalls(calls), Lost(calls));
  }

  /** Subscribing a topic again leaves its first handle live, and no unsubscribe ever reaches it. */
  lemma ResubscribingLosesHandle()
    ensures var calls :=
        [Subscribe(["t"], [Granted(Some(1))]), Subscribe(["t"], [Granted(Some(2))]), Unsubscribe(["t"], [None])];
            (forall i :: 0 <= i < |calls| ==> IsCall(calls[i])) && AfterCalls(calls) == Subscriptions(map[], {1})
  {
    var first, second, third :=
        Subscribe(["t"], [Granted(Some(1))]), Subscribe(["t"], [Granted(Some(2))]), Unsubscribe(["t"], [None]);
    OneTopic(Subscriptions(map[], {}), "t", 1);
    OneTopic(Subscriptions(map["t" := Some(1)], {1}), "t", 2);
    var calls := [first, second, third];
    assert calls[..2] == [first, second] && [first, second][..1] == [first] && [first][..0] == [];
    assert AfterCalls([first]) == Subscriptions(map["t" := Some(1)], {1});
    assert AfterCalls([first, second]) == Subscriptions(map["t" := Some(2)], {1, 2});
    var failures: seq<Option<string>> := [None];
    assert ["t"][..0] == [] && failures[..0] == [];
    assert AfterUnsubscribe(AfterCalls([first, second]), ["t"], [None]).0.live == {1};
    assert AfterUnsubscribe(AfterCalls([first, second]), ["t"], [None]).0.table == map[];
  }

  lemma OneTopic(s: Subscriptions, topic: string, handle: Handle)
    ensures AfterSubscribe(s, [topic], [Granted(Some(handle))]) == Put(s, topic, Some(handle))
  {
    var answers := [Granted(Some(handle))];
    var handles: seq<Option<Handle>> := [Some(handle)];
    assert GrantedHandles(answers) == handles;
    assert [topic][..1] == [topic] && [topic][..0] == [] && handles[..0] == [];
    assert PutAll(s, [topic], handles) == Put(PutAll(s, [topic][..0], handles[..0]), topic, Some(handle));
  }
}
