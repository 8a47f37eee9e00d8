/** Delivering messages to a NATS subscriber: hand over, then acknowledge, message after message. */
module NatsDelivery {
  import opened Wrappers
  import opened MessageEnvelopes

  /** One run of the callback: the message, how it decodes, and what acknowledging it returns. */
  datatype Delivery<V> = Delivery(
    id: nat,
    hasReply: bool,
    decoded: Result<MessageEnvelope<V>, string>,
    ackError: Option<string>)

  datatype Event<V> =
    | EnvelopeSent(id: nat, envelope: MessageEnvelope<V>)
    | DecodeErrorSent(id: nat, error: string)
    | AckAttempted(id: nat, synchronous: bool, result: Option<string>)
    | AckErrorSent(id: nat, error: string)

  predicate IsHandOver<V>(event: Event<V>) {
    event.EnvelopeSent? || event.DecodeErrorSent?
  }

  /** The message is handed over as its envelope, or as the error of decoding it. */
  ghost predicate HandsOver<V>(event: Event<V>, d: Delivery<V>) {
    match d.decoded
    case Success(envelope) => event == EnvelopeSent(d.id, envelope)
    case Failure(error) => event == DecodeErrorSent(d.id, error)
  }

  /** What the callback does with a message that needs an acknowledgement, after handing it over. */
  function AckEvents<V>(exactlyOnce: bool, d: Delivery<V>): seq<Event<V>> {
    if !d.hasReply then []
    else if d.ackError == None then [AckAttempted(d.id, exactlyOnce, None)]
    else [AckAttempted(d.id, exactlyOnce, d.ackError), AckErrorSent(d.id, d.ackError.value)]
  }

  function CallbackEvents<V>(exactlyOnce: bool, d: Delivery<V>): (r: seq<Event<V>>)
    ensures 1 <= |r| <= 3 && HandsOver(r[0], d)
    ensures r[1..] == AckEvents(exactlyOnce, d)
  {
    var handOver := match d.decoded
                    case Success(envelope) => EnvelopeSent(d.id, envelope)
                    case Failure(error) => DecodeErrorSent(d.id, error);
    [handOver] + AckEvents(exactlyOnce, d)
  }

  /** The callback of one subscription, and what it has done so far. */
  class Subscriber<V> {
    const exactlyOnce: bool
    var events: seq<Event<V>>

    constructor (exactlyOnce: bool)
      ensures this.exactlyOnce == exactlyOnce && events == []
    {
      this.exactlyOnce := exactlyOnce;
      events := [];
    }

    method OnMessage(d: Delivery<V>)
      modifies this
      ensures events == old(events) + CallbackEvents(exactlyOnce, d)
    {
      if d.decoded.Failure? {
        events := events + [DecodeErrorSent(d.id, d.decoded.error)];
      } else {
        events := events + [EnvelopeSent(d.id, d.decoded.value)];
      }
      if d.hasReply {
        var ackError;
        if exactlyOnce {
          ackError := AckSync(d);
        } else {
          ackError := Ack(d);
        }
        if ackError.Some? {
          events := events + [AckErrorSent(d.id, ackError.value)];
        }
      }
    }

    method AckSync(d: Delivery<V>) returns (error: Option<string>)
      modifies this
      ensures error == d.ackError && events == old(events) + [AckAttempted(d.id, true, error)]
    {
      error := d.ackError;
      events := events + [AckAttempted(d.id, true, error)];
    }

    method Ack(d: Delivery<V>) returns (error: Option<string>)
      modifies this
      ensures error == d.ackError && events == old(events) + [AckAttempted(d.id, false, error)]
    {
      error := d.ackError;
      events := events + [AckAttempted(d.id, false, error)];
    }
  }

  /** A subscription runs its callback for one message after another. */
  function AllEvents<V>(exactlyOnce: bool, deliveries: seq<Delivery<V>>): seq<Event<V>> {
    if deliveries == [] then []
    else
      var n := |deliveries| - 1;
      AllEvents(exactlyOnce, deliveries[..n]) + CallbackEvents(exactlyOnce, deliveries[n])
  }

  // ----- Acknowledged only after handing over -----

  /** An acknowledgement comes right after the message was handed over, and its error right after it. */
  predicate IsOrdered<V>(events: seq<Event<V>>) {
    forall i :: 0 <= i < |events| ==> IsOrderedAt(events, i)
  }

  predicate IsOrderedAt<V>(events: seq<Event<V>>, i: nat)
    requires i < |events|
  {
    match events[i]
    case EnvelopeSent(_, _) => true
    case DecodeErrorSent(_, _) => true
    case AckAttempted(id, _, _) => i > 0 && IsHandOver(events[i - 1]) && events[i - 1].id == id
    case AckErrorSent(id, error) =>
      i > 0 && events[i - 1].AckAttempted? && events[i - 1].id == id && events[i - 1].result == Some(error)
  }

  lemma {:induction false} AcksFollowHandOvers<V>(exactlyOnce: bool, deliveries: seq<Delivery<V>>)
    ensures IsOrdered(AllEvents(exactlyOnce, deliveries))
  {
    if deliveries != [] {
      var n := |deliveries| - 1;
      AcksFollowHandOvers(exactlyOnce, deliveries[..n]);
      OrderedOneByOne(AllEvents(exactlyOnce, deliveries[..n]), CallbackEvents(exactlyOnce, deliveries[n]));
    }
  }

  lemma OrderedOneByOne<V>(before: seq<Event<V>>, after: seq<Event<V>>)
    requires IsOrdered(before) && IsOrdered(after)
    ensures IsOrdered(before + after)
  {
    var all := before + after;
    forall i | 0 <= i < |all|
      ensures IsOrderedAt(all, i)
    {
      if i < |before| {
        assert IsOrderedAt(before, i);
      } else {
        assert IsOrderedAt(after, i - |before|);
      }
    }
  }

  // ----- Counting -----

  datatype Kind = HandOver | Ack | AckError

  predicate Is<V>(event: Event<V>, kind: Kind, id: nat) {
    && event.id == id
    && match kind
       case HandOver => IsHandOver(event)
       case Ack => event.AckAttempted?
       case AckError => event.AckErrorSent?
  }

  function Count<V>(events: seq<Event<V>>, kind: Kind, id: nat): nat {
    if events == [] then 0
    else Count(events[1..], kind, id) + if Is(events[0], kind, id) then 1 else 0
  }

  lemma {:induction false} CountAddsUp<V>(a: seq<Event<V>>, b: seq<Event<V>>, kind: Kind, id: nat)
    ensures Count(a + b, kind, id) == Count(a, kind, id) + Count(b, kind, id)
  {
    hide Is;
    if a == [] {
      assert a + b == b;
    } else {
      CountAddsUp(a[1..], b, kind, id);
      assert (a + b)[1..] == a[1..] + b;
    }
  }

  lemma CountsAddUp<V>(a: seq<Event<V>>, b: seq<Event<V>>, id: nat)
    ensures forall kind :: Count(a + b, kind, id) == Count(a, kind, id) + Count(b, kind, id)
  {
    forall kind ensures Count(a + b, kind, id) == Count(a, kind, id) + Count(b, kind, id) {
      CountAddsUp(a, b, kind, id);
    }
  }

  function One<V>(event: Event<V>, kind: Kind, id: nat): nat {
    if Is(event, kind, id) then 1 else 0
  }

  lemma CountUpToThree<V>(events: seq<Event<V>>, kind: Kind, id: nat)
    requires |events| <= 3
    ensures Count(events, kind, id)
         == (if |events| > 0 then One(events[0], kind, id) else 0)
          + (if |events| > 1 then One(events[1], kind, id) else 0)
          + (if |events| > 2 then One(events[2], kind, id) else 0)
  {
    hide Is;
    if |events| > 0 {
      assert events[1..] == [] || events[1..][0] == events[1];
      if |events| > 1 {
        assert |events| == 2 || events[1..][1..][0] == events[2];
        assert |events| == 2 || events[1..][1..][1..] == [];
      }
    }
  }

  /** What has been counted somewhere in the middle of a callback, or at its end. */
  predicate PartCounts<V>(d: Delivery<V>, handOvers: nat, acks: nat, ackErrors: nat, isComplete: bool, id: nat) {
    && acks <= handOvers <= 1
    && (d.id != id ==> handOvers == ackErrors == 0)
    && (isComplete && d.id == id ==> handOvers == 1 && ackErrors == if d.hasReply && d.ackError.Some? then 1 else 0)
  }

  lemma CallbackCounts<V>(exactlyOnce: bool, d: Delivery<V>, part: seq<Event<V>>, id: nat)
    requires part <= CallbackEvents(exactlyOnce, d)
    ensures PartCounts(d, Count(part, HandOver, id), Count(part, Ack, id), Count(part, AckError, id),
                       part == CallbackEvents(exactlyOnce, d), id)
  {
    CountUpToThree(part, HandOver, id);
    CountUpToThree(part, Ack, id);
    CountUpToThree(part, AckError, id);
    hide Count;
    var events := CallbackEvents(exactlyOnce, d);
    assert |events| > 1 ==> events[1] == events[1..][0];
    assert |events| > 2 ==> events[2] == events[1..][1];
  }

  // ----- Exactly what a run does -----

  /** The delivery calls for a hand-over, for an acknowledgement, or for its error to be reported. */
  predicate CallsFor<V>(d: Delivery<V>, kind: Kind) {
    match kind
    case HandOver => true
    case Ack => d.hasReply
    case AckError => d.hasReply && d.ackError.Some?
  }

  function CallsForOne<V>(d: Delivery<V>, kind: Kind, id: nat): nat {
    if d.id == id && CallsFor(d, kind) then 1 else 0
  }

  /** How many deliveries of the message call for it. */
  function Calling<V>(deliveries: seq<Delivery<V>>, kind: Kind, id: nat): nat {
    if deliveries == [] then 0
    else
      var n := |deliveries| - 1;
      Calling(deliveries[..n], kind, id) + CallsForOne(deliveries[n], kind, id)
  }

  lemma CallbackDoesWhatIsCalledFor<V>(exactlyOnce: bool, d: Delivery<V>, kind: Kind, id: nat)
    ensures Count(CallbackEvents(exactlyOnce, d), kind, id) == CallsForOne(d, kind, id)
  {
    var events := CallbackEvents(exactlyOnce, d);
    CountUpToThree(events, kind, id);
    hide Count;
    assert |events| > 1 ==> events[1] == events[1..][0];
    assert |events| > 2 ==> events[2] == events[1..][1];
  }

  /**
    Every message is handed over once for each of its deliveries, acknowledged once for each of them that
    has a reply subject, and an acknowledgement error reported once for each of those that fail.
   */
  lemma {:induction false} RunDoesWhatIsCalledFor<V>(
    exactlyOnce: bool, deliveries: seq<Delivery<V>>, kind: Kind, id: nat)
    ensures Count(AllEvents(exactlyOnce, deliveries), kind, id) == Calling(deliveries, kind, id)
  {
    hide CallbackEvents, CallsForOne;
    if deliveries != [] {
      var n := |deliveries| - 1;
      RunDoesWhatIsCalledFor(exactlyOnce, deliveries[..n], kind, id);
      CountAddsUp(AllEvents(exactlyOnce, deliveries[..n]), CallbackEvents(exactlyOnce, deliveries[n]), kind, id);
      CallbackDoesWhatIsCalledFor(exactlyOnce, deliveries[n], kind, id);
    }
  }

  /** The event belongs to the delivery: its envelope or its errors, and the kind of acknowledgement configured. */
  ghost predicate Fits<V>(event: Event<V>, exactlyOnce: bool, d: Delivery<V>) {
    match event
    case EnvelopeSent(_, _) => HandsOver(event, d)
    case DecodeErrorSent(_, _) => HandsOver(event, d)
    case AckAttempted(id, synchronous, result) =>
      d.hasReply && id == d.id && synchronous == exactlyOnce && result == d.ackError
    case AckErrorSent(id, error) => d.hasReply && id == d.id && d.ackError == Some(error)
  }

  /** Which delivery each event of a run belongs to: the `k`-th event to `deliveries[owner[k]]`. */
  ghost predicate AreOwned<V>(events: seq<Event<V>>, exactlyOnce: bool, deliveries: seq<Delivery<V>>, owner: seq<nat>) {
    && |owner| == |events|
    && (forall k :: 0 <= k < |owner| ==> owner[k] < |deliveries|)
    && (forall k :: 0 <= k < |events| ==> Fits(events[k], exactlyOnce, deliveries[owner[k]]))
    && (forall j, k :: 0 <= j < k < |owner| ==> owner[j] <= owner[k])
  }

  lemma CallbackFits<V>(exactlyOnce: bool, d: Delivery<V>)
    ensures var events := CallbackEvents(exactlyOnce, d);
            forall k :: 0 <= k < |events| ==> Fits(events[k], exactlyOnce, d)
  {
    var events := CallbackEvents(exactlyOnce, d);
    assert |events| > 1 ==> events[1] == events[1..][0];
    assert |events| > 2 ==> events[2] == events[1..][1];
  }

  /**
    Message after message: every event of a run belongs to a delivery, in the order of the deliveries; what
    is handed over is that delivery's envelope or decode error; and every acknowledgement is synchronous
    exactly when delivery is exactly once.
   */
  lemma {:induction false} EventsFitDeliveries<V>(exactlyOnce: bool, deliveries: seq<Delivery<V>>)
    returns (owner: seq<nat>)
    ensures AreOwned(AllEvents(exactlyOnce, deliveries), exactlyOnce, deliveries, owner)
  {
    hide CallbackEvents, Fits;
    owner := [];
    if deliveries != [] {
      var n := |deliveries| - 1;
      var before := EventsFitDeliveries(exactlyOnce, deliveries[..n]);
      var last := CallbackEvents(exactlyOnce, deliveries[n]);
      CallbackFits(exactlyOnce, deliveries[n]);
      owner := before + seq(|last|, _ => n);
      var events := AllEvents(exactlyOnce, deliveries);
      forall k | 0 <= k < |events|
        ensures owner[k] < |deliveries| && Fits(events[k], exactlyOnce, deliveries[owner[k]])
      {
        if k < |before| {
          assert deliveries[..n][before[k]] == deliveries[before[k]];
        } else {
          assert events[k] == last[k - |before|];
        }
      }
    }
  }

  // ----- At most one hand-over more than failed acknowledgements -----

  predicate AckFails<V>(d: Delivery<V>) {
    d.hasReply && d.ackError.Some?
  }

  /** A message comes again only after acknowledging it was attempted, and failed. */
  predicate RedeliversOnlyAfterFailedAck<V>(deliveries: seq<Delivery<V>>) {
    forall j, k :: 0 <= j < k < |deliveries| && deliveries[j].id == deliveries[k].id ==> AckFails(deliveries[j])
  }

  /** Every delivery of the message so far could not be acknowledged. */
  predicate AllAcksFail<V>(deliveries: seq<Delivery<V>>, id: nat) {
    forall k :: 0 <= k < |deliveries| && deliveries[k].id == id ==> AckFails(deliveries[k])
  }

  predicate WithinBounds(handOvers: nat, acks: nat, ackErrors: nat, onlyAfterFailure: bool, allFail: bool) {
    && acks <= handOvers
    && (onlyAfterFailure ==> handOvers <= 1 + ackErrors)
    && (onlyAfterFailure && allFail ==> handOvers <= ackErrors)
  }

  predicate IsWithinBounds<V>(deliveries: seq<Delivery<V>>, events: seq<Event<V>>, id: nat) {
    WithinBounds(Count(events, HandOver, id), Count(events, Ack, id), Count(events, AckError, id),
                 RedeliversOnlyAfterFailedAck(deliveries), AllAcksFail(deliveries, id))
  }

  lemma {:induction false} CompletedDeliveries<V>(exactlyOnce: bool, deliveries: seq<Delivery<V>>, id: nat)
    ensures IsWithinBounds(deliveries, AllEvents(exactlyOnce, deliveries), id)
  {
    hide CallbackEvents;
    if deliveries != [] {
      var n := |deliveries| - 1;
      CompletedDeliveries(exactlyOnce, deliveries[..n], id);
      var before, last := AllEvents(exactlyOnce, deliveries[..n]), CallbackEvents(exactlyOnce, deliveries[n]);
      CountsAddUp(before, last, id);
      CallbackCounts(exactlyOnce, deliveries[n], last, id);
      hide Count, AllEvents;
      OneDeliveryLess(deliveries, id);
    }
  }

  lemma OneDeliveryLess<V>(deliveries: seq<Delivery<V>>, id: nat)
    requires deliveries != []
    ensures var n := |deliveries| - 1;
            && (RedeliversOnlyAfterFailedAck(deliveries) ==> RedeliversOnlyAfterFailedAck(deliveries[..n]))
            && (RedeliversOnlyAfterFailedAck(deliveries) && deliveries[n].id == id ==> AllAcksFail(deliveries[..n], id))
            && (AllAcksFail(deliveries, id) <==>
                AllAcksFail(deliveries[..n], id) && (deliveries[n].id == id ==> AckFails(deliveries[n])))
  {
    var n := |deliveries| - 1;
    assert forall k :: 0 <= k < n ==> deliveries[..n][k] == deliveries[k];
  }

  /**
    At every point of every run, in the middle of a callback too: a message has been acknowledged at
    most as often as it has been handed over; and if messages are redelivered only after a failed
    acknowledgement, it has been handed over at most once more than acknowledgement errors have been
    reported for it.
   */
  lemma {:induction false} HandOversAndAcks<V>(
    exactlyOnce: bool, deliveries: seq<Delivery<V>>, soFar: seq<Event<V>>, id: nat)
    requires soFar <= AllEvents(exactlyOnce, deliveries)
    ensures Count(soFar, Ack, id) <= Count(soFar, HandOver, id)
    ensures RedeliversOnlyAfterFailedAck(deliveries) ==> Count(soFar, HandOver, id) <= 1 + Count(soFar, AckError, id)
    decreases |deliveries|
  {
    hide CallbackEvents;
    if deliveries != [] {
      var n := |deliveries| - 1;
      var before, last := AllEvents(exactlyOnce, deliveries[..n]), CallbackEvents(exactlyOnce, deliveries[n]);
      OneDeliveryLess(deliveries, id);
      if |soFar| <= |before| {
        assert soFar == (before + last)[..|soFar|] == before[..|soFar|];
        HandOversAndAcks(exactlyOnce, deliveries[..n], soFar, id);
      } else {
        var part := last[..|soFar| - |before|];
        assert soFar == (before + last)[..|soFar|] == before + part;
        CompletedDeliveries(exactlyOnce, deliveries[..n], id);
        CountsAddUp(before, part, id);
        CallbackCounts(exactlyOnce, deliveries[n], part, id);
        hide Count, AllEvents;
      }
    }
  }
}
