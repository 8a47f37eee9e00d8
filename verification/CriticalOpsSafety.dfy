/** What holds in every interleaving of registrations, signals, waits and timeouts. */
module CriticalOpsSafety {
  import opened CriticalOps

  // ----- Counting operations -----

  /** What to count: operations whose goroutine has not counted down, and operations on one signal. */
  datatype Tally = Outstanding | Taken(signal: Signal) | On(signal: Signal)

  predicate IsTallied(o: Operation, tally: Tally) {
    match tally
    case Outstanding => o.phase == Blocked || o.phase == Phase.Received
    case Taken(c) => o.signal == c && o.phase != Blocked
    case On(c) => o.signal == c
  }

  function One(o: Operation, tally: Tally): nat {
    if IsTallied(o, tally) then 1 else 0
  }

  function Count(operations: seq<Operation>, tally: Tally): nat {
    if operations == [] then 0
    else
      var n := |operations| - 1;
      Count(operations[..n], tally) + One(operations[n], tally)
  }

  lemma CountAppend(operations: seq<Operation>, o: Operation, tally: Tally)
    ensures Count(operations + [o], tally) == Count(operations, tally) + One(o, tally)
  {
    assert (operations + [o])[..|operations|] == operations;
  }

  lemma {:induction false} CountUpdate(operations: seq<Operation>, i: nat, o: Operation, tally: Tally)
    requires i < |operations|
    ensures Count(operations[i := o], tally) == Count(operations, tally) - One(operations[i], tally) + One(o, tally)
  {
    hide One;
    var n := |operations| - 1;
    if i == n {
      assert operations[i := o][..n] == operations[..n];
    } else {
      CountUpdate(operations[..n], i, o, tally);
      assert operations[i := o][..n] == operations[..n][i := o];
    }
  }

  /** Counting among the first `n` operations. */
  lemma {:induction false} CountOfPrefix(operations: seq<Operation>, n: nat, tally: Tally)
    requires n <= |operations|
    ensures Count(operations[..n], tally) <= Count(operations, tally)
    decreases |operations|
  {
    if n < |operations| {
      CountOfPrefix(operations[..|operations| - 1], n, tally);
      assert operations[..|operations| - 1][..n] == operations[..n];
    } else {
      assert operations[..n] == operations;
    }
  }

  lemma {:induction false} NoneOutstanding(operations: seq<Operation>)
    ensures Count(operations, Outstanding) == 0 <==> forall i :: 0 <= i < |operations| ==> IsDone(operations[i])
  {
    if operations != [] {
      var n := |operations| - 1;
      NoneOutstanding(operations[..n]);
      assert forall i :: 0 <= i < n ==> operations[..n][i] == operations[i];
    }
  }

  /** The operation's goroutine has received the signal and counted down. */
  predicate IsDone(o: Operation) {
    o.phase == Counted || o.phase == Ended
  }

  // ----- The invariant -----

  predicate CounterAgrees(s: State) {
    s.counter == Count(s.operations, Outstanding)
  }

  predicate AreDoneBefore(operations: seq<Operation>, n: nat) {
    n <= |operations| && forall i :: 0 <= i < n ==> IsDone(operations[i])
  }

  predicate WaiterIsSound(s: State, waiter: Waiter) {
    && waiter.before <= |s.operations|
    && (waiter.worker == Asleep ==> s.counter > 0)
    && (waiter.worker in {Released, Passed, Finished} ==> AreDoneBefore(s.operations, waiter.before))
    && waiter.closes == (if waiter.worker == Finished then 1 else 0)
    && (waiter.caller == Returned(true) ==> waiter.worker == Finished)
  }

  predicate WaitersAreSound(s: State) {
    forall w :: 0 <= w < |s.waiters| ==> WaiterIsSound(s, s.waiters[w])
  }

  predicate SignalIsConserved(s: State, c: Signal) {
    && s.signals.received[c] <= s.signals.sent[c]
    && (c !in s.signals.closed ==> s.signals.received[c] == Count(s.operations, Taken(c)))
  }

  ghost predicate SignalsAreConserved(s: State) {
    forall c: Signal :: SignalIsConserved(s, c)
  }

  /** Some registration of `c` is under way, or its goroutine has not yet got to its delete. */
  predicate IsPending(s: State, c: Signal) {
    || s.lock == Registering(c, false)
    || exists i :: 0 <= i < |s.operations| && s.operations[i].signal == c && s.operations[i].phase != Ended
  }

  predicate RegistryIsPending(s: State) {
    && (forall c :: c in s.registry ==> s.registry[c] && IsPending(s, c))
    && (s.lock.Registering? && !s.lock.added ==> s.lock.signal in s.registry)
  }

  ghost predicate Invariant(s: State) {
    CounterAgrees(s) && WaitersAreSound(s) && SignalsAreConserved(s) && RegistryIsPending(s)
  }

  lemma StepKeepsCounter(s: State, move: Move)
    requires CounterAgrees(s) && IsEnabled(s, move)
    ensures CounterAgrees(Apply(s, move))
  {
    match move
    case AddAndStart => CountAppend(s.operations, Operation(s.lock.signal, Blocked), Outstanding);
    case Receive(i) => CountUpdate(s.operations, i, s.operations[i].(phase := Phase.Received), Outstanding);
    case Done(i) => CountUpdate(s.operations, i, s.operations[i].(phase := Counted), Outstanding);
    case Delete(i) => CountUpdate(s.operations, i, s.operations[i].(phase := Ended), Outstanding);
    case _ =>
  }

  lemma StepKeepsSignals(s: State, move: Move)
    requires SignalsAreConserved(s) && IsEnabled(s, move)
    ensures SignalsAreConserved(Apply(s, move))
  {
    forall c: Signal
      ensures SignalIsConserved(Apply(s, move), c)
    {
      assert SignalIsConserved(s, c);
      match move
      case AddAndStart => CountAppend(s.operations, Operation(s.lock.signal, Blocked), Taken(c));
      case Receive(i) =>
        CountUpdate(s.operations, i, s.operations[i].(phase := Phase.Received), Taken(c));
      case Done(i) => CountUpdate(s.operations, i, s.operations[i].(phase := Counted), Taken(c));
      case Delete(i) => CountUpdate(s.operations, i, s.operations[i].(phase := Ended), Taken(c));
      case _ =>
    }
  }

  /** An operation stays done. */
  lemma StepKeepsDone(s: State, move: Move, n: nat)
    requires IsEnabled(s, move) && AreDoneBefore(s.operations, n)
    ensures AreDoneBefore(Apply(s, move).operations, n)
  {
  }

  lemma StepKeepsWaiter(s: State, move: Move, w: nat)
    requires IsEnabled(s, move) && w < |s.waiters| && WaiterIsSound(s, s.waiters[w])
    requires Apply(s, move).counter >= 0
    requires s.counter == 0 ==> AreDoneBefore(s.operations, |s.operations|)
    requires Apply(s, move).counter == 0 ==> AreDoneBefore(Apply(s, move).operations, |Apply(s, move).operations|)
    ensures w < |Apply(s, move).waiters| && WaiterIsSound(Apply(s, move), Apply(s, move).waiters[w])
  {
    if AreDoneBefore(s.operations, s.waiters[w].before) {
      StepKeepsDone(s, move, s.waiters[w].before);
    }
  }

  lemma StepKeepsWaiters(s: State, move: Move)
    requires CounterAgrees(s) && WaitersAreSound(s) && IsEnabled(s, move)
    ensures WaitersAreSound(Apply(s, move))
  {
    var after := Apply(s, move);
    StepKeepsCounter(s, move);
    NoneOutstanding(s.operations);
    NoneOutstanding(after.operations);
    hide CounterAgrees, Count;
    forall w | 0 <= w < |after.waiters|
      ensures WaiterIsSound(after, after.waiters[w])
    {
      if w < |s.waiters| {
        assert WaiterIsSound(s, s.waiters[w]);
        StepKeepsWaiter(s, move, w);
      }
    }
  }

  lemma StepKeepsRegistry(s: State, move: Move)
    requires RegistryIsPending(s) && IsEnabled(s, move)
    ensures RegistryIsPending(Apply(s, move))
  {
    var after := Apply(s, move);
    forall c | c in after.registry
      ensures after.registry[c] && IsPending(after, c)
    {
      if s.lock == Registering(c, false) {
        if move == AddAndStart {
          assert after.operations[|s.operations|] == Operation(c, Blocked);
        }
      } else if move != BeginRegister(c) {
        assert c in s.registry;
        var i :| 0 <= i < |s.operations| && s.operations[i].signal == c && s.operations[i].phase != Ended;
        assert after.operations[i].signal == c && after.operations[i].phase != Ended;
      }
    }
  }

  lemma StepKeepsInvariant(s: State, move: Move)
    requires Invariant(s) && IsEnabled(s, move)
    ensures Invariant(Apply(s, move))
  {
    StepKeepsCounter(s, move);
    StepKeepsWaiters(s, move);
    StepKeepsSignals(s, move);
    StepKeepsRegistry(s, move);
    hide Apply, IsEnabled, CounterAgrees, WaitersAreSound, SignalsAreConserved, RegistryIsPending;
  }

  lemma {:induction false} InvariantAlways(moves: seq<Move>)
    requires IsRun(moves)
    ensures Invariant(After(moves))
  {
    if moves == [] {
      assert After([]) == INITIAL;
    } else {
      hide Apply, IsEnabled, Invariant;
      var n := |moves| - 1;
      InvariantAlways(moves[..n]);
      StepKeepsInvariant(After(moves[..n]), moves[n]);
    }
  }

  // ----- Waiting -----

  /** What is recorded about operations and waits never changes or gets lost. */
  predicate Extends(earlier: State, later: State) {
    && |earlier.operations| <= |later.operations|
    && (forall i :: 0 <= i < |earlier.operations| ==> later.operations[i].signal == earlier.operations[i].signal)
    && |earlier.waiters| <= |later.waiters|
    && (forall w :: 0 <= w < |earlier.waiters| ==> later.waiters[w].before == earlier.waiters[w].before)
  }

  lemma StepExtends(s: State, move: Move)
    requires IsEnabled(s, move)
    ensures Extends(s, Apply(s, move))
  {
  }

  lemma {:induction false} RunExtends(moves: seq<Move>, k: nat)
    requires IsRun(moves) && k <= |moves|
    ensures IsRun(moves[..k]) && Extends(After(moves[..k]), After(moves))
    decreases |moves|
  {
    hide Apply, IsEnabled;
    if k == |moves| {
      assert moves[..k] == moves;
    } else {
      var n := |moves| - 1;
      RunExtends(moves[..n], k);
      assert moves[..n][..k] == moves[..k];
      StepExtends(After(moves[..n]), moves[n]);
    }
  }

  /** The program has closed the channel, or has sent on it as often as it was registered. */
  predicate IsSignalled(signals: Signals, c: Signal, registrations: nat) {
    c in signals.closed || registrations <= signals.sent[c]
  }

  lemma {:induction false} DoneMeansTaken(operations: seq<Operation>, n: nat, c: Signal)
    requires AreDoneBefore(operations, n)
    ensures Count(operations[..n], On(c)) == Count(operations[..n], Taken(c))
    decreases n
  {
    if n > 0 {
      assert operations[..n][..n - 1] == operations[..n - 1];
      DoneMeansTaken(operations, n - 1, c);
    }
  }

  lemma {:induction false} SameSignalsSameCount(a: seq<Operation>, b: seq<Operation>, c: Signal)
    requires |a| == |b| && forall i :: 0 <= i < |a| ==> a[i].signal == b[i].signal
    ensures Count(a, On(c)) == Count(b, On(c))
  {
    if a != [] {
      var n := |a| - 1;
      SameSignalsSameCount(a[..n], b[..n], c);
    }
  }

  /**
    A wait that has returned true: every operation registered before the call was signalled, so often
    that each of them got its own signal, and each has been counted down.
   */
  lemma WaitIsSound(moves: seq<Move>, k: nat)
    requires IsRun(moves) && k < |moves| && moves[k] == CallWait
    ensures IsRun(moves[..k])
    ensures var atCall, now := After(moves[..k]), After(moves);
            && |atCall.waiters| < |now.waiters|
            && (now.waiters[|atCall.waiters|].caller == Returned(true) ==>
                  && AreDoneBefore(now.operations, |atCall.operations|)
                  && forall c :: IsSignalled(now.signals, c, Count(atCall.operations, On(c))))
  {
    RunExtends(moves, k);
    RunExtends(moves, k + 1);
    assert moves[..k + 1][..k] == moves[..k];
    var atCall, called, now := After(moves[..k]), After(moves[..k + 1]), After(moves);
    assert called == Apply(atCall, CallWait);
    var w := |atCall.waiters|;
    assert called.waiters[w].before == |atCall.operations|;
    InvariantAlways(moves);
    assert WaiterIsSound(now, now.waiters[w]);
    if now.waiters[w].caller == Returned(true) {
      SoundWait(atCall, now);
    }
  }

  lemma SoundWait(atCall: State, now: State)
    requires Extends(atCall, now) && Invariant(now) && AreDoneBefore(now.operations, |atCall.operations|)
    ensures forall c :: IsSignalled(now.signals, c, Count(atCall.operations, On(c)))
  {
    var n := |atCall.operations|;
    forall c
      ensures IsSignalled(now.signals, c, Count(atCall.operations, On(c)))
    {
      assert SignalIsConserved(now, c);
      SameSignalsSameCount(atCall.operations, now.operations[..n], c);
      DoneMeansTaken(now.operations, n, c);
      CountOfPrefix(now.operations, n, Taken(c));
    }
  }

  /** A waiter's done channel is closed at most once, after a timeout too, and before it reports success. */
  lemma DoneIsClosedAtMostOnce(moves: seq<Move>, w: nat)
    requires IsRun(moves) && w < |After(moves).waiters|
    ensures var waiter := After(moves).waiters[w];
            waiter.closes <= 1 && (waiter.caller == Returned(true) ==> waiter.closes == 1)
  {
    InvariantAlways(moves);
    assert WaiterIsSound(After(moves), After(moves).waiters[w]);
  }

  /** No wake-up is lost: a waiter sleeps only while some operation has not been counted down. */
  lemma SleepsOnlyWhileOutstanding(moves: seq<Move>, w: nat)
    requires IsRun(moves) && WorkerIs(After(moves), w, Asleep)
    ensures exists i :: 0 <= i < |After(moves).operations| && !IsDone(After(moves).operations[i])
  {
    InvariantAlways(moves);
    assert WaiterIsSound(After(moves), After(moves).waiters[w]);
    NoneOutstanding(After(moves).operations);
  }

  /** What a caller got: true when its select took the done channel, false when it timed out. */
  ghost predicate ReturnsAsSelected(moves: seq<Move>, waiters: seq<Waiter>) {
    forall w: nat ::
      && (w < |waiters| ==>
            && (waiters[w].caller == Returned(true) <==> SelectDone(w) in moves)
            && (waiters[w].caller == Returned(false) <==> TimeOut(w) in moves))
      && (w >= |waiters| ==> SelectDone(w) !in moves && TimeOut(w) !in moves)
  }

  lemma StepReturnsAsSelected(moves: seq<Move>, s: State, move: Move)
    requires IsEnabled(s, move) && ReturnsAsSelected(moves, s.waiters)
    ensures ReturnsAsSelected(moves + [move], Apply(s, move).waiters)
  {
    var after := Apply(s, move);
    assert forall m :: m in moves + [move] <==> m in moves || m == move;
    forall w: nat
      ensures w < |s.waiters| ==> w < |after.waiters|
      ensures w < |s.waiters| && move != SelectDone(w) && move != TimeOut(w) ==>
                after.waiters[w].caller == s.waiters[w].caller
    {
    }
  }

  lemma {:induction false} ReturnsExactlyWhenSelected(moves: seq<Move>)
    requires IsRun(moves)
    ensures ReturnsAsSelected(moves, After(moves).waiters)
  {
    if moves == [] {
      assert After([]) == INITIAL;
    } else {
      hide Apply, IsEnabled, ReturnsAsSelected;
      var n := |moves| - 1;
      ReturnsExactlyWhenSelected(moves[..n]);
      StepReturnsAsSelected(moves[..n], After(moves[..n]), moves[n]);
      assert moves[..n] + [moves[n]] == moves;
    }
  }

  function TimesSent(moves: seq<Move>, c: Signal): nat {
    if moves == [] then 0
    else
      var n := |moves| - 1;
      TimesSent(moves[..n], c) + if moves[n] == Send(c) then 1 else 0
  }

  /** What counts as signalled is what the program has sent and closed. */
  lemma {:induction false} SignalsAreThoseGiven(moves: seq<Move>, c: Signal)
    requires IsRun(moves)
    ensures After(moves).signals.sent[c] == TimesSent(moves, c)
    ensures c in After(moves).signals.closed <==> Close(c) in moves
  {
    if moves == [] {
      assert After([]) == INITIAL;
    } else {
      hide Apply, IsEnabled;
      var n := |moves| - 1;
      SignalsAreThoseGiven(moves[..n], c);
      StepSignals(After(moves[..n]), moves[n], c);
      assert moves == moves[..n] + [moves[n]];
    }
  }

  lemma StepSignals(s: State, move: Move, c: Signal)
    requires IsEnabled(s, move)
    ensures Apply(s, move).signals.sent[c] == s.signals.sent[c] + if move == Send(c) then 1 else 0
    ensures c in Apply(s, move).signals.closed <==> c in s.signals.closed || move == Close(c)
  {
  }

  // ----- The counter and the registry -----

  /** The counter is the number of registrations whose goroutine has not counted down; it is never negative. */
  lemma CounterIsConserved(moves: seq<Move>)
    requires IsRun(moves)
    ensures After(moves).counter == Count(After(moves).operations, Outstanding) >= 0
  {
    InvariantAlways(moves);
  }

  /** Once every goroutine has ended, and no registration is under way, the registry is empty. */
  lemma RegistryEmptiesOut(moves: seq<Move>)
    requires IsRun(moves)
    requires forall i :: 0 <= i < |After(moves).operations| ==> After(moves).operations[i].phase == Ended
    requires !After(moves).lock.Registering? || After(moves).lock.added
    ensures After(moves).registry == map[] && After(moves).counter == 0
  {
    InvariantAlways(moves);
    NoneOutstanding(After(moves).operations);
    var s := After(moves);
    assert forall c :: c in s.registry ==> IsPending(s, c);
  }

  /** The operation's goroutine has not yet got to its delete. */
  predicate IsLive(s: State, i: nat) {
    i < |s.operations| && s.operations[i].phase != Ended
  }

  /** Every operation that has not got to its delete is in the registry. */
  predicate PendingIsRegistered(s: State) {
    forall i :: 0 <= i < |s.operations| && IsLive(s, i) ==> s.operations[i].signal in s.registry
  }

  /** Two operations that have not got to their deletes share a signal. */
  predicate SharesSignal(s: State) {
    exists i, j ::
        0 <= i < j < |s.operations| && IsLive(s, i) && IsLive(s, j) && s.operations[i].signal == s.operations[j].signal
  }

  predicate IsTidy(s: State) {
    && PendingIsRegistered(s)
    && !SharesSignal(s)
    && (s.lock.Registering? && !s.lock.added ==>
          forall i :: 0 <= i < |s.operations| && IsLive(s, i) ==> s.operations[i].signal != s.lock.signal)
  }

  /** A signal is registered again only once it is pending no more. */
  predicate RegistersIdleSignal(s: State, move: Move) {
    move.BeginRegister? ==> !IsPending(s, move.signal)
  }

  predicate RegistersIdleSignalsFrom(s: State, moves: seq<Move>)
    requires IsRunFrom(s, moves)
    decreases |moves|
  {
    moves == [] ||
      var n := |moves| - 1;
      RegistersIdleSignalsFrom(s, moves[..n]) && RegistersIdleSignal(AfterFrom(s, moves[..n]), moves[n])
  }

  lemma StepKeepsTidy(s: State, move: Move)
    requires IsEnabled(s, move) && RegistryIsPending(s) && IsTidy(s) && RegistersIdleSignal(s, move)
    ensures IsTidy(Apply(s, move))
  {
    var after := Apply(s, move);
    forall i | 0 <= i < |s.operations|
      ensures IsLive(after, i) ==> IsLive(s, i)
      ensures after.operations[i].signal == s.operations[i].signal
    {
    }
    if move.BeginRegister? {
      assert forall i :: 0 <= i < |s.operations| && IsLive(s, i) ==> s.operations[i].signal != move.signal;
    }
  }

  lemma {:induction false} TidyAlwaysFrom(s: State, moves: seq<Move>)
    requires Invariant(s) && IsTidy(s) && IsRunFrom(s, moves) && RegistersIdleSignalsFrom(s, moves)
    ensures Invariant(AfterFrom(s, moves)) && IsTidy(AfterFrom(s, moves))
    decreases |moves|
  {
    hide Apply, IsEnabled, IsTidy, RegistersIdleSignal;
    if moves != [] {
      var n := |moves| - 1;
      TidyAlwaysFrom(s, moves[..n]);
      StepKeepsInvariant(AfterFrom(s, moves[..n]), moves[n]);
      StepKeepsTidy(AfterFrom(s, moves[..n]), moves[n]);
    }
  }

  lemma InitiallyTidy()
    ensures Invariant(INITIAL) && IsTidy(INITIAL)
  {
    InvariantAlways([]);
    assert After([]) == INITIAL;
  }

  /**
    If a signal is registered again only once it is pending no more, the registry holds exactly the
    signals whose registration or goroutine is pending.
   */
  lemma RegistryIsExact(moves: seq<Move>, c: Signal)
    requires IsRun(moves) && RegistersIdleSignalsFrom(INITIAL, moves)
    ensures c in After(moves).registry <==> IsPending(After(moves), c)
  {
    InitiallyTidy();
    TidyAlwaysFrom(INITIAL, moves);
  }

  lemma {:induction false} OutstandingFitIn(operations: seq<Operation>, keys: set<Signal>)
    requires forall i, j :: 0 <= i < j < |operations| && !IsDone(operations[i]) && !IsDone(operations[j]) ==>
               operations[i].signal != operations[j].signal
    requires forall i :: 0 <= i < |operations| && !IsDone(operations[i]) ==> operations[i].signal in keys
    ensures Count(operations, Outstanding) <= |keys|
  {
    if operations != [] {
      var n := |operations| - 1;
      assert forall i :: 0 <= i < n ==> operations[..n][i] == operations[i];
      if IsDone(operations[n]) {
        OutstandingFitIn(operations[..n], keys);
      } else {
        OutstandingFitIn(operations[..n], keys - {operations[n].signal});
      }
    }
  }

  /** And the counter is at most the size of the registry. */
  lemma CounterIsAtMostRegistry(moves: seq<Move>)
    requires IsRun(moves) && RegistersIdleSignalsFrom(INITIAL, moves)
    ensures After(moves).counter <= |After(moves).registry|
  {
    InitiallyTidy();
    TidyAlwaysFrom(INITIAL, moves);
    var s := After(moves);
    forall i, j | 0 <= i < j < |s.operations| && !IsDone(s.operations[i]) && !IsDone(s.operations[j])
      ensures s.operations[i].signal != s.operations[j].signal
    {
      assert IsLive(s, i) && IsLive(s, j);
    }
    forall i | 0 <= i < |s.operations| && !IsDone(s.operations[i])
      ensures s.operations[i].signal in s.registry.Keys
    {
      assert IsLive(s, i);
    }
    OutstandingFitIn(s.operations, s.registry.Keys);
    assert |s.registry| == |s.registry.Keys|;
  }

  /** No signal is registered twice. */
  predicate RegistersDistinctSignals(moves: seq<Move>) {
    forall j, k :: 0 <= j < k < |moves| && moves[j].BeginRegister? && moves[k].BeginRegister? ==>
        moves[j].signal != moves[k].signal
  }

  predicate SignalsCameFrom(s: State, moves: seq<Move>) {
    && (forall i :: 0 <= i < |s.operations| ==> BeginRegister(s.operations[i].signal) in moves)
    && (s.lock.Registering? ==> BeginRegister(s.lock.signal) in moves)
  }

  lemma StepKeepsOrigin(s: State, move: Move, moves: seq<Move>)
    requires IsEnabled(s, move) && SignalsCameFrom(s, moves)
    ensures SignalsCameFrom(Apply(s, move), moves + [move])
  {
    var after := Apply(s, move);
    assert forall m :: m in moves ==> m in moves + [move];
    assert (moves + [move])[|moves|] == move;
  }

  /** In particular, that is so if no signal is ever registered twice. */
  lemma {:induction false} DistinctSignalsAreIdle(moves: seq<Move>)
    requires IsRun(moves) && RegistersDistinctSignals(moves)
    ensures RegistersIdleSignalsFrom(INITIAL, moves) && SignalsCameFrom(After(moves), moves)
  {
    hide Apply, IsEnabled;
    if moves == [] {
      assert After([]) == INITIAL;
    } else {
      var n := |moves| - 1;
      var s := After(moves[..n]);
      assert forall k :: 0 <= k < n ==> moves[..n][k] == moves[k];
      DistinctSignalsAreIdle(moves[..n]);
      if moves[n].BeginRegister? && IsPending(s, moves[n].signal) {
        assert BeginRegister(moves[n].signal) in moves[..n];
      }
      hide SignalsCameFrom, RegistersDistinctSignals, IsPending;
      StepKeepsOrigin(s, moves[n], moves[..n]);
      assert moves[..n] + [moves[n]] == moves;
    }
  }

  // ----- Where the registry loses an operation -----

  /** Some continuation, although it registers only idle signals, loses a pending operation. */
  ghost predicate CanLoseOperation(s: State) {
    exists moves ::
      IsRunFrom(s, moves) && RegistersIdleSignalsFrom(s, moves) && !PendingIsRegistered(AfterFrom(s, moves))
  }

  /** A step that cannot panic. */
  lemma StepStaysValid(s: State, move: Move)
    requires Invariant(s) && IsEnabled(s, move) && !move.Wake?
    ensures Invariant(Apply(s, move)) && !Apply(s, move).panicked
  {
    StepKeepsInvariant(s, move);
    PanicsExactlyWhenReused(s, move);
  }

  lemma {:induction false} FirstMove(s: State, move: Move, moves: seq<Move>)
    requires IsEnabled(s, move) && IsRunFrom(Apply(s, move), moves)
    ensures IsRunFrom(s, [move] + moves) && AfterFrom(s, [move] + moves) == AfterFrom(Apply(s, move), moves)
    ensures RegistersIdleSignal(s, move) && RegistersIdleSignalsFrom(Apply(s, move), moves) ==>
              RegistersIdleSignalsFrom(s, [move] + moves)
    decreases |moves|
  {
    hide IsEnabled, Apply, RegistersIdleSignal;
    if moves == [] {
      assert [move] + moves == [] + [move];
      OneMoreMove(s, [], move);
      assert ([] + [move])[..0] == [];
    } else {
      var n := |moves| - 1;
      FirstMove(s, move, moves[..n]);
      assert ([move] + moves)[..n + 1] == [move] + moves[..n];
    }
  }

  /** What the goroutine of a pending operation needs next on its way to the delete. */
  function TowardsDelete(s: State, i: nat): Move
    requires IsLive(s, i)
  {
    match s.operations[i].phase
    case Blocked => if IsReady(s.signals, s.operations[i].signal) then Receive(i) else Send(s.operations[i].signal)
    case Received => Done(i)
    case Counted => Delete(i)
  }

  function StepsToDelete(s: State, i: nat): nat
    requires IsLive(s, i)
  {
    match s.operations[i].phase
    case Blocked => if IsReady(s.signals, s.operations[i].signal) then 3 else 4
    case Received => 2
    case Counted => 1
  }

  /**
    Two operations that share a signal, in any phases, signalled and closed or not: one of them can get
    to its delete, and then the other one is still pending and its signal is not in the registry.
   */
  lemma {:induction false} SharedSignalVanishes(s: State, i: nat, j: nat) returns (moves: seq<Move>)
    requires Invariant(s) && !s.panicked && s.lock == Free
    requires i != j && IsLive(s, i) && IsLive(s, j) && s.operations[i].signal == s.operations[j].signal
    ensures IsRunFrom(s, moves) && RegistersIdleSignalsFrom(s, moves)
    ensures var after := AfterFrom(s, moves);
            && IsLive(after, j) && after.operations[j].signal == s.operations[j].signal
            && s.operations[j].signal !in after.registry
    decreases StepsToDelete(s, i)
  {
    var next := TowardsDelete(s, i);
    assert SignalIsConserved(s, s.operations[i].signal);
    StepStaysValid(s, next);
    var after := Apply(s, next);
    var rest := [];
    if !next.Delete? {
      rest := SharedSignalVanishes(after, i, j);
    }
    FirstMove(s, next, rest);
    moves := [next] + rest;
  }

  /**
    While nobody registers, and every pending operation is in the registry: an operation can get lost,
    although signals are registered only when idle from here on, exactly when two of them share a signal.
   */
  lemma LosesOperationExactlyWhenShared(s: State)
    requires Invariant(s) && !s.panicked && s.lock == Free && PendingIsRegistered(s)
    ensures CanLoseOperation(s) <==> SharesSignal(s)
  {
    if SharesSignal(s) {
      var i, j :| 0 <= i < j < |s.operations| && IsLive(s, i) && IsLive(s, j)
          && s.operations[i].signal == s.operations[j].signal;
      var moves := SharedSignalVanishes(s, i, j);
      assert !PendingIsRegistered(AfterFrom(s, moves));
    } else {
      assert IsTidy(s);
      forall moves | IsRunFrom(s, moves) && RegistersIdleSignalsFrom(s, moves)
        ensures PendingIsRegistered(AfterFrom(s, moves))
      {
        TidyAlwaysFrom(s, moves);
      }
    }
  }

  /** The registration of `c` that nothing interrupts, after its first step. */
  lemma RegistrationEnds(s: State, c: Signal)
    requires Invariant(s) && !s.panicked && s.lock == Free
    ensures IsEnabled(s, BeginRegister(c))
    ensures var begun := Apply(s, BeginRegister(c));
            && IsEnabled(begun, AddAndStart) && IsEnabled(Apply(begun, AddAndStart), Unlock)
            && var registered := Apply(Apply(begun, AddAndStart), Unlock);
               && Invariant(registered) && !registered.panicked && registered.lock == Free
               && registered.operations == s.operations + [Operation(c, Blocked)]
  {
    hide Invariant;
    StepStaysValid(s, BeginRegister(c));
    var begun := Apply(s, BeginRegister(c));
    StepStaysValid(begun, AddAndStart);
    StepStaysValid(Apply(begun, AddAndStart), Unlock);
  }

  lemma RegisteringPendingLoses(s: State, c: Signal, i: nat)
    requires Invariant(s) && !s.panicked && s.lock == Free
    requires IsLive(s, i) && s.operations[i].signal == c
    ensures CanLoseOperation(Apply(s, BeginRegister(c)))
  {
    hide Invariant, IsEnabled, Apply;
    RegistrationEnds(s, c);
    var begun := Apply(s, BeginRegister(c));
    var added := Apply(begun, AddAndStart);
    var registered := Apply(added, Unlock);
    var moves := SharedSignalVanishes(registered, i, |s.operations|);
    FirstMove(added, Unlock, moves);
    FirstMove(begun, AddAndStart, [Unlock] + moves);
    assert !PendingIsRegistered(AfterFrom(begun, [AddAndStart] + ([Unlock] + moves)));
  }

  /**
    The sharp guard. As long as signals are only registered when idle, registering `c` is what lets an
    operation get lost exactly when `c` is pending: blocked, counted down but not deleted, or in between.
   */
  lemma RegisteringLosesExactlyWhenPending(s: State, c: Signal)
    requires Invariant(s) && !s.panicked && s.lock == Free && IsTidy(s)
    ensures CanLoseOperation(Apply(s, BeginRegister(c))) <==> IsPending(s, c)
  {
    hide Invariant, IsTidy, Apply;
    if IsPending(s, c) {
      var i :| 0 <= i < |s.operations| && s.operations[i].signal == c && s.operations[i].phase != Ended;
      RegisteringPendingLoses(s, c, i);
    } else {
      var begun := Apply(s, BeginRegister(c));
      StepStaysValid(s, BeginRegister(c));
      RegistryOf(s);
      StepKeepsTidy(s, BeginRegister(c));
      forall moves | IsRunFrom(begun, moves) && RegistersIdleSignalsFrom(begun, moves)
        ensures PendingIsRegistered(AfterFrom(begun, moves))
      {
        TidyAlwaysFrom(begun, moves);
        TidyIsRegistered(AfterFrom(begun, moves));
      }
    }
  }

  lemma RegistryOf(s: State)
    requires Invariant(s)
    ensures RegistryIsPending(s)
  {
  }

  lemma TidyIsRegistered(s: State)
    requires IsTidy(s)
    ensures PendingIsRegistered(s)
  {
  }

  lemma CounterCounts(s: State, i: nat)
    requires Invariant(s) && i < |s.operations| && !IsDone(s.operations[i])
    ensures s.counter > 0
  {
    NoneOutstanding(s.operations);
  }

  // ----- Panics -----

  /** The only step that panics is that of a woken waiter that finds the counter raised again. */
  lemma PanicsExactlyWhenReused(s: State, move: Move)
    requires Invariant(s) && IsEnabled(s, move)
    ensures Apply(s, move).panicked <==> move.Wake? && s.counter > 0
  {
    match move
    case Done(i) => CounterCounts(s, i);
    case AddAndStart =>
      assert forall w :: 0 <= w < |s.waiters| ==> WaiterIsSound(s, s.waiters[w]);
    case CloseDone(w) => assert WaiterIsSound(s, s.waiters[w]);
    case _ =>
  }

  /** No operation is registered between a waiter's release and its waking up. */
  predicate NeverReusesEarly(moves: seq<Move>)
    requires IsRun(moves)
  {
    moves == [] ||
      var n := |moves| - 1;
      && NeverReusesEarly(moves[..n])
      && (moves[n] == AddAndStart ==> !SomeWorkerIs(After(moves[..n]).waiters, Released))
  }

  lemma {:induction false} NoReuseNoPanic(moves: seq<Move>)
    requires IsRun(moves) && NeverReusesEarly(moves)
    ensures !After(moves).panicked
    ensures SomeWorkerIs(After(moves).waiters, Released) ==> After(moves).counter == 0
  {
    hide IsEnabled;
    if moves == [] {
      assert After([]) == INITIAL;
    } else {
      var n := |moves| - 1;
      var s := After(moves[..n]);
      NoReuseNoPanic(moves[..n]);
      InvariantAlways(moves[..n]);
      PanicsExactlyWhenReused(s, moves[n]);
      ReleasedAtZero(s, moves[n]);
      hide Apply, Invariant;
    }
  }

  lemma ReleasedAtZero(s: State, move: Move)
    requires Invariant(s) && IsEnabled(s, move)
    requires SomeWorkerIs(s.waiters, Released) ==> s.counter == 0
    requires move == AddAndStart ==> !SomeWorkerIs(s.waiters, Released)
    ensures SomeWorkerIs(Apply(s, move).waiters, Released) ==> Apply(s, move).counter == 0
    ensures move.Wake? ==> s.counter == 0
  {
    var after := Apply(s, move);
    if SomeWorkerIs(after.waiters, Released) {
      var w :| 0 <= w < |after.waiters| && after.waiters[w].worker == Released;
      if after.counter != 0 && w < |s.waiters| {
        assert s.waiters[w].worker == Released;
      }
    }
    if move.Wake? {
      assert s.waiters[move.waiter].worker == Released;
    }
    if move.Done? {
      CounterCounts(s, move.operation);
    }
  }

  /** And an operation registered in between makes the panic possible, in every state that allows it. */
  lemma ReuseCanPanic(s: State, w: nat, c: Signal)
    requires Invariant(s) && !s.panicked && s.lock == Free && WorkerIs(s, w, Released)
    ensures var moves := [BeginRegister(c), AddAndStart, Unlock, Wake(w)];
            IsRunFrom(s, moves) && AfterFrom(s, moves).panicked
  {
    var begun := Apply(s, BeginRegister(c));
    var added := Apply(begun, AddAndStart);
    StepKeepsInvariant(s, BeginRegister(c));
    StepKeepsInvariant(begun, AddAndStart);
    PanicsExactlyWhenReused(begun, AddAndStart);
    CounterCounts(added, |s.operations|);
    FourMoves(s, BeginRegister(c), AddAndStart, Unlock, Wake(w));
  }
}
