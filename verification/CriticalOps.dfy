/** The critical operation manager: its registry, its counter, and every interleaving of its goroutines. */
module CriticalOps {
  /** A finish signal: the identity of a channel. */
  type Signal = nat

  /** The goroutine of one registration: `<-finishSignal`, then `waitGroup.Done()`, then the delete. */
  datatype Phase = Blocked | Received | Counted | Ended

  datatype Operation = Operation(signal: Signal, phase: Phase)

  /** `Registering` holds the lock; `added` says whether the counter was raised and the goroutine started. */
  datatype Lock = Free | Registering(signal: Signal, added: bool)

  /** The goroutine of one wait: `waitGroup.Wait()`, asleep or not, and then `close(done)`. */
  datatype Worker = Starting | Asleep | Released | Passed | Finished

  datatype Caller = Selecting | Returned(value: bool)

  /** One call of wait; `before` is the number of operations registered before it. */
  datatype Waiter = Waiter(before: nat, worker: Worker, closes: nat, caller: Caller)

  /** What the program sends on, closes, and has received from the finish signals. */
  datatype Signals = Signals(sent: multiset<Signal>, closed: set<Signal>, received: multiset<Signal>)

  datatype State = State(
    registry: map<Signal, bool>,
    counter: int,
    lock: Lock,
    operations: seq<Operation>,
    waiters: seq<Waiter>,
    signals: Signals,
    panicked: bool)

  const INITIAL := State(map[], 0, Free, [], [], Signals(multiset{}, {}, multiset{}), false)

  /** An atomic step of the program around the manager, or of one of the manager's goroutines. */
  datatype Move =
    | Send(signal: Signal)
    | Close(signal: Signal)
    | BeginRegister(signal: Signal)
    | AddAndStart
    | Unlock
    | Receive(operation: nat)
    | Done(operation: nat)
    | Delete(operation: nat)
    | CallWait
    | StartWorker(waiter: nat)
    | Wake(waiter: nat)
    | CloseDone(waiter: nat)
    | SelectDone(waiter: nat)
    | TimeOut(waiter: nat)

  predicate IsIn(s: State, i: nat, phase: Phase) {
    i < |s.operations| && s.operations[i].phase == phase
  }

  predicate WorkerIs(s: State, w: nat, worker: Worker) {
    w < |s.waiters| && s.waiters[w].worker == worker
  }

  predicate IsSelecting(s: State, w: nat) {
    w < |s.waiters| && s.waiters[w].caller == Selecting
  }

  /** A receive from the channel does not block. */
  predicate IsReady(signals: Signals, signal: Signal) {
    signal in signals.closed || signals.received[signal] < signals.sent[signal]
  }

  predicate IsEnabled(s: State, move: Move) {
    && !s.panicked
    && match move
       case Send(c) => c !in s.signals.closed
       case Close(c) => c !in s.signals.closed
       case BeginRegister(_) => s.lock == Free
       case AddAndStart => s.lock.Registering? && !s.lock.added
       case Unlock => s.lock.Registering? && s.lock.added
       case Receive(i) => IsIn(s, i, Blocked) && IsReady(s.signals, s.operations[i].signal)
       case Done(i) => IsIn(s, i, Received)
       case Delete(i) => IsIn(s, i, Counted) && s.lock == Free
       case CallWait => true
       case StartWorker(w) => WorkerIs(s, w, Starting)
       case Wake(w) => WorkerIs(s, w, Released)
       case CloseDone(w) => WorkerIs(s, w, Passed)
       case SelectDone(w) => IsSelecting(s, w) && s.waiters[w].closes > 0
       case TimeOut(w) => IsSelecting(s, w)
  }

  function InPhase(operations: seq<Operation>, i: nat, phase: Phase): seq<Operation>
    requires i < |operations|
  {
    operations[i := operations[i].(phase := phase)]
  }

  function WithWorker(waiters: seq<Waiter>, w: nat, worker: Worker): seq<Waiter>
    requires w < |waiters|
  {
    waiters[w := waiters[w].(worker := worker)]
  }

  function ReleaseAll(waiters: seq<Waiter>): seq<Waiter> {
    seq(|waiters|, w requires 0 <= w < |waiters| =>
      if waiters[w].worker == Asleep then waiters[w].(worker := Released) else waiters[w])
  }

  predicate SomeWorkerIs(waiters: seq<Waiter>, worker: Worker) {
    exists w :: 0 <= w < |waiters| && waiters[w].worker == worker
  }

  /**
    `waitGroup.Add` with its panics: a counter below zero, and a counter raised from zero while someone
    still waits. Reaching zero releases everyone who waits.
   */
  function AddTo(s: State, delta: int): State {
    var counter := s.counter + delta;
    var misused := counter < 0 || (delta > 0 && counter == delta && SomeWorkerIs(s.waiters, Asleep));
    s.(counter := counter,
       waiters := if counter == 0 then ReleaseAll(s.waiters) else s.waiters,
       panicked := misused)
  }

  function Apply(s: State, move: Move): State
    requires IsEnabled(s, move)
  {
    match move
    case Send(c) => s.(signals := s.signals.(sent := s.signals.sent + multiset{c}))
    case Close(c) => s.(signals := s.signals.(closed := s.signals.closed + {c}))
    case BeginRegister(c) => s.(lock := Registering(c, false), registry := s.registry[c := true])
    case AddAndStart =>
      AddTo(s, 1).(lock := Registering(s.lock.signal, true),
                   operations := s.operations + [Operation(s.lock.signal, Blocked)])
    case Unlock => s.(lock := Free)
    case Receive(i) =>
      var c := s.operations[i].signal;
      s.(operations := InPhase(s.operations, i, Received),
         signals := if s.signals.received[c] < s.signals.sent[c]
                    then s.signals.(received := s.signals.received + multiset{c}) else s.signals)
    case Done(i) => AddTo(s, -1).(operations := InPhase(s.operations, i, Counted))
    case Delete(i) =>
      s.(operations := InPhase(s.operations, i, Ended), registry := s.registry - {s.operations[i].signal})
    case CallWait => s.(waiters := s.waiters + [Waiter(|s.operations|, Starting, 0, Selecting)])
    case StartWorker(w) => s.(waiters := WithWorker(s.waiters, w, if s.counter == 0 then Passed else Asleep))
    case Wake(w) =>
      // A woken waiter that finds the counter raised again panics: the wait group was reused too early.
      s.(waiters := WithWorker(s.waiters, w, Passed), panicked := s.counter != 0)
    case CloseDone(w) =>
      s.(waiters := s.waiters[w := s.waiters[w].(worker := Finished, closes := s.waiters[w].closes + 1)],
         panicked := s.waiters[w].closes > 0)
    case SelectDone(w) => s.(waiters := s.waiters[w := s.waiters[w].(caller := Returned(true))])
    case TimeOut(w) => s.(waiters := s.waiters[w := s.waiters[w].(caller := Returned(false))])
  }

  predicate IsRunFrom(s: State, moves: seq<Move>)
    decreases |moves|, 0
  {
    moves == [] ||
      var n := |moves| - 1;
      IsRunFrom(s, moves[..n]) && IsEnabled(AfterFrom(s, moves[..n]), moves[n])
  }

  function AfterFrom(s: State, moves: seq<Move>): State
    requires IsRunFrom(s, moves)
    decreases |moves|, 1
  {
    if moves == [] then s
    else
      var n := |moves| - 1;
      Apply(AfterFrom(s, moves[..n]), moves[n])
  }

  /** A run of the program, in any interleaving, from a new manager on. */
  predicate IsRun(moves: seq<Move>) {
    IsRunFrom(INITIAL, moves)
  }

  function After(moves: seq<Move>): State
    requires IsRun(moves)
  {
    AfterFrom(INITIAL, moves)
  }

  lemma OneMoreMove(s: State, moves: seq<Move>, move: Move)
    requires IsRunFrom(s, moves) && IsEnabled(AfterFrom(s, moves), move)
    ensures IsRunFrom(s, moves + [move]) && AfterFrom(s, moves + [move]) == Apply(AfterFrom(s, moves), move)
  {
    hide IsEnabled, Apply;
    assert (moves + [move])[..|moves|] == moves;
  }

  lemma TwoMoves(s: State, a: Move, b: Move)
    requires IsEnabled(s, a) && IsEnabled(Apply(s, a), b)
    ensures IsRunFrom(s, [a, b]) && AfterFrom(s, [a, b]) == Apply(Apply(s, a), b)
  {
    hide IsEnabled, Apply;
    OneMoreMove(s, [], a);
    OneMoreMove(s, [a], b);
    assert [] + [a] == [a] && [a] + [b] == [a, b];
  }

  lemma ThreeMoves(s: State, a: Move, b: Move, c: Move)
    requires IsEnabled(s, a) && IsEnabled(Apply(s, a), b) && IsEnabled(Apply(Apply(s, a), b), c)
    ensures IsRunFrom(s, [a, b, c]) && AfterFrom(s, [a, b, c]) == Apply(Apply(Apply(s, a), b), c)
  {
    hide IsEnabled, Apply;
    TwoMoves(s, a, b);
    OneMoreMove(s, [a, b], c);
    assert [a, b] + [c] == [a, b, c];
  }

  lemma FourMoves(s: State, a: Move, b: Move, c: Move, d: Move)
    requires IsEnabled(s, a) && IsEnabled(Apply(s, a), b) && IsEnabled(Apply(Apply(s, a), b), c)
    requires IsEnabled(Apply(Apply(Apply(s, a), b), c), d)
    ensures IsRunFrom(s, [a, b, c, d]) && AfterFrom(s, [a, b, c, d]) == Apply(Apply(Apply(Apply(s, a), b), c), d)
  {
    hide IsEnabled, Apply;
    ThreeMoves(s, a, b, c);
    OneMoreMove(s, [a, b, c], d);
    assert [a, b, c] + [d] == [a, b, c, d];
  }
}
