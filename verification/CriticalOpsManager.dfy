/** The critical operation manager as a class: what its code does to its fields, as steps of the protocol. */
module CriticalOpsManager {
  import opened CriticalOps
  import opened CriticalOpsSafety

  /** `operations`, `waiters`, `signals` and `panicked` stand for the Go runtime around the manager. */
  class CriticalOperationManager {
    var criticalOperations: map<Signal, bool>
    var lock: Lock
    var waitGroup: int
    var operations: seq<Operation>
    var waiters: seq<Waiter>
    var signals: Signals
    var panicked: bool

    constructor ()
      ensures Valid() && Abstract() == INITIAL
    {
      criticalOperations, lock, waitGroup := map[], Free, 0;
      operations, waiters, signals, panicked := [], [], Signals(multiset{}, {}, multiset{}), false;
    }

    function Abstract(): State
      reads this
    {
      State(criticalOperations, waitGroup, lock, operations, waiters, signals, panicked)
    }

    ghost predicate Valid()
      reads this
    {
      Invariant(Abstract()) && !panicked
    }

    /** `waitGroup.Add`. */
    method Add(delta: int)
      modifies this`waitGroup, this`waiters, this`panicked
      ensures Abstract() == AddTo(old(Abstract()), delta)
    {
      var next := waitGroup + delta;
      panicked := next < 0 || (delta > 0 && next == delta && SomeWorkerIs(waiters, Asleep));
      waitGroup := next;
      if next == 0 {
        waiters := ReleaseAll(waiters);
      }
    }

    /** A registration that nothing interrupts. */
    method RegisterCriticalOperation(finishSignal: Signal)
      requires Valid() && lock == Free
      modifies this
      ensures Valid()
      ensures var moves := [BeginRegister(finishSignal), AddAndStart, Unlock];
              IsRunFrom(old(Abstract()), moves) && Abstract() == AfterFrom(old(Abstract()), moves)
    {
      hide Invariant, IsEnabled;
      ghost var s := Abstract();
      RegisterRuns(s, finishSignal);
      lock := Registering(finishSignal, false);
      criticalOperations := criticalOperations[finishSignal := true];
      assert Abstract() == Apply(s, BeginRegister(finishSignal));
      Add(1);
      operations := operations + [Operation(finishSignal, Blocked)];
      lock := Registering(finishSignal, true);
      assert Abstract() == Apply(Apply(s, BeginRegister(finishSignal)), AddAndStart);
      lock := Free;
    }

    /** The goroutine of registration `i`, once its signal came, if nothing interrupts it. */
    method FinishOperation(i: nat)
      requires Valid() && lock == Free
      requires i < |operations| && operations[i].phase == Blocked && IsReady(signals, operations[i].signal)
      modifies this
      ensures Valid()
      ensures var moves := [Receive(i), Done(i), Delete(i)];
              IsRunFrom(old(Abstract()), moves) && Abstract() == AfterFrom(old(Abstract()), moves)
    {
      hide Invariant;
      ghost var s := Abstract();
      FinishRuns(s, i);
      hide IsEnabled;
      var finishSignal := operations[i].signal;
      if signals.received[finishSignal] < signals.sent[finishSignal] {
        signals := signals.(received := signals.received + multiset{finishSignal});
      }
      operations := InPhase(operations, i, Phase.Received);
      assert Abstract() == Apply(s, Receive(i));
      Add(-1);
      operations := InPhase(operations, i, Counted);
      assert Abstract() == Apply(Apply(s, Receive(i)), Done(i));
      criticalOperations := criticalOperations - {finishSignal};
      operations := InPhase(operations, i, Ended);
    }

    /** The steps that other goroutines take while this one waits. */
    method Interleave(moves: seq<Move>)
      requires IsRunFrom(Abstract(), moves)
      modifies this
      ensures Abstract() == AfterFrom(old(Abstract()), moves)
    {
      var s := AfterFrom(Abstract(), moves);
      criticalOperations, lock, waitGroup := s.registry, s.lock, s.counter;
      operations, waiters, signals, panicked := s.operations, s.waiters, s.signals, s.panicked;
    }

    /** A new waiter, whose goroutine finds the counter at zero, or falls asleep. */
    method StartWait()
      requires Valid()
      modifies this
      ensures Valid() && Abstract() == Called(old(Abstract()))
    {
      hide Invariant, IsEnabled;
      ghost var s := Abstract();
      CallRuns(s);
      var w := |waiters|;
      waiters := waiters + [Waiter(|operations|, Starting, 0, Selecting)];
      assert Abstract() == Apply(s, CallWait);
      if waitGroup == 0 {
        waiters := WithWorker(waiters, w, Passed);
      } else {
        waiters := WithWorker(waiters, w, Asleep);
      }
    }

    /**
      A wait that found something outstanding and was woken since: its goroutine goes on, unless the
      counter was raised again, and the caller's select has not timed out yet.
     */
    method ResumeWait(w: nat, timesOut: bool) returns (completed: bool)
      requires Valid() && w < |waiters| && waiters[w].worker == Released && waiters[w].caller == Selecting
      modifies this
      ensures Invariant(Abstract())
      ensures var moves := ResumeMoves(old(Abstract()), w, timesOut);
              IsRunFrom(old(Abstract()), moves) && Abstract() == AfterFrom(old(Abstract()), moves)
      ensures panicked <==> Count(operations, Outstanding) > 0
      ensures completed <==> !panicked && !timesOut
      ensures w < |waiters| && (completed <==> waiters[w].caller == Returned(true))
      ensures !completed && !panicked ==> waiters[w].caller == Returned(false)
    {
      hide Invariant, IsEnabled;
      ghost var s := Abstract();
      ResumeRuns(s, w, timesOut);
      waiters := WithWorker(waiters, w, Passed);
      panicked := waitGroup != 0;
      assert Abstract() == Apply(s, Wake(w));
      if panicked {
        return false;
      }
      ghost var passed := Abstract();
      waiters := waiters[w := waiters[w].(worker := Finished, closes := waiters[w].closes + 1)];
      assert Abstract() == Apply(passed, CloseDone(w));
      completed := !timesOut;
      waiters := waiters[w := waiters[w].(caller := Returned(completed))];
    }

    /** A wait whose goroutine has found the counter at zero: it closes the channel that the select waits for. */
    method FinishWait(w: nat, timesOut: bool) returns (completed: bool)
      requires Valid() && w < |waiters| && waiters[w].worker == Passed && waiters[w].caller == Selecting
      modifies this
      ensures Valid()
      ensures var moves := PassedMoves(w, timesOut);
              IsRunFrom(old(Abstract()), moves) && Abstract() == AfterFrom(old(Abstract()), moves)
      ensures completed <==> !timesOut
      ensures w < |waiters| && waiters[w].caller == Returned(completed)
    {
      hide Invariant, IsEnabled;
      ghost var s := Abstract();
      PassedRuns(s, w, timesOut);
      waiters := waiters[w := waiters[w].(worker := Finished, closes := waiters[w].closes + 1)];
      assert Abstract() == Apply(s, CloseDone(w));
      completed := !timesOut;
      waiters := waiters[w := waiters[w].(caller := Returned(completed))];
    }

    /** A wait whose goroutine still sleeps when the timer fires. */
    method GiveUpWait(w: nat)
      requires Valid() && w < |waiters| && waiters[w].worker == Asleep && waiters[w].caller == Selecting
      modifies this
      ensures Valid()
      ensures IsRunFrom(old(Abstract()), [TimeOut(w)]) && Abstract() == AfterFrom(old(Abstract()), [TimeOut(w)])
      ensures w < |waiters| && waiters[w].caller == Returned(false)
    {
      hide Invariant;
      GivingUpRuns(Abstract(), w);
      waiters := waiters[w := waiters[w].(caller := Returned(false))];
    }

    /**
      `meanwhile` is what all other goroutines do between the start of the wait and its end, in any
      interleaving; `timesOut` says which of two ready cases the select takes. Nothing was left
      outstanding of what had been registered before the call, if it succeeds.
     */
    method WaitForCriticalOperations(meanwhile: seq<Move>, timesOut: bool) returns (completed: bool)
      requires Valid()
      requires IsRunFrom(Called(Abstract()), meanwhile) && LeavesAlone(meanwhile, |waiters|)
      modifies this
      ensures Invariant(Abstract())
      ensures var later, w := AfterFrom(Called(old(Abstract())), meanwhile), |old(waiters)|;
              && w < |later.waiters| && later.waiters[w].worker in {Asleep, Released, Passed}
              && IsRunFrom(later, EndMoves(later, w, timesOut))
              && Abstract() == AfterFrom(later, EndMoves(later, w, timesOut))
              && (completed <==> !panicked && !timesOut && later.waiters[w].worker != Asleep)
      ensures |old(waiters)| < |waiters| && (completed <==> waiters[|old(waiters)|].caller == Returned(true))
      ensures completed ==> AreDoneBefore(operations, |old(operations)|)
    {
      hide Invariant, IsEnabled, Apply;
      ghost var s := Abstract();
      var w := |waiters|;
      CalledWaiter(s);
      StartWait();
      WaiterLeftAlone(Abstract(), meanwhile, w);
      Interleave(meanwhile);
      ghost var later := Abstract();
      completed := false;
      if !panicked {
        if waiters[w].worker == Released {
          completed := ResumeWait(w, timesOut);
        } else if waiters[w].worker == Passed {
          completed := FinishWait(w, timesOut);
        } else {
          GiveUpWait(w);
        }
      }
      WaitEnds(later, w, timesOut, Abstract());
    }
  }

  function Called(s: State): State
    requires !s.panicked
  {
    Apply(Apply(s, CallWait), StartWorker(|s.waiters|))
  }

  lemma CallRuns(s: State)
    requires Invariant(s) && !s.panicked
    ensures IsEnabled(s, CallWait) && IsEnabled(Apply(s, CallWait), StartWorker(|s.waiters|))
    ensures Invariant(Called(s)) && !Called(s).panicked
  {
    hide Invariant;
    StepStaysValid(s, CallWait);
    StepStaysValid(Apply(s, CallWait), StartWorker(|s.waiters|));
  }

  lemma CalledWaiter(s: State)
    requires Invariant(s) && !s.panicked
    ensures var w := |s.waiters|;
            && w < |Called(s).waiters|
            && Called(s).waiters[w] == Waiter(|s.operations|, if s.counter == 0 then Passed else Asleep, 0, Selecting)
    ensures Invariant(Called(s))
  {
    CallRuns(s);
    hide Invariant;
  }

  /** The moves are not those of the waiter's own goroutine and caller. */
  predicate LeavesAlone(moves: seq<Move>, w: nat) {
    forall i :: 0 <= i < |moves| ==> !IsOf(moves[i], w)
  }

  predicate IsOf(move: Move, w: nat) {
    move in [StartWorker(w), Wake(w), CloseDone(w), SelectDone(w), TimeOut(w)]
  }

  /** The waiter as it was, or woken up. */
  predicate IsLeftAlone(before: Waiter, after: Waiter) {
    after == before || (before.worker == Asleep && after == before.(worker := Released))
  }

  lemma StepLeavesAlone(s: State, move: Move, w: nat)
    requires IsEnabled(s, move) && w < |s.waiters| && !IsOf(move, w)
    ensures w < |Apply(s, move).waiters| && IsLeftAlone(s.waiters[w], Apply(s, move).waiters[w])
  {
  }

  lemma {:induction false} WaiterLeftAlone(s: State, moves: seq<Move>, w: nat)
    requires Invariant(s) && IsRunFrom(s, moves) && w < |s.waiters| && LeavesAlone(moves, w)
    ensures Invariant(AfterFrom(s, moves))
    ensures w < |AfterFrom(s, moves).waiters| && IsLeftAlone(s.waiters[w], AfterFrom(s, moves).waiters[w])
    decreases |moves|
  {
    hide Apply, IsEnabled, Invariant, IsOf;
    if moves != [] {
      var n := |moves| - 1;
      WaiterLeftAlone(s, moves[..n], w);
      StepKeepsInvariant(AfterFrom(s, moves[..n]), moves[n]);
      StepLeavesAlone(AfterFrom(s, moves[..n]), moves[n], w);
    }
  }

  function PassedMoves(w: nat, timesOut: bool): seq<Move> {
    [CloseDone(w), if timesOut then TimeOut(w) else SelectDone(w)]
  }

  function EndMoves(s: State, w: nat, timesOut: bool): seq<Move>
    requires w < |s.waiters|
  {
    if s.panicked then []
    else
      match s.waiters[w].worker
      case Released => ResumeMoves(s, w, timesOut)
      case Passed => PassedMoves(w, timesOut)
      case _ => [TimeOut(w)]
  }

  lemma PassedRuns(s: State, w: nat, timesOut: bool)
    requires Invariant(s) && !s.panicked && WorkerIs(s, w, Passed) && IsSelecting(s, w)
    ensures var moves := PassedMoves(w, timesOut);
            && IsRunFrom(s, moves) && Invariant(AfterFrom(s, moves)) && !AfterFrom(s, moves).panicked
            && s.waiters[w].closes == 0
            && IsEnabled(s, moves[0]) && IsEnabled(Apply(s, moves[0]), moves[1])
            && AfterFrom(s, moves) == Apply(Apply(s, moves[0]), moves[1])
  {
    assert WaiterIsSound(s, s.waiters[w]);
    hide Invariant;
    var choice := if timesOut then TimeOut(w) else SelectDone(w);
    StepStaysValid(s, CloseDone(w));
    StepStaysValid(Apply(s, CloseDone(w)), choice);
    TwoMoves(s, CloseDone(w), choice);
  }

  lemma GivingUpRuns(s: State, w: nat)
    requires Invariant(s) && !s.panicked && IsSelecting(s, w)
    ensures IsRunFrom(s, [TimeOut(w)]) && AfterFrom(s, [TimeOut(w)]) == Apply(s, TimeOut(w))
    ensures Invariant(Apply(s, TimeOut(w))) && !Apply(s, TimeOut(w)).panicked
  {
    hide Invariant;
    StepStaysValid(s, TimeOut(w));
    OneMoreMove(s, [], TimeOut(w));
    assert [] + [TimeOut(w)] == [TimeOut(w)];
  }

  /** What the waiter's own last steps leave of the operations that were registered before its call. */
  lemma WaitEnds(s: State, w: nat, timesOut: bool, end: State)
    requires Invariant(s) && w < |s.waiters| && s.waiters[w].worker in {Asleep, Released, Passed}
    requires IsRunFrom(s, EndMoves(s, w, timesOut)) && end == AfterFrom(s, EndMoves(s, w, timesOut))
    ensures s.waiters[w].worker != Asleep ==> AreDoneBefore(s.operations, s.waiters[w].before)
    ensures end.operations == s.operations
  {
    assert WaiterIsSound(s, s.waiters[w]);
    hide Invariant;
    EndMovesLeaveOperations(s, EndMoves(s, w, timesOut), w);
  }

  lemma OwnStepLeavesOperations(s: State, move: Move, w: nat)
    requires IsEnabled(s, move) && IsOf(move, w)
    ensures Apply(s, move).operations == s.operations
  {
  }

  lemma {:induction false} EndMovesLeaveOperations(s: State, moves: seq<Move>, w: nat)
    requires IsRunFrom(s, moves) && forall i :: 0 <= i < |moves| ==> IsOf(moves[i], w)
    ensures AfterFrom(s, moves).operations == s.operations
    decreases |moves|
  {
    hide Apply, IsEnabled, IsOf;
    if moves != [] {
      var n := |moves| - 1;
      EndMovesLeaveOperations(s, moves[..n], w);
      OwnStepLeavesOperations(AfterFrom(s, moves[..n]), moves[n], w);
    }
  }

  lemma RegisterRuns(s: State, c: Signal)
    requires Invariant(s) && !s.panicked && s.lock == Free
    ensures var moves := [BeginRegister(c), AddAndStart, Unlock];
            && IsRunFrom(s, moves) && Invariant(AfterFrom(s, moves)) && !AfterFrom(s, moves).panicked
            && IsEnabled(s, moves[0]) && IsEnabled(Apply(s, moves[0]), moves[1])
            && IsEnabled(Apply(Apply(s, moves[0]), moves[1]), moves[2])
            && AfterFrom(s, moves) == Apply(Apply(Apply(s, moves[0]), moves[1]), moves[2])
  {
    hide Invariant;
    StepStaysValid(s, BeginRegister(c));
    var begun := Apply(s, BeginRegister(c));
    StepStaysValid(begun, AddAndStart);
    StepStaysValid(Apply(begun, AddAndStart), Unlock);
    ThreeMoves(s, BeginRegister(c), AddAndStart, Unlock);
  }

  lemma FinishRuns(s: State, i: nat)
    requires Invariant(s) && !s.panicked && s.lock == Free
    requires IsEnabled(s, Receive(i))
    ensures var moves := [Receive(i), Done(i), Delete(i)];
            && IsRunFrom(s, moves) && Invariant(AfterFrom(s, moves)) && !AfterFrom(s, moves).panicked
            && IsEnabled(Apply(s, moves[0]), moves[1]) && IsEnabled(Apply(Apply(s, moves[0]), moves[1]), moves[2])
            && AfterFrom(s, moves) == Apply(Apply(Apply(s, moves[0]), moves[1]), moves[2])
  {
    hide Invariant;
    StepStaysValid(s, Receive(i));
    var received := Apply(s, Receive(i));
    StepStaysValid(received, Done(i));
    StepStaysValid(Apply(received, Done(i)), Delete(i));
    ThreeMoves(s, Receive(i), Done(i), Delete(i));
  }

  function ResumeMoves(s: State, w: nat, timesOut: bool): seq<Move> {
    if s.counter != 0 then [Wake(w)] else [Wake(w), CloseDone(w), if timesOut then TimeOut(w) else SelectDone(w)]
  }

  lemma ResumeRuns(s: State, w: nat, timesOut: bool)
    requires Invariant(s) && !s.panicked && WorkerIs(s, w, Released) && IsSelecting(s, w)
    ensures var moves := ResumeMoves(s, w, timesOut);
            && IsRunFrom(s, moves) && Invariant(AfterFrom(s, moves))
            && IsEnabled(s, Wake(w))
            && var woken := Apply(s, Wake(w));
               if s.counter != 0 then AfterFrom(s, moves) == woken
               else
                 && s.waiters[w].closes == 0 && IsEnabled(woken, CloseDone(w))
                 && IsEnabled(Apply(woken, CloseDone(w)), moves[2])
                 && AfterFrom(s, moves) == Apply(Apply(woken, CloseDone(w)), moves[2])
    ensures s.counter == Count(s.operations, Outstanding)
  {
    assert WaiterIsSound(s, s.waiters[w]);
    hide Invariant;
    var woken := Apply(s, Wake(w));
    StepKeepsInvariant(s, Wake(w));
    if s.counter != 0 {
      OneMoreMove(s, [], Wake(w));
      assert [] + [Wake(w)] == [Wake(w)];
    } else {
      var choice := if timesOut then TimeOut(w) else SelectDone(w);
      StepStaysValid(woken, CloseDone(w));
      StepStaysValid(Apply(woken, CloseDone(w)), choice);
      ThreeMoves(s, Wake(w), CloseDone(w), choice);
    }
    CounterOf(s);
  }

  lemma CounterOf(s: State)
    requires Invariant(s)
    ensures s.counter == Count(s.operations, Outstanding)
  {
  }
}
