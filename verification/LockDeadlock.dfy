// A schedule that ends in a deadlock: the join of a finished client thread completes while a callback is inside
// deactivate() under the client lock.
//
// Thread 0 starts asynchronous reading, then opens the device again. Thread 1 reads synchronously. The client
// thread leaves its loop because the connection reports an error, and is about to clear _run when the transfer
// of thread 1 runs the state callback.
module LockDeadlock {
  import opened Common
  import opened LockModel
  import opened LockSafety
  import opened LockRuns
  import opened LockCallbacks

  ghost predicate Reachable(s: State) {
    exists states, moves :: Trace(states, moves) && Initial(states[0]) && states[|moves|] == s
  }

  lemma Go(s: State, t: nat, choice: nat) returns (n: State)
    requires Reachable(s) && CanStep(s, t)
    ensures n == Step(s, t, choice) && Reachable(n)
  {
    hide Step, CanStep, Initial;
    n := Step(s, t, choice);
    var states, moves :| Trace(states, moves) && Initial(states[0]) && states[|moves|] == s;
    assert Trace(states + [n], moves + [Move(t, choice)]);
  }

  const REOPEN: Cont := Then(Us(Open), Then(EndOfCall, Done))
  const STARTING: Cont := Then(Start, Then(Rel(Async), Then(EndOfCall, REOPEN)))
  const READ: Cont := Then(Us(SyncRead), Then(EndOfCall, Done))
  const INSIDE: Cont := Then(Call(true), Then(Us(TransferDone), Then(EndOfCall, Done)))
  const ENDING: Thread := Thread(Then(Cl(EndThread), Done), NONE, true)
  const LOCKED: Held := NONE.(client := true)

  function User(k: Cont, h: Held): Thread { Thread(k, h, false) }

  lemma Begin() returns (s: State)
    ensures Reachable(s) && s == State([User(Then(Us(ActivateAsyncRead), Then(EndOfCall, REOPEN)), NONE), User(READ, NONE)],
                                       Shared(false, false, false, None))
  {
    s := State([User(Then(Us(ActivateAsyncRead), Then(EndOfCall, REOPEN)), NONE), User(READ, NONE)],
               Shared(false, false, false, None));
    assert Trace([s], []);
  }

  lemma Locks() returns (s: State)
    ensures Reachable(s)
    ensures s == State([User(Then(Us(AsyncBody), Then(EndOfCall, REOPEN)), NONE.(async := true)), User(READ, NONE)],
                       Shared(false, false, false, None))
  {
    s := Begin();
    s := Go(s, 0, 0);
    s := Go(s, 0, 0);
  }

  lemma Activates() returns (s: State)
    ensures Reachable(s)
    ensures s == State([User(Then(On(CreateSubscription), Then(On(ActivateTail), STARTING)), NONE.(async := true)),
                        User(READ, NONE)],
                       Shared(false, false, false, None))
  {
    s := Locks();
    s := Go(s, 0, 1);
    s := Go(s, 0, 0);
  }

  // Thread 0 creates the subscription ...
  lemma Subscribes() returns (s: State)
    ensures Reachable(s)
    ensures s == State([User(Then(On(CreateDone), Then(On(ActivateTail), STARTING)), NONE.(async := true)),
                        User(READ, NONE)],
                       Shared(false, false, false, None))
  {
    s := Activates();
    s := Go(s, 0, 0);
    s := Go(s, 0, 0);
    s := Go(s, 0, 0);
    s := Go(s, 0, 0);
    s := Go(s, 0, 0);
    s := Go(s, 0, 0);
  }

  lemma ActivatesItems() returns (s: State)
    ensures Reachable(s)
    ensures s == State([User(STARTING, NONE.(async := true)), User(READ, NONE)],
                       Shared(false, true, false, None))
  {
    s := Subscribes();
    s := Go(s, 0, 1);
    s := Go(s, 0, 0);
    s := Go(s, 0, 0);
    s := Go(s, 0, 0);
    s := Go(s, 0, 0);
  }

  // ... and starts the client thread.
  lemma Starts() returns (s: State)
    ensures Reachable(s)
    ensures s == State([User(REOPEN, NONE), User(READ, NONE), CLIENT_THREAD], Shared(true, true, false, Some(2)))
  {
    s := ActivatesItems();
    s := Go(s, 0, 1);
    s := Go(s, 0, 0);
    s := Go(s, 0, 0);
  }

  // The client thread sees the connection fail and leaves its loop.
  lemma ClientFails() returns (s: State)
    ensures Reachable(s)
    ensures s == State([User(REOPEN, NONE), User(READ, NONE), Thread(Then(Rel(Client), Then(Cl(Exit), Done)), LOCKED, true)],
                       Shared(true, true, false, Some(2)))
  {
    s := Starts();
    s := Go(s, 2, 0);
    s := Go(s, 2, 0);
    s := Go(s, 2, 0);
    s := Go(s, 2, 0);
  }

  lemma ClientLeaves() returns (s: State)
    ensures Reachable(s)
    ensures s == State([User(REOPEN, NONE), User(READ, NONE), ENDING], Shared(true, true, false, Some(2)))
  {
    s := ClientFails();
    s := Go(s, 2, 0);
    s := Go(s, 2, 0);
    s := Go(s, 2, 0);
    s := Go(s, 2, 0);
    s := Go(s, 2, 0);
  }

  // The state callback runs inside the transfer of thread 1 and finds _run still set.
  lemma CallbackEnters() returns (s: State)
    ensures Reachable(s)
    ensures s == State([User(REOPEN, NONE), User(Then(Section, Then(Cb(CbDeactivate), INSIDE)), LOCKED), ENDING],
                       Shared(true, true, false, Some(2)))
  {
    s := ClientLeaves();
    s := Go(s, 1, 0);
    s := Go(s, 1, 0);
    s := Go(s, 1, 1);
    s := Go(s, 1, 1);
  }

  // The client thread ends, and thread 0 joins it.
  lemma Joined() returns (s: State)
    ensures Reachable(s)
    ensures s == State([User(Then(Us(Connect), Then(EndOfCall, Done)), NONE),
                        User(Then(Section, Then(Cb(CbDeactivate), INSIDE)), LOCKED),
                        Thread(Done, NONE, true)],
                       Shared(false, true, false, None))
  {
    s := CallbackEnters();
    s := Go(s, 2, 0);
    s := Go(s, 0, 1);
    s := Go(s, 0, 0);
  }

  // The callback sets the items inactive ...
  lemma CallbackQuiets() returns (s: State)
    ensures Reachable(s)
    ensures s == State([User(Then(Us(Connect), Then(EndOfCall, Done)), NONE),
                        User(Then(Section, Then(Cb(CbClearRun), INSIDE)), LOCKED),
                        Thread(Done, NONE, true)],
                       Shared(false, true, false, None))
  {
    s := Joined();
    s := Go(s, 1, 0);
    s := Go(s, 1, 0);
    s := Go(s, 1, 0);
    s := Go(s, 1, 0);
  }

  // ... and finds no client thread to leave the removal to.
  lemma CallbackGoesOn() returns (s: State)
    ensures Reachable(s) && |s.threads| == 3
    ensures s.threads[1] == User(Then(Cb(CbCheckThread), INSIDE), LOCKED) && s.sh.thread.None?
  {
    s := CallbackQuiets();
    s := Go(s, 1, 0);
    s := Go(s, 1, 0);
    s := Go(s, 1, 0);
    s := Go(s, 1, 0);
    s := Go(s, 1, 0);
  }

  // So a reachable state has a thread that waits for ever for the client lock it holds.
  lemma JoinUnderCallbackDeadlocks() returns (states: seq<State>, moves: seq<Move>)
    ensures Trace(states, moves) && Initial(states[0])
    ensures 1 < |states[|moves|].threads| && Relocked(states[|moves|].threads[1]) && !CanStep(states[|moves|], 1)
  {
    var s := CallbackGoesOn();
    s := Go(s, 1, 0);
    RelockedIsStuck(s, 1);
    states, moves :| Trace(states, moves) && Initial(states[0]) && states[|moves|] == s;
  }
}
