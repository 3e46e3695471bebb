// What holds in every state a schedule of LockModel can reach.
module LockRuns {
  import opened Common
  import opened LockModel
  import opened LockSafety

  // What the client thread does; it never joins.
  predicate ClientInstr(i: Instr) {
    i.Acq? || i.Rel? || i.Call? || i.Section? || i.Cb? || i.Cl? || i == Off(RemoveSubscription(true))
  }

  predicate ClientOnly(k: Cont) {
    k.Then? ==> ClientInstr(k.head) && ClientOnly(k.rest)
  }

  lemma ClientExpand(i: Instr, k: Cont, h: Held, sh: Shared, choice: nat)
    requires ClientInstr(i) && ClientOnly(k)
    ensures ClientOnly(Expand(i, k, h, sh, choice))
  {
    var tail := Then(Cl(LowerFlag), Then(Rel(Client), Then(Cl(EndThread), k)));
    assert ClientOnly(tail);
  }

  ghost predicate ThreadOk(th: Thread) {
    && (Ordered(th.cont, th.held) || Relocked(th))
    && (th.isClient ==> ClientOnly(th.cont))
  }

  ghost predicate LockInv(s: State) {
    && (forall t :: 0 <= t < |s.threads| ==> ThreadOk(s.threads[t]))
    && (s.sh.thread.Some? ==> s.sh.thread.value < |s.threads| && s.threads[s.sh.thread.value].isClient)
  }

  ghost predicate Exclusive(s: State) {
    forall t, u, l :: 0 <= t < u < |s.threads| && Holds(s.threads[t].held, l) ==> !Holds(s.threads[u].held, l)
  }

  lemma {:induction false} ProgramOrdered(k: Cont)
    requires UserProgram(k)
    ensures Ordered(k, NONE)
  {
    if k.Done? {
    } else {
      ProgramOrdered(k.rest.rest);
      Two(k.head, EndOfCall, k.rest.rest, NONE);
    }
  }

  lemma InitialOk(s: State)
    requires Initial(s)
    ensures LockInv(s) && Exclusive(s)
  {
    forall t | 0 <= t < |s.threads| ensures ThreadOk(s.threads[t]) {
      ProgramOrdered(s.threads[t].cont);
    }
  }

  // A relocked thread waits for itself.
  lemma RelockedIsStuck(s: State, t: nat)
    requires t < |s.threads| && Relocked(s.threads[t])
    ensures !CanStep(s, t)
  {
  }

  lemma StepOfThread(s: State, t: nat, choice: nat)
    requires LockInv(s) && CanStep(s, t)
    ensures ThreadOk(Step(s, t, choice).threads[t])
  {
    hide Ordered, Expand, ClientOnly;
    var th := s.threads[t];
    var i, k := th.cont.head, th.cont.rest;
    if Relocked(th) {
      RelockedIsStuck(s, t);
    }
    Unfold(i, k, th.held);
    ClientUnfold(i, k);
    if Compound(i) && !i.Start? {
      if i == Cb(CbCheckThread) && th.held.client && s.sh.thread.None? {
        OrphanExpands(k, th.held, s.sh, choice);
      } else {
        ExpandOrdered(i, k, th.held, s.sh, choice);
      }
      if th.isClient {
        ClientExpand(i, k, th.held, s.sh, choice);
      }
    }
  }

  lemma ClientUnfold(i: Instr, k: Cont)
    ensures ClientOnly(Then(i, k)) <==> ClientInstr(i) && ClientOnly(k)
  {
  }

  lemma OrphanExpands(k: Cont, h: Held, sh: Shared, choice: nat)
    requires sh.thread.None?
    ensures Expand(Cb(CbCheckThread), k, h, sh, choice) == Under(Client, Off(RemoveSubscription(true)), k)
  {
  }

  lemma OthersUntouched(s: State, t: nat, choice: nat)
    requires CanStep(s, t)
    ensures var n := Step(s, t, choice);
            && |n.threads| >= |s.threads|
            && (forall u :: 0 <= u < |s.threads| && u != t ==> n.threads[u] == s.threads[u])
            && n.threads[t].isClient == s.threads[t].isClient
            && (forall u :: |s.threads| <= u < |n.threads| ==> n.threads[u] == CLIENT_THREAD)
            && (n.sh.thread.Some? ==> n.sh.thread == s.sh.thread || (n.sh.thread.value == |s.threads| < |n.threads|))
  {
    hide Expand;
  }

  lemma NewClientOk()
    ensures ThreadOk(CLIENT_THREAD)
  {
  }

  lemma StepLockInv(s: State, t: nat, choice: nat)
    requires LockInv(s) && CanStep(s, t)
    ensures LockInv(Step(s, t, choice))
  {
    hide Step, ThreadOk;
    StepOfThread(s, t, choice);
    OthersUntouched(s, t, choice);
    NewClientOk();
  }

  lemma StepHeld(s: State, t: nat, choice: nat)
    requires CanStep(s, t)
    ensures var h, n, i := s.threads[t].held, Step(s, t, choice).threads[t].held, s.threads[t].cont.head;
            n == if i.Acq? then Take(h, i.l) else if i.Rel? then Drop(h, i.l) else h
  {
  }

  lemma StepExclusive(s: State, t: nat, choice: nat)
    requires Exclusive(s) && CanStep(s, t)
    ensures Exclusive(Step(s, t, choice))
  {
    hide Step;
    OthersUntouched(s, t, choice);
    StepHeld(s, t, choice);
    var n := Step(s, t, choice);
    forall u, v, l | 0 <= u < v < |n.threads| && Holds(n.threads[u].held, l) ensures !Holds(n.threads[v].held, l) {
    }
  }

  lemma {:induction false} TraceOk(states: seq<State>, moves: seq<Move>, k: nat)
    requires Trace(states, moves) && Initial(states[0]) && k < |states|
    ensures LockInv(states[k]) && Exclusive(states[k])
  {
    hide LockInv, Exclusive, Step, CanStep;
    if k == 0 {
      InitialOk(states[0]);
    } else {
      TraceOk(states, moves, k - 1);
      StepLockInv(states[k - 1], moves[k - 1].t, moves[k - 1].choice);
      StepExclusive(states[k - 1], moves[k - 1].t, moves[k - 1].choice);
    }
  }

  // In every reachable state: no lock is held twice; a thread about to take a lock holds only locks that rank
  // below it, unless it is relocked; a thread about to join holds nothing.
  lemma LocksInOrder(states: seq<State>, moves: seq<Move>, k: nat, t: nat)
    requires Trace(states, moves) && Initial(states[0]) && k < |states|
    requires t < |states[k].threads| && states[k].threads[t].cont.Then? && !Relocked(states[k].threads[t])
    ensures var th := states[k].threads[t];
            && (th.cont.head.Acq? ==> forall l :: Holds(th.held, l) ==> Rank(l) < Rank(th.cont.head.l))
            && (th.cont.head.Join? ==> th.held == NONE)
    ensures Exclusive(states[k])
  {
    hide Exclusive;
    TraceOk(states, moves, k);
    var th := states[k].threads[t];
    assert ThreadOk(th);
    Unfold(th.cont.head, th.cont.rest, th.held);
  }

  // ----- progress -----

  lemma HolderSteps(s: State, t: nat, l: Lock)
    requires LockInv(s) && t < |s.threads| && !Relocked(s.threads[t]) && Holds(s.threads[t].held, l)
    requires forall m :: Rank(m) > Rank(l) ==> Free(s, m)
    ensures CanStep(s, t) && !s.threads[t].cont.head.Join?
  {
  }

  lemma NobodyHolds(s: State, t: nat)
    requires LockInv(s) && t < |s.threads| && s.threads[t].cont.Then?
    requires forall l :: Free(s, l)
    ensures CanStep(s, t) || (s.threads[t].cont.head.Join? && s.sh.thread.Some? && CanStep(s, s.sh.thread.value))
  {
  }

  // As long as no thread is relocked, some unfinished thread can always go on; a join need only be taken
  // when every lock is free.
  lemma Progress(s: State, unfinished: nat) returns (t: nat)
    requires LockInv(s) && unfinished < |s.threads| && s.threads[unfinished].cont.Then?
    requires forall u :: 0 <= u < |s.threads| ==> !Relocked(s.threads[u])
    ensures CanStep(s, t)
    ensures s.threads[t].cont.head.Join? ==> Free(s, Client)
  {
    if l: Lock, u: nat :| l.DataOf? && u < |s.threads| && Holds(s.threads[u].held, l) {
      HolderSteps(s, u, l);
      return u;
    }
    assert forall m: Lock :: m.DataOf? ==> Free(s, m);
    if u: nat :| u < |s.threads| && Holds(s.threads[u].held, Items) {
      HolderSteps(s, u, Items);
      return u;
    }
    assert Free(s, Items);
    if u: nat :| u < |s.threads| && Holds(s.threads[u].held, Client) {
      HolderSteps(s, u, Client);
      return u;
    }
    assert Free(s, Client);
    if u: nat :| u < |s.threads| && Holds(s.threads[u].held, Async) {
      HolderSteps(s, u, Async);
      return u;
    }
    assert Free(s, Async);
    NobodyHolds(s, unfinished);
    t := if CanStep(s, unfinished) then unfinished else s.sh.thread.value;
  }

  // The only way to a deadlock: in a reachable state in which nobody can go on although somebody has not
  // finished, some thread waits for a client lock it holds itself.
  lemma DeadlockMeansRelocked(states: seq<State>, moves: seq<Move>, k: nat, unfinished: nat)
    requires Trace(states, moves) && Initial(states[0]) && k < |states|
    requires unfinished < |states[k].threads| && states[k].threads[unfinished].cont.Then?
    requires forall t :: 0 <= t < |states[k].threads| ==> !CanStep(states[k], t)
    ensures exists t :: 0 <= t < |states[k].threads| && Relocked(states[k].threads[t])
  {
    TraceOk(states, moves, k);
    if forall t :: 0 <= t < |states[k].threads| ==> !Relocked(states[k].threads[t]) {
      var t := Progress(states[k], unfinished);
    }
  }
}
