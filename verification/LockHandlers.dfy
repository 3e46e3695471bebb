// Whether two handlers can be between their test and their push at the same time.
//
// Callbacks run inside client calls, and all client calls are made under the client lock except the removal of a
// left-over subscription by createSubscription.
module LockHandlers {
  import opened Common
  import opened LockModel
  import opened LockSafety
  import opened LockRuns
  import opened LockCallbacks

  // The thread is in a callback that runs inside a client call.
  predicate InsideCall(k: Cont, locked: bool) {
    k.Then? && (k.head == Call(locked) || ((Transparent(k.head) || k.head.Cb?) && InsideCall(k.rest, locked)))
  }

  lemma {:induction false} InsideHolds(k: Cont, h: Held)
    requires Ordered(k, h) && InsideCall(k, true)
    ensures h.client
  {
    if k.head == Call(true) {
    } else {
      InsideHolds(k.rest, After(k.head, h));
    }
  }

  // In every reachable state at most one thread is in a callback inside a client call made under the client lock. So two
  // handlers overlap only if one of them runs inside the removal that createSubscription makes without it.
  lemma HandlersTakeTurns(states: seq<State>, moves: seq<Move>, k: nat, t: nat, u: nat)
    requires Trace(states, moves) && Initial(states[0]) && k < |states|
    requires t < |states[k].threads| && u < |states[k].threads| && t != u
    requires InsideCall(states[k].threads[t].cont, true)
    ensures states[k].threads[t].held.client && !InsideCall(states[k].threads[u].cont, true)
  {
    hide Ordered, InsideCall, Exclusive;
    TraceOk(states, moves, k);
    InsideLocked(states[k], t);
    if InsideCall(states[k].threads[u].cont, true) {
      InsideLocked(states[k], u);
      OneHolder(states[k], t, u);
    }
  }

  lemma InsideLocked(s: State, t: nat)
    requires LockInv(s) && t < |s.threads| && InsideCall(s.threads[t].cont, true)
    ensures s.threads[t].held.client
  {
    assert ThreadOk(s.threads[t]);
    if Ordered(s.threads[t].cont, s.threads[t].held) {
      InsideHolds(s.threads[t].cont, s.threads[t].held);
    }
  }

  lemma OneHolder(s: State, t: nat, u: nat)
    requires Exclusive(s) && t < |s.threads| && u < |s.threads| && t != u && s.threads[t].held.client
    ensures !s.threads[u].held.client
  {
    assert Holds(s.threads[t].held, Client);
    if s.threads[u].held.client {
      assert Holds(s.threads[u].held, Client);
    }
  }
}
