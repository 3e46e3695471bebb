// How many subscriptions the server holds.
module SubscriptionServer {
  import opened Common
  import opened SubscriptionState
  import opened SubscriptionRuns
  import opened SubscriptionIndex

  // The server holds at most the one subscription the manager knows.
  predicate OneSubscription(s: Mgr) { s.live <= {s.subId} && 0 !in s.live }

  // A creation finds no other subscription, a delete succeeds or has nothing to delete, and the loss of a subscription,
  // which makes the manager forget its id, is reported for the only one.
  predicate KeepsOne(s: Mgr, st: Step) {
    match st
    case SCreate(newId) => s.live <= {newId}
    case SDelete(ok) => ok || s.live == {}
    case SDropped(dropped) => s.live <= {dropped}
    case _ => true
  }

  // The server issues ids that are not 0.
  predicate RealIds(s: Mgr, st: Step) { st.SCreate? ==> st.newId != 0 }

  lemma StepLive(s: Mgr, st: Step)
    requires !st.SCreate? && !st.SDelete? && !st.SDropped?
    ensures Apply(s, st).live == s.live && Apply(s, st).subId == s.subId
  {
    hide Apply;
    StepFrame(s, st);
  }

  lemma StepOne(s: Mgr, st: Step)
    requires OneSubscription(s) && RealIds(s, st)
    ensures OneSubscription(Apply(s, st)) <==> KeepsOne(s, st)
  {
    hide Subscribe, Unsubscribe, TestActive, PushPending, Fail, Flag, ActivateAll, DeactivateIndexed, Reset, Mark, Monitor,
         Pop, SyncRead, Overwrite;
    match st
    case SCreate(newId) => CreateOneExactly(s, newId);
    case SDelete(ok) => DeleteOneExactly(s, ok);
    case SDropped(dropped) => DroppedOneExactly(s, dropped);
    case _ => StepLive(s, st);
  }

  // A creation leaves one subscription exactly when there was none besides the new one.
  lemma CreateOneExactly(s: Mgr, newId: nat)
    requires 0 !in s.live && newId != 0
    ensures OneSubscription(CreateSubscription(s, newId)) <==> s.live <= {newId}
  {
  }

  // A delete leaves at most the known subscription, which is none, exactly when it succeeds or there was none: a failed
  // delete is forgotten.
  lemma DeleteOneExactly(s: Mgr, ok: bool)
    requires OneSubscription(s)
    ensures OneSubscription(DeleteSubscription(s, ok)) <==> ok || s.live == {}
  {
    if s.live != {} {
      var x := Pick(s.live);
    }
  }

  lemma DroppedOneExactly(s: Mgr, dropped: nat)
    requires OneSubscription(s)
    ensures OneSubscription(ServerDropped(s, dropped)) <==> s.live <= {dropped}
  {
    if !(s.live <= {dropped}) {
      var x :| x in s.live && x != dropped;
      assert x in ServerDropped(s, dropped).live;
    } else {
      assert ServerDropped(s, dropped).live == {};
    }
  }

  // In every state of a run the server holds at most the one subscription the manager knows exactly when every step
  // keeps it so.
  lemma OneSubscriptionExactly(run: seq<Step>)
    requires Along(INIT, run, RealIds)
    ensures Throughout(run, OneSubscription) <==> Along(INIT, run, KeepsOne)
  {
    hide Apply, Exec, KeepsOne, RealIds;
    forall k | 0 <= k < |run| ensures KeptExactly(run, k, OneSubscription, KeepsOne) {
      if OneSubscription(Exec(INIT, run[..k])) {
        StepOne(Exec(INIT, run[..k]), run[k]);
      }
    }
    ThroughoutExactly(run, OneSubscription, KeepsOne);
  }

  // What the calls of the manager do, one at a time: a creation comes when no subscription is known, and deletes
  // succeed.
  predicate CleanSubscriptions(s: Mgr, st: Step) {
    match st
    case SCreate(newId) => s.subId == 0 && newId != 0
    case SDelete(ok) => ok
    case SDropped(dropped) => dropped in s.live
    case _ => true
  }

  lemma CleanKeepsOne(s: Mgr, st: Step)
    requires OneSubscription(s) && CleanSubscriptions(s, st)
    ensures RealIds(s, st) && KeepsOne(s, st)
  {
  }

  lemma {:induction false} CleanRunKeepsOne(s: Mgr, run: seq<Step>)
    requires OneSubscription(s) && Along(s, run, CleanSubscriptions)
    ensures OneSubscription(Exec(s, run))
  {
    hide Apply, OneSubscription, CleanSubscriptions, KeepsOne;
    if run == [] {
    } else {
      var before, st := run[..|run| - 1], run[|run| - 1];
      AlongPrefix(s, run, CleanSubscriptions);
      CleanRunKeepsOne(s, before);
      CleanKeepsOne(Exec(s, before), st);
      StepOne(Exec(s, before), st);
    }
  }

  // ----- what the manager believes -----

  // A subscription that counts as active is one the server holds.
  predicate ActiveHeld(s: Mgr) { s.subActive ==> s.subId in s.live }

  // A delete of an active subscription that fails leaves it active although its id is forgotten.
  predicate KeepsHeld(s: Mgr, st: Step) {
    st.SDelete? ==> st.ok || !s.subActive || 0 in s.live
  }

  lemma StepActive(s: Mgr, st: Step)
    requires !st.SCreate? && !st.SDelete? && !st.SDropped?
    ensures Apply(s, st).subActive == (s.subActive && !st.SInactive?)
  {
    if st.SInactive? {
    } else {
      hide Apply;
      StepFrame(s, st);
    }
  }

  lemma StepHeld(s: Mgr, st: Step)
    requires ActiveHeld(s)
    ensures ActiveHeld(Apply(s, st)) <==> KeepsHeld(s, st)
  {
    hide Subscribe, Unsubscribe, TestActive, PushPending, Fail, Flag, ActivateAll, DeactivateIndexed, Reset, Mark, Monitor,
         Pop, SyncRead, Overwrite;
    if !st.SCreate? && !st.SDelete? && !st.SDropped? {
      StepLive(s, st);
      StepActive(s, st);
    }
  }

  // Over every run: whenever the subscription counts as active the server holds it, exactly when no delete of an active
  // one fails.
  lemma ActiveHeldExactly(run: seq<Step>)
    ensures Throughout(run, ActiveHeld) <==> Along(INIT, run, KeepsHeld)
  {
    hide Apply, Exec, KeepsHeld;
    forall k | 0 <= k < |run| ensures KeptExactly(run, k, ActiveHeld, KeepsHeld) {
      if ActiveHeld(Exec(INIT, run[..k])) {
        StepHeld(Exec(INIT, run[..k]), run[k]);
      }
    }
    ThroughoutExactly(run, ActiveHeld, KeepsHeld);
  }
}
