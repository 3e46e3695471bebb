// Silence after deactivation.
//
// responseHandler tests whether its item is active before it takes the mutex, and deactivate can come in between. So
// what may still be pushed afterwards is what passed this test before.
module SubscriptionSilence {
  import opened Common
  import opened FutureQueue
  import opened SubscriptionState
  import opened SubscriptionRuns
  import opened SubscriptionIndex

  // Every item the index names is inactive.
  ghost predicate Quiet(s: Mgr) {
    forall i :: 0 <= i < |s.items| && s.items[i].handle in s.index.Values ==> !s.items[i].active
  }

  predicate KeepsQuiet(st: Step) { !st.SActivateAll? && !st.SMark? && !st.SMonitor? }

  predicate QuietRun(run: seq<Step>) { forall i :: 0 <= i < |run| ==> KeepsQuiet(run[i]) }

  lemma UnsubscribeQuiet(s: Mgr, name: string, acc: AccId)
    requires Quiet(s)
    ensures Quiet(Unsubscribe(s, name, acc))
  {
    hide Unsubscribe, RemoveFirst, FindName;
    UnsubscribeItems(s, name, acc);
    var t := Unsubscribe(s, name, acc);
    var k := FindName(s.items, name);
    assert t.index.Values <= s.index.Values;
    if k < |s.items| && |s.items[k].accessors| <= 1 {
      assert forall i :: 0 <= i < |t.items| ==> t.items[i] == s.items[if i < k then i else i + 1];
    }
  }

  // Nothing that is not active becomes active, and the index names nothing new.
  ghost predicate Calmer(s: Mgr, t: Mgr) {
    && |t.items| == |s.items| && t.index == s.index
    && forall i :: 0 <= i < |s.items| ==>
         t.items[i].handle == s.items[i].handle && (t.items[i].active ==> s.items[i].active)
  }

  lemma CalmerQuiet(s: Mgr, t: Mgr)
    requires Quiet(s) && Calmer(s, t)
    ensures Quiet(t)
  {
  }

  lemma StepCalmer(s: Mgr, st: Step)
    requires KeepsQuiet(st) && !st.SUnsubscribe? && !st.SSubscribe? && !st.SReset?
    ensures Calmer(s, Apply(s, st))
  {
    hide Subscribe, Unsubscribe, Reset, Pop, SyncRead, Overwrite, TestActive, PushPending, Fail, Flag, DeactivateIndexed,
         ActivateAll, Mark, Monitor, Calmer;
    match st
    case STest(monId, v) => TestCalmer(s, monId, v);
    case SPush(k) => PushCalmer(s, k);
    case SFail => FlagsCalmer(s, 0);
    case SFlag(h) => FlagsCalmer(s, h);
    case SDeactivateIndexed => FlagsCalmer(s, 0);
    case _ =>
      StepSameItems(s, st);
      SameItemsCalmer(s, Apply(s, st));
  }

  lemma SameItemsCalmer(s: Mgr, t: Mgr)
    requires t.items == s.items && t.index == s.index
    ensures Calmer(s, t)
  {
  }

  lemma FlagsCalmer(s: Mgr, h: Handle)
    ensures Calmer(s, Fail(s)) && Calmer(s, Flag(s, h)) && Calmer(s, DeactivateIndexed(s))
  {
    hide PushTo, Untold, HasItem, MapItems;
  }

  lemma TestCalmer(s: Mgr, monId: MonId, v: Value)
    ensures Calmer(s, TestActive(s, monId, v))
  {
  }

  lemma PushCalmer(s: Mgr, k: nat)
    ensures Calmer(s, PushPending(s, k))
  {
    hide PushTo, Members, MapItems;
  }

  lemma SubscribeQuiet(s: Mgr, name: string, acc: AccId)
    requires Quiet(s)
    ensures Quiet(Subscribe(s, name, acc))
  {
    hide InitialValue, Push, FindName;
  }

  lemma ResetQuiet(s: Mgr)
    ensures Quiet(Reset(s))
  {
    assert Reset(s).index.Values == {};
  }

  lemma StepQuiet(s: Mgr, st: Step)
    requires Quiet(s) && KeepsQuiet(st)
    ensures Quiet(Apply(s, st))
  {
    hide Quiet, Calmer, Subscribe, Unsubscribe, Reset, TestActive, PushPending, Fail, Flag, DeactivateIndexed, Pop, SyncRead,
         Overwrite;
    match st
    case SSubscribe(name, acc) => SubscribeQuiet(s, name, acc);
    case SUnsubscribe(name, acc) => UnsubscribeQuiet(s, name, acc);
    case SReset => ResetQuiet(s);
    case _ =>
      StepCalmer(s, st);
      CalmerQuiet(s, Apply(s, st));
  }

  // While all is quiet no handler passes its test.
  lemma QuietTest(s: Mgr, monId: MonId, v: Value)
    requires Quiet(s)
    ensures TestActive(s, monId, v).pending == s.pending
  {
    if monId in s.index {
      assert s.index[monId] in s.index.Values;
    }
  }

  // A push that has an effect: 1 for a handler that is there.
  function Effective(s: Mgr, st: Step): nat { if st.SPush? && st.k < |s.pending| then 1 else 0 }

  lemma StepPending(s: Mgr, st: Step)
    requires Quiet(s) && KeepsQuiet(st)
    ensures |Apply(s, st).pending| + Effective(s, st) == |s.pending|
  {
    hide Quiet, PushTo, MapItems, Members, TestActive, Fail, Flag, Reset, DeactivateIndexed, Subscribe, Unsubscribe, Pop,
         SyncRead, Overwrite;
    StepFrame(s, st);
    if st.STest? {
      QuietTest(s, st.monId, st.v);
    }
  }

  function EffectivePushes(s: Mgr, run: seq<Step>): nat {
    if run == [] then 0
    else EffectivePushes(s, run[..|run| - 1]) + Effective(Exec(s, run[..|run| - 1]), run[|run| - 1])
  }

  lemma {:induction false} RunQuiet(s: Mgr, run: seq<Step>)
    requires Quiet(s) && QuietRun(run)
    ensures Quiet(Exec(s, run))
    ensures |Exec(s, run).pending| + EffectivePushes(s, run) == |s.pending|
  {
    hide Quiet, Apply, Effective;
    if run == [] {
    } else {
      RunQuiet(s, run[..|run| - 1]);
      StepQuiet(Exec(s, run[..|run| - 1]), run[|run| - 1]);
      StepPending(Exec(s, run[..|run| - 1]), run[|run| - 1]);
    }
  }

  lemma DeactivatedQuiet(s: Mgr)
    ensures Quiet(DeactivateIndexed(s)) && DeactivateIndexed(s).pending == s.pending
  {
  }

  // From any state: after deactivate, until something is activated or newly monitored, whatever else happens, no
  // handler passes its test any more, and the pushes that still come are exactly those of the handlers that had passed
  // it before and have not yet pushed.
  lemma OnlyLatePushes(s: Mgr, run: seq<Step>, monId: MonId, v: Value)
    requires QuietRun(run)
    ensures var t := Exec(DeactivateIndexed(s), run);
            && TestActive(t, monId, v).pending == t.pending
            && EffectivePushes(DeactivateIndexed(s), run) + |t.pending| == |s.pending|
  {
    hide Quiet, DeactivateIndexed, TestActive;
    DeactivatedQuiet(s);
    RunQuiet(DeactivateIndexed(s), run);
    QuietTest(Exec(DeactivateIndexed(s), run), monId, v);
  }

  // No handler can push anything or use a missing entry or an erased item.
  ghost predicate PushesNothing(s: Mgr) {
    && (forall k: nat :: PushPending(s, k).accs == s.accs)
    && (forall k :: 0 <= k < |s.pending| ==> Indexed(s, s.pending[k].monId))
  }

  // Silence for every continuation is the same as that no handler is between its test and its push when deactivate
  // goes through the index, whatever the index has come to.
  lemma SilentExactly(s: Mgr)
    requires Accounting(s)
    ensures (forall run :: QuietRun(run) ==> PushesNothing(Exec(DeactivateIndexed(s), run))) <==> s.pending == []
  {
    hide Accounting, DeactivateIndexed, PushPending, Exec, HasItem;
    if s.pending == [] {
      forall run | QuietRun(run) ensures PushesNothing(Exec(DeactivateIndexed(s), run)) {
        OnlyLatePushes(s, run, 0, Value(false, 0));
        NobodyPushes(Exec(DeactivateIndexed(s), run));
      }
    } else {
      DeactivatedQuiet(s);
      StepAccounting(s, SDeactivateIndexed);
      LatePush(DeactivateIndexed(s));
      NoSteps(DeactivateIndexed(s));
      assert QuietRun([]) && !PushesNothing(Exec(DeactivateIndexed(s), []));
    }
  }

  lemma NobodyPushes(s: Mgr)
    requires s.pending == []
    ensures PushesNothing(s)
  {
  }

  lemma NoSteps(s: Mgr)
    ensures Exec(s, []) == s
  {
  }

  lemma LatePush(s: Mgr)
    requires Accounting(s) && s.pending != []
    ensures !PushesNothing(s)
  {
    hide Accounting, Members, HasItem;
    var p := s.pending[0];
    if Indexed(s, p.monId) {
      var a := ItemMember(s, s.index[p.monId]);
      PushGrows(s.accs[a], Data(p.sample));
      assert PushPending(s, 0).accs[a] != s.accs[a];
    }
  }

  lemma PushGrows(a: Accessor, n: Note)
    ensures Push(a, n) != a
  {
    assert |Push(a, n).pushed| == |a.pushed| + 1;
  }

  // An item has a subscribed accessor.
  lemma ItemMember(s: Mgr, h: Handle) returns (a: AccId)
    requires Accounting(s) && HasItem(s.items, h)
    ensures a in s.accs && a in Members(s.items, h)
  {
    var i :| 0 <= i < |s.items| && s.items[i].handle == h;
    a := s.items[i].accessors[0];
    assert a in s.items[i].accessors;
  }

  // Monitoring an item again without activating it keeps the silence exactly when the item is inactive.
  lemma MonitorQuiet(s: Mgr, h: Handle, monId: MonId)
    requires Quiet(s)
    ensures Quiet(Monitor(s, h, monId)) <==>
            forall i :: 0 <= i < |s.items| && s.items[i].handle == h ==> !s.items[i].active
  {
    var t := Monitor(s, h, monId);
    assert monId in t.index && t.index[monId] == h && h in t.index.Values;
    assert t.index.Values <= s.index.Values + {h};
    if exists i :: 0 <= i < |s.items| && s.items[i].handle == h && s.items[i].active {
      var i :| 0 <= i < |s.items| && s.items[i].handle == h && s.items[i].active;
      assert t.items[i].active;
    }
  }
}
