// Whether the pointers in subscriptionMap lead to items of the list.
module SubscriptionListing {
  import opened Common
  import opened SubscriptionState
  import opened SubscriptionRuns
  import opened SubscriptionIndex

  // No entry names an erased item.
  ghost predicate AllListed(s: Mgr) { forall k :: k in s.index ==> Indexed(s, k) }

  lemma SoundListed(s: Mgr)
    requires Sound(s)
    ensures AllListed(s)
  {
    forall k | k in s.index ensures Indexed(s, k) {
      assert MonitoredAs(s.items, s.index[k], k);
    }
  }

  // The condition on one step under which this stays so.
  ghost predicate KeepsListed(s: Mgr, st: Step) {
    match st
    case SMonitor(h, _) => HasItem(s.items, h)
    case SUnsubscribe(name, _) =>
      var i := FindName(s.items, name);
      i < |s.items| && |s.items[i].accessors| <= 1 ==>
        forall k :: k in s.index && s.index[k] == s.items[i].handle ==> k == s.items[i].id
    case _ => true
  }

  // t has the handles of s on its list.
  ghost predicate SameHandles(s: Mgr, t: Mgr) { forall h :: HasItem(t.items, h) <==> HasItem(s.items, h) }

  lemma ShapeHandles(s: Mgr, t: Mgr)
    requires SameShape(s, t)
    ensures SameHandles(s, t)
  {
    forall h | HasItem(s.items, h) ensures HasItem(t.items, h) {
      var i :| 0 <= i < |s.items| && s.items[i].handle == h;
      assert t.items[i].handle == h;
    }
  }

  lemma SubscribeHandles(s: Mgr, name: string, acc: AccId)
    ensures forall h :: HasItem(s.items, h) ==> HasItem(Subscribe(s, name, acc).items, h)
    ensures forall h :: HasItem(Subscribe(s, name, acc).items, h) ==>
              HasItem(s.items, h) || (FindName(s.items, name) == |s.items| && h == s.nextHandle)
    ensures FindName(s.items, name) == |s.items| ==> HasItem(Subscribe(s, name, acc).items, s.nextHandle)
  {
    hide InitialValue, Push;
    var t := Subscribe(s, name, acc);
    assert forall i :: 0 <= i < |s.items| ==> t.items[i].handle == s.items[i].handle;
    if FindName(s.items, name) == |s.items| {
      assert t.items[|s.items|].handle == s.nextHandle;
    }
  }

  lemma EraseHandles(s: Mgr, name: string, acc: AccId)
    requires DistinctItems(s.items) && FindName(s.items, name) < |s.items|
    requires |s.items[FindName(s.items, name)].accessors| <= 1
    ensures forall h :: HasItem(Unsubscribe(s, name, acc).items, h) <==>
              HasItem(s.items, h) && h != s.items[FindName(s.items, name)].handle
  {
    hide Unsubscribe, RemoveFirst, FindName;
    UnsubscribeItems(s, name, acc);
    var t, k := Unsubscribe(s, name, acc), FindName(s.items, name);
    forall h | HasItem(s.items, h) && h != s.items[k].handle ensures HasItem(t.items, h) {
      var i :| 0 <= i < |s.items| && s.items[i].handle == h;
      assert t.items[if i < k then i else i - 1].handle == h;
    }
    assert forall i :: 0 <= i < |t.items| ==> t.items[i] == s.items[if i < k then i else i + 1];
  }

  lemma DropHandles(s: Mgr, name: string, acc: AccId)
    requires FindName(s.items, name) < |s.items| ==> |s.items[FindName(s.items, name)].accessors| > 1
    ensures SameHandles(s, Unsubscribe(s, name, acc)) && Unsubscribe(s, name, acc).index == s.index
  {
    hide Unsubscribe, RemoveFirst, FindName;
    UnsubscribeItems(s, name, acc);
    var t := Unsubscribe(s, name, acc);
    assert forall i :: 0 <= i < |s.items| ==> t.items[i].handle == s.items[i].handle;
  }

  lemma UnsubscribeListed(s: Mgr, name: string, acc: AccId)
    requires DistinctItems(s.items) && AllListed(s)
    ensures AllListed(Unsubscribe(s, name, acc)) <==> KeepsListed(s, SUnsubscribe(name, acc))
  {
    hide DistinctItems, Unsubscribe, RemoveFirst, FindName, HasItem;
    var t, i := Unsubscribe(s, name, acc), FindName(s.items, name);
    if i < |s.items| && |s.items[i].accessors| <= 1 {
      UnsubscribeItems(s, name, acc);
      EraseHandles(s, name, acc);
      if AllListed(t) {
        forall k | k in s.index && s.index[k] == s.items[i].handle ensures k == s.items[i].id {
          if k in t.index { assert false; }
        }
      }
    } else {
      DropHandles(s, name, acc);
    }
  }

  lemma MonitorListed(s: Mgr, h: Handle, monId: MonId)
    requires AllListed(s)
    ensures AllListed(Monitor(s, h, monId)) <==> HasItem(s.items, h)
  {
    hide HasItem, SameShape;
    var t := Monitor(s, h, monId);
    StepShape(s, SMonitor(h, monId));
    ShapeHandles(s, t);
    assert t.index == s.index[monId := h];
    if AllListed(t) {
      assert Indexed(t, monId);
    }
  }

  lemma SubscribeListed(s: Mgr, name: string, acc: AccId)
    requires AllListed(s)
    ensures AllListed(Subscribe(s, name, acc))
  {
    hide Subscribe, HasItem, FindName;
    SubscribeFrame(s, name, acc);
    SubscribeHandles(s, name, acc);
  }

  lemma SameHandlesListed(s: Mgr, t: Mgr)
    requires AllListed(s) && SameHandles(s, t) && forall k :: k in t.index ==> k in s.index && t.index[k] == s.index[k]
    ensures AllListed(t)
  {
    hide HasItem;
  }

  lemma StepListed(s: Mgr, st: Step)
    requires Accounting(s) && AllListed(s)
    ensures AllListed(Apply(s, st)) <==> KeepsListed(s, st)
  {
    hide AllListed, Accounting, HasItem, FindName, SameShape, Subscribe, Unsubscribe, Monitor, Reset, TestActive, PushPending,
         Fail, Flag, ActivateAll, DeactivateIndexed, Mark, Pop, SyncRead, Overwrite;
    match st
    case SSubscribe(name, acc) => SubscribeListed(s, name, acc);
    case SUnsubscribe(name, acc) =>
      AccountedItems(s);
      UnsubscribeListed(s, name, acc);
    case SMonitor(h, monId) => MonitorListed(s, h, monId);
    case SReset => ResetListed(s);
    case _ =>
      StepFrame(s, st);
      StepShape(s, st);
      ShapeHandles(s, Apply(s, st));
      SameHandlesListed(s, Apply(s, st));
  }

  lemma AccountedItems(s: Mgr)
    requires Accounting(s)
    ensures DistinctItems(s.items)
  {
  }

  lemma ResetListed(s: Mgr)
    ensures AllListed(Reset(s))
  {
  }

  // No entry names an erased item in any state of a run exactly when no creation completes on an erased item and no item
  // is erased while another id than its own names it.
  lemma RunListedExactly(run: seq<Step>)
    requires Along(INIT, run, Disciplined)
    ensures Throughout(run, AllListed) <==> Along(INIT, run, KeepsListed)
  {
    hide Apply, Exec, Accounting, AllListed, KeepsListed, Throughout, Along, Disciplined;
    assert AllListed(INIT) by { InitSound(); SoundListed(INIT); }
    forall k | 0 <= k < |run| ensures KeptExactly(run, k, AllListed, KeepsListed) {
      if AllListed(Exec(INIT, run[..k])) {
        DisciplinedAt(run, k);
        StepListed(Exec(INIT, run[..k]), run[k]);
      }
    }
    ThroughoutExactly(run, AllListed, KeepsListed);
  }
}
