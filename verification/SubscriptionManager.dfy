// OPCUASubscriptionManager with its fields and loops, each method proved against the sections and calls of
// SubscriptionState and SubscriptionCalls. The calls run without interference; what happens between sections of
// different threads is the subject of SubscriptionRuns.
module SubscriptionManager {
  import opened Common
  import opened FutureQueue
  import opened SubscriptionState
  import opened SubscriptionRuns
  import opened SubscriptionIndex
  import opened SubscriptionListing
  import opened SubscriptionCalls
  import opened SubscriptionTaking
  import opened LoopSteps

  class OPCUASubscriptionManager {
    var items: seq<Item>
    var subscriptionMap: map<MonId, Handle>
    var nextHandle: Handle
    var asyncReadActive: bool
    var accs: map<AccId, Accessor>
    var pubs: map<Handle, seq<Value>>
    var subscriptionID: nat
    var subscriptionActive: bool
    var live: set<nat>
    var run: bool
    var subscriptionNeedsToBeRemoved: bool
    var hasThread: bool                      // opcuaThread != nullptr
    var pastLoop: bool                       // the client thread has dealt with a pending removal and is about to end

    ghost function View(): Mgr
      reads this
    {
      Mgr(items, subscriptionMap, nextHandle, asyncReadActive, accs, pubs, subscriptionID, subscriptionActive, live, [],
          false)
    }

    // No pointer in the index leads to an erased item.
    ghost predicate Usable()
      reads this
    {
      Accounting(View()) && AllListed(View())
    }

    ghost predicate Valid()
      reads this
    {
      Accounting(View()) && Sound(View())
    }

    constructor ()
      ensures View() == INIT && Valid() && !run && !hasThread && !subscriptionNeedsToBeRemoved
    {
      items, subscriptionMap, nextHandle, asyncReadActive, accs, pubs := [], map[], 0, false, map[], map[];
      subscriptionID, subscriptionActive, live := 0, false, {};
      run, subscriptionNeedsToBeRemoved, hasThread, pastLoop := false, false, false, false;
      new;
      InitSound();
    }

    // Pushes one notification to the accessors of a list.
    method PushAll(targets: seq<AccId>, n: Note)
      requires NoDuplicates(targets)
      modifies `accs
      ensures accs == PushTo(old(accs), SetOf(targets), n)
    {
      var j := 0;
      while j < |targets|
        invariant j <= |targets|
        invariant accs == PushTo(old(accs), SetOf(targets[..j]), n)
      {
        var a := targets[j];
        assert targets[..j + 1] == targets[..j] + [a] && a !in targets[..j];
        if a in accs {
          accs := accs[a := Push(accs[a], n)];
        }
        j := j + 1;
      }
      assert targets[..j] == targets;
    }

    // Both halves without interruption.
    method ResponseHandler(monId: MonId, v: Value)
      requires Usable()
      modifies `items, `accs, `pubs
      ensures View() == Notify(old(View()), monId, v)
    {
      hide HasItem, AtHome, DisjointLists, DistinctItems, Members, PushTo, TestActive, PushPending;
      if monId in subscriptionMap {
        var h := subscriptionMap[monId];
        var i := Slot(items, h);
        ghost var before := View();
        LiveSlot(before, monId, i);
        NotifyAt(before, monId, i, v);
        var n := Data(Sample(v, h, |pubs[h]|));
        pubs := pubs[h := pubs[h] + [v]];
        if items[i].active {
          MembersSlot(items, i, h);
          OwnList(items, i);
          items := items[i := items[i].(hasException := false)];
          PushAll(items[i].accessors, n);
        }
      } else {
        NotifyUnknown(View(), monId, v);
      }
    }

    method HandleException()
      requires Accounting(View())
      modifies `items, `accs
      ensures View() == Fail(old(View())) && |items| == old(|items|)
    {
      hide AtHome, DistinctItems, DisjointLists, Untold, PushTo, Fail;
      ghost var before := View();
      AllFlagged(before);
      var i := 0;
      assert before.items[..0] == [];
      while i < |items|
        invariant i <= |items| == |before.items|
        invariant forall k :: 0 <= k < |items| ==> items[k] == if k < i then Flagged(before.items[k]) else before.items[k]
        invariant accs == PushTo(before.accs, Untold(before.items[..i]), Error)
      {
        FailNext(before, i, accs);
        if items[i].active && !items[i].hasException {
          items := items[i := items[i].(hasException := true)];
          OwnList(before.items, i);
          PushAll(items[i].accessors, Error);
        }
        i := i + 1;
      }
      assert before.items[..i] == before.items;
    }

    method SetExternalError(browseName: string)
      modifies `items
      ensures View() == External(old(View()), browseName)
      ensures |items| == old(|items|)
      ensures forall i :: 0 <= i < |items| ==>
                items[i] == if i == FindName(old(items), browseName) then old(items)[i].(hasException := true) else old(items)[i]
    {
      var it := FindName(items, browseName);
      if it < |items| {
        items := items[it := items[it].(hasException := true)];
      }
    }

    method ResetMonitoredItems()
      modifies `items, `subscriptionMap
      ensures View() == Reset(old(View()))
    {
      ghost var before := items;
      for i := 0 to |items|
        invariant |items| == |before|
        invariant forall k :: 0 <= k < |items| ==>
          items[k] == if k < i then before[k].(isMonitored := false) else before[k]
      {
        items := items[i := items[i].(isMonitored := false)];
      }
      subscriptionMap := map[];
      assert items == Reset(old(View())).items;
    }

    method ActivateItems()
      modifies `items
      ensures View() == ActivateAll(old(View()))
    {
      ghost var before := items;
      for i := 0 to |items|
        invariant |items| == |before|
        invariant forall k :: 0 <= k < |items| ==>
          items[k] == if k < i then before[k].(active := true) else before[k]
      {
        items := items[i := items[i].(active := true)];
      }
      assert items == ActivateAll(old(View())).items;
    }

    // The loop of deactivate() over the index; a map may list its entries in any order.
    method DeactivateMapped()
      requires Usable()
      modifies `items
      ensures View() == DeactivateIndexed(old(View()))
    {
      hide AtHome, DisjointLists, DistinctItems, Behind, Slot, Quieted, DeactivateIndexed;
      ghost var before := View();
      var rest := subscriptionMap.Keys;
      AllBehind(before);
      while rest != {}
        invariant rest <= subscriptionMap.Keys
        invariant items == Quieted(before.items, Behind(subscriptionMap, rest))
        decreases rest
      {
        var k :| k in rest;
        var i := Slot(items, subscriptionMap[k]);
        QuietedSlot(before.items, Behind(subscriptionMap, rest), subscriptionMap[k]);
        LiveSlot(before, k, i);
        QuietedNext(before.items, Behind(subscriptionMap, rest), i);
        BehindNext(subscriptionMap, rest, k);
        items := items[i := items[i].(active := false)];
        rest := rest - {k};
      }
    }

    method RemoveSubscription(deleteOk: bool)
      modifies `items, `subscriptionMap, `subscriptionID, `subscriptionActive, `live
      ensures View() == Removed(old(View()), deleteOk)
      ensures subscriptionID == 0 && subscriptionMap == map[] && |items| == old(|items|)
      ensures forall i :: 0 <= i < |items| ==> items[i] == old(items)[i].(isMonitored := false)
      ensures if deleteOk then old(subscriptionID) !in live && !subscriptionActive
              else live == old(live) && subscriptionActive == old(subscriptionActive)
    {
      if deleteOk {
        live := live - {subscriptionID};
        subscriptionActive := false;      // setInactive, from deleteSubscriptionCallback
      }
      subscriptionID := 0;
      ResetMonitoredItems();
    }

    // ok == false stands for the runtime_error.
    method CreateSubscription(deleteOk: bool, response: Option<nat>) returns (ok: bool)
      modifies `items, `subscriptionMap, `subscriptionID, `subscriptionActive, `live
      ensures View() == Created(old(View()), deleteOk, response) && ok == response.Some?
    {
      if subscriptionID != 0 {
        RemoveSubscription(deleteOk);
      }
      if response.Some? {
        subscriptionID := response.value;
        live := live + {subscriptionID};
        subscriptionActive := true;
      }
      ok := response.Some?;
    }

    method AddMonitoredItems(issued: map<Handle, MonId>)
      requires Accounting(View())
      modifies `items, `accs, `subscriptionMap
      ensures View() == Added(old(View()), issued)
    {
      hide Accounting, AddOne, Mark, Monitor, Fail, IsMonitored;
      ghost var before := View();
      var i := 0;
      while i < |items|
        invariant i <= |items| == |before.items|
        invariant View() == AddUpTo(before, i, issued)
      {
        AddUpToAccounting(before, i, issued);
        AddPass(i, issued);
        i := i + 1;
      }
    }

    // The body of that loop.
    method AddPass(i: nat, issued: map<Handle, MonId>)
      requires Accounting(View()) && i < |items|
      modifies `items, `accs, `subscriptionMap
      ensures View() == AddOne(old(View()), old(items[i].handle), issued)
      ensures |items| == old(|items|)
    {
      hide Accounting, SameShape, Mark, Monitor, Fail;
      ghost var before := View();
      ghost var h := items[i].handle;
      AccountedItems(before);
      MarkAt(before, i);
      if asyncReadActive {
        items := items[i := items[i].(active := true)];
      }
      StepAccounting(before, SMark(h));
      assert View() == Mark(before, h);
      AccountedItems(View());
      if !items[i].isMonitored {
        if items[i].handle in issued {
          MonitorAt(View(), i, issued[items[i].handle]);
          subscriptionMap := subscriptionMap[issued[items[i].handle] := items[i].handle];
          items := items[i := items[i].(id := issued[items[i].handle], isMonitored := true)];
        } else {
          HandleException();
        }
      }
    }

    method Prepare(deleteOk: bool, response: Option<nat>, issued: map<Handle, MonId>) returns (ok: bool)
      requires Accounting(View())
      modifies `items, `accs, `subscriptionMap, `subscriptionID, `subscriptionActive, `live
      ensures ok == response.Some?
      ensures View() == var c := Created(old(View()), deleteOk, response); if ok then Added(c, issued) else c
      ensures Accounting(View()) && (old(Usable()) ==> Usable()) && (old(Valid()) ==> Valid())
    {
      hide Accounting, Sound, AllListed, Created, Added, Reaches;
      ghost var before := View();
      ok := CreateSubscription(deleteOk, response);
      ghost var c := View();
      CreatedReach(before, deleteOk, response, false);
      ReachesKeeps(before, c);
      if AllListed(before) {
        CreatedListed(before, deleteOk, response);
      }
      if ok {
        AddUpToReach(c, |c.items|, issued, false);
        if AllListed(c) {
          AddUpToListed(c, |c.items|, issued);
        }
        AddMonitoredItems(issued);
        assert View() == AddUpTo(c, |c.items|, issued) by { AddedIs(c, issued); }
        ReachesKeeps(c, View());
      }
    }

    method Activate(deleteOk: bool, response: Option<nat>, issued: map<Handle, MonId>) returns (ok: bool)
      requires Accounting(View())
      modifies `items, `accs, `subscriptionMap, `subscriptionID, `subscriptionActive, `live, `asyncReadActive
      ensures ok == (old(subscriptionActive) || response.Some?)
      ensures View() == Activated(old(View()), deleteOk, response, issued)
      ensures Accounting(View()) && (old(Usable()) ==> Usable()) && (old(Valid()) ==> Valid())
      ensures Reaches(old(View()), View(), false)
    {
      hide Accounting, Sound, AllListed, Created, Added, Reaches, ActivateAll;
      ghost var before := View();
      ActivatedReach(before, deleteOk, response, issued, false);
      ReachesKeeps(before, Activated(before, deleteOk, response, issued));
      if AllListed(before) {
        ActivatedListed(before, deleteOk, response, issued);
      }
      ok := true;
      if !subscriptionActive {
        ok := CreateSubscription(deleteOk, response);
        CreatedReach(before, deleteOk, response, false);
        ReachesKeeps(before, View());
      }
      if ok {
        ghost var c := View();
        asyncReadActive := true;
        ReachStep(c, SAsync(true), false);
        ReachesKeeps(c, View());
        if |items| > 0 && |subscriptionMap| == 0 {
          AddMonitoredItems(issued);
        } else {
          ActivateItems();
        }
      }
    }

    method Deactivate(deleteOk: bool)
      requires Usable()
      modifies `items, `subscriptionMap, `subscriptionID, `subscriptionActive, `live, `asyncReadActive, `run,
               `subscriptionNeedsToBeRemoved
      ensures View() == Deactivated(old(View()), hasThread, deleteOk)
      ensures !run
      ensures subscriptionNeedsToBeRemoved == (old(subscriptionNeedsToBeRemoved) || (old(subscriptionActive) && hasThread))
      ensures Usable() && (old(Valid()) ==> Valid()) && Reaches(old(View()), View(), false)
    {
      hide Accounting, Sound, AllListed, Removed, Reaches, DeactivateIndexed, Reset, DeleteSubscription;
      ghost var before := View();
      DeactivateMapped();
      if run {
        run := false;
      }
      LeaveSubscription(deleteOk);
      asyncReadActive := false;
      DeactivatedUsable(before, hasThread, deleteOk);
    }

    // deactivate, the part after the items: the client thread removes the subscription when there is one.
    method LeaveSubscription(deleteOk: bool)
      modifies `items, `subscriptionMap, `subscriptionID, `subscriptionActive, `live, `subscriptionNeedsToBeRemoved
      ensures var s := old(View()).(subActive := false);
              View() == if old(subscriptionActive) && !hasThread then Removed(s, deleteOk) else s
      ensures subscriptionNeedsToBeRemoved == (old(subscriptionNeedsToBeRemoved) || (old(subscriptionActive) && hasThread))
    {
      hide Removed, Accounting, Sound;
      if subscriptionActive {
        subscriptionActive := false;
        if hasThread {
          subscriptionNeedsToBeRemoved := true;
        } else {
          RemoveSubscription(deleteOk);
        }
      }
    }

    method DeactivateAllAndPushException(deleteOk: bool)
      requires Usable()
      modifies `items, `accs, `subscriptionMap, `subscriptionID, `subscriptionActive, `live, `asyncReadActive, `run,
               `subscriptionNeedsToBeRemoved
      ensures View() == Deactivated(Fail(old(View())), hasThread, deleteOk) && !run
      ensures Usable() && (old(Valid()) ==> Valid()) && Reaches(old(View()), View(), false)
    {
      hide Accounting, Sound, AllListed, Fail, Deactivated, Reaches;
      ghost var before := View();
      FailUsable(before);
      HandleException();
      ghost var failed := View();
      Deactivate(deleteOk);
      ReachTrans(before, failed, View(), false);
    }

    method Subscribe(browseName: string, accessor: AccId, deleteOk: bool, response: Option<nat>, issued: map<Handle, MonId>)
        returns (ok: bool)
      requires Accounting(View()) && accessor !in accs
      modifies `items, `accs, `pubs, `nextHandle, `subscriptionMap, `subscriptionID, `subscriptionActive, `live
      ensures View() == Subscribed(old(View()), browseName, accessor, deleteOk, response, issued)
      ensures !ok <==> FindName(old(items), browseName) == |old(items)| && old(asyncReadActive)
                       && !old(subscriptionActive) && response.None?
      ensures Accounting(View()) && (old(Usable()) ==> Usable()) && (old(Valid()) ==> Valid())
      ensures Reaches(old(View()), View(), false)
    {
      hide Accounting, Sound, AllListed, Created, Added, Reaches, SubscriptionState.Subscribe;
      ghost var before := View();
      SubscribedReach(before, browseName, accessor, deleteOk, response, issued, false);
      ReachesKeeps(before, Subscribed(before, browseName, accessor, deleteOk, response, issued));
      if AllListed(before) {
        SubscribedListed(before, browseName, accessor, deleteOk, response, issued);
      }
      ok := true;
      var it := FindName(items, browseName);
      if it == |items| {
        AppendNewItem(browseName, accessor);
        ghost var t := View();
        ReachStep(before, SSubscribe(browseName, accessor), false);
        ReachesKeeps(before, t);
        if asyncReadActive {
          if !subscriptionActive {
            ok := CreateSubscription(deleteOk, response);
            CreatedReach(t, deleteOk, response, false);
            ReachesKeeps(t, View());
          }
          if ok {
            AddMonitoredItems(issued);
          }
        }
      } else {
        OwnAccessors(before, it);
        AddToItem(it, accessor);
      }
    }

    // subscribe, the branch for a new item.
    method AppendNewItem(browseName: string, accessor: AccId)
      requires FindName(items, browseName) == |items|
      modifies `items, `accs, `pubs, `nextHandle
      ensures View() == SubscriptionState.Subscribe(old(View()), browseName, accessor)
    {
      items := items + [Item(nextHandle, browseName, [accessor], 0, false, false, false)];
      accs := accs[accessor := Newcomer(nextHandle)];
      pubs := pubs[nextHandle := []];
      nextHandle := nextHandle + 1;
    }

    // subscribe, the branch for an item that exists.
    method AddToItem(it: nat, accessor: AccId)
      requires it < |items| && it == FindName(items, items[it].name) && items[it].accessors != [] && accessor !in accs
      requires forall a :: a in items[it].accessors ==> a in accs
      modifies `items, `accs
      ensures View() == SubscriptionState.Subscribe(old(View()), old(items[it].name), accessor)
    {
      var tmp := items[it].accessors[|items[it].accessors| - 1];
      assert tmp in items[it].accessors;
      var last := accs[tmp];
      accs := accs[accessor := Newcomer(items[it].handle)];
      if items[it].active {
        if last.queue == [] {
          if last.data.Some? && last.data.value.v.hasValue {
            accs := accs[accessor := Push(accs[accessor], Data(last.data.value))];
          }
        } else if last.queue[0].Data? && last.queue[0].s.v.hasValue {
          accs := accs[accessor := Push(accs[accessor], Data(last.queue[0].s))];
        }
      }
      items := items[it := items[it].(accessors := items[it].accessors + [accessor])];
    }

    method Unsubscribe(browseName: string, accessor: AccId, connected: bool, deleteOk: bool)
      requires Accounting(View()) && Disciplined(View(), SUnsubscribe(browseName, accessor))
      modifies `items, `subscriptionMap, `subscriptionID, `subscriptionActive, `live, `run, `hasThread, `pastLoop,
               `subscriptionNeedsToBeRemoved
      ensures var last := LastItem(old(View()), browseName, accessor, connected);
              var t := Unsubscribed(old(View()), browseName, accessor, connected, deleteOk);
              var removes := old(hasThread && !pastLoop && subscriptionNeedsToBeRemoved);
              if last then !run && !hasThread && View() == Stopped(t, removes, deleteOk)
              else View() == t && run == old(run) && hasThread == old(hasThread)
      ensures Accounting(View()) && (old(Valid()) ==> Valid())
      ensures old(Usable() && KeepsListed(View(), SUnsubscribe(browseName, accessor))) ==> Usable()
    {
      hide Accounting, Sound, AllListed, Removed, Reaches, SubscriptionState.Unsubscribe, IdToDelete, FindName, KeepsListed;
      ghost var before := View();
      UnsubscribedKeeps(before, browseName, accessor, connected, deleteOk);
      var id := TakeOut(browseName, accessor);
      if id != 0 && connected && |items| == 0 {
        StopReading(deleteOk);
      }
    }

    // unsubscribe, when the last item has gone: the subscription is removed and the client thread stopped.
    method StopReading(deleteOk: bool)
      modifies `items, `subscriptionMap, `subscriptionID, `subscriptionActive, `live, `run, `hasThread, `pastLoop,
               `subscriptionNeedsToBeRemoved
      ensures View() == Stopped(Removed(old(View()), deleteOk), old(hasThread && !pastLoop && subscriptionNeedsToBeRemoved), deleteOk)
      ensures !run && !hasThread
      ensures old(Accounting(View())) ==> Usable() && Valid()
    {
      hide Accounting, Sound, AllListed, Removed, Reaches;
      RemovedUsable(View(), deleteOk);
      RemoveSubscription(deleteOk);
      run := false;
      StopClientThread(deleteOk);
    }

    // unsubscribe, the part under the mutex.
    method TakeOut(browseName: string, accessor: AccId) returns (id: MonId)
      modifies `items, `subscriptionMap
      ensures View() == SubscriptionState.Unsubscribe(old(View()), browseName, accessor)
      ensures id == IdToDelete(old(View()), browseName)
    {
      id := 0;
      var it := FindName(items, browseName);
      if it == |items| {
        return;
      }
      if |items[it].accessors| > 1 {
        items := items[it := items[it].(accessors := RemoveFirst(items[it].accessors, accessor))];
      } else {
        subscriptionMap := subscriptionMap - {items[it].id};
        id := items[it].id;
        items := items[..it] + items[it + 1..];
      }
    }

    // The client thread after its loop: a removal is carried out if it is pending now; one that is asked for later
    // stays pending.
    method LeaveLoop(deleteOk: bool)
      requires hasThread && !pastLoop
      modifies `items, `subscriptionMap, `subscriptionID, `subscriptionActive, `live, `subscriptionNeedsToBeRemoved, `pastLoop
      ensures View() == Stopped(old(View()), old(subscriptionNeedsToBeRemoved), deleteOk)
      ensures pastLoop && !subscriptionNeedsToBeRemoved
      ensures old(Accounting(View())) ==> Accounting(View())
      ensures (old(Usable()) ==> Usable()) && (old(Valid()) ==> Valid()) && Reaches(old(View()), View(), false)
    {
      hide Accounting, Sound, AllListed, Removed, Reaches;
      ghost var before := View();
      RemovedUsable(before, deleteOk);
      ReachSelf(before, false);
      if subscriptionNeedsToBeRemoved {
        RemoveSubscription(deleteOk);
        subscriptionNeedsToBeRemoved := false;
      }
      pastLoop := true;
    }

    // join: a thread that is still in its loop leaves it first; the thread clears run as it ends.
    method StopClientThread(deleteOk: bool)
      modifies `items, `subscriptionMap, `subscriptionID, `subscriptionActive, `live, `run, `hasThread, `pastLoop,
               `subscriptionNeedsToBeRemoved
      ensures View() == Stopped(old(View()), old(hasThread && !pastLoop && subscriptionNeedsToBeRemoved), deleteOk)
      ensures subscriptionNeedsToBeRemoved == old(subscriptionNeedsToBeRemoved && !(hasThread && !pastLoop))
      ensures !hasThread && run == (old(run) && !old(hasThread))
      ensures old(Accounting(View())) ==> Accounting(View())
      ensures (old(Usable()) ==> Usable()) && (old(Valid()) ==> Valid()) && Reaches(old(View()), View(), false)
    {
      hide Accounting, Sound, AllListed, Removed, Reaches;
      ReachSelf(View(), false);
      if hasThread {
        if !pastLoop {
          LeaveLoop(deleteOk);
        }
        run := false;
        hasThread := false;
      }
    }

    // The thread is created in the same step that sets run.
    method Start()
      requires !hasThread
      modifies `run, `hasThread, `pastLoop
      ensures run == subscriptionActive == hasThread
      ensures hasThread ==> !pastLoop
    {
      if subscriptionActive {
        run := true;
        hasThread, pastLoop := true, false;
      } else {
        run := false;
      }
    }

    // One read of an accessor: the continuation of its queue.
    method Read(accessor: AccId)
      modifies `accs
      ensures View() == Pop(old(View()), accessor)
      ensures accs.Keys == old(accs.Keys) && forall a :: a in accs && a != accessor ==> accs[a] == old(accs)[a]
      ensures accessor in accs ==>
                var a, b := old(accs)[accessor], accs[accessor];
                && a.queue == Front(a) + b.queue && b.seen == a.seen + Front(a)
                && b.consumed == a.consumed + ValuesOf(Front(a))
                && b.data == if ValuesOf(Front(a)) == [] then a.data else Some(ValuesOf(Front(a))[0])
    {
      hide ValuesOf, Front;
      if accessor in accs {
        PopTakes(View(), accessor);
      }
      if accessor in accs && accs[accessor].queue != [] {
        var front := accs[accessor].queue[0];
        accs := accs[accessor := accs[accessor].(queue := accs[accessor].queue[1..], seen := accs[accessor].seen + [front])];
        if front.Data? && front.s.v.hasValue {
          accs := accs[accessor := accs[accessor].(data := Some(front.s), consumed := accs[accessor].consumed + [front.s])];
        }
      }
    }
  }
}
