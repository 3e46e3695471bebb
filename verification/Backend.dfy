// OpcUABackend: opening, closing and recovering the connection, and the two callbacks that report its loss.
module Backend {
  import opened Common
  import opened SubscriptionState
  import opened SubscriptionRuns
  import opened SubscriptionIndex
  import opened SubscriptionListing
  import opened SubscriptionCalls
  import opened SubscriptionManager

  // Nothing is monitored and the index is empty.
  ghost predicate Blank(s: Mgr) {
    s.index == map[] && forall i :: 0 <= i < |s.items| ==> !s.items[i].isMonitored
  }

  lemma ResetBlank(s: Mgr)
    ensures Blank(Reset(s)) && SameShape(s, Reset(s))
  {
  }

  lemma BlankUsable(s: Mgr)
    requires Blank(s)
    ensures Sound(s) && AllListed(s)
  {
  }

  lemma RemovedBlank(s: Mgr, deleteOk: bool)
    ensures Blank(Removed(s, deleteOk)) && SameShape(s, Removed(s, deleteOk)) && Removed(s, deleteOk).subId == 0
    ensures Removed(s, deleteOk).broken == s.broken
  {
  }

  lemma DeactivatedShape(s: Mgr, hasThread: bool, deleteOk: bool)
    ensures SameShape(s, Deactivated(s, hasThread, deleteOk))
  {
  }

  lemma CreatedBlank(s: Mgr, deleteOk: bool, response: Option<nat>)
    requires Blank(s)
    ensures Blank(Created(s, deleteOk, response)) && SameShape(s, Created(s, deleteOk, response))
    ensures response.Some? ==> Created(s, deleteOk, response).subId == response.value && Created(s, deleteOk, response).subActive
    ensures Created(s, deleteOk, response).broken == s.broken
  {
    hide Removed;
    RemovedBlank(s, deleteOk);
  }

  lemma RebuildFrom(s: Mgr, t: Mgr, issued: map<Handle, MonId>)
    requires Accounting(s) && SameShape(s, t) && Blank(t) && IssuedForAll(s, issued)
    ensures Rebuilt(Added(t, issued), issued) && SameShape(s, Added(t, issued))
    ensures Added(t, issued).subId == t.subId && Added(t, issued).subActive == t.subActive
  {
    hide AddUpTo, SameShape;
    assert DistinctHandles(t.items) && IssuedForAll(t, issued) by { SameIssued(s, t, issued); }
    AddedRebuilds(t, issued);
    AddUpToShape(t, |t.items|, issued);
    ShapeTrans(s, t, Added(t, issued));
    AddUpToSubscription(t, |t.items|, issued);
  }

  lemma SameIssued(s: Mgr, t: Mgr, issued: map<Handle, MonId>)
    requires Accounting(s) && SameShape(s, t) && IssuedForAll(s, issued)
    ensures DistinctHandles(t.items) && IssuedForAll(t, issued)
  {
  }

  lemma {:induction false} AddUpToSubscription(s: Mgr, n: nat, issued: map<Handle, MonId>)
    requires n <= |s.items|
    ensures AddUpTo(s, n, issued).subId == s.subId && AddUpTo(s, n, issued).subActive == s.subActive
  {
    hide AddOne;
    if n == 0 {
    } else {
      AddUpToSubscription(s, n - 1, issued);
      AddOneSubscription(AddUpTo(s, n - 1, issued), s.items[n - 1].handle, issued);
    }
  }

  lemma AddOneSubscription(s: Mgr, h: Handle, issued: map<Handle, MonId>)
    ensures AddOne(s, h, issued).subId == s.subId && AddOne(s, h, issued).subActive == s.subActive
  {
    hide MapItems, PushTo, Untold;
  }

  lemma ShapeSelf(s: Mgr)
    ensures SameShape(s, s)
  {
  }

  lemma AccountingOf(s: Mgr, t: Mgr)
    requires Accounting(s) && SameShape(s, t)
    ensures Accounting(t)
  {
    ShapeAccounting(s, t);
  }

  ghost predicate AllActive(s: Mgr) {
    forall i :: 0 <= i < |s.items| ==> s.items[i].active
  }

  lemma AddOneActive(s: Mgr, h: Handle, issued: map<Handle, MonId>, n: nat)
    requires s.asyncRead && n < |s.items| && s.items[n].handle == h
    requires forall i :: 0 <= i < n ==> s.items[i].active
    ensures |AddOne(s, h, issued).items| == |s.items|
    ensures forall i :: 0 <= i <= n ==> AddOne(s, h, issued).items[i].active
  {
  }

  lemma {:induction false} AddUpToActive(s: Mgr, n: nat, issued: map<Handle, MonId>)
    requires s.asyncRead && n <= |s.items|
    ensures |AddUpTo(s, n, issued).items| == |s.items|
    ensures forall i :: 0 <= i < n ==> AddUpTo(s, n, issued).items[i].active
  {
    hide AddOne;
    if n == 0 {
    } else {
      AddUpToActive(s, n - 1, issued);
      AddUpToShape(s, n - 1, issued);
      AddOneActive(AddUpTo(s, n - 1, issued), s.items[n - 1].handle, issued, n - 1);
    }
  }

  // Whichever way activate goes, every item is active afterwards, unless the subscription could not be created.
  lemma ActivatedAllActive(s: Mgr, deleteOk: bool, response: Option<nat>, issued: map<Handle, MonId>)
    requires s.subActive || response.Some?
    ensures var t := Activated(s, deleteOk, response, issued); AllActive(t) && t.asyncRead && t.subActive
  {
    hide Created, AddUpTo;
    var c := if s.subActive then s else Created(s, deleteOk, response);
    assert c.subActive by { CreatedActive(s, deleteOk, response); }
    var a := c.(asyncRead := true);
    AddUpToActive(a, |a.items|, issued);
    AddUpToShape(a, |a.items|, issued);
    AddUpToSubscription(a, |a.items|, issued);
  }

  lemma CreatedActive(s: Mgr, deleteOk: bool, response: Option<nat>)
    ensures response.Some? ==> Created(s, deleteOk, response).subActive
  {
  }

  // Closing the connection and setting it up again, all requests being granted. removes says whether the client thread
  // removed the subscription when it was joined.
  function Reconnected(
    s: Mgr, hasThread: bool, removes: bool, deleteOk: bool, newId: nat, issued: map<Handle, MonId>): Mgr
  {
    var reset := Stopped(Reset(Deactivated(s, hasThread, deleteOk)), removes, deleteOk);
    Added(Created(reset, deleteOk, Some(newId)), issued)
  }

  // Recovery, from any state of the manager, whatever its index has come to: every item is monitored again, the index is
  // a bijection between the new ids and the items, and names, lists and histories are what they were. Nothing that is
  // gone is used on the way exactly when no entry names an erased item.
  lemma RecoveryRebuilds(s: Mgr, hasThread: bool, removes: bool, deleteOk: bool, newId: nat, issued: map<Handle, MonId>)
    requires Accounting(s) && IssuedForAll(s, issued)
    ensures var t := Reconnected(s, hasThread, removes, deleteOk, newId, issued);
            && Rebuilt(t, issued) && SameShape(s, t) && t.subActive && t.subId == newId
            && (t.broken <==> s.broken || !AllListed(s))
  {
    hide Accounting, AllListed, SameShape, Blank, Rebuilt, Deactivated, Reset, Stopped, Created, Added, IssuedForAll;
    var d := Deactivated(s, hasThread, deleteOk);
    var r := Stopped(Reset(d), removes, deleteOk);
    var c := Created(r, deleteOk, Some(newId));
    DeactivatedShape(s, hasThread, deleteOk);
    ResetBlank(d);
    ShapeTrans(s, d, Reset(d));
    StoppedBlank(Reset(d), removes, deleteOk);
    ShapeTrans(s, Reset(d), r);
    CreatedBlank(r, deleteOk, Some(newId));
    ShapeTrans(s, r, c);
    RebuildFrom(s, c, issued);
    DeactivatedBreaks(s, hasThread, deleteOk);
    AddedUnbroken(c, issued);
  }

  lemma StoppedBlank(s: Mgr, removes: bool, deleteOk: bool)
    requires Blank(s)
    ensures Blank(Stopped(s, removes, deleteOk)) && SameShape(s, Stopped(s, removes, deleteOk))
    ensures Stopped(s, removes, deleteOk).broken == s.broken
  {
    hide Blank, SameShape, Removed;
    ShapeSelf(s);
    RemovedBlank(s, deleteOk);
  }

  lemma DeactivatedBreaks(s: Mgr, hasThread: bool, deleteOk: bool)
    ensures Deactivated(s, hasThread, deleteOk).broken <==> s.broken || !AllListed(s)
    ensures Reset(Deactivated(s, hasThread, deleteOk)).broken == Deactivated(s, hasThread, deleteOk).broken
  {
    hide MapItems, HasItem;
  }

  lemma {:induction false} AddUpToUnbroken(s: Mgr, n: nat, issued: map<Handle, MonId>)
    requires n <= |s.items|
    ensures AddUpTo(s, n, issued).broken == s.broken
  {
    hide AddOne, SameShape;
    if n == 0 {
    } else {
      AddUpToUnbroken(s, n - 1, issued);
      AddUpToShape(s, n - 1, issued);
      ShapeHandles(s, AddUpTo(s, n - 1, issued));
      ItemListed(s, n - 1);
      AddOneUnbroken(AddUpTo(s, n - 1, issued), s.items[n - 1].handle, issued);
    }
  }

  lemma AddOneUnbroken(s: Mgr, h: Handle, issued: map<Handle, MonId>)
    requires HasItem(s.items, h)
    ensures AddOne(s, h, issued).broken == s.broken
  {
    hide HasItem, SameShape, MapItems, PushTo, Untold;
    StepShape(s, SMark(h));
    ShapeHandles(s, Mark(s, h));
  }

  lemma AddedUnbroken(s: Mgr, issued: map<Handle, MonId>)
    ensures Added(s, issued).broken == s.broken
  {
    AddUpToUnbroken(s, |s.items|, issued);
  }

  // After a recovery and an activation each newly issued id delivers to exactly the accessors of its item, whatever
  // happened before.
  lemma RecoveryDelivers(
    s: Mgr, hasThread: bool, removes: bool, deleteOk: bool, newId: nat, response: Option<nat>, issued: map<Handle, MonId>,
    i: nat, v: Value, a: AccId)
    requires Accounting(s) && IssuedForAll(s, issued) && i < |s.items| && a in s.accs
    ensures var t := Activated(Reconnected(s, hasThread, removes, deleteOk, newId, issued), deleteOk, response, issued);
            var h := s.items[i].handle;
            && a in t.accs && h in issued && h in t.pubs
            && var u := Notify(t, issued[h], v);
               a in u.accs
               && u.accs[a].pushed == t.accs[a].pushed
                    + if a in s.items[i].accessors then [Data(Sample(v, h, |t.pubs[h]|))] else []
  {
    hide Accounting, SameShape, Rebuilt, Reconnected, IssuedForAll, Activated, AllActive;
    var r := Reconnected(s, hasThread, removes, deleteOk, newId, issued);
    var t := Activated(r, deleteOk, response, issued);
    RecoveryRebuilds(s, hasThread, removes, deleteOk, newId, issued);
    ActivatedAllActive(r, deleteOk, response, issued);
    RebuiltStays(r, deleteOk, response, issued);
    ShapeTrans(s, r, t);
    AccountingOf(s, t);
    SameItem(s, t, i, a);
    RebuiltDelivers(t, issued, i, v, a);
  }

  // Activation leaves a rebuilt index alone.
  lemma RebuiltStays(s: Mgr, deleteOk: bool, response: Option<nat>, issued: map<Handle, MonId>)
    requires Rebuilt(s, issued) && s.subActive
    ensures var t := Activated(s, deleteOk, response, issued); Rebuilt(t, issued) && SameShape(s, t)
  {
    hide Added, AddUpTo;
    if s.items != [] {
      EntryOf(s, issued, s.items[0]);
    }
    ActiveKeepsRebuilt(s.(asyncRead := true), issued);
  }

  lemma ActiveKeepsRebuilt(s: Mgr, issued: map<Handle, MonId>)
    requires Rebuilt(s, issued)
    ensures Rebuilt(ActivateAll(s), issued) && SameShape(s, ActivateAll(s))
  {
    hide Sound, Complete;
    var t := ActivateAll(s);
    StepSameIndexing(s, SActivateAll);
    SameIndexingKeeps(s, t);
    forall it | it in t.items ensures it.isMonitored && it.handle in issued && it.id == issued[it.handle] {
      var k :| 0 <= k < |t.items| && t.items[k] == it;
      assert s.items[k] in s.items;
    }
  }

  lemma SameItem(s: Mgr, t: Mgr, i: nat, a: AccId)
    requires Accounting(s) && SameShape(s, t) && i < |s.items| && a in s.accs
    ensures a in t.accs && i < |t.items| && t.items[i].accessors == s.items[i].accessors
    ensures t.items[i].handle == s.items[i].handle && s.items[i].handle in t.pubs
  {
  }

  // With a rebuilt index and every item active, an issued id delivers to exactly the accessors of its item.
  lemma RebuiltDelivers(t: Mgr, issued: map<Handle, MonId>, i: nat, v: Value, a: AccId)
    requires Accounting(t) && Rebuilt(t, issued) && AllActive(t) && i < |t.items| && a in t.accs
    ensures var h := t.items[i].handle;
            && h in issued && h in t.pubs
            && var u := Notify(t, issued[h], v);
               a in u.accs
               && u.accs[a].pushed == t.accs[a].pushed
                    + if a in t.items[i].accessors then [Data(Sample(v, h, |t.pubs[h]|))] else []
  {
    hide Sound, Complete, Members, IsActive, Rebuilt;
    var h := t.items[i].handle;
    assert t.items[i] in t.items;
    EntryOf(t, issued, t.items[i]);
    MembersExactly(t, i);
    var u := TestActive(t, issued[h], v);
    assert u.items == t.items && u.pending == t.pending + [Handler(issued[h], Sample(v, h, |t.pubs[h]|))];
  }

  lemma EntryOf(s: Mgr, issued: map<Handle, MonId>, it: Item)
    requires Rebuilt(s, issued) && it in s.items
    ensures it.handle in issued && issued[it.handle] in s.index && s.index[issued[it.handle]] == it.handle
  {
  }

  lemma MembersExactly(t: Mgr, i: nat)
    requires Accounting(t) && i < |t.items|
    ensures IsActive(t.items, t.items[i].handle) <==> t.items[i].active
    ensures HasItem(t.items, t.items[i].handle)
    ensures forall a :: a in Members(t.items, t.items[i].handle) <==> a in t.items[i].accessors
  {
    forall a | a in t.items[i].accessors ensures a in Members(t.items, t.items[i].handle) {
      assert a in t.items[i].accessors;
    }
  }

  // How activateAsyncRead ends. It is noexcept, so a subscription that cannot be created ends the program.
  datatype AsyncOutcome = NotFunctional | Reading | Terminated

  class OpcUABackend {
    const subscriptionManager: OPCUASubscriptionManager
    var isOpen: bool
    var connected: bool            // isConnected(): session activated and channel open

    constructor (manager: OPCUASubscriptionManager)
      ensures subscriptionManager == manager && !isOpen && !connected
    {
      subscriptionManager := manager;
      isOpen, connected := false, false;
    }

    // The client thread is still in its loop and has, or is about to be given, a subscription to remove.
    predicate Removes()
      reads this, subscriptionManager
    {
      var m := subscriptionManager;
      m.hasThread && !m.pastLoop && (m.subscriptionNeedsToBeRemoved || m.subscriptionActive)
    }

    method ResetClient(deleteOk: bool)
      requires subscriptionManager.Usable()
      modifies this, subscriptionManager
      ensures subscriptionManager.View()
           == Stopped(Reset(Deactivated(old(subscriptionManager.View()), old(subscriptionManager.hasThread), deleteOk)),
                      old(Removes()), deleteOk)
      ensures subscriptionManager.Valid() && subscriptionManager.Usable() && Blank(subscriptionManager.View())
      ensures SameShape(old(subscriptionManager.View()), subscriptionManager.View())
      ensures !subscriptionManager.run && !subscriptionManager.hasThread && !subscriptionManager.asyncReadActive
      ensures !connected && isOpen == old(isOpen)
    {
      hide Accounting, Sound, AllListed, Removed, Deactivated, Reset, SameShape, Blank, Reaches;
      var m := subscriptionManager;
      ghost var s0 := m.View();
      m.Deactivate(deleteOk);
      ghost var s1 := m.View();
      DeactivatedShape(s0, m.hasThread, deleteOk);
      assert !s1.asyncRead by { DeactivatedOff(s0, m.hasThread, deleteOk); }
      m.ResetMonitoredItems();
      ghost var s2 := m.View();
      ResetBlank(s1);
      ShapeTrans(s0, s1, s2);
      AccountingOf(s1, s2);
      BlankUsable(s2);
      m.StopClientThread(deleteOk);
      RemovedBlank(s2, deleteOk);
      ShapeTrans(s0, s2, Removed(s2, deleteOk));
      assert !m.asyncReadActive by { RemovedOff(s2, deleteOk); ResetOff(s1); }
      connected := false;
    }

    // A failed connect or createSubscription is reported by ok == false. When everything succeeds, whatever the
    // manager went through before, every item is monitored again and the index is a bijection between the ids
    // the server has just issued and the items; names, lists and histories are what they were.
    method Connect(connectOk: bool, deleteOk: bool, response: Option<nat>, issued: map<Handle, MonId>) returns (ok: bool)
      requires subscriptionManager.Usable()
      modifies this, subscriptionManager
      ensures subscriptionManager.Valid() && subscriptionManager.Usable()
      ensures ok == (connectOk && response.Some?) && connected == connectOk && isOpen == old(isOpen)
      ensures ok ==> subscriptionManager.subscriptionActive && subscriptionManager.subscriptionID == response.value
      ensures !subscriptionManager.run && !subscriptionManager.hasThread
      ensures ok && IssuedForAll(old(subscriptionManager.View()), issued) ==>
                && Rebuilt(subscriptionManager.View(), issued)
                && SameShape(old(subscriptionManager.View()), subscriptionManager.View())
      ensures ok ==> subscriptionManager.View()
                     == Reconnected(old(subscriptionManager.View()), old(subscriptionManager.hasThread), old(Removes()), deleteOk,
                                    response.value, issued)
    {
      hide Accounting, Sound, AllListed, Added, Created, SameShape, Blank, Reaches, Rebuilt, Reset, Deactivated, Stopped;
      ghost var s0 := subscriptionManager.View();
      ghost var valid := Accounting(s0);
      assert valid;
      ResetClient(deleteOk);
      ghost var s1 := subscriptionManager.View();
      connected := connectOk;
      ok := connectOk;
      if ok {
        CreatedBlank(s1, deleteOk, response);
        ok := subscriptionManager.Prepare(deleteOk, response, issued);
        if ok {
          ghost var c := Created(s1, deleteOk, response);
          ShapeTrans(s0, s1, c);
          AddUpToSubscription(c, |c.items|, issued);
          AddedIs(c, issued);
          if IssuedForAll(s0, issued) {
            RebuildFrom(s0, c, issued);
          }
        }
      }
    }

    // A connection that is up is left alone; otherwise the client thread is joined and everything is set up anew.
    // comesUp says whether the session is up by the end of the wait that follows; if not, the call throws.
    method Open(connectOk: bool, comesUp: bool, deleteOk: bool, response: Option<nat>, issued: map<Handle, MonId>)
      returns (ok: bool)
      requires subscriptionManager.Usable()
      modifies this, subscriptionManager
      ensures subscriptionManager.Usable()
      ensures !old(connected) || old(subscriptionManager.Valid()) ==> subscriptionManager.Valid()
      ensures ok == (old(connected) || (connectOk && response.Some? && comesUp))
      ensures isOpen == (ok || old(isOpen)) && (ok ==> connected)
      ensures old(connected) ==> connected && subscriptionManager.View() == old(subscriptionManager.View())
      ensures !old(connected) && ok && IssuedForAll(old(subscriptionManager.View()), issued) ==>
                && Rebuilt(subscriptionManager.View(), issued)
                && SameShape(old(subscriptionManager.View()), subscriptionManager.View())
    {
      hide Accounting, Sound, AllListed, SameShape, Reaches, Rebuilt, Removed;
      ok := true;
      if !connected {
        ghost var s0 := subscriptionManager.View();
        subscriptionManager.StopClientThread(deleteOk);
        ghost var s1 := subscriptionManager.View();
        ShapeSelf(s0);
        RemovedBlank(s0, deleteOk);
        ok := Connect(connectOk, deleteOk, response, issued);
        if ok && IssuedForAll(s0, issued) {
          AccountingOf(s0, s1);
          SameIssued(s0, s1, issued);
          ShapeTrans(s0, s1, subscriptionManager.View());
        }
        if ok {
          connected := comesUp;
          ok := comesUp;
        }
      }
      if ok {
        isOpen := true;
      }
    }

    method Close(deleteOk: bool)
      requires subscriptionManager.Usable()
      modifies this, subscriptionManager
      ensures subscriptionManager.Valid() && subscriptionManager.Usable() && !isOpen && !connected
      ensures Blank(subscriptionManager.View()) && SameShape(old(subscriptionManager.View()), subscriptionManager.View())
      ensures !subscriptionManager.run && !subscriptionManager.hasThread && !subscriptionManager.asyncReadActive
    {
      isOpen := false;
      ResetClient(deleteOk);
    }

    // When reading is on, every item is active and there is a client thread; a new one runs.
    method ActivateAsyncRead(functional: bool, deleteOk: bool, response: Option<nat>, issued: map<Handle, MonId>)
      returns (outcome: AsyncOutcome)
      requires subscriptionManager.Usable()
      modifies subscriptionManager
      ensures subscriptionManager.Usable() && (old(subscriptionManager.Valid()) ==> subscriptionManager.Valid())
      ensures outcome == if !functional then NotFunctional
                         else if old(subscriptionManager.subscriptionActive) || response.Some? then Reading else Terminated
      ensures !functional ==> subscriptionManager.View() == old(subscriptionManager.View())
      ensures outcome.Reading? ==>
                && subscriptionManager.View() == Activated(old(subscriptionManager.View()), deleteOk, response, issued)
                && AllActive(subscriptionManager.View()) && subscriptionManager.asyncReadActive
                && subscriptionManager.hasThread
                && subscriptionManager.run == (old(subscriptionManager.hasThread) ==> old(subscriptionManager.run))
    {
      hide Accounting, Sound, AllListed, Reaches, Activated, AllActive;
      if !functional {
        return NotFunctional;
      }
      ghost var before := subscriptionManager.View();
      var ok := subscriptionManager.Activate(deleteOk, response, issued);
      if !ok {
        return Terminated;
      }
      ActivatedAllActive(before, deleteOk, response, issued);
      if !subscriptionManager.hasThread {
        subscriptionManager.Start();
      }
      return Reading;
    }

    // stateCallback, after the new states are stored; runs under the client lock.
    method StateCallback(nowConnected: bool, deleteOk: bool)
      requires subscriptionManager.Usable()
      modifies this, subscriptionManager
      ensures subscriptionManager.Usable() && (old(subscriptionManager.Valid()) ==> subscriptionManager.Valid())
      ensures connected == nowConnected && isOpen == old(isOpen)
      ensures var s, t := old(subscriptionManager.View()), subscriptionManager.View();
              if old(isOpen) && !nowConnected && old(subscriptionManager.run)
              then t == Deactivated(Fail(s), old(subscriptionManager.hasThread), deleteOk)
              else t == s
    {
      connected := nowConnected;
      if isOpen && !connected && subscriptionManager.run {
        subscriptionManager.DeactivateAllAndPushException(deleteOk);
      }
    }

    // inactivityCallback: a report for any other subscription is ignored.
    method InactivityCallback(functional: bool, subId: nat, deleteOk: bool)
      requires subscriptionManager.Usable()
      modifies this, subscriptionManager
      ensures subscriptionManager.Usable() && (old(subscriptionManager.Valid()) ==> subscriptionManager.Valid())
      ensures isOpen == old(isOpen)
      ensures var s, t := old(subscriptionManager.View()), subscriptionManager.View();
              if functional && old(connected) && old(subscriptionManager.run) && s.subId == subId
              then t == Deactivated(Fail(s), old(subscriptionManager.hasThread), deleteOk) && !connected
              else t == s && connected == old(connected)
    {
      if functional && connected && subscriptionManager.run && subscriptionManager.subscriptionID == subId {
        subscriptionManager.DeactivateAllAndPushException(deleteOk);
        connected := false;
      }
    }
  }

  lemma DeactivatedOff(s: Mgr, hasThread: bool, deleteOk: bool)
    ensures !Deactivated(s, hasThread, deleteOk).asyncRead
  {
  }

  lemma RemovedOff(s: Mgr, deleteOk: bool)
    ensures Removed(s, deleteOk).asyncRead == s.asyncRead
  {
  }

  lemma ResetOff(s: Mgr)
    ensures Reset(s).asyncRead == s.asyncRead
  {
  }
}
