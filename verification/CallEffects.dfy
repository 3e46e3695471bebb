// What a caller finds after the calls of the subscription manager, apart from the way SubscriptionCalls composes them.
module CallEffects {
  import opened Common
  import opened FutureQueue
  import opened SubscriptionState
  import opened SubscriptionRuns
  import opened SubscriptionIndex
  import opened SubscriptionListing
  import opened SubscriptionErrors
  import opened SubscriptionCalls
  import opened Backend

  // ----- activate -----

  // Activation monitors and indexes what there is, if nothing was monitored before or a left-over subscription had to be
  // removed first.
  lemma ActivatedRebuilds(s: Mgr, deleteOk: bool, response: Option<nat>, issued: map<Handle, MonId>)
    requires Accounting(s) && IssuedForAll(s, issued) && (s.subActive || response.Some?)
    requires Blank(s) || (!s.subActive && s.subId != 0)
    ensures var t := Activated(s, deleteOk, response, issued);
            Rebuilt(t, issued) && SameShape(s, t) && AllActive(t) && t.asyncRead && t.subActive
  {
    hide Accounting, Rebuilt, SameShape, Blank, AllActive, Created, Added, IssuedForAll, ActivateAll, Removed;
    var c := if s.subActive then s else Created(s, deleteOk, response);
    ActivatedAllActive(s, deleteOk, response, issued);
    ShapeSelf(s);
    if !s.subActive {
      CreatedIsBlank(s, deleteOk, response);
    }
    var a := c.(asyncRead := true);
    SwitchedBlank(s, c);
    RebuildFrom(s, a, issued);
    if a.items == [] {
      NothingToAdd(a, issued);
    } else {
      assert a.index == map[] by { BlankIndex(a); }
    }
  }

  lemma CreatedIsBlank(s: Mgr, deleteOk: bool, response: Option<nat>)
    requires Blank(s) || s.subId != 0
    ensures Blank(Created(s, deleteOk, response)) && SameShape(s, Created(s, deleteOk, response))
  {
    hide Removed;
    RemovedBlank(s, deleteOk);
    ShapeSelf(s);
  }

  lemma SwitchedBlank(s: Mgr, c: Mgr)
    requires Blank(c) && SameShape(s, c)
    ensures Blank(c.(asyncRead := true)) && SameShape(s, c.(asyncRead := true))
  {
  }

  lemma BlankIndex(s: Mgr)
    requires Blank(s)
    ensures s.index == map[]
  {
  }

  lemma NothingToAdd(s: Mgr, issued: map<Handle, MonId>)
    requires s.items == []
    ensures Added(s, issued) == s && ActivateAll(s) == s
  {
  }

  // So a value under an issued id reaches exactly the accessors of its item.
  lemma ActivatedDelivers(
    s: Mgr, deleteOk: bool, response: Option<nat>, issued: map<Handle, MonId>, i: nat, v: Value, a: AccId)
    requires Accounting(s) && IssuedForAll(s, issued) && (s.subActive || response.Some?)
    requires Blank(s) || (!s.subActive && s.subId != 0)
    requires i < |s.items| && a in s.accs
    ensures var t, h := Activated(s, deleteOk, response, issued), s.items[i].handle;
            && a in t.accs && h in issued && h in t.pubs
            && var u := Notify(t, issued[h], v);
               a in u.accs
               && u.accs[a].pushed == t.accs[a].pushed
                    + if a in s.items[i].accessors then [Data(Sample(v, h, |t.pubs[h]|))] else []
  {
    hide Accounting, SameShape, Rebuilt, Blank, IssuedForAll, Activated, AllActive;
    var t := Activated(s, deleteOk, response, issued);
    ActivatedRebuilds(s, deleteOk, response, issued);
    AccountingOf(s, t);
    SameItem(s, t, i, a);
    RebuiltDelivers(t, issued, i, v, a);
  }

  // With a live subscription and something indexed, activation changes no id, no entry and no item but its activity, and
  // tells nobody anything.
  lemma ActivatedKeeps(s: Mgr, deleteOk: bool, response: Option<nat>, issued: map<Handle, MonId>)
    requires s.subActive && s.index != map[]
    ensures var t := Activated(s, deleteOk, response, issued);
            && SameIndexing(s, t) && SameShape(s, t) && AllActive(t)
            && t.accs == s.accs && t.pubs == s.pubs && t.live == s.live && t.subId == s.subId
  {
    hide AddUpTo, SameIndexing, SameShape;
    var a := s.(asyncRead := true);
    StepSameIndexing(a, SActivateAll);
    StepShape(a, SActivateAll);
    SwitchedSame(s, ActivateAll(a));
  }

  lemma SwitchedSame(s: Mgr, t: Mgr)
    requires SameIndexing(s.(asyncRead := true), t) && SameShape(s.(asyncRead := true), t)
    ensures SameIndexing(s, t) && SameShape(s, t)
  {
  }

  // ----- adding monitored items -----

  // A creation the server accepts tells nobody anything; an item that is monitored already keeps its id.
  lemma AcceptedTellsNobody(s: Mgr, h: Handle, issued: map<Handle, MonId>)
    requires IsMonitored(s, h) || h in issued
    ensures AddOne(s, h, issued).accs == s.accs
    ensures IsMonitored(s, h) ==> SameIndexing(s, AddOne(s, h, issued))
  {
    hide MapItems;
    StepSameIndexing(s, SMark(h));
  }

  // A creation the server refuses is told, as an error, once to every accessor of every active item that has not been
  // told before; the item counts as active if reading is on. The index stays as it is.
  lemma RefusedIsTold(s: Mgr, n: nat, issued: map<Handle, MonId>, i: nat, a: AccId)
    requires Accounting(s) && n < |s.items| && !IsMonitored(s, s.items[n].handle) && s.items[n].handle !in issued
    requires i < |s.items| && a in s.items[i].accessors
    ensures var t := AddOne(s, s.items[n].handle, issued);
            && t.index == s.index && a in t.accs
            && t.accs[a].pushed == s.accs[a].pushed
                 + if (s.items[i].active || (i == n && s.asyncRead)) && !s.items[i].hasException then [Error] else []
  {
    hide Accounting, Fail;
    var m := Mark(s, s.items[n].handle);
    StepAccounting(s, SMark(s.items[n].handle));
    MarkedItem(s, n, i);
    FailTellsOnce(m);
    assert a in m.items[i].accessors;
    assert Fail(m).index == m.index by { StepFrame(m, SFail); }
    assert a in m.accs by { OwnAccessor(s, i, a); }
    assert Fail(m).accs.Keys == m.accs.Keys by { FailShape(m); }
  }

  lemma OwnAccessor(s: Mgr, i: nat, a: AccId)
    requires Accounting(s) && i < |s.items| && a in s.items[i].accessors
    ensures a in s.accs
  {
  }

  lemma MarkedItem(s: Mgr, n: nat, i: nat)
    requires Accounting(s) && n < |s.items| && i < |s.items|
    ensures var m := Mark(s, s.items[n].handle);
            && |m.items| == |s.items| && m.accs == s.accs && m.index == s.index
            && m.items[i] == s.items[i].(active := s.items[i].active || (i == n && s.asyncRead))
  {
  }

  // Adding activates items only while reading is on.
  lemma AddOneActivity(s: Mgr, h: Handle, issued: map<Handle, MonId>)
    requires !s.asyncRead
    ensures var t := AddOne(s, h, issued);
            !t.asyncRead && |t.items| == |s.items| && forall i :: 0 <= i < |s.items| ==> t.items[i].active == s.items[i].active
  {
    hide PushTo, Untold;
  }

  lemma {:induction false} AddedActivity(s: Mgr, n: nat, issued: map<Handle, MonId>)
    requires !s.asyncRead && n <= |s.items|
    ensures var t := AddUpTo(s, n, issued);
            !t.asyncRead && |t.items| == |s.items| && forall i :: 0 <= i < |s.items| ==> t.items[i].active == s.items[i].active
  {
    hide AddOne;
    if n == 0 {
    } else {
      AddedActivity(s, n - 1, issued);
      AddOneActivity(AddUpTo(s, n - 1, issued), s.items[n - 1].handle, issued);
    }
  }

  // ----- subscribe -----

  // The passes over other items leave an item unmonitored.
  lemma OthersUnmonitored(s: Mgr, h: Handle, issued: map<Handle, MonId>, i: nat)
    requires i < |s.items| && s.items[i].handle != h
    ensures var t := AddOne(s, h, issued);
            |t.items| == |s.items| && t.items[i].isMonitored == s.items[i].isMonitored
  {
    hide PushTo, Untold;
  }

  lemma {:induction false} LaterUnmonitored(s: Mgr, n: nat, issued: map<Handle, MonId>, i: nat)
    requires DistinctHandles(s.items) && n <= i < |s.items|
    ensures var t := AddUpTo(s, n, issued);
            |t.items| == |s.items| && t.items[i].isMonitored == s.items[i].isMonitored
  {
    hide AddOne;
    if n == 0 {
    } else {
      LaterUnmonitored(s, n - 1, issued, i);
      AddUpToShape(s, n - 1, issued);
      OthersUnmonitored(AddUpTo(s, n - 1, issued), s.items[n - 1].handle, issued, i);
    }
  }

  // The last item, if it is not monitored yet and the server accepts it, ends up monitored under its id, whatever else
  // is added before it.
  lemma LastIsAdded(s: Mgr, issued: map<Handle, MonId>)
    requires Accounting(s) && s.items != [] && s.asyncRead
    requires var it := s.items[|s.items| - 1]; !it.isMonitored && it.handle in issued
    ensures var t, n := Added(s, issued), |s.items| - 1;
            && |t.items| == |s.items| && t.items[n].handle == s.items[n].handle
            && t.items[n].active && t.items[n].isMonitored && t.items[n].id == issued[s.items[n].handle]
            && t.items[n].id in t.index && t.index[t.items[n].id] == t.items[n].handle
  {
    hide AddUpTo, AddOne, SameShape, Accounting;
    var n := |s.items| - 1;
    var b := AddUpTo(s, n, issued);
    HandlesOf(s);
    LaterUnmonitored(s, n, issued, n);
    AddUpToShape(s, n, issued);
    HandlesStay(s, b);
    assert AddUpTo(s, |s.items|, issued) == AddOne(b, s.items[n].handle, issued) by { LastPass(s, issued); }
    OnePass(b, n, issued);
  }

  lemma HandlesOf(s: Mgr)
    requires Accounting(s)
    ensures DistinctHandles(s.items)
  {
  }

  lemma HandlesStay(s: Mgr, t: Mgr)
    requires DistinctHandles(s.items) && SameShape(s, t)
    ensures DistinctHandles(t.items) && |t.items| == |s.items|
    ensures forall i :: 0 <= i < |s.items| ==> t.items[i].handle == s.items[i].handle && t.items[i].accessors == s.items[i].accessors
  {
  }

  lemma LastPass(s: Mgr, issued: map<Handle, MonId>)
    requires s.items != []
    ensures AddUpTo(s, |s.items|, issued) == AddOne(AddUpTo(s, |s.items| - 1, issued), s.items[|s.items| - 1].handle, issued)
  {
  }

  lemma OnePass(s: Mgr, n: nat, issued: map<Handle, MonId>)
    requires DistinctHandles(s.items) && n < |s.items| && s.asyncRead
    requires !s.items[n].isMonitored && s.items[n].handle in issued
    ensures var t := AddOne(s, s.items[n].handle, issued);
            && |t.items| == |s.items|
            && t.items[n] == s.items[n].(active := true, isMonitored := true, id := issued[s.items[n].handle])
            && t.index == s.index[issued[s.items[n].handle] := s.items[n].handle]
  {
    assert !IsMonitored(s, s.items[n].handle);
  }

  // A name that is new, while reading is on: the accessor's item is active, monitored and indexed afterwards, and what the
  // server publishes under its id reaches this accessor.
  lemma SubscribedServes(
    s: Mgr, name: string, acc: AccId, deleteOk: bool, response: Option<nat>, issued: map<Handle, MonId>, v: Value)
    requires Accounting(s) && acc !in s.accs && FindName(s.items, name) == |s.items|
    requires s.asyncRead && (s.subActive || response.Some?) && s.nextHandle in issued
    ensures var t, n, h := Subscribed(s, name, acc, deleteOk, response, issued), |s.items|, s.nextHandle;
            && |t.items| == n + 1 && t.items[n].handle == h && t.items[n].accessors == [acc]
            && t.items[n].active && t.items[n].isMonitored && t.items[n].id == issued[h]
            && acc in t.accs && h in t.pubs
            && var u := Notify(t, issued[h], v);
               acc in u.accs && u.accs[acc].pushed == t.accs[acc].pushed + [Data(Sample(v, h, |t.pubs[h]|))]
  {
    hide Accounting, Subscribe, Created, Added, SameShape, FindName, Members, IsActive;
    var n := |s.items|;
    var b := Subscribe(s, name, acc);
    StepAccounting(s, SSubscribe(name, acc));
    NewItem(s, name, acc);
    var c := if s.subActive then b else Created(b, deleteOk, response);
    CreatedKeeps(b, deleteOk, response);
    ShapeSelf(b);
    AccountingOf(b, c);
    HandlesOf(b);
    HandlesStay(b, c);
    LastIsAdded(c, issued);
    var t := Added(c, issued);
    assert t == Subscribed(s, name, acc, deleteOk, response, issued);
    assert SameShape(c, t) by { AddUpToShape(c, |c.items|, issued); AddedIs(c, issued); }
    HandlesOf(c);
    HandlesStay(c, t);
    AccountingOf(c, t);
    OwnAccessor(t, n, acc);
    ItemDelivers(t, n, v, acc);
  }

  lemma NewItem(s: Mgr, name: string, acc: AccId)
    requires FindName(s.items, name) == |s.items|
    ensures var b := Subscribe(s, name, acc);
            && b.items == s.items + [Item(s.nextHandle, name, [acc], 0, false, false, false)]
            && b.asyncRead == s.asyncRead && b.subActive == s.subActive
  {
  }

  lemma CreatedKeeps(s: Mgr, deleteOk: bool, response: Option<nat>)
    ensures var c := Created(s, deleteOk, response);
            && SameShape(s, c) && c.asyncRead == s.asyncRead
            && forall i :: 0 <= i < |s.items| && !s.items[i].isMonitored ==> |c.items| == |s.items| && !c.items[i].isMonitored
  {
    hide Removed;
    var r := if s.subId != 0 then Removed(s, deleteOk) else s;
    RemovedKeeps(s, deleteOk);
    ShapeSelf(s);
    CreationKeeps(s, r, deleteOk, response);
  }

  lemma RemovedKeeps(s: Mgr, deleteOk: bool)
    ensures var r := Removed(s, deleteOk);
            SameShape(s, r) && r.asyncRead == s.asyncRead && forall i :: 0 <= i < |r.items| ==> !r.items[i].isMonitored
  {
    RemovedBlank(s, deleteOk);
  }

  lemma CreationKeeps(s: Mgr, r: Mgr, deleteOk: bool, response: Option<nat>)
    requires r == if s.subId != 0 then Removed(s, deleteOk) else s
    requires SameShape(s, r)
    ensures var c := Created(s, deleteOk, response); c.items == r.items && c.asyncRead == r.asyncRead && SameShape(s, c)
  {
    hide Removed;
  }

  // An indexed, active item receives what is published under its id.
  lemma ItemDelivers(t: Mgr, n: nat, v: Value, a: AccId)
    requires Accounting(t) && n < |t.items| && t.items[n].active && a in t.items[n].accessors && a in t.accs
    requires t.items[n].id in t.index && t.index[t.items[n].id] == t.items[n].handle
    ensures t.items[n].handle in t.pubs
    ensures var u := Notify(t, t.items[n].id, v);
            a in u.accs
            && u.accs[a].pushed == t.accs[a].pushed + [Data(Sample(v, t.items[n].handle, |t.pubs[t.items[n].handle]|))]
  {
    hide Members, IsActive, DistinctItems, DisjointLists;
    var h := t.items[n].handle;
    assert IsActive(t.items, h) && HasItem(t.items, h) && a in Members(t.items, h) by { MembersExactly(t, n); }
    var u := TestActive(t, t.items[n].id, v);
    assert u.items == t.items && u.pending == t.pending + [Handler(t.items[n].id, Sample(v, h, |t.pubs[h]|))];
  }

  // While reading is off, and for a name that exists, subscribing monitors and activates nothing.
  lemma SubscribedQuietly(
    s: Mgr, name: string, acc: AccId, deleteOk: bool, response: Option<nat>, issued: map<Handle, MonId>)
    requires !s.asyncRead || FindName(s.items, name) < |s.items|
    ensures var t := Subscribed(s, name, acc, deleteOk, response, issued);
            && t.index == s.index && t.live == s.live && |t.items| >= |s.items|
            && (forall i :: 0 <= i < |s.items| ==>
                  t.items[i].id == s.items[i].id && t.items[i].isMonitored == s.items[i].isMonitored
                  && t.items[i].active == s.items[i].active && t.items[i].hasException == s.items[i].hasException)
            && (forall i :: |s.items| <= i < |t.items| ==> !t.items[i].active && !t.items[i].isMonitored)
  {
    hide InitialValue, Push;
  }

  // ----- what goes away -----

  // The subscription is known and held no longer, nothing is monitored and the index is empty.
  ghost predicate Ended(s: Mgr, t: Mgr, deleteOk: bool) {
    Blank(t) && t.subId == 0 && (deleteOk ==> s.subId !in t.live && !t.subActive)
  }

  lemma RemovedEnds(s: Mgr, deleteOk: bool)
    ensures Ended(s, Removed(s, deleteOk), deleteOk)
    ensures !deleteOk ==> Removed(s, deleteOk).live == s.live && Removed(s, deleteOk).subActive == s.subActive
  {
    RemovedBlank(s, deleteOk);
  }

  // unsubscribe ends the subscription exactly when the only accessor of the only item goes, the item has had an id and the
  // client is connected; otherwise the subscription stays as it is.
  lemma UnsubscribedEndsExactly(s: Mgr, name: string, acc: AccId, connected: bool, deleteOk: bool)
    requires Accounting(s) && Disciplined(s, SUnsubscribe(name, acc))
    ensures var t := Unsubscribed(s, name, acc, connected, deleteOk);
            if connected && |s.items| == 1 && |s.items[0].accessors| == 1 && s.items[0].id != 0
            then t.items == [] && Ended(s, t, deleteOk)
            else t.subId == s.subId && t.live == s.live && t.subActive == s.subActive
  {
    hide Accounting, Unsubscribe, Removed, FindName, Ended;
    var u := Unsubscribe(s, name, acc);
    UnsubscribeItems(s, name, acc);
    UnsubscribeChanges(s, name, acc);
    RemovedEnds(u, deleteOk);
    SameSubscriptionEnds(s, u, Removed(u, deleteOk), deleteOk);
    ListNotEmpty(s, FindName(s.items, name));
    assert u.items == [] ==> Removed(u, deleteOk).items == [] by { RemovedBlank(u, deleteOk); }
  }

  lemma SameSubscriptionEnds(s: Mgr, u: Mgr, t: Mgr, deleteOk: bool)
    requires Ended(u, t, deleteOk) && u.subId == s.subId
    ensures Ended(s, t, deleteOk)
  {
  }

  lemma ListNotEmpty(s: Mgr, i: nat)
    requires Accounting(s) && i < |s.items|
    ensures |s.items[i].accessors| >= 1
  {
  }

  // The id to delete on the server is that of the item that goes, and 0 if none goes.
  lemma IdToDeleteExactly(s: Mgr, name: string, acc: AccId)
    requires Accounting(s) && Disciplined(s, SUnsubscribe(name, acc))
    ensures var t := Unsubscribe(s, name, acc);
            && (forall i :: 0 <= i < |s.items| && !HasItem(t.items, s.items[i].handle) ==> IdToDelete(s, name) == s.items[i].id)
            && (SameHandles(s, t) ==> IdToDelete(s, name) == 0)
  {
    hide Accounting, Unsubscribe, FindName, HasItem;
    var i := FindName(s.items, name);
    AccountedItems(s);
    if |s.items[i].accessors| <= 1 {
      EraseHandles(s, name, acc);
      ItemListed(s, i);
      HandlesOf(s);
      forall k | 0 <= k < |s.items| && !HasItem(Unsubscribe(s, name, acc).items, s.items[k].handle) ensures k == i {
        ItemListed(s, k);
      }
    } else {
      DropHandles(s, name, acc);
      forall k | 0 <= k < |s.items| ensures HasItem(Unsubscribe(s, name, acc).items, s.items[k].handle) {
        ItemListed(s, k);
      }
    }
  }

  // Joining the client thread ends the subscription exactly when its removal was pending.
  lemma StoppedEnds(s: Mgr, pending: bool, deleteOk: bool)
    ensures var t := Stopped(s, pending, deleteOk); if pending then Ended(s, t, deleteOk) else t == s
  {
    hide Removed, Ended;
    RemovedEnds(s, deleteOk);
  }

  // deactivate ends it exactly when it was active and there is no client thread to leave it to; reading and the
  // subscription count as off in any case.
  lemma DeactivatedEnds(s: Mgr, hasThread: bool, deleteOk: bool)
    ensures var t := Deactivated(s, hasThread, deleteOk);
            && !t.asyncRead && !t.subActive
            && if s.subActive && !hasThread then Ended(s, t, deleteOk)
               else t.subId == s.subId && t.live == s.live && t.index == s.index
  {
    hide MapItems, HasItem;
  }

  // createSubscription leaves exactly what the server has granted; a left-over subscription is removed first.
  lemma CreatedKnown(s: Mgr, deleteOk: bool, response: Option<nat>)
    ensures var t := Created(s, deleteOk, response);
            && (response.Some? ==> t.subId == response.value && t.subId in t.live && t.subActive)
            && (response.None? ==> t.subId == 0)
            && (s.subId != 0 ==> Blank(t) && (deleteOk ==> t.live <= s.live - {s.subId} + {t.subId}))
            && (s.subId == 0 ==> t.items == s.items && t.index == s.index && s.live <= t.live)
  {
  }

  // ----- errors and values -----

  // A value clears the mark of its item and of no other, so that the next error is told to all its accessors again.
  lemma ToldAgain(s: Mgr, k: nat, i: nat, a: AccId)
    requires Accounting(s) && k < |s.pending| && s.pending[k].monId in s.index && i < |s.items| && a in s.items[i].accessors
    requires s.items[i].handle == s.index[s.pending[k].monId]
    ensures var t := PushPending(s, k);
            && |t.items| == |s.items| && t.items[i] == s.items[i].(hasException := false)
            && (forall j :: 0 <= j < |s.items| && j != i ==> t.items[j] == s.items[j])
            && a in s.accs && a in Fail(t).accs
            && Fail(t).accs[a].pushed == s.accs[a].pushed + [Data(s.pending[k].sample)] + if s.items[i].active then [Error] else []
  {
    hide Accounting, Fail, Members, PushPending, PushTo;
    var t := PushPending(s, k);
    StepAccounting(s, SPush(k));
    AccountedItems(s);
    MembersExactly(s, i);
    PushedItems(s, k, i);
    OwnAccessor(s, i, a);
    assert t.accs[a] == Push(s.accs[a], Data(s.pending[k].sample)) by { MemberPushed(s, k, s.items[i].handle, a); }
    FailTellsOnce(t);
    FailShape(t);
    assert a in t.items[i].accessors;
  }

  lemma MemberPushed(s: Mgr, k: nat, h: Handle, a: AccId)
    requires k < |s.pending| && a in s.accs && a in Members(s.items, h)
    ensures var accs := PushTo(s.accs, Members(s.items, h), Data(s.pending[k].sample));
            a in accs && accs[a] == Push(s.accs[a], Data(s.pending[k].sample))
  {
    hide Members;
  }

  lemma PushedItems(s: Mgr, k: nat, i: nat)
    requires DistinctItems(s.items) && k < |s.pending| && s.pending[k].monId in s.index && i < |s.items|
    requires s.items[i].handle == s.index[s.pending[k].monId]
    ensures var t := PushPending(s, k);
            && |t.items| == |s.items| && t.items[i] == s.items[i].(hasException := false)
            && (forall j :: 0 <= j < |s.items| && j != i ==> t.items[j] == s.items[j])
            && t.accs == PushTo(s.accs, Members(s.items, s.items[i].handle), Data(s.pending[k].sample))
  {
    hide Members, PushTo;
  }

  // setExternalError marks the item of the name, as its two steps do, and a marked item is told no error by the next
  // exception.
  lemma MarkedIsNotTold(s: Mgr, name: string, i: nat, a: AccId)
    requires Accounting(s) && i == FindName(s.items, name) < |s.items| && a in s.items[i].accessors
    ensures External(s, name) == Flag(s, s.items[i].handle)
    ensures a in s.accs && a in Fail(External(s, name)).accs
    ensures Fail(External(s, name)).accs[a].pushed == s.accs[a].pushed
  {
    hide Fail, Flag, External, Accounting, FindName;
    ExternalIsFlag(s, name, i);
    StepAccounting(s, SFlag(s.items[i].handle));
    OwnAccessor(s, i, a);
    FlaggedItem(s, i);
    NotTold(Flag(s, s.items[i].handle), i, a);
  }

  lemma ExternalIsFlag(s: Mgr, name: string, i: nat)
    requires Accounting(s) && i == FindName(s.items, name) < |s.items|
    ensures External(s, name) == Flag(s, s.items[i].handle)
  {
    hide FindName, DisjointLists, AtHome;
    assert External(s, name).items == Flag(s, s.items[i].handle).items;
  }

  lemma FlaggedItem(s: Mgr, i: nat)
    requires i < |s.items|
    ensures var t := Flag(s, s.items[i].handle);
            && t.accs == s.accs && |t.items| == |s.items|
            && t.items[i].hasException && t.items[i].accessors == s.items[i].accessors
  {
    assert HasItem(s.items, s.items[i].handle);
    hide HasItem;
  }

  lemma NotTold(t: Mgr, i: nat, a: AccId)
    requires Accounting(t) && i < |t.items| && a in t.items[i].accessors && t.items[i].hasException
    ensures a in t.accs && a in Fail(t).accs && Fail(t).accs[a].pushed == t.accs[a].pushed
  {
    hide Fail, Accounting;
    OwnAccessor(t, i, a);
    FailTellsOnce(t);
    FailShape(t);
  }
}
