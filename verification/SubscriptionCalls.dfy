// What one call of a method of OPCUASubscriptionManager does when no other thread interferes, composed of the
// sections of SubscriptionState. The answers of the server are parameters.
module SubscriptionCalls {
  import opened Common
  import opened SubscriptionState
  import opened SubscriptionRuns
  import opened SubscriptionIndex
  import opened SubscriptionListing
  import opened SubscriptionServer

  // removeSubscription
  function Removed(s: Mgr, deleteOk: bool): Mgr {
    Reset(DeleteSubscription(s, deleteOk))
  }

  // createSubscription; None stands for a bad status, which the method reports as a runtime_error.
  function Created(s: Mgr, deleteOk: bool, response: Option<nat>): Mgr {
    var clean := if s.subId != 0 then Removed(s, deleteOk) else s;
    if response.Some? then CreateSubscription(clean, response.value) else clean
  }

  predicate IsMonitored(s: Mgr, h: Handle) {
    exists i :: 0 <= i < |s.items| && s.items[i].handle == h && s.items[i].isMonitored
  }

  // One pass of the loop of addMonitoredItems; issued holds the ids of the creations that succeed.
  function AddOne(s: Mgr, h: Handle, issued: map<Handle, MonId>): Mgr {
    var m := Mark(s, h);
    if IsMonitored(s, h) then m
    else if h in issued then Monitor(m, h, issued[h])
    else Fail(m)
  }

  function AddUpTo(s: Mgr, n: nat, issued: map<Handle, MonId>): Mgr
    requires n <= |s.items|
  {
    if n == 0 then s else AddOne(AddUpTo(s, n - 1, issued), s.items[n - 1].handle, issued)
  }

  // addMonitoredItems
  function Added(s: Mgr, issued: map<Handle, MonId>): Mgr {
    AddUpTo(s, |s.items|, issued)
  }

  // activate
  function Activated(s: Mgr, deleteOk: bool, response: Option<nat>, issued: map<Handle, MonId>): Mgr {
    var c := if s.subActive then s else Created(s, deleteOk, response);
    if !s.subActive && response.None? then c
    else
      var a := c.(asyncRead := true);
      if a.items != [] && a.index == map[] then Added(a, issued) else ActivateAll(a)
  }

  // deactivate
  function Deactivated(s: Mgr, hasThread: bool, deleteOk: bool): Mgr {
    var d := DeactivateIndexed(s);
    var e := d.(subActive := false);
    (if d.subActive && !hasThread then Removed(e, deleteOk) else e).(asyncRead := false)
  }

  // subscribe, with everything a new item sets off while asynchronous reading is on
  function Subscribed(
    s: Mgr, name: string, acc: AccId, deleteOk: bool, response: Option<nat>, issued: map<Handle, MonId>): Mgr
  {
    var t := Subscribe(s, name, acc);
    if FindName(s.items, name) < |s.items| || !s.asyncRead then t
    else if t.subActive then Added(t, issued)
    else if response.None? then Created(t, deleteOk, response)
    else Added(Created(t, deleteOk, response), issued)
  }

  // The id unsubscribe deletes on the server; 0 when other accessors still use the item.
  function IdToDelete(s: Mgr, name: string): MonId {
    var i := FindName(s.items, name);
    if i < |s.items| && |s.items[i].accessors| <= 1 then s.items[i].id else 0
  }

  predicate LastItem(s: Mgr, name: string, acc: AccId, connected: bool) {
    IdToDelete(s, name) != 0 && connected && Unsubscribe(s, name, acc).items == []
  }

  // unsubscribe, with the removal of the subscription when no item is left
  function Unsubscribed(s: Mgr, name: string, acc: AccId, connected: bool, deleteOk: bool): Mgr {
    var t := Unsubscribe(s, name, acc);
    if LastItem(s, name, acc, connected) then Removed(t, deleteOk) else t
  }

  // stopClientThread: the joined thread removes the subscription if that is pending
  function Stopped(s: Mgr, pending: bool, deleteOk: bool): Mgr {
    if pending then Removed(s, deleteOk) else s
  }

  // ----- what adding does -----

  lemma ShapeTrans(s: Mgr, t: Mgr, u: Mgr)
    requires SameShape(s, t) && SameShape(t, u)
    ensures SameShape(s, u)
  {
  }

  lemma AddOneShape(s: Mgr, h: Handle, issued: map<Handle, MonId>)
    ensures SameShape(s, AddOne(s, h, issued))
    ensures AddOne(s, h, issued).asyncRead == s.asyncRead
  {
    hide SameShape;
    var m := Mark(s, h);
    StepShape(s, SMark(h));
    if !IsMonitored(s, h) {
      var st := if h in issued then SMonitor(h, issued[h]) else SFail;
      StepShape(m, st);
      ShapeTrans(s, m, Apply(m, st));
    }
  }

  lemma {:induction false} AddUpToShape(s: Mgr, n: nat, issued: map<Handle, MonId>)
    requires n <= |s.items|
    ensures SameShape(s, AddUpTo(s, n, issued))
    ensures AddUpTo(s, n, issued).asyncRead == s.asyncRead
  {
    hide AddOne;
    if n == 0 {
    } else {
      AddUpToShape(s, n - 1, issued);
      AddOneShape(AddUpTo(s, n - 1, issued), s.items[n - 1].handle, issued);
    }
  }

  // Distinct ids for exactly the items of s.
  ghost predicate IssuedForAll(s: Mgr, issued: map<Handle, MonId>) {
    && (forall i :: 0 <= i < |s.items| ==> s.items[i].handle in issued)
    && (forall h :: h in issued ==> exists i :: 0 <= i < |s.items| && s.items[i].handle == h)
    && (forall g, h :: g in issued && h in issued && issued[g] == issued[h] ==> g == h)
  }

  // The first n items are monitored under their new ids and indexed, the others are neither.
  ghost predicate Progress(s: Mgr, t: Mgr, n: nat, issued: map<Handle, MonId>) {
    && |t.items| == |s.items|
    && (forall i :: 0 <= i < |s.items| ==> t.items[i].handle == s.items[i].handle)
    && (forall i :: 0 <= i < |s.items| ==> t.items[i].isMonitored == (i < n))
    && (forall i :: 0 <= i < |s.items| && i < n ==>
          s.items[i].handle in issued && t.items[i].id == issued[s.items[i].handle]
          && issued[s.items[i].handle] in t.index && t.index[issued[s.items[i].handle]] == s.items[i].handle)
    && (forall k :: k in t.index ==> t.index[k] in issued && issued[t.index[k]] == k)
  }

  // u is t with item n monitored under monId.
  ghost predicate NthMonitored(t: Mgr, u: Mgr, n: nat, monId: MonId) {
    && n < |t.items| == |u.items| && u.index == t.index[monId := t.items[n].handle]
    && (forall i :: 0 <= i < |t.items| ==> u.items[i].handle == t.items[i].handle)
    && (forall i :: 0 <= i < |t.items| && i != n ==>
          u.items[i].id == t.items[i].id && u.items[i].isMonitored == t.items[i].isMonitored)
    && u.items[n].id == monId && u.items[n].isMonitored
  }

  lemma MonitorNth(t: Mgr, n: nat, issued: map<Handle, MonId>)
    requires DistinctHandles(t.items) && n < |t.items| && !t.items[n].isMonitored && t.items[n].handle in issued
    ensures NthMonitored(t, AddOne(t, t.items[n].handle, issued), n, issued[t.items[n].handle])
  {
    var h := t.items[n].handle;
    assert !IsMonitored(t, h);
    assert AddOne(t, h, issued) == Monitor(Mark(t, h), h, issued[h]);
  }

  lemma NthProgress(s: Mgr, t: Mgr, u: Mgr, n: nat, issued: map<Handle, MonId>)
    requires DistinctHandles(s.items) && IssuedForAll(s, issued) && n < |s.items|
    requires Progress(s, t, n, issued) && NthMonitored(t, u, n, issued[s.items[n].handle])
    ensures Progress(s, u, n + 1, issued)
  {
    hide IssuedForAll, DistinctHandles;
    OtherIds(s, n, issued);
    assert s.items[n].handle in issued by { OwnId(s, n, issued); }
  }

  lemma OwnId(s: Mgr, n: nat, issued: map<Handle, MonId>)
    requires IssuedForAll(s, issued) && n < |s.items|
    ensures s.items[n].handle in issued
  {
  }

  lemma OtherIds(s: Mgr, n: nat, issued: map<Handle, MonId>)
    requires DistinctHandles(s.items) && IssuedForAll(s, issued) && n < |s.items|
    ensures forall i :: 0 <= i < n ==>
              s.items[i].handle in issued && issued[s.items[i].handle] != issued[s.items[n].handle]
  {
  }

  ghost predicate DistinctHandles(items: seq<Item>) {
    forall i, j :: 0 <= i < j < |items| ==> items[i].handle != items[j].handle
  }

  lemma {:induction false} AddUpToProgress(s: Mgr, n: nat, issued: map<Handle, MonId>)
    requires DistinctHandles(s.items) && IssuedForAll(s, issued) && n <= |s.items|
    requires s.index == map[] && forall i :: 0 <= i < |s.items| ==> !s.items[i].isMonitored
    ensures Progress(s, AddUpTo(s, n, issued), n, issued)
  {
    hide AddOne, Progress;
    if n == 0 {
      NoProgress(s, issued);
    } else {
      AddUpToProgress(s, n - 1, issued);
      OneMoreProgress(s, AddUpTo(s, n - 1, issued), n - 1, issued);
    }
  }

  lemma NoProgress(s: Mgr, issued: map<Handle, MonId>)
    requires s.index == map[] && forall i :: 0 <= i < |s.items| ==> !s.items[i].isMonitored
    ensures Progress(s, s, 0, issued)
  {
  }

  lemma OneMoreProgress(s: Mgr, t: Mgr, n: nat, issued: map<Handle, MonId>)
    requires DistinctHandles(s.items) && IssuedForAll(s, issued) && n < |s.items| && Progress(s, t, n, issued)
    ensures Progress(s, AddOne(t, s.items[n].handle, issued), n + 1, issued)
  {
    hide AddOne, NthMonitored, Progress;
    ProgressNext(s, t, n, issued);
    MonitorNth(t, n, issued);
    NthProgress(s, t, AddOne(t, s.items[n].handle, issued), n, issued);
  }

  lemma ProgressNext(s: Mgr, t: Mgr, n: nat, issued: map<Handle, MonId>)
    requires DistinctHandles(s.items) && IssuedForAll(s, issued) && n < |s.items| && Progress(s, t, n, issued)
    ensures DistinctHandles(t.items) && n < |t.items| && !t.items[n].isMonitored
    ensures t.items[n].handle == s.items[n].handle && t.items[n].handle in issued
  {
  }

  // All items are monitored, and the index is a bijection between the issued ids and the items.
  ghost predicate Rebuilt(s: Mgr, issued: map<Handle, MonId>) {
    && (forall it :: it in s.items ==> it.isMonitored && it.handle in issued && it.id == issued[it.handle])
    && Sound(s) && Complete(s)
    && s.index.Keys == issued.Values
    && (forall j, k :: j in s.index && k in s.index && s.index[j] == s.index[k] ==> j == k)
  }

  lemma ProgressRebuilt(s: Mgr, t: Mgr, issued: map<Handle, MonId>)
    requires IssuedForAll(s, issued) && Progress(s, t, |s.items|, issued)
    ensures Rebuilt(t, issued)
  {
    hide IssuedForAll, Progress;
    AllIndexed(s, t, issued);
    AllMonitored(s, t, issued);
    OneEntryEach(s, t, issued);
  }

  // Every entry names an item monitored under its id.
  lemma AllMonitored(s: Mgr, t: Mgr, issued: map<Handle, MonId>)
    requires IssuedForAll(s, issued) && Progress(s, t, |s.items|, issued)
    ensures Sound(t)
    ensures forall it :: it in t.items ==> it.isMonitored && it.handle in issued && it.id == issued[it.handle]
  {
    forall k | k in t.index ensures MonitoredAs(t.items, t.index[k], k) {
      var i :| 0 <= i < |s.items| && s.items[i].handle == t.index[k];
      assert t.items[i] in t.items;
    }
  }

  // Every item and every id has an entry.
  lemma AllIndexed(s: Mgr, t: Mgr, issued: map<Handle, MonId>)
    requires IssuedForAll(s, issued) && Progress(s, t, |s.items|, issued)
    ensures Complete(t) && t.index.Keys == issued.Values
  {
    forall k | k in issued.Values ensures k in t.index {
      var h :| h in issued && issued[h] == k;
      var i :| 0 <= i < |s.items| && s.items[i].handle == h;
      assert s.items[i].handle in issued;
    }
  }

  lemma OneEntryEach(s: Mgr, t: Mgr, issued: map<Handle, MonId>)
    requires IssuedForAll(s, issued) && Progress(s, t, |s.items|, issued)
    ensures forall j, k :: j in t.index && k in t.index && t.index[j] == t.index[k] ==> j == k
  {
  }

  lemma AddedRebuilds(s: Mgr, issued: map<Handle, MonId>)
    requires DistinctHandles(s.items) && IssuedForAll(s, issued)
    requires s.index == map[] && forall i :: 0 <= i < |s.items| ==> !s.items[i].isMonitored
    ensures Rebuilt(Added(s, issued), issued)
  {
    AddUpToProgress(s, |s.items|, issued);
    ProgressRebuilt(s, Added(s, issued), issued);
  }

  // ----- every call is a run of sections -----

  ghost predicate CreatesCleanly(s: Mgr, st: Step) { CreatesUnmonitored(s, st) && CleanSubscriptions(s, st) }

  // The rule that the steps of a call follow; clean when its deletes succeed.
  ghost function Rule(clean: bool): (Mgr, Step) -> bool { if clean then CreatesCleanly else CreatesUnmonitored }

  ghost predicate RunFromTo(run: seq<Step>, s: Mgr, t: Mgr, clean: bool) {
    Along(s, run, Rule(clean)) && Exec(s, run) == t
  }

  ghost predicate Reaches(s: Mgr, t: Mgr, clean: bool) {
    exists run :: RunFromTo(run, s, t, clean)
  }

  lemma ReachStep(s: Mgr, st: Step, clean: bool)
    requires CreatesUnmonitored(s, st) && (clean ==> CleanSubscriptions(s, st))
    ensures Reaches(s, Apply(s, st), clean)
  {
    hide Apply, CreatesUnmonitored, CleanSubscriptions, Rule, Along, Exec;
    RuleMeans(s, st, clean);
    EmptyAlong(s, Rule(clean));
    AlongSnoc(s, [], st, Rule(clean));
    assert RunFromTo([] + [st], s, Apply(s, st), clean);
  }

  lemma RuleMeans(s: Mgr, st: Step, clean: bool)
    ensures Rule(clean)(s, st) <==> CreatesUnmonitored(s, st) && (clean ==> CleanSubscriptions(s, st))
  {
    hide CreatesUnmonitored, CleanSubscriptions;
  }

  lemma EmptyAlong(s: Mgr, ok: (Mgr, Step) -> bool)
    ensures Along(s, [], ok) && Exec(s, []) == s
  {
  }

  lemma ReachSelf(s: Mgr, clean: bool)
    ensures Reaches(s, s, clean)
  {
    assert RunFromTo([], s, s, clean);
  }

  lemma ReachTrans(s: Mgr, t: Mgr, u: Mgr, clean: bool)
    requires Reaches(s, t, clean) && Reaches(t, u, clean)
    ensures Reaches(s, u, clean)
  {
    var a :| RunFromTo(a, s, t, clean);
    var b :| RunFromTo(b, t, u, clean);
    ExecConcat(s, a, b, Rule(clean));
    assert RunFromTo(a + b, s, u, clean);
  }

  lemma ReachThen(s: Mgr, t: Mgr, st: Step, clean: bool)
    requires Reaches(s, t, clean) && CreatesUnmonitored(t, st) && (clean ==> CleanSubscriptions(t, st))
    ensures Reaches(s, Apply(t, st), clean)
  {
    hide Apply, Reaches;
    ReachStep(t, st, clean);
    ReachTrans(s, t, Apply(t, st), clean);
  }

  lemma RemovedReach(s: Mgr, deleteOk: bool, clean: bool)
    requires clean ==> deleteOk
    ensures Reaches(s, Removed(s, deleteOk), clean)
  {
    hide Reaches;
    ReachStep(s, SDelete(deleteOk), clean);
    ReachThen(s, DeleteSubscription(s, deleteOk), SReset, clean);
  }

  lemma CreatedReach(s: Mgr, deleteOk: bool, response: Option<nat>, clean: bool)
    requires clean ==> deleteOk && response != Some(0)
    ensures Reaches(s, Created(s, deleteOk, response), clean)
  {
    hide Removed, Reaches;
    var cleaned := if s.subId != 0 then Removed(s, deleteOk) else s;
    assert cleaned.subId == 0 by { RemovedForgets(s, deleteOk); }
    RemovedReach(s, deleteOk, clean);
    ReachSelf(s, clean);
    if response.Some? {
      ReachThen(s, cleaned, SCreate(response.value), clean);
    }
  }

  lemma RemovedForgets(s: Mgr, deleteOk: bool)
    ensures Removed(s, deleteOk).subId == 0
  {
  }

  lemma SwitchedOffReach(s: Mgr, clean: bool)
    ensures Reaches(s, DeactivateIndexed(s).(subActive := false), clean)
  {
    hide Reaches, DeactivateIndexed;
    ReachStep(s, SDeactivateIndexed, clean);
    ReachThen(s, DeactivateIndexed(s), SInactive, clean);
  }

  lemma DeactivatedReach(s: Mgr, hasThread: bool, deleteOk: bool, clean: bool)
    requires clean ==> deleteOk
    ensures Reaches(s, Deactivated(s, hasThread, deleteOk), clean)
  {
    hide DeactivateIndexed, Reaches;
    var e := DeactivateIndexed(s).(subActive := false);
    SwitchedOffReach(s, clean);
    if DeactivateIndexed(s).subActive && !hasThread {
      RemovedReach(e, deleteOk, clean);
      ReachTrans(s, e, Removed(e, deleteOk), clean);
      ReachThen(s, Removed(e, deleteOk), SAsync(false), clean);
    } else {
      ReachThen(s, e, SAsync(false), clean);
    }
  }

  lemma MonitorReach(s: Mgr, m: Mgr, h: Handle, monId: MonId, clean: bool)
    requires Reaches(s, m, clean) && HasItem(m.items, h) && Unmonitored(m, h)
    ensures Reaches(s, Monitor(m, h, monId), clean)
  {
    ReachThen(s, m, SMonitor(h, monId), clean);
  }

  lemma AddOneReach(s: Mgr, i: nat, h: Handle, issued: map<Handle, MonId>, clean: bool)
    requires i < |s.items| && s.items[i].handle == h
    ensures Reaches(s, AddOne(s, h, issued), clean)
  {
    hide Reaches, Monitor, Fail;
    var m := Mark(s, h);
    ReachStep(s, SMark(h), clean);
    if !IsMonitored(s, h) {
      if h in issued {
        assert m.items[i].handle == h;
        MonitorReach(s, m, h, issued[h], clean);
      } else {
        ReachThen(s, m, SFail, clean);
      }
    }
  }

  lemma {:induction false} AddUpToReach(s: Mgr, n: nat, issued: map<Handle, MonId>, clean: bool)
    requires n <= |s.items|
    ensures Reaches(s, AddUpTo(s, n, issued), clean)
  {
    hide AddOne, Reaches;
    if n == 0 {
      ReachSelf(s, clean);
    } else {
      AddUpToReach(s, n - 1, issued, clean);
      AddUpToShape(s, n - 1, issued);
      ReachOneMore(s, AddUpTo(s, n - 1, issued), n - 1, s.items[n - 1].handle, issued, clean);
    }
  }

  lemma ReachOneMore(s: Mgr, t: Mgr, i: nat, h: Handle, issued: map<Handle, MonId>, clean: bool)
    requires Reaches(s, t, clean) && i < |t.items| && t.items[i].handle == h
    ensures Reaches(s, AddOne(t, h, issued), clean)
  {
    hide Reaches, AddOne;
    AddOneReach(t, i, h, issued, clean);
    ReachTrans(s, t, AddOne(t, h, issued), clean);
  }

  lemma ActivatedReach(s: Mgr, deleteOk: bool, response: Option<nat>, issued: map<Handle, MonId>, clean: bool)
    requires clean ==> deleteOk && response != Some(0)
    ensures Reaches(s, Activated(s, deleteOk, response, issued), clean)
  {
    hide Created, AddUpTo, ActivateAll, Reaches, RunFromTo;
    var c := if s.subActive then s else Created(s, deleteOk, response);
    CreatedReach(s, deleteOk, response, clean);
    ReachSelf(s, clean);
    if s.subActive || response.Some? {
      var a := c.(asyncRead := true);
      ReachThen(s, c, SAsync(true), clean);
      AddUpToReach(a, |a.items|, issued, clean);
      ReachTrans(s, a, Added(a, issued), clean);
      ReachThen(s, a, SActivateAll, clean);
    }
  }

  lemma {:induction false} RunSoundFrom(s: Mgr, run: seq<Step>)
    requires Accounting(s) && Sound(s) && Along(s, run, CreatesUnmonitored)
    ensures Accounting(Exec(s, run)) && Sound(Exec(s, run))
  {
    hide Apply, Accounting, Sound, KeepsSound;
    if run == [] {
    } else {
      var before := run[..|run| - 1];
      AlongPrefix(s, run, CreatesUnmonitored);
      RunSoundFrom(s, before);
      StepAccounting(Exec(s, before), run[|run| - 1]);
      UnmonitoredFits(Exec(s, before), run[|run| - 1]);
      StepSound(Exec(s, before), run[|run| - 1]);
    }
  }

  lemma ReachesValid(s: Mgr, t: Mgr)
    requires Accounting(s) && Sound(s) && Reaches(s, t, false)
    ensures Accounting(t) && Sound(t)
  {
    hide Accounting, Sound;
    var run :| RunFromTo(run, s, t, false);
    RunSoundFrom(s, run);
  }

  // A call whose deletes succeed leaves at most the one subscription the manager knows.
  lemma ReachesOne(s: Mgr, t: Mgr)
    requires OneSubscription(s) && Reaches(s, t, true)
    ensures OneSubscription(t)
  {
    hide OneSubscription;
    var run :| RunFromTo(run, s, t, true);
    assert Along(s, run, CleanSubscriptions) by {
      forall k | 0 <= k < |run| ensures CleanSubscriptions(Exec(s, run[..k]), run[k]) {
        assert CreatesCleanly(Exec(s, run[..k]), run[k]);
      }
    }
    CleanRunKeepsOne(s, run);
  }

  lemma SubscribedReach(
    s: Mgr, name: string, acc: AccId, deleteOk: bool, response: Option<nat>, issued: map<Handle, MonId>, clean: bool)
    requires acc !in s.accs && (clean ==> deleteOk && response != Some(0))
    ensures Reaches(s, Subscribed(s, name, acc, deleteOk, response, issued), clean)
  {
    hide Subscribe, Created, AddUpTo, Reaches, RunFromTo;
    var t := Subscribe(s, name, acc);
    ReachStep(s, SSubscribe(name, acc), clean);
    CreatedReach(t, deleteOk, response, clean);
    ReachTrans(s, t, Created(t, deleteOk, response), clean);
    AddUpToReach(t, |t.items|, issued, clean);
    ReachTrans(s, t, Added(t, issued), clean);
    var c := Created(t, deleteOk, response);
    AddUpToReach(c, |c.items|, issued, clean);
    ReachTrans(s, c, Added(c, issued), clean);
  }

  lemma UnsubscribedReach(s: Mgr, name: string, acc: AccId, connected: bool, deleteOk: bool, clean: bool)
    requires Disciplined(s, SUnsubscribe(name, acc)) && (clean ==> deleteOk)
    ensures Reaches(s, Unsubscribed(s, name, acc, connected, deleteOk), clean)
  {
    hide Unsubscribe, Removed, Reaches, RunFromTo, LastItem;
    var t := Unsubscribe(s, name, acc);
    ReachStep(s, SUnsubscribe(name, acc), clean);
    RemovedReach(t, deleteOk, clean);
    ReachTrans(s, t, Removed(t, deleteOk), clean);
  }

  // Calls made one at a time whose deletes succeed never leave a second subscription.
  lemma CallsKeepOneSubscription(
    s: Mgr, name: string, acc: AccId, flag: bool, response: Option<nat>, issued: map<Handle, MonId>)
    requires OneSubscription(s) && response != Some(0)
    ensures OneSubscription(Created(s, true, response)) && OneSubscription(Activated(s, true, response, issued))
    ensures OneSubscription(Deactivated(s, flag, true)) && OneSubscription(Stopped(s, flag, true))
    ensures acc !in s.accs ==> OneSubscription(Subscribed(s, name, acc, true, response, issued))
    ensures Disciplined(s, SUnsubscribe(name, acc)) ==> OneSubscription(Unsubscribed(s, name, acc, flag, true))
  {
    hide OneSubscription, Created, Activated, Deactivated, Subscribed, Unsubscribed, Removed, Reaches, Disciplined;
    CreatedReach(s, true, response, true);
    ReachesOne(s, Created(s, true, response));
    ActivatedReach(s, true, response, issued, true);
    ReachesOne(s, Activated(s, true, response, issued));
    DeactivatedReach(s, flag, true, true);
    ReachesOne(s, Deactivated(s, flag, true));
    RemovedReach(s, true, true);
    ReachesOne(s, Removed(s, true));
    if acc !in s.accs {
      SubscribedReach(s, name, acc, true, response, issued, true);
      ReachesOne(s, Subscribed(s, name, acc, true, response, issued));
    }
    if Disciplined(s, SUnsubscribe(name, acc)) {
      UnsubscribedReach(s, name, acc, flag, true, true);
      ReachesOne(s, Unsubscribed(s, name, acc, flag, true));
    }
  }

  lemma AddedIs(s: Mgr, issued: map<Handle, MonId>)
    ensures Added(s, issued) == AddUpTo(s, |s.items|, issued)
  {
  }

  lemma DeactivatedUsable(s: Mgr, hasThread: bool, deleteOk: bool)
    requires Accounting(s) && AllListed(s)
    ensures var t := Deactivated(s, hasThread, deleteOk);
            Reaches(s, t, false) && Accounting(t) && AllListed(t) && (Sound(s) ==> Sound(t))
  {
    hide Accounting, Sound, AllListed, Deactivated, Reaches;
    DeactivatedReach(s, hasThread, deleteOk, false);
    DeactivatedAccounting(s, hasThread, deleteOk);
    DeactivatedListed(s, hasThread, deleteOk);
    if Sound(s) {
      ReachesValid(s, Deactivated(s, hasThread, deleteOk));
    }
  }

  lemma DeactivatedAccounting(s: Mgr, hasThread: bool, deleteOk: bool)
    requires Accounting(s)
    ensures Accounting(Deactivated(s, hasThread, deleteOk))
  {
    hide Accounting;
    ShapeAccounting(s, Deactivated(s, hasThread, deleteOk));
  }

  lemma DeactivatedListed(s: Mgr, hasThread: bool, deleteOk: bool)
    requires Accounting(s) && AllListed(s)
    ensures AllListed(Deactivated(s, hasThread, deleteOk))
  {
    hide Accounting, AllListed, DeactivateIndexed;
    var d := DeactivateIndexed(s);
    StepListed(s, SDeactivateIndexed);
    if d.subActive && !hasThread {
      NoEntries(Deactivated(s, hasThread, deleteOk));
    } else {
      SameListed(d, Deactivated(s, hasThread, deleteOk));
    }
  }

  lemma SameListed(s: Mgr, t: Mgr)
    requires AllListed(s) && t.items == s.items && t.index == s.index
    ensures AllListed(t)
  {
  }

  lemma NoEntries(s: Mgr)
    requires s.index == map[]
    ensures AllListed(s) && Sound(s)
  {
  }

  lemma FailUsable(s: Mgr)
    requires Accounting(s) && AllListed(s)
    ensures Reaches(s, Fail(s), false) && Accounting(Fail(s)) && AllListed(Fail(s)) && (Sound(s) ==> Sound(Fail(s)))
  {
    hide Accounting, Sound, AllListed, Fail, Reaches;
    ReachStep(s, SFail, false);
    StepListed(s, SFail);
    StepAccounting(s, SFail);
    if Sound(s) {
      ReachesValid(s, Fail(s));
    }
  }

  lemma RemovedUsable(s: Mgr, deleteOk: bool)
    ensures Reaches(s, Removed(s, deleteOk), false) && AllListed(Removed(s, deleteOk)) && Sound(Removed(s, deleteOk))
    ensures Accounting(s) ==> Accounting(Removed(s, deleteOk))
  {
    hide Accounting, Sound, AllListed, Reaches;
    RemovedReach(s, deleteOk, false);
    NoEntries(Removed(s, deleteOk));
    if Accounting(s) {
      ShapeAccounting(s, Removed(s, deleteOk));
    }
  }

  lemma {:induction false} RunAccountingFrom(s: Mgr, run: seq<Step>)
    requires Accounting(s) && Along(s, run, CreatesUnmonitored)
    ensures Accounting(Exec(s, run))
  {
    hide Apply, Accounting;
    if run == [] {
    } else {
      AlongPrefix(s, run, CreatesUnmonitored);
      RunAccountingFrom(s, run[..|run| - 1]);
      StepAccounting(Exec(s, run[..|run| - 1]), run[|run| - 1]);
    }
  }

  // Whatever is a run of sections keeps the accounting, and the index sound if it was.
  lemma ReachesKeeps(s: Mgr, t: Mgr)
    requires Accounting(s) && Reaches(s, t, false)
    ensures Accounting(t) && (Sound(s) ==> Sound(t))
  {
    hide Accounting, Sound;
    var run :| RunFromTo(run, s, t, false);
    RunAccountingFrom(s, run);
    if Sound(s) {
      ReachesValid(s, t);
    }
  }

  lemma AddOneListed(s: Mgr, h: Handle, issued: map<Handle, MonId>)
    requires Accounting(s) && AllListed(s) && HasItem(s.items, h)
    ensures AllListed(AddOne(s, h, issued))
  {
    hide Accounting, AllListed, HasItem, Mark, Monitor, Fail, SameShape;
    var m := Mark(s, h);
    StepAccounting(s, SMark(h));
    StepListed(s, SMark(h));
    StepShape(s, SMark(h));
    ShapeHandles(s, m);
    StepListed(m, SFail);
    if h in issued {
      StepListed(m, SMonitor(h, issued[h]));
    }
  }

  lemma {:induction false} AddUpToListed(s: Mgr, n: nat, issued: map<Handle, MonId>)
    requires Accounting(s) && AllListed(s) && n <= |s.items|
    ensures AllListed(AddUpTo(s, n, issued))
  {
    hide Accounting, AllListed, AddOne, SameShape, HasItem;
    if n == 0 {
    } else {
      var t, h := AddUpTo(s, n - 1, issued), s.items[n - 1].handle;
      AddUpToListed(s, n - 1, issued);
      AddUpToShape(s, n - 1, issued);
      ShapeAccounting(s, t);
      ShapeHandles(s, t);
      assert HasItem(s.items, h) by { ItemListed(s, n - 1); }
      AddOneListed(t, h, issued);
    }
  }

  lemma ItemListed(s: Mgr, i: nat)
    requires i < |s.items|
    ensures HasItem(s.items, s.items[i].handle)
  {
  }

  lemma CreatedListed(s: Mgr, deleteOk: bool, response: Option<nat>)
    requires AllListed(s)
    ensures AllListed(Created(s, deleteOk, response))
  {
    hide AllListed, Removed;
    RemovedUsable(s, deleteOk);
    var clean := if s.subId != 0 then Removed(s, deleteOk) else s;
    SameListed(clean, Created(s, deleteOk, response));
  }

  lemma ActivatedListed(s: Mgr, deleteOk: bool, response: Option<nat>, issued: map<Handle, MonId>)
    requires Accounting(s) && AllListed(s)
    ensures AllListed(Activated(s, deleteOk, response, issued))
  {
    hide Accounting, AllListed, Created, AddUpTo, ActivateAll, Reaches;
    var c := if s.subActive then s else Created(s, deleteOk, response);
    CreatedListed(s, deleteOk, response);
    CreatedReach(s, deleteOk, response, false);
    ReachesKeeps(s, Created(s, deleteOk, response));
    var a := c.(asyncRead := true);
    SameListed(c, a);
    StepAccounting(c, SAsync(true));
    AddUpToListed(a, |a.items|, issued);
    StepListed(a, SActivateAll);
  }

  lemma SubscribedListed(
    s: Mgr, name: string, acc: AccId, deleteOk: bool, response: Option<nat>, issued: map<Handle, MonId>)
    requires Accounting(s) && AllListed(s) && acc !in s.accs
    ensures AllListed(Subscribed(s, name, acc, deleteOk, response, issued))
  {
    hide Accounting, AllListed, Subscribe, Created, AddUpTo, Reaches, FindName;
    var t := Subscribe(s, name, acc);
    StepAccounting(s, SSubscribe(name, acc));
    SubscribeListed(s, name, acc);
    CreatedListed(t, deleteOk, response);
    CreatedReach(t, deleteOk, response, false);
    var c := Created(t, deleteOk, response);
    ReachesKeeps(t, c);
    AddUpToListed(t, |t.items|, issued);
    AddUpToListed(c, |c.items|, issued);
  }

  lemma UnsubscribedListed(s: Mgr, name: string, acc: AccId, connected: bool, deleteOk: bool)
    requires Accounting(s) && AllListed(s) && KeepsListed(s, SUnsubscribe(name, acc))
    ensures AllListed(Unsubscribed(s, name, acc, connected, deleteOk))
  {
    hide Accounting, AllListed, Unsubscribe, Removed, LastItem, KeepsListed;
    StepListed(s, SUnsubscribe(name, acc));
    RemovedUsable(Unsubscribe(s, name, acc), deleteOk);
  }

  lemma UnsubscribedKeeps(s: Mgr, name: string, acc: AccId, connected: bool, deleteOk: bool)
    requires Accounting(s) && Disciplined(s, SUnsubscribe(name, acc))
    ensures var t := Unsubscribed(s, name, acc, connected, deleteOk);
            && Accounting(t) && (Sound(s) ==> Sound(t))
            && (AllListed(s) && KeepsListed(s, SUnsubscribe(name, acc)) ==> AllListed(t))
            && Accounting(Unsubscribe(s, name, acc))
  {
    hide Accounting, Sound, AllListed, Reaches, KeepsListed, Unsubscribe, Unsubscribed, Disciplined;
    StepAccounting(s, SUnsubscribe(name, acc));
    UnsubscribedReach(s, name, acc, connected, deleteOk, false);
    ReachesKeeps(s, Unsubscribed(s, name, acc, connected, deleteOk));
    if AllListed(s) && KeepsListed(s, SUnsubscribe(name, acc)) {
      UnsubscribedListed(s, name, acc, connected, deleteOk);
    }
  }
}
