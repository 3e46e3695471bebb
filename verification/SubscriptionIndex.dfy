// subscriptionMap against a linear search of _items.
module SubscriptionIndex {
  import opened Common
  import opened SubscriptionState
  import opened SubscriptionRuns

  ghost predicate MonitoredAs(items: seq<Item>, h: Handle, monId: MonId) {
    exists it :: it in items && it.handle == h && it.isMonitored && it.id == monId
  }

  // Each entry names an item of the list that is monitored and carries that id.
  ghost predicate Sound(s: Mgr) {
    forall monId :: monId in s.index ==> MonitoredAs(s.items, s.index[monId], monId)
  }

  // Each monitored item is found under its id.
  ghost predicate Complete(s: Mgr) {
    forall it :: it in s.items && it.isMonitored ==> it.id in s.index && s.index[it.id] == it.handle
  }

  ghost predicate Unmonitored(s: Mgr, h: Handle) {
    forall it :: it in s.items && it.handle == h ==> !it.isMonitored
  }

  // Where the items of Monitor(s, h, monId) come from.
  lemma MonitorItems(s: Mgr, h: Handle, monId: MonId)
    ensures forall it :: it in s.items && it.handle == h ==> it.(id := monId, isMonitored := true) in Monitor(s, h, monId).items
    ensures forall it :: it in s.items && it.handle != h ==> it in Monitor(s, h, monId).items
    ensures forall t :: t in Monitor(s, h, monId).items ==>
              if t.handle == h then t.id == monId && t.isMonitored else t in s.items
  {
  }

  // A completed creation leaves the index sound exactly when its item is still on the list and no other entry names
  // the item.
  ghost predicate CreationFits(s: Mgr, h: Handle, monId: MonId) {
    HasItem(s.items, h) && forall k :: k in s.index && k != monId ==> s.index[k] != h
  }

  lemma MonitorSound(s: Mgr, h: Handle, monId: MonId)
    requires Sound(s)
    ensures Sound(Monitor(s, h, monId)) <==> CreationFits(s, h, monId)
  {
    var t := Monitor(s, h, monId);
    MonitorItems(s, h, monId);
    if CreationFits(s, h, monId) {
      forall k | k in t.index ensures MonitoredAs(t.items, t.index[k], k) {
        if k == monId {
          var i :| 0 <= i < |s.items| && s.items[i].handle == h;
          assert s.items[i] in s.items;
        } else {
          assert MonitoredAs(s.items, s.index[k], k);
        }
      }
    } else if HasItem(s.items, h) {
      var k :| k in s.index && k != monId && s.index[k] == h;
      assert k in t.index && t.index[k] == h && !MonitoredAs(t.items, h, k);
    } else {
      assert monId in t.index && t.index[monId] == h && !MonitoredAs(t.items, h, monId);
    }
  }

  // No monitored item but h carries the id.
  ghost predicate OwnedBy(s: Mgr, h: Handle, monId: MonId) {
    forall it :: it in s.items && it.isMonitored && it.handle != h ==> it.id != monId
  }

  // It keeps the index complete exactly when no other monitored item carries the id.
  lemma MonitorComplete(s: Mgr, h: Handle, monId: MonId)
    requires Complete(s)
    ensures Complete(Monitor(s, h, monId)) <==> OwnedBy(s, h, monId)
  {
    var t := Monitor(s, h, monId);
    MonitorItems(s, h, monId);
    if !OwnedBy(s, h, monId) {
      var it :| it in s.items && it.isMonitored && it.handle != h && it.id == monId;
      assert it in t.items && t.index[it.id] == h;
    }
  }

  // Removing an item keeps the index sound; it keeps it complete exactly when no other monitored item carries the id
  // left in it.
  lemma RemoveItemIndex(s: Mgr, name: string, acc: AccId)
    requires Accounting(s) && Disciplined(s, SUnsubscribe(name, acc))
    requires |s.items[FindName(s.items, name)].accessors| == 1
    ensures Sound(s) ==> Sound(Unsubscribe(s, name, acc))
    ensures Complete(s) ==>
              var it := s.items[FindName(s.items, name)];
              Complete(Unsubscribe(s, name, acc)) <==> OwnedBy(s, it.handle, it.id)
  {
    hide Sound, Complete, OwnedBy;
    var i := FindName(s.items, name);
    RemovedMembers(s.items, i);
    if Sound(s) {
      SoundWithout(s, Unsubscribe(s, name, acc), s.items[i]);
    }
    if Complete(s) {
      CompleteWithout(s, Unsubscribe(s, name, acc), s.items[i]);
    }
  }

  lemma CompleteWithout(s: Mgr, t: Mgr, gone: Item)
    requires Complete(s) && DistinctItems(s.items) && gone in s.items
    requires t.index == s.index - {gone.id}
    requires forall it :: it in t.items <==> it in s.items && it != gone
    ensures Complete(t) <==> OwnedBy(s, gone.handle, gone.id)
  {
  }

  lemma SoundWithout(s: Mgr, t: Mgr, gone: Item)
    requires Sound(s) && t.index == s.index - {gone.id}
    requires forall it :: it in t.items <==> it in s.items && it != gone
    ensures Sound(t)
  {
  }

  // Steps that leave handles, ids and isMonitored of all items, and the index, alone.
  ghost predicate SameIndexing(s: Mgr, t: Mgr) {
    && t.index == s.index && |t.items| == |s.items|
    && forall i :: 0 <= i < |s.items| ==>
         t.items[i].handle == s.items[i].handle && t.items[i].id == s.items[i].id
         && t.items[i].isMonitored == s.items[i].isMonitored
  }

  lemma SameIndexingKeeps(s: Mgr, t: Mgr)
    requires SameIndexing(s, t)
    ensures Sound(s) ==> Sound(t)
    ensures Complete(s) ==> Complete(t)
  {
  }

  predicate LeavesIndexing(st: Step) {
    !st.SSubscribe? && !st.SUnsubscribe? && !st.SMonitor? && !st.SReset?
  }

  predicate LeavesItems(st: Step) {
    st.SPop? || st.SSyncRead? || st.SOverwrite? || st.SAsync? || st.SInactive? || st.SCreate? || st.SDelete? || st.SDropped?
  }

  lemma StepSameItems(s: Mgr, st: Step)
    requires LeavesItems(st)
    ensures Apply(s, st).items == s.items && Apply(s, st).index == s.index
  {
    hide Apply;
    StepFrame(s, st);
  }

  lemma TestSameIndexing(s: Mgr, monId: MonId, v: Value)
    ensures SameIndexing(s, TestActive(s, monId, v))
  {
  }

  lemma PushSameIndexing(s: Mgr, k: nat)
    ensures SameIndexing(s, PushPending(s, k))
  {
    hide PushOn, HasItem;
    if k < |s.pending| && Indexed(s, s.pending[k].monId) {
      PushOnSameIndexing(s, k, s.index[s.pending[k].monId]);
    }
  }

  lemma PushOnSameIndexing(s: Mgr, k: nat, h: Handle)
    requires k < |s.pending|
    ensures SameIndexing(s, PushOn(s, k, h))
  {
    hide PushTo, Members, MapItems;
  }

  lemma StepSameIndexing(s: Mgr, st: Step)
    requires LeavesIndexing(st)
    ensures SameIndexing(s, Apply(s, st))
  {
    hide Subscribe, Unsubscribe, Monitor, Reset, TestActive, PushPending, Fail, Flag, ActivateAll, DeactivateIndexed, Mark,
         Pop, SyncRead, Overwrite, SameIndexing;
    match st
    case STest(monId, v) => TestSameIndexing(s, monId, v);
    case SPush(k) => PushSameIndexing(s, k);
    case SFail => FlagsSameIndexing(s, 0);
    case SFlag(h) => FlagsSameIndexing(s, h);
    case SActivateAll => ActiveSameIndexing(s);
    case SDeactivateIndexed => ActiveSameIndexing(s);
    case SMark(h) => FlagsSameIndexing(s, h);
    case _ =>
      StepSameItems(s, st);
      SameItemsIndexing(s, Apply(s, st));
  }

  lemma SameItemsIndexing(s: Mgr, t: Mgr)
    requires t.items == s.items && t.index == s.index
    ensures SameIndexing(s, t)
  {
  }

  lemma ActiveSameIndexing(s: Mgr)
    ensures SameIndexing(s, ActivateAll(s)) && SameIndexing(s, DeactivateIndexed(s))
  {
    hide MapItems;
  }

  lemma FlagsSameIndexing(s: Mgr, h: Handle)
    ensures SameIndexing(s, Fail(s)) && SameIndexing(s, Flag(s, h)) && SameIndexing(s, Mark(s, h))
  {
    hide PushTo, Untold, HasItem, MapItems;
  }

  lemma SubscribeIndexing(s: Mgr, name: string, acc: AccId)
    ensures Sound(s) ==> Sound(Subscribe(s, name, acc))
    ensures Complete(s) ==> Complete(Subscribe(s, name, acc))
  {
    var t := Subscribe(s, name, acc);
    var i := FindName(s.items, name);
    if i < |s.items| {
      SameIndexingKeeps(s, t);
    } else {
      assert forall it :: it in s.items ==> it in t.items;
      assert forall it :: it in t.items ==> it in s.items || !it.isMonitored;
      if Sound(s) {
        forall k | k in t.index ensures MonitoredAs(t.items, t.index[k], k) {
          var it :| it in s.items && it.handle == s.index[k] && it.isMonitored && it.id == k;
          assert it in t.items;
        }
      }
    }
  }

  lemma DropAccessorIndexing(s: Mgr, name: string, acc: AccId)
    requires Disciplined(s, SUnsubscribe(name, acc))
    requires |s.items[FindName(s.items, name)].accessors| > 1
    ensures SameIndexing(s, Unsubscribe(s, name, acc))
  {
  }

  // ----- over runs -----

  // The item is still on the list, and the test `!item.isMonitored` still holds, when the creation completes.
  ghost predicate CreatesUnmonitored(s: Mgr, st: Step) {
    && Disciplined(s, st)
    && (st.SMonitor? ==> HasItem(s.items, st.h) && Unmonitored(s, st.h))
  }

  // The condition on one step under which the index stays sound.
  ghost predicate KeepsSound(s: Mgr, st: Step) {
    st.SMonitor? ==> CreationFits(s, st.h, st.monId)
  }

  lemma UnmonitoredFits(s: Mgr, st: Step)
    requires Sound(s) && CreatesUnmonitored(s, st)
    ensures KeepsSound(s, st)
  {
    if st.SMonitor? {
      forall k | k in s.index ensures s.index[k] != st.h {
        assert MonitoredAs(s.items, s.index[k], k);
      }
    }
  }

  lemma StepSound(s: Mgr, st: Step)
    requires Accounting(s) && Sound(s) && Disciplined(s, st)
    ensures Sound(Apply(s, st)) <==> KeepsSound(s, st)
  {
    hide Accounting, Subscribe, Unsubscribe, Monitor, TestActive, PushPending, Fail, Flag, ActivateAll, DeactivateIndexed,
         Mark, Pop, SyncRead, Overwrite, SameIndexing, CreationFits;
    match st
    case SSubscribe(name, acc) => SubscribeIndexing(s, name, acc);
    case SUnsubscribe(name, acc) =>
      if |s.items[FindName(s.items, name)].accessors| > 1 {
        DropAccessorIndexing(s, name, acc);
        SameIndexingKeeps(s, Apply(s, st));
      } else {
        RemoveItemIndex(s, name, acc);
      }
    case SMonitor(h, monId) => MonitorSound(s, h, monId);
    case SReset =>
    case _ =>
      StepSameIndexing(s, st);
      SameIndexingKeeps(s, Apply(s, st));
  }

  lemma InitSound()
    ensures Accounting(INIT) && Sound(INIT)
  {
  }

  // The index is sound in every state of a run exactly when every creation completes on an item that is still on the
  // list and that no other entry names.
  lemma RunSoundExactly(run: seq<Step>)
    requires Along(INIT, run, Disciplined)
    ensures Throughout(run, Sound) <==> Along(INIT, run, KeepsSound)
  {
    hide Apply, Exec, Accounting, Sound, KeepsSound, Throughout, Along;
    InitSound();
    forall k | 0 <= k < |run| ensures KeptExactly(run, k, Sound, KeepsSound) {
      if Sound(Exec(INIT, run[..k])) {
        DisciplinedAt(run, k);
        StepSound(Exec(INIT, run[..k]), run[k]);
      }
    }
    ThroughoutExactly(run, Sound, KeepsSound);
  }

  lemma DisciplinedAt(run: seq<Step>, k: nat)
    requires k < |run| && Along(INIT, run, Disciplined)
    ensures Accounting(Exec(INIT, run[..k])) && Disciplined(Exec(INIT, run[..k]), run[k])
  {
    hide Exec, Accounting, Disciplined;
    AlongUpTo(INIT, run, Disciplined, k);
    RunAccounting(run[..k]);
  }

  // In particular when the tests that guard creations still hold at their end.
  lemma {:induction false} RunSound(run: seq<Step>)
    requires Along(INIT, run, CreatesUnmonitored)
    ensures Accounting(Exec(INIT, run)) && Sound(Exec(INIT, run))
  {
    hide Apply, Accounting, Sound, KeepsSound;
    if run == [] {
      InitSound();
    } else {
      var before := run[..|run| - 1];
      AlongPrefix(INIT, run, CreatesUnmonitored);
      RunSound(before);
      StepAccounting(Exec(INIT, before), run[|run| - 1]);
      UnmonitoredFits(Exec(INIT, before), run[|run| - 1]);
      StepSound(Exec(INIT, before), run[|run| - 1]);
    }
  }

  function Issued(run: seq<Step>): set<MonId> {
    set k | 0 <= k < |run| && run[k].SMonitor? :: run[k].monId
  }

  // The server never issues an id twice, and never 0.
  ghost predicate NeverReused(run: seq<Step>) {
    && (forall k :: 0 <= k < |run| && run[k].SMonitor? ==> run[k].monId != 0)
    && (forall j, k :: 0 <= j < k < |run| && run[j].SMonitor? && run[k].SMonitor? ==> run[j].monId != run[k].monId)
  }

  // Ids in items are unset or issued, and no issued id sits in two items.
  ghost predicate OwnIds(s: Mgr, issued: set<MonId>) {
    && (forall it :: it in s.items ==> it.id == 0 || it.id in issued)
    && (forall a, b :: a in s.items && b in s.items && a.id == b.id && a.handle != b.handle ==> a.id == 0)
    && (forall k :: k in s.index ==> k in issued)
  }

  lemma OwnIdsFrom(s: Mgr, t: Mgr, issued: set<MonId>)
    requires OwnIds(s, issued)
    requires forall it :: it in t.items ==>
               it.id == 0 || FromItem(s, it)
    requires forall k :: k in t.index ==> k in s.index
    ensures OwnIds(t, issued)
  {
  }

  lemma StepIndexShrinks(s: Mgr, st: Step)
    requires !st.SMonitor?
    ensures forall k :: k in Apply(s, st).index ==> k in s.index
  {
    hide TestActive, PushPending, Fail, Flag, ActivateAll, DeactivateIndexed, Mark, Subscribe, Pop, SyncRead, Overwrite,
         RemoveFirst, FindName, MapItems;
    StepFrame(s, st);
  }

  lemma MonitorOwnIds(s: Mgr, h: Handle, monId: MonId, issued: set<MonId>)
    requires OwnIds(s, issued) && monId !in issued && monId != 0
    ensures Apply(s, SMonitor(h, monId)) == Monitor(s, h, monId) && OwnIds(Monitor(s, h, monId), issued + {monId})
  {
    MonitorItems(s, h, monId);
  }

  lemma StepOwnIds(s: Mgr, st: Step, issued: set<MonId>)
    requires Accounting(s) && Disciplined(s, st) && OwnIds(s, issued)
    requires st.SMonitor? ==> st.monId !in issued && st.monId != 0
    ensures OwnIds(Apply(s, st), if st.SMonitor? then issued + {st.monId} else issued)
  {
    hide Apply, Accounting, FromItem;
    if st.SMonitor? {
      MonitorOwnIds(s, st.h, st.monId, issued);
    } else {
      StepKeepsIds(s, st);
      StepIndexShrinks(s, st);
      OwnIdsFrom(s, Apply(s, st), issued);
    }
  }

  // Some item of s has the handle and the id of it.
  ghost predicate FromItem(s: Mgr, it: Item) {
    exists o :: o in s.items && o.handle == it.handle && o.id == it.id
  }

  lemma SubscribeKeepsIds(s: Mgr, name: string, acc: AccId)
    ensures forall it :: it in Subscribe(s, name, acc).items ==> it.id == 0 || FromItem(s, it)
  {
  }

  lemma UnsubscribeKeepsId(s: Mgr, name: string, acc: AccId, i: nat)
    requires i < |Unsubscribe(s, name, acc).items|
    ensures FromItem(s, Unsubscribe(s, name, acc).items[i])
  {
    hide Unsubscribe, RemoveFirst, FromItem, FindName;
    UnsubscribeItems(s, name, acc);
    var t := Unsubscribe(s, name, acc);
    var k := FindName(s.items, name);
    if k < |s.items| && |s.items[k].accessors| <= 1 {
      SameIdFrom(s, if i < k then i else i + 1, t.items[i]);
    } else {
      SameIdFrom(s, i, t.items[i]);
    }
  }

  lemma SameIdFrom(s: Mgr, i: nat, it: Item)
    requires i < |s.items| && s.items[i].handle == it.handle && s.items[i].id == it.id
    ensures FromItem(s, it)
  {
    assert s.items[i] in s.items;
  }

  lemma UnsubscribeKeepsIds(s: Mgr, name: string, acc: AccId)
    ensures forall it :: it in Unsubscribe(s, name, acc).items ==> FromItem(s, it)
  {
    hide Unsubscribe, FromItem;
    forall i | 0 <= i < |Unsubscribe(s, name, acc).items| ensures FromItem(s, Unsubscribe(s, name, acc).items[i]) {
      UnsubscribeKeepsId(s, name, acc, i);
    }
  }

  lemma StepKeepsIds(s: Mgr, st: Step)
    requires !st.SMonitor?
    ensures forall it :: it in Apply(s, st).items ==> it.id == 0 || FromItem(s, it)
  {
    match st
    case SUnsubscribe(name, acc) => UnsubscribeKeepsIds(s, name, acc);
    case SSubscribe(name, acc) => SubscribeKeepsIds(s, name, acc);
    case SReset =>
    case _ => StepSameIndexing(s, st);
  }

  // The condition on one step under which every monitored item stays findable.
  ghost predicate KeepsComplete(s: Mgr, st: Step) {
    match st
    case SMonitor(h, monId) => OwnedBy(s, h, monId)
    case SUnsubscribe(name, acc) =>
      var i := FindName(s.items, name);
      i < |s.items| && |s.items[i].accessors| <= 1 ==> OwnedBy(s, s.items[i].handle, s.items[i].id)
    case _ => true
  }

  lemma StepComplete(s: Mgr, st: Step)
    requires Accounting(s) && Complete(s) && Disciplined(s, st)
    ensures Complete(Apply(s, st)) <==> KeepsComplete(s, st)
  {
    hide Accounting, Complete, Subscribe, Unsubscribe, Monitor, TestActive, PushPending, Fail, Flag, ActivateAll,
         DeactivateIndexed, Mark, Pop, SyncRead, Overwrite, SameIndexing, OwnedBy, FindName;
    match st
    case SSubscribe(name, acc) => SubscribeIndexing(s, name, acc);
    case SUnsubscribe(name, acc) => UnsubscribeComplete(s, name, acc);
    case SMonitor(h, monId) => MonitorComplete(s, h, monId);
    case SReset => ResetComplete(s);
    case _ =>
      StepSameIndexing(s, st);
      SameIndexingKeeps(s, Apply(s, st));
  }

  lemma ResetComplete(s: Mgr)
    ensures Complete(Reset(s))
  {
  }

  lemma UnsubscribeComplete(s: Mgr, name: string, acc: AccId)
    requires Accounting(s) && Complete(s) && Disciplined(s, SUnsubscribe(name, acc))
    ensures Complete(Unsubscribe(s, name, acc)) <==> KeepsComplete(s, SUnsubscribe(name, acc))
  {
    hide Complete, Unsubscribe, SameIndexing, OwnedBy;
    var gone := s.items[FindName(s.items, name)];
    if |gone.accessors| > 1 {
      DropAccessorIndexing(s, name, acc);
      SameIndexingKeeps(s, Unsubscribe(s, name, acc));
    } else {
      assert |gone.accessors| == 1;
      RemoveItemIndex(s, name, acc);
    }
  }

  // Every monitored item is found under its id in every state of a run, sound or not, exactly when no creation is given
  // the id of another monitored item, and no item is erased that carries one.
  lemma RunCompleteExactly(run: seq<Step>)
    requires Along(INIT, run, Disciplined)
    ensures Throughout(run, Complete) <==> Along(INIT, run, KeepsComplete)
  {
    hide Apply, Exec, Accounting, Complete, KeepsComplete, Throughout, Along;
    InitComplete();
    forall k | 0 <= k < |run| ensures KeptExactly(run, k, Complete, KeepsComplete) {
      if Complete(Exec(INIT, run[..k])) {
        DisciplinedAt(run, k);
        StepComplete(Exec(INIT, run[..k]), run[k]);
      }
    }
    ThroughoutExactly(run, Complete, KeepsComplete);
  }

  lemma InitComplete()
    ensures Complete(INIT)
  {
  }

  // With ids that are never reused no step loses an entry.
  lemma OwnIdsKeepComplete(s: Mgr, st: Step, issued: set<MonId>)
    requires Complete(s) && OwnIds(s, issued) && 0 !in issued
    requires st.SMonitor? ==> st.monId !in issued && st.monId != 0
    ensures KeepsComplete(s, st)
  {
  }

  lemma IssuedSnoc(run: seq<Step>, st: Step)
    ensures Issued(run + [st]) == if st.SMonitor? then Issued(run) + {st.monId} else Issued(run)
    ensures NeverReused(run + [st]) ==> NeverReused(run)
    ensures NeverReused(run + [st]) && st.SMonitor? ==> st.monId !in Issued(run) && st.monId != 0
  {
    var more := run + [st];
    assert more[|run|] == st;
    assert forall k :: 0 <= k < |run| ==> more[k] == run[k];
  }

  ghost predicate FoundById(s: Mgr, issued: set<MonId>) {
    Complete(s) && OwnIds(s, issued) && 0 !in issued
  }

  lemma StepFoundById(s: Mgr, st: Step, issued: set<MonId>)
    requires Accounting(s) && FoundById(s, issued) && Disciplined(s, st)
    requires st.SMonitor? ==> st.monId !in issued && st.monId != 0
    ensures KeepsComplete(s, st) && FoundById(Apply(s, st), if st.SMonitor? then issued + {st.monId} else issued)
  {
    hide Accounting, Complete, OwnIds, KeepsComplete, Disciplined, Apply;
    OwnIdsKeepComplete(s, st, issued);
    StepComplete(s, st);
    StepOwnIds(s, st, issued);
  }

  lemma InitFoundById()
    ensures Exec(INIT, []) == INIT && FoundById(INIT, Issued([])) && Along(INIT, [], KeepsComplete)
  {
  }

  // Ids that are never reused keep every monitored item findable, whatever else happens.
  lemma {:induction false} RunComplete(run: seq<Step>)
    requires Along(INIT, run, Disciplined) && NeverReused(run)
    ensures Along(INIT, run, KeepsComplete) && FoundById(Exec(INIT, run), Issued(run))
  {
    hide Apply, Exec, Accounting, Disciplined, KeepsComplete, FoundById, NeverReused, Issued, Along;
    if run == [] {
      InitFoundById();
    } else {
      var before, st := run[..|run| - 1], run[|run| - 1];
      assert before + [st] == run;
      AlongPrefix(INIT, run, Disciplined);
      IssuedSnoc(before, st);
      DisciplinedAt(run, |run| - 1);
      RunComplete(before);
      StepFoundById(Exec(INIT, before), st, Issued(before));
      AlongSnoc(INIT, before, st, KeepsComplete);
    }
  }

  // The search the index replaces: the first monitored item of the list that carries the id.
  function SearchById(items: seq<Item>, monId: MonId): (h: Option<Handle>) {
    if items == [] then None
    else if items[0].isMonitored && items[0].id == monId then Some(items[0].handle)
    else SearchById(items[1..], monId)
  }

  lemma {:induction false} SearchFinds(items: seq<Item>, monId: MonId)
    ensures match SearchById(items, monId)
            case Some(h) => MonitoredAs(items, h, monId)
            case None => forall it :: it in items && it.isMonitored ==> it.id != monId
  {
    if items != [] && !(items[0].isMonitored && items[0].id == monId) {
      SearchFinds(items[1..], monId);
      assert forall it :: it in items ==> it == items[0] || it in items[1..];
    } else if items != [] {
      assert items[0] in items;
    }
  }

  // The two halves of responseHandler with the search in place of the index.
  function TestBySearch(s: Mgr, monId: MonId, v: Value): Mgr {
    match SearchById(s.items, monId)
    case None => s
    case Some(h) => if h in s.pubs then TestOn(s, monId, h, v) else s
  }

  function PushBySearch(s: Mgr, k: nat): Mgr {
    if k >= |s.pending| then s
    else
      match SearchById(s.items, s.pending[k].monId)
      case None => Unlist(s, k).(broken := true)
      case Some(h) => PushOn(s, k, h)
  }

  lemma SearchAgrees(s: Mgr, monId: MonId)
    requires Sound(s) && Complete(s)
    ensures SearchById(s.items, monId) == if monId in s.index then Some(s.index[monId]) else None
    ensures monId in s.index ==> Indexed(s, monId)
  {
    SearchFinds(s.items, monId);
    if monId in s.index {
      assert MonitoredAs(s.items, s.index[monId], monId);
    }
  }

  // In every run in which the index stays sound and complete, both halves of responseHandler do exactly what a search of
  // _items by id would do, for every id the server may name, every value and every handler that passed its test; the
  // second half has no item to use exactly when the search finds none.
  lemma IndexRefinesSearch(run: seq<Step>, monId: MonId, v: Value, k: nat)
    requires Along(INIT, run, Disciplined) && Along(INIT, run, KeepsSound) && Along(INIT, run, KeepsComplete)
    ensures var s := Exec(INIT, run); TestActive(s, monId, v) == TestBySearch(s, monId, v)
    ensures var s := Exec(INIT, run); PushPending(s, k) == PushBySearch(s, k)
  {
    hide Exec, Accounting, Sound, Complete, Along, Throughout, TestActive, PushPending, TestBySearch, PushBySearch;
    RunAccounting(run);
    RunSoundExactly(run);
    RunCompleteExactly(run);
    ThroughoutLast(run, Sound);
    ThroughoutLast(run, Complete);
    HalvesAgree(Exec(INIT, run), monId, v, k);
  }

  // In particular when ids are never reused.
  lemma FreshIdsRefineSearch(run: seq<Step>, monId: MonId, v: Value, k: nat)
    requires Along(INIT, run, Disciplined) && Along(INIT, run, KeepsSound) && NeverReused(run)
    ensures var s := Exec(INIT, run); TestActive(s, monId, v) == TestBySearch(s, monId, v)
    ensures var s := Exec(INIT, run); PushPending(s, k) == PushBySearch(s, k)
  {
    hide Exec, Along, NeverReused, TestActive, PushPending, TestBySearch, PushBySearch;
    RunComplete(run);
    IndexRefinesSearch(run, monId, v, k);
  }

  lemma HalvesAgree(s: Mgr, monId: MonId, v: Value, k: nat)
    requires Accounting(s) && Sound(s) && Complete(s)
    ensures TestActive(s, monId, v) == TestBySearch(s, monId, v)
    ensures PushPending(s, k) == PushBySearch(s, k)
  {
    hide SearchById, Sound, Complete, TestOn, PushOn, Unlist, DistinctItems, DisjointLists;
    SearchAgrees(s, monId);
    if k < |s.pending| {
      SearchAgrees(s, s.pending[k].monId);
    }
  }
}
