// How one pass of the loops of OPCUASubscriptionManager relates to the sections of SubscriptionState.
module LoopSteps {
  import opened Common
  import opened SubscriptionState
  import opened SubscriptionRuns
  import opened SubscriptionIndex
  import opened SubscriptionListing
  import opened SubscriptionCalls

  // The list element a MonitorItem pointer refers to.
  function Slot(items: seq<Item>, h: Handle): (i: nat)
    ensures i <= |items|
    ensures i < |items| ==> items[i].handle == h
    ensures forall k :: 0 <= k < i ==> items[k].handle != h
  {
    if items == [] || items[0].handle == h then 0 else 1 + Slot(items[1..], h)
  }

  function SetOf(l: seq<AccId>): set<AccId> { set a | a in l }

  lemma LiveSlot(s: Mgr, monId: MonId, i: nat)
    requires Accounting(s) && Indexed(s, monId) && i == Slot(s.items, s.index[monId])
    ensures i < |s.items| && s.index[monId] in s.pubs
  {
  }

  lemma MembersSlot(items: seq<Item>, i: nat, h: Handle)
    requires DistinctItems(items) && i < |items| && items[i].handle == h
    ensures Members(items, h) == SetOf(items[i].accessors)
  {
  }

  // responseHandler for an id that is indexed.
  lemma NotifyAt(s: Mgr, monId: MonId, i: nat, v: Value)
    requires DistinctItems(s.items) && monId in s.index && i < |s.items| && s.items[i].handle == s.index[monId]
    requires s.index[monId] in s.pubs && s.pending == []
    ensures var h := s.index[monId];
            var t := s.(pubs := s.pubs[h := s.pubs[h] + [v]]);
            Notify(s, monId, v) == if !s.items[i].active then t
                                   else t.(items := s.items[i := s.items[i].(hasException := false)],
                                           accs := PushTo(s.accs, Members(s.items, h), Data(Sample(v, h, |s.pubs[h]|))))
  {
    hide PushTo, Members;
    var h := s.index[monId];
    assert HasItem(s.items, h);
    assert IsActive(s.items, h) <==> s.items[i].active;
    var u := TestActive(s, monId, v);
    if s.items[i].active {
      assert u.pending == [Handler(monId, Sample(v, h, |s.pubs[h]|))] && Unlist(u, 0).pending == [];
    }
  }

  lemma NotifyUnknown(s: Mgr, monId: MonId, v: Value)
    requires monId !in s.index
    ensures Notify(s, monId, v) == s
  {
  }

  function Flagged(it: Item): Item { if NeedsError(it) then it.(hasException := true) else it }

  lemma UntoldNext(items: seq<Item>, i: nat)
    requires i < |items|
    ensures Untold(items[..i + 1]) ==
            Untold(items[..i]) + (if NeedsError(items[i]) then SetOf(items[i].accessors) else {})
  {
  }

  // Pushing to disjoint groups one after the other is pushing to their union.
  lemma PushToUnion(accs: map<AccId, Accessor>, x: set<AccId>, y: set<AccId>, n: Note)
    requires x !! y
    ensures PushTo(PushTo(accs, x, n), y, n) == PushTo(accs, x + y, n)
  {
  }

  lemma FailNext(s: Mgr, i: nat, accs: map<AccId, Accessor>)
    requires DisjointLists(s.items) && i < |s.items| && accs == PushTo(s.accs, Untold(s.items[..i]), Error)
    ensures PushTo(s.accs, Untold(s.items[..i + 1]), Error) ==
            if NeedsError(s.items[i]) then PushTo(accs, SetOf(s.items[i].accessors), Error) else accs
  {
    UntoldNext(s.items, i);
    if NeedsError(s.items[i]) {
      PushToUnion(s.accs, Untold(s.items[..i]), SetOf(s.items[i].accessors), Error);
    }
  }

  // deactivate() has switched off the items behind the handles in seen.
  function Quieted(items: seq<Item>, seen: set<Handle>): seq<Item> {
    MapItems(items, (it: Item) => if it.handle in seen then it.(active := false) else it)
  }

  lemma QuietedNext(items: seq<Item>, seen: set<Handle>, i: nat)
    requires DistinctItems(items) && i < |items|
    ensures Quieted(items, seen)[i := Quieted(items, seen)[i].(active := false)] == Quieted(items, seen + {items[i].handle})
  {
  }

  lemma QuietedSlot(items: seq<Item>, seen: set<Handle>, h: Handle)
    ensures Slot(Quieted(items, seen), h) == Slot(items, h) && |Quieted(items, seen)| == |items|
  {
  }

  // The items behind the entries that are not in rest.
  function Behind(index: map<MonId, Handle>, rest: set<MonId>): set<Handle> {
    set k | k in index && k !in rest :: index[k]
  }

  lemma BehindNext(index: map<MonId, Handle>, rest: set<MonId>, k: MonId)
    requires k in rest && k in index
    ensures Behind(index, rest - {k}) == Behind(index, rest) + {index[k]}
  {
  }

  lemma AllBehind(s: Mgr)
    requires AllListed(s)
    ensures s.(items := Quieted(s.items, Behind(s.index, {}))) == DeactivateIndexed(s)
    ensures Quieted(s.items, Behind(s.index, s.index.Keys)) == s.items
  {
  }

  lemma OwnList(items: seq<Item>, i: nat)
    requires DisjointLists(items) && i < |items|
    ensures NoDuplicates(items[i].accessors)
  {
  }

  lemma AllFlagged(s: Mgr)
    ensures Fail(s).accs == PushTo(s.accs, Untold(s.items), Error)
    ensures Fail(s) == s.(items := Fail(s).items, accs := Fail(s).accs)
    ensures |Fail(s).items| == |s.items| && forall k :: 0 <= k < |s.items| ==> Fail(s).items[k] == Flagged(s.items[k])
    ensures Untold([]) == {} && PushTo(s.accs, {}, Error) == s.accs
  {
  }

  lemma MarkAt(s: Mgr, i: nat)
    requires DistinctItems(s.items) && i < |s.items|
    ensures var h := s.items[i].handle;
            && Mark(s, h) == (if s.asyncRead then s.(items := s.items[i := s.items[i].(active := true)]) else s)
            && (IsMonitored(s, h) <==> s.items[i].isMonitored)
  {
  }

  lemma MonitorAt(s: Mgr, i: nat, monId: MonId)
    requires DistinctItems(s.items) && i < |s.items|
    ensures Monitor(s, s.items[i].handle, monId) ==
            s.(items := s.items[i := s.items[i].(id := monId, isMonitored := true)],
               index := s.index[monId := s.items[i].handle])
  {
  }

  lemma AddUpToAccounting(s: Mgr, n: nat, issued: map<Handle, MonId>)
    requires Accounting(s) && n <= |s.items|
    ensures var t := AddUpTo(s, n, issued);
            Accounting(t) && |t.items| == |s.items| && forall k :: 0 <= k < |s.items| ==> t.items[k].handle == s.items[k].handle
  {
    AddUpToShape(s, n, issued);
    ShapeAccounting(s, AddUpTo(s, n, issued));
  }

  lemma OwnAccessors(s: Mgr, i: nat)
    requires Accounting(s) && i < |s.items|
    ensures s.items[i].accessors != [] && forall a :: a in s.items[i].accessors ==> a in s.accs
  {
  }
}
