// What becomes of the pointers in subscriptionMap when the deque of items loses an element.
//
// A deque keeps its elements in consecutive slots. Erasing one shifts the shorter side of the deque by one slot;
// pointers are slots. Elsewhere the index holds the items' own identities; here the two are compared.
module DequeIdentity {
  import opened Common
  import opened SubscriptionState
  import opened SubscriptionRuns
  import opened SubscriptionIndex

  datatype Deque = Deque(first: int, elements: seq<Handle>)

  predicate HasSlot(d: Deque, slot: int) { d.first <= slot < d.first + |d.elements| }

  function At(d: Deque, slot: int): Handle
    requires HasSlot(d, slot)
  {
    d.elements[slot - d.first]
  }

  predicate FrontIsShorter(d: Deque, k: nat) { k < |d.elements| / 2 }

  function Erase(d: Deque, k: nat): Deque
    requires k < |d.elements|
  {
    Deque(if FrontIsShorter(d, k) then d.first + 1 else d.first, d.elements[..k] + d.elements[k + 1..])
  }

  function PushBack(d: Deque, h: Handle): Deque { d.(elements := d.elements + [h]) }

  // The slots whose elements an erasure moves.
  predicate Relocated(d: Deque, k: nat, slot: int) {
    if FrontIsShorter(d, k) then d.first <= slot < d.first + k else d.first + k < slot < d.first + |d.elements|
  }

  ghost predicate PointsTo(d: Deque, pointers: map<MonId, int>, id: MonId, h: Handle) {
    id in pointers && HasSlot(d, pointers[id]) && At(d, pointers[id]) == h
  }

  // Every pointer of the index points to the item it was made for.
  ghost predicate Agrees(d: Deque, pointers: map<MonId, int>, index: map<MonId, Handle>) {
    && pointers.Keys == index.Keys
    && forall id :: id in index ==> PointsTo(d, pointers, id, index[id])
  }

  // An element that stays keeps its slot exactly when it is not relocated.
  lemma EraseAt(d: Deque, k: nat, slot: int)
    requires k < |d.elements| && HasSlot(d, slot) && slot != d.first + k && NoDuplicates(d.elements)
    ensures (HasSlot(Erase(d, k), slot) && At(Erase(d, k), slot) == At(d, slot)) <==> !Relocated(d, k, slot)
  {
  }

  // Erasing an element that no pointer names leaves all pointers right exactly when none points to the side that
  // moves.
  lemma EraseKeepsExactly(d: Deque, pointers: map<MonId, int>, index: map<MonId, Handle>, k: nat)
    requires NoDuplicates(d.elements) && Agrees(d, pointers, index) && k < |d.elements|
    requires forall id :: id in index ==> index[id] != d.elements[k]
    ensures Agrees(Erase(d, k), pointers, index) <==> forall id :: id in pointers ==> !Relocated(d, k, pointers[id])
  {
    forall id | id in index
      ensures PointsTo(Erase(d, k), pointers, id, index[id]) <==> !Relocated(d, k, pointers[id])
    {
      assert PointsTo(d, pointers, id, index[id]);
      EraseAt(d, k, pointers[id]);
    }
  }

  // Nothing moves when the erased element is the first or the last one.
  lemma EraseAtEnd(d: Deque, k: nat, slot: int)
    requires k < |d.elements| && HasSlot(d, slot) && (k == 0 || k == |d.elements| - 1)
    ensures !Relocated(d, k, slot)
  {
  }

  lemma PushBackKeeps(d: Deque, pointers: map<MonId, int>, index: map<MonId, Handle>, h: Handle)
    requires Agrees(d, pointers, index)
    ensures Agrees(PushBack(d, h), pointers, index)
  {
  }

  function Handles(items: seq<Item>): (r: seq<Handle>)
    ensures |r| == |items| && forall i :: 0 <= i < |r| ==> r[i] == items[i].handle
  {
    seq(|items|, i requires 0 <= i < |items| => items[i].handle)
  }

  lemma DistinctHandles(s: Mgr)
    requires Accounting(s)
    ensures NoDuplicates(Handles(s.items))
  {
  }

  lemma AgreesWithout(d: Deque, pointers: map<MonId, int>, index: map<MonId, Handle>, gone: MonId)
    requires Agrees(d, pointers, index)
    ensures Agrees(d, pointers - {gone}, index - {gone})
  {
  }

  // The pointers left when an element is erased with one entry are right exactly when no other entry names the element
  // and none points to the side that moves.
  lemma EraseWithEntryExactly(d: Deque, pointers: map<MonId, int>, index: map<MonId, Handle>, k: nat, gone: MonId)
    requires NoDuplicates(d.elements) && Agrees(d, pointers, index) && k < |d.elements|
    ensures Agrees(Erase(d, k), pointers - {gone}, index - {gone})
       <==> forall id :: id in index && id != gone ==> index[id] != d.elements[k] && !Relocated(d, k, pointers[id])
  {
    hide Relocated, NoDuplicates;
    var p, i := pointers - {gone}, index - {gone};
    AgreesWithout(d, pointers, index, gone);
    if id :| id in i && i[id] == d.elements[k] {
      ErasedNowhere(d, k);
      assert !PointsTo(Erase(d, k), p, id, i[id]);
    } else {
      hide Agrees;
      EraseKeepsExactly(d, p, i, k);
      assert forall id :: id in p <==> id in i by { SameIds(d, p, i); }
      assert forall id :: id in i <==> id in index && id != gone;
      assert forall id :: id in i ==> i[id] == index[id] && p[id] == pointers[id] by { SameIds(d, pointers, index); }
    }
  }

  lemma SameIds(d: Deque, pointers: map<MonId, int>, index: map<MonId, Handle>)
    requires Agrees(d, pointers, index)
    ensures forall id :: id in pointers <==> id in index
  {
  }

  lemma ErasedNowhere(d: Deque, k: nat)
    requires NoDuplicates(d.elements) && k < |d.elements|
    ensures forall slot :: HasSlot(Erase(d, k), slot) ==> At(Erase(d, k), slot) != d.elements[k]
  {
  }

  // ----- over runs -----

  // The deque and the pointers in subscriptionMap, beside a state of the manager.
  datatype Store = Store(deque: Deque, pointers: map<MonId, int>)

  const EMPTY: Store := Store(Deque(0, []), map[])

  // The slot of the item, or the one behind the last element.
  function SlotOf(d: Deque, h: Handle): int { d.first + IndexOf(d.elements, h) }

  predicate ErasesAt(s: Mgr, st: Step, i: nat) {
    st.SUnsubscribe? && i == FindName(s.items, st.name) < |s.items| && |s.items[i].accessors| <= 1
  }

  function NextStore(s: Mgr, w: Store, st: Step): Store {
    match st
    case SSubscribe(name, _) =>
      if FindName(s.items, name) == |s.items| then w.(deque := PushBack(w.deque, s.nextHandle)) else w
    case SUnsubscribe(name, _) =>
      var i := FindName(s.items, name);
      if ErasesAt(s, st, i) && i < |w.deque.elements| then Store(Erase(w.deque, i), w.pointers - {s.items[i].id}) else w
    case SMonitor(h, monId) => w.(pointers := w.pointers[monId := SlotOf(w.deque, h)])
    case SReset => w.(pointers := map[])
    case _ => w
  }

  function StoreAfter(run: seq<Step>): Store {
    if run == [] then EMPTY
    else NextStore(Exec(INIT, run[..|run| - 1]), StoreAfter(run[..|run| - 1]), run[|run| - 1])
  }

  predicate SameElements(s: Mgr, w: Store) { w.deque.elements == Handles(s.items) }

  ghost predicate RightPointers(s: Mgr, w: Store) { Agrees(w.deque, w.pointers, s.index) }

  // The condition on one step under which the pointers stay right.
  ghost predicate KeepsPointers(s: Mgr, w: Store, st: Step) {
    match st
    case SMonitor(h, _) => HasItem(s.items, h)
    case SUnsubscribe(name, _) =>
      var i := FindName(s.items, name);
      ErasesAt(s, st, i) ==>
        forall id :: id in s.index && id in w.pointers && id != s.items[i].id ==>
          s.index[id] != s.items[i].handle && !Relocated(w.deque, i, w.pointers[id])
    case _ => true
  }

  lemma SubscribeElements(s: Mgr, w: Store, name: string, acc: AccId)
    requires SameElements(s, w)
    ensures SameElements(Subscribe(s, name, acc), NextStore(s, w, SSubscribe(name, acc)))
  {
    hide FindName, InitialValue, SubscriptionState.Push, Newcomer;
    var t := Subscribe(s, name, acc);
    if FindName(s.items, name) == |s.items| {
      assert Handles(t.items) == Handles(s.items) + [s.nextHandle];
    } else {
      assert Handles(t.items) == Handles(s.items);
    }
  }

  lemma UnsubscribeElements(s: Mgr, w: Store, name: string, acc: AccId)
    requires SameElements(s, w)
    ensures SameElements(Unsubscribe(s, name, acc), NextStore(s, w, SUnsubscribe(name, acc)))
  {
    hide FindName, Unsubscribe, RemoveFirst;
    UnsubscribeItems(s, name, acc);
    var t, i := Unsubscribe(s, name, acc), FindName(s.items, name);
    if i < |s.items| && |s.items[i].accessors| <= 1 {
      assert Handles(t.items) == Handles(s.items)[..i] + Handles(s.items)[i + 1..];
    } else {
      assert Handles(t.items) == Handles(s.items);
    }
  }

  lemma ShapeElements(s: Mgr, t: Mgr)
    requires SameShape(s, t)
    ensures Handles(t.items) == Handles(s.items)
  {
  }

  lemma StepElements(s: Mgr, w: Store, st: Step)
    requires SameElements(s, w)
    ensures SameElements(Apply(s, st), NextStore(s, w, st))
  {
    hide FindName, SameShape, Subscribe, Unsubscribe, Monitor, Reset, TestActive, PushPending, Fail, Flag, ActivateAll,
         DeactivateIndexed, Mark, Pop, SyncRead, Overwrite, SubscriptionState.CreateSubscription;
    match st
    case SSubscribe(name, acc) => SubscribeElements(s, w, name, acc);
    case SUnsubscribe(name, acc) => UnsubscribeElements(s, w, name, acc);
    case _ =>
      StepShape(s, st);
      ShapeElements(s, Apply(s, st));
  }

  lemma {:induction false} RunElements(run: seq<Step>)
    ensures SameElements(Exec(INIT, run), StoreAfter(run))
  {
    hide Apply, NextStore;
    if run == [] {
    } else {
      RunElements(run[..|run| - 1]);
      StepElements(Exec(INIT, run[..|run| - 1]), StoreAfter(run[..|run| - 1]), run[|run| - 1]);
    }
  }

  // unsubscribe: the pointers left in subscriptionMap are right exactly when no other entry names the item that is erased
  // and the erasure relocates no item that one of them names.
  lemma UnsubscribeKeepsPointersExactly(s: Mgr, w: Store, name: string, acc: AccId)
    requires Accounting(s) && SameElements(s, w) && RightPointers(s, w)
    ensures RightPointers(Unsubscribe(s, name, acc), NextStore(s, w, SUnsubscribe(name, acc)))
       <==> KeepsPointers(s, w, SUnsubscribe(name, acc))
  {
    hide Accounting, Agrees, Relocated, FindName, Unsubscribe, RemoveFirst, Erase;
    UnsubscribeItems(s, name, acc);
    DistinctHandles(s);
    var i := FindName(s.items, name);
    SameKeys(s, w);
    if ErasesAt(s, SUnsubscribe(name, acc), i) {
      EraseWithEntryExactly(w.deque, w.pointers, s.index, i, s.items[i].id);
    }
  }

  lemma SameKeys(s: Mgr, w: Store)
    requires RightPointers(s, w)
    ensures w.pointers.Keys == s.index.Keys
  {
  }

  lemma MonitorKeepsPointersExactly(s: Mgr, w: Store, h: Handle, monId: MonId)
    requires SameElements(s, w) && RightPointers(s, w)
    ensures RightPointers(Monitor(s, h, monId), NextStore(s, w, SMonitor(h, monId))) <==> HasItem(s.items, h)
  {
    hide MapItems, HasItem, SlotOf;
    var t, n := Monitor(s, h, monId), NextStore(s, w, SMonitor(h, monId));
    assert t.index == s.index[monId := h] && n.deque == w.deque;
    SlotFinds(s, w.deque, h);
    if HasItem(s.items, h) {
      forall id | id in t.index ensures PointsTo(n.deque, n.pointers, id, t.index[id]) {
        if id != monId { assert PointsTo(w.deque, w.pointers, id, s.index[id]); }
      }
    } else {
      assert !PointsTo(n.deque, n.pointers, monId, t.index[monId]);
    }
  }

  lemma SlotFinds(s: Mgr, d: Deque, h: Handle)
    requires d.elements == Handles(s.items)
    ensures HasSlot(d, SlotOf(d, h)) <==> HasItem(s.items, h)
    ensures HasItem(s.items, h) ==> At(d, SlotOf(d, h)) == h
  {
    if HasItem(s.items, h) {
      var i :| 0 <= i < |s.items| && s.items[i].handle == h;
      assert d.elements[i] == h;
    }
    if HasSlot(d, SlotOf(d, h)) {
      assert s.items[IndexOf(d.elements, h)].handle == h;
    }
  }

  lemma SubscribeKeepsPointers(s: Mgr, w: Store, name: string, acc: AccId)
    requires RightPointers(s, w)
    ensures RightPointers(Subscribe(s, name, acc), NextStore(s, w, SSubscribe(name, acc)))
  {
    hide Subscribe, Agrees, PushBack, FindName;
    SubscribeFrame(s, name, acc);
    PushBackKeeps(w.deque, w.pointers, s.index, s.nextHandle);
  }

  lemma ResetKeepsPointers(s: Mgr, w: Store)
    ensures RightPointers(Reset(s), NextStore(s, w, SReset))
  {
  }

  lemma StepPointers(s: Mgr, w: Store, st: Step)
    requires Accounting(s) && SameElements(s, w) && RightPointers(s, w)
    ensures RightPointers(Apply(s, st), NextStore(s, w, st)) <==> KeepsPointers(s, w, st)
  {
    hide Accounting, RightPointers, SameElements, HasItem, FindName, Subscribe, Unsubscribe, Monitor, Reset, TestActive,
         PushPending, Fail, Flag, ActivateAll, DeactivateIndexed, Mark, Pop, SyncRead, Overwrite, Relocated;
    match st
    case SSubscribe(name, acc) => SubscribeKeepsPointers(s, w, name, acc);
    case SUnsubscribe(name, acc) => UnsubscribeKeepsPointersExactly(s, w, name, acc);
    case SMonitor(h, monId) => MonitorKeepsPointersExactly(s, w, h, monId);
    case SReset => ResetKeepsPointers(s, w);
    case _ =>
      StepFrame(s, st);
      SamePointers(s, Apply(s, st), w);
  }

  lemma SamePointers(s: Mgr, t: Mgr, w: Store)
    requires t.index == s.index && RightPointers(s, w)
    ensures RightPointers(t, w)
  {
  }

  ghost predicate RightAt(run: seq<Step>, k: nat)
    requires k <= |run|
  {
    RightPointers(Exec(INIT, run[..k]), StoreAfter(run[..k]))
  }

  ghost predicate KeptAt(run: seq<Step>, k: nat)
    requires k < |run|
  {
    KeepsPointers(Exec(INIT, run[..k]), StoreAfter(run[..k]), run[k])
  }

  lemma NextPointers(run: seq<Step>, k: nat)
    requires k < |run| && Along(INIT, run, Disciplined) && RightAt(run, k)
    ensures RightAt(run, k + 1) <==> KeptAt(run, k)
  {
    hide Apply, NextStore, Accounting, RightPointers, KeepsPointers, SameElements, Disciplined;
    assert run[..k + 1][..k] == run[..k];
    DisciplinedAt(run, k);
    RunElements(run[..k]);
    StepPointers(Exec(INIT, run[..k]), StoreAfter(run[..k]), run[k]);
  }

  lemma StartsRight(run: seq<Step>)
    ensures RightAt(run, 0)
  {
  }

  lemma {:induction false} RightUpTo(run: seq<Step>, k: nat)
    requires k <= |run| && Along(INIT, run, Disciplined) && forall j :: 0 <= j < k ==> KeptAt(run, j)
    ensures RightAt(run, k)
  {
    hide Apply, NextStore, Disciplined, KeptAt, RightAt;
    if k == 0 {
      StartsRight(run);
    } else {
      RightUpTo(run, k - 1);
      assert KeptAt(run, k - 1);
      NextPointers(run, k - 1);
    }
  }

  // Over every run: the pointers in subscriptionMap lead to the items they were made for, in every state, exactly when no
  // creation completes on an erased item, and every erasure leaves no entry for its item and relocates no item that an
  // entry names.
  lemma RunPointersExactly(run: seq<Step>)
    requires Along(INIT, run, Disciplined)
    ensures (forall k :: 0 <= k <= |run| ==> RightAt(run, k)) <==> forall k :: 0 <= k < |run| ==> KeptAt(run, k)
  {
    hide RightAt, KeptAt, Disciplined;
    if forall k :: 0 <= k < |run| ==> KeptAt(run, k) {
      forall k | 0 <= k <= |run| ensures RightAt(run, k) {
        RightUpTo(run, k);
      }
    }
    if forall k :: 0 <= k <= |run| ==> RightAt(run, k) {
      forall k | 0 <= k < |run| ensures KeptAt(run, k) {
        assert RightAt(run, k) && RightAt(run, k + 1);
        NextPointers(run, k);
      }
    }
  }

  // With three items, erasing the middle one leaves the pointer to the last one dangling.
  lemma MiddleErasureDangles(a: Handle, b: Handle, c: Handle, id: MonId)
    requires a != b && b != c && a != c
    ensures var d := Deque(0, [a, b, c]);
            && Agrees(d, map[id := 2], map[id := c])
            && !HasSlot(Erase(d, 1), 2)
  {
  }
}
