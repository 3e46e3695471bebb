// The state of OPCUASubscriptionManager and of the queues it feeds, as a value, and one function for each
// section of code that the manager runs under its mutex (or as one atomic flag update).
//
// An item is identified by a handle that is never reused: the address of a MonitorItem that is never relocated.
module SubscriptionState {
  import opened Common
  import opened FutureQueue

  type AccId = nat
  type Handle = nat
  type MonId = nat

  // A UA_DataValue: a payload that may be absent.
  datatype Value = Value(hasValue: bool, payload: int)

  // Where the value an accessor holds comes from: a publication of an item, at a position in its history, or a
  // direct read or write of the accessor itself.
  datatype Sample = Sample(v: Value, from: Handle, at: nat) | Direct(v: Value)

  datatype Note = Data(s: Sample) | Error

  // A register accessor: its notification queue, the last value moved into it, and three history variables.
  datatype Accessor = Accessor(
    home: Handle,           // the item it subscribed to
    queue: seq<Note>,
    data: Option<Sample>,
    pushed: seq<Note>,      // history: everything ever pushed to the queue
    consumed: seq<Sample>,  // history: everything ever moved into data by a read
    seen: seq<Note>)        // history: everything ever taken from the queue

  // A responseHandler that has found its item active and has not yet taken the mutex.
  datatype Handler = Handler(monId: MonId, sample: Sample)

  datatype Item = Item(
    handle: Handle,
    name: string,
    accessors: seq<AccId>,
    id: MonId,
    active: bool,
    isMonitored: bool,
    hasException: bool)

  datatype Mgr = Mgr(
    items: seq<Item>,
    index: map<MonId, Handle>,          // subscriptionMap
    nextHandle: Handle,
    asyncRead: bool,
    accs: map<AccId, Accessor>,         // every accessor that ever subscribed
    pubs: map<Handle, seq<Value>>,      // history: what the server published for each item
    subId: nat,
    subActive: bool,
    live: set<nat>,                     // subscriptions that exist on the server
    pending: seq<Handler>,
    broken: bool)                       // an erased item, or an entry the index does not have, was used by a section
                                        // below; what the program does after that is not modelled

  const INIT: Mgr := Mgr([], map[], 0, false, map[], map[], 0, false, {}, [], false)

  function Newcomer(home: Handle): Accessor { Accessor(home, [], None, [], [], []) }

  // An item with this handle is on the list.
  predicate HasItem(items: seq<Item>, h: Handle) {
    exists i :: 0 <= i < |items| && items[i].handle == h
  }

  predicate IsActive(items: seq<Item>, h: Handle) {
    exists i :: 0 <= i < |items| && items[i].handle == h && items[i].active
  }

  function MapItems(items: seq<Item>, f: Item -> Item): (r: seq<Item>)
    ensures |r| == |items|
    ensures forall i :: 0 <= i < |items| ==> r[i] == f(items[i])
  {
    seq(|items|, i requires 0 <= i < |items| => f(items[i]))
  }

  // The accessors on the list of item h, active or not.
  function Members(items: seq<Item>, h: Handle): set<AccId> {
    set i, a | 0 <= i < |items| && items[i].handle == h && a in items[i].accessors :: a
  }

  predicate NeedsError(it: Item) { it.active && !it.hasException }

  // The accessors that handleException goes to.
  function Untold(items: seq<Item>): set<AccId> {
    set i, a | 0 <= i < |items| && NeedsError(items[i]) && a in items[i].accessors :: a
  }

  function Push(a: Accessor, n: Note): Accessor {
    a.(queue := PushOverwrite(a.queue, n), pushed := a.pushed + [n])
  }

  // Each target gets the note exactly once.
  function PushTo(accs: map<AccId, Accessor>, targets: set<AccId>, n: Note): map<AccId, Accessor> {
    map a | a in accs :: if a in targets then Push(accs[a], n) else accs[a]
  }

  function Names(items: seq<Item>): (r: seq<string>)
    ensures |r| == |items| && forall i :: 0 <= i < |r| ==> r[i] == items[i].name
  {
    seq(|items|, i requires 0 <= i < |items| => items[i].name)
  }

  // std::find by browse name; |items| stands for end().
  function FindName(items: seq<Item>, name: string): (i: nat)
    ensures i <= |items|
    ensures i < |items| ==> items[i].name == name
    ensures forall k :: 0 <= k < i ==> items[k].name != name
  {
    var i := IndexOf(Names(items), name);
    assert forall k :: 0 <= k < i ==> Names(items)[..i][k] == items[k].name;
    i
  }

  // ----- sections that run under the item mutex -----

  // The index names an item that is on the list.
  predicate Indexed(s: Mgr, monId: MonId) { monId in s.index && HasItem(s.items, s.index[monId]) }

  // responseHandler, the test without a lock: an id that is not indexed throws; an inactive item gets nothing.
  function TestActive(s: Mgr, monId: MonId, v: Value): Mgr {
    if monId !in s.index then s
    else if Indexed(s, monId) && s.index[monId] in s.pubs then TestOn(s, monId, s.index[monId], v)
    else s.(broken := true)
  }

  function TestOn(s: Mgr, monId: MonId, h: Handle, v: Value): Mgr
    requires h in s.pubs
  {
    var history := s.pubs[h];
    s.(pubs := s.pubs[h := history + [v]],
       pending := if IsActive(s.items, h) then s.pending + [Handler(monId, Sample(v, h, |history|))] else s.pending)
  }

  // The rest of it, under the mutex: the id is looked up again, and whether the item is active is not. An id that
  // has left the index gets a null entry, which is then used.
  function PushPending(s: Mgr, k: nat): Mgr {
    if k >= |s.pending| then s
    else if Indexed(s, s.pending[k].monId) then PushOn(s, k, s.index[s.pending[k].monId])
    else Unlist(s, k).(broken := true)
  }

  function Unlist(s: Mgr, k: nat): Mgr
    requires k < |s.pending|
  {
    s.(pending := s.pending[..k] + s.pending[k + 1..])
  }

  function PushOn(s: Mgr, k: nat, h: Handle): Mgr
    requires k < |s.pending|
  {
    Unlist(s, k).(
      items := MapItems(s.items, (it: Item) => if it.handle == h then it.(hasException := false) else it),
      accs := PushTo(s.accs, Members(s.items, h), Data(s.pending[k].sample)))
  }

  // responseHandler without interruption.
  function Notify(s: Mgr, monId: MonId, v: Value): Mgr {
    var t := TestActive(s, monId, v);
    if |t.pending| > |s.pending| then PushPending(t, |s.pending|) else t
  }

  // handleException
  function Fail(s: Mgr): Mgr {
    s.(items := MapItems(s.items, (it: Item) => if NeedsError(it) then it.(hasException := true) else it),
       accs := PushTo(s.accs, Untold(s.items), Error))
  }

  // setExternalError
  function External(s: Mgr, name: string): Mgr {
    var i := FindName(s.items, name);
    if i == |s.items| then s else s.(items := s.items[i := s.items[i].(hasException := true)])
  }

  // setExternalError after its search, which it makes without the mutex.
  function Flag(s: Mgr, h: Handle): Mgr {
    if HasItem(s.items, h)
    then s.(items := MapItems(s.items, (it: Item) => if it.handle == h then it.(hasException := true) else it))
    else s.(broken := true)
  }

  // The loop of activate().
  function ActivateAll(s: Mgr): Mgr {
    s.(items := MapItems(s.items, (it: Item) => it.(active := true)))
  }

  // The loop of deactivate(): only items that the index knows.
  function DeactivateIndexed(s: Mgr): Mgr {
    s.(items := MapItems(s.items, (it: Item) => if it.handle in s.index.Values then it.(active := false) else it),
       broken := s.broken || exists k :: k in s.index && !Indexed(s, k))
  }

  // resetMonitoredItems: the ids are left as they are.
  function Reset(s: Mgr): Mgr {
    s.(items := MapItems(s.items, (it: Item) => it.(isMonitored := false)), index := map[])
  }

  // addMonitoredItems, first half of the loop body.
  function Mark(s: Mgr, h: Handle): Mgr {
    if s.asyncRead
    then s.(items := MapItems(s.items, (it: Item) => if it.handle == h then it.(active := true) else it))
    else s
  }

  // addMonitoredItems, second half: the server accepted the item and issued monId. The item may have been erased
  // while the mutex was free.
  function Monitor(s: Mgr, h: Handle, monId: MonId): Mgr {
    s.(items := MapItems(s.items, (it: Item) => if it.handle == h then it.(id := monId, isMonitored := true) else it),
       index := s.index[monId := h],
       broken := s.broken || !HasItem(s.items, h))
  }

  // What a late subscriber copies from the accessor that was last in the list.
  function InitialValue(t: Accessor): (r: Option<Sample>)
    ensures r.Some? ==> r.value.v.hasValue
    ensures r.Some? ==> Some(r.value) == t.data || Data(r.value) in t.queue
  {
    if t.queue == [] then
      if t.data.Some? && t.data.value.v.hasValue then t.data else None
    else if t.queue[0].Data? && t.queue[0].s.v.hasValue then Some(t.queue[0].s)
    else None
  }

  function Subscribe(s: Mgr, name: string, acc: AccId): Mgr {
    var i := FindName(s.items, name);
    if i == |s.items| then
      s.(items := s.items + [Item(s.nextHandle, name, [acc], 0, false, false, false)],
         nextHandle := s.nextHandle + 1,
         accs := s.accs[acc := Newcomer(s.nextHandle)],
         pubs := s.pubs[s.nextHandle := []])
    else
      var it := s.items[i];
      var newcomer := Newcomer(it.handle);
      var tmp := if it.accessors == [] then None else Some(it.accessors[|it.accessors| - 1]);
      var first :=
        if it.active && tmp.Some? && tmp.value in s.accs then InitialValue(s.accs[tmp.value]) else None;
      s.(items := s.items[i := it.(accessors := it.accessors + [acc])],
         accs := s.accs[acc := if first.Some? then Push(newcomer, Data(first.value)) else newcomer])
  }

  function RemoveFirst(l: seq<AccId>, a: AccId): seq<AccId> {
    var k := IndexOf(l, a);
    if k == |l| then l else l[..k] + l[k + 1..]
  }

  // unsubscribe, the part under the mutex: the index entry is erased under whatever id the item carries.
  function Unsubscribe(s: Mgr, name: string, acc: AccId): Mgr {
    var i := FindName(s.items, name);
    if i == |s.items| then s
    else if |s.items[i].accessors| > 1 then
      s.(items := s.items[i := s.items[i].(accessors := RemoveFirst(s.items[i].accessors, acc))])
    else
      s.(index := s.index - {s.items[i].id}, items := s.items[..i] + s.items[i + 1..])
  }

  // ----- the reading side -----

  // One completed read: an error or a notification without value throws and leaves data alone.
  function Pop(s: Mgr, acc: AccId): Mgr {
    if acc !in s.accs || s.accs[acc].queue == [] then s
    else
      var a := s.accs[acc];
      var rest := a.(queue := a.queue[1..], seen := a.seen + [a.queue[0]]);
      if a.queue[0].Data? && a.queue[0].s.v.hasValue then
        s.(accs := s.accs[acc := rest.(data := Some(a.queue[0].s), consumed := a.consumed + [a.queue[0].s])])
      else
        s.(accs := s.accs[acc := rest])
  }

  // doReadTransferSynchronously: the value is read past the queue.
  function SyncRead(s: Mgr, acc: AccId, payload: int): Mgr {
    if acc in s.accs then s.(accs := s.accs[acc := s.accs[acc].(data := Some(Direct(Value(true, payload))))]) else s
  }

  // doWriteTransfer on an accessor that already holds a value: the payload is overwritten in place.
  function Overwrite(s: Mgr, acc: AccId, payload: int): Mgr {
    if acc in s.accs && s.accs[acc].data.Some? then SyncRead(s, acc, payload) else s
  }

  // ----- the server subscription -----

  function CreateSubscription(s: Mgr, newId: nat): Mgr {
    s.(subId := newId, subActive := true, live := s.live + {newId})
  }

  // UA_Client_Subscriptions_deleteSingle; a successful delete also runs deleteSubscriptionCallback.
  function DeleteSubscription(s: Mgr, ok: bool): Mgr {
    s.(subId := 0, subActive := s.subActive && !ok, live := if ok then s.live - {s.subId} else s.live)
  }

  // deleteSubscriptionCallback for a subscription that the server dropped on its own.
  function ServerDropped(s: Mgr, dropped: nat): Mgr {
    s.(subId := 0, subActive := false, live := s.live - {dropped})
  }
}
