// Ownership of the value blocks of ManagedDataValue on their way from a callback through a queue slot into an
// accessor.
//
// Blocks are numbered in the order they are allocated; the heap records how often each was freed. A value frees its
// block in its destructor when it has a value and its clear flag is set.
module ManagedValue {
  import opened Common
  import opened FutureQueue

  datatype Value = Value(data: Option<nat>, hasValue: bool, clear: bool)

  datatype Heap = Heap(next: nat, freed: multiset<nat>)

  const BLANK: Value := Value(None, false, false)

  function One(data: Option<nat>, b: nat): nat { if data == Some(b) then 1 else 0 }

  // 1 if the destructor will free block b.
  function Owns(v: Value, b: nat): nat { if v.hasValue && v.clear then One(v.data, b) else 0 }

  // It owns whatever it holds.
  predicate Tight(v: Value) {
    v.hasValue && v.data.Some? ==> v.clear
  }

  function Free(data: Option<nat>, h: Heap): (g: Heap)
    ensures g.next == h.next && forall b: nat :: g.freed[b] == h.freed[b] + One(data, b)
  {
    if data.Some? then h.(freed := h.freed + multiset{data.value}) else h
  }

  // ----- what the members of ManagedDataValue do -----

  // Both copying constructors.
  function DeepCopy(source: Value, h: Heap): (Value, Heap) {
    if source.hasValue && source.data.Some? then (Value(Some(h.next), true, false), h.(next := h.next + 1))
    else (Value(None, source.hasValue, false), h)
  }

  function MoveConstruct(source: Value): Value {
    Value(source.data, source.hasValue, source.hasValue)
  }

  function Prepare(v: Value, h: Heap): (Value, Heap) {
    if v.hasValue then (Value(None, false, v.clear), Free(v.data, h)) else (v, h)
  }

  // The target and the heap after a move assignment; the source only loses its clear flag.
  function MoveAssign(target: Value, source: Value, h: Heap): (Value, Heap) {
    var (t, g) := Prepare(target, h);
    (Value(source.data, source.hasValue, source.hasValue || t.clear), g)
  }

  // copyVariant; good says whether the status is good after copying.
  function CopyVariant(v: Value, good: bool, h: Heap): (Value, Heap) {
    var (t, g) := Prepare(v, h);
    if good then (Value(Some(g.next), true, true), g.(next := g.next + 1)) else (Value(t.data, false, true), g)
  }

  function Destroy(v: Value, h: Heap): Heap {
    if v.hasValue && v.clear then Free(v.data, h) else h
  }

  // ----- a move assignment -----

  // It neither loses a block nor frees one that still has an owner exactly when both sides own what they hold.
  lemma MoveAssignConservesExactly(target: Value, source: Value, h: Heap)
    ensures (forall b: nat :: AssignedCount(target, source, h, b) == Owns(target, b) + Owns(source, b) + h.freed[b])
       <==> Tight(target) && Tight(source)
  {
    if source.hasValue && source.data.Some? {
      var b := source.data.value;
      assert AssignedCount(target, source, h, b) >= 1 + h.freed[b] + (if target.hasValue then One(target.data, b) else 0);
    }
    if target.hasValue && target.data.Some? {
      var b := target.data.value;
      assert AssignedCount(target, source, h, b) == 1 + h.freed[b] + (if source.hasValue then One(source.data, b) else 0);
    }
  }

  // Owners of block b, and times it was freed, after a move assignment.
  function AssignedCount(target: Value, source: Value, h: Heap, b: nat): nat {
    var (t, g) := MoveAssign(target, source, h);
    Owns(t, b) + Owns(source.(clear := false), b) + g.freed[b]
  }

  // A slot that was moved from must be destroyed, not assigned to: assigning frees the block of the new owner.
  lemma AssigningToMovedFromFreesTwice(v: Value, w: Value, h: Heap)
    requires v.hasValue && v.data.Some? && v.clear && w.hasValue && w.clear && w.data != v.data
    ensures var slot := v.(clear := false);
            var (accessor, g) := MoveAssign(BLANK, v, h);
            var (reused, g') := MoveAssign(slot, w, g);
            Destroy(accessor, g').freed[v.data.value] == h.freed[v.data.value] + 2
  {
  }

  // ----- queues and accessors -----

  datatype Chain = Chain(queue: seq<Value>, data: Value)

  datatype World = World(chains: seq<Chain>, heap: Heap)

  function OwnsAll(vs: seq<Value>, b: nat): nat {
    if vs == [] then 0 else Owns(vs[0], b) + OwnsAll(vs[1..], b)
  }

  function OwnsBy(c: Chain, b: nat): nat { OwnsAll(c.queue, b) + Owns(c.data, b) }

  function OwnsIn(cs: seq<Chain>, b: nat): nat {
    if cs == [] then 0 else OwnsBy(cs[0], b) + OwnsIn(cs[1..], b)
  }

  // push_overwrite(std::move(temporary)): the slot that is replaced is destroyed, a new one is move-constructed, and
  // the temporary is destroyed.
  function Push(c: Chain, temporary: Value, h: Heap): (Chain, Heap) {
    var g := if |c.queue| < CAPACITY then h else Destroy(c.queue[CAPACITY - 1], h);
    (c.(queue := PushOverwrite(c.queue, MoveConstruct(temporary))), Destroy(temporary, g))
  }

  // The continuation of the read queue: nothing is assigned for an entry without a value; the slot is destroyed.
  function Pop(c: Chain, h: Heap): (Chain, Heap) {
    if c.queue == [] then (c, h)
    else
      var front := c.queue[0];
      if front.hasValue then
        var (d, g) := MoveAssign(c.data, front, h);
        (Chain(c.queue[1..], d), Destroy(front.(clear := false), g))
      else (c.(queue := c.queue[1..]), Destroy(front, h))
  }

  datatype Event =
    | Publish(to: nat, value: Value)      // responseHandler copies a value that the library owns
    | Tell(to: nat)                       // push_overwrite_exception: a slot without a block
    | Forward(source: nat, to: nat)       // subscribe copies the initial value from another accessor
    | Receive(to: nat)
    | ReadSync(to: nat, good: bool)
    | Remove(to: nat)                     // an accessor and its queue are destroyed; the place stays empty

  // What subscribe copies: the front of the queue, or the last value if the queue is empty.
  function InitialOf(c: Chain): Value { if c.queue == [] then c.data else c.queue[0] }

  function PushCopy(w: World, to: nat, original: Value): World
    requires to < |w.chains|
  {
    var (temporary, h) := DeepCopy(original, w.heap);
    var (c, g) := Push(w.chains[to], temporary, h);
    World(w.chains[to := c], g)
  }

  function Apply(w: World, e: Event): World {
    match e
    case Publish(to, v) => if to < |w.chains| then PushCopy(w, to, v) else w
    case Tell(to) =>
      if to < |w.chains| then
        var (c, h) := Push(w.chains[to], BLANK, w.heap);
        World(w.chains[to := c], h)
      else w
    case Forward(source, to) =>
      if to < |w.chains| && source < |w.chains| && InitialOf(w.chains[source]).hasValue then
        PushCopy(w, to, InitialOf(w.chains[source]))
      else w
    case Receive(to) =>
      if to < |w.chains| then
        var (c, h) := Pop(w.chains[to], w.heap);
        World(w.chains[to := c], h)
      else w
    case ReadSync(to, good) =>
      if to < |w.chains| then
        var (d, h) := CopyVariant(w.chains[to].data, good, w.heap);
        World(w.chains[to := w.chains[to].(data := d)], h)
      else w
    case Remove(to) =>
      if to < |w.chains| then
        World(w.chains[to := Chain([], BLANK)], Destroy(w.chains[to].data, DestroyAll(w.chains[to].queue, w.heap)))
      else w
  }

  function Run(w: World, es: seq<Event>): World {
    if es == [] then w else Apply(Run(w, es[..|es| - 1]), es[|es| - 1])
  }

  function DestroyAll(vs: seq<Value>, h: Heap): Heap {
    if vs == [] then h else DestroyAll(vs[1..], Destroy(vs[0], h))
  }

  // All queues and accessors are destroyed.
  function TearDown(cs: seq<Chain>, h: Heap): Heap {
    if cs == [] then h else TearDown(cs[1..], Destroy(cs[0].data, DestroyAll(cs[0].queue, h)))
  }

  // ----- single ownership -----

  ghost predicate TightChain(c: Chain) {
    Tight(c.data) && forall i :: 0 <= i < |c.queue| ==> Tight(c.queue[i])
  }

  // Every block allocated so far has exactly one owner or has been freed exactly once.
  ghost predicate SingleOwner(w: World) {
    && (forall i :: 0 <= i < |w.chains| ==> TightChain(w.chains[i]) && |w.chains[i].queue| <= CAPACITY)
    && (forall b: nat :: OwnsIn(w.chains, b) + w.heap.freed[b] == if b < w.heap.next then 1 else 0)
  }

  lemma {:induction false} OwnsAllSplit(vs: seq<Value>, us: seq<Value>, b: nat)
    ensures OwnsAll(vs + us, b) == OwnsAll(vs, b) + OwnsAll(us, b)
  {
    if vs == [] {
      assert vs + us == us;
    } else {
      assert (vs + us)[1..] == vs[1..] + us;
      OwnsAllSplit(vs[1..], us, b);
    }
  }

  lemma {:induction false} OwnsInUpdate(cs: seq<Chain>, i: nat, c: Chain, b: nat)
    requires i < |cs|
    ensures OwnsIn(cs[i := c], b) + OwnsBy(cs[i], b) == OwnsIn(cs, b) + OwnsBy(c, b)
  {
    hide OwnsBy;
    if i == 0 {
      assert cs[0 := c][1..] == cs[1..];
    } else {
      assert cs[i := c][1..] == cs[1..][i - 1 := c];
      OwnsInUpdate(cs[1..], i - 1, c, b);
    }
  }

  // After a push the new slot owns the block of the temporary, and the block of a replaced slot is freed.
  lemma PushOwns(c: Chain, temporary: Value, h: Heap, b: nat)
    requires |c.queue| <= CAPACITY && !temporary.clear
    ensures var (d, g) := Push(c, temporary, h);
            OwnsBy(d, b) + g.freed[b] == OwnsBy(c, b) + h.freed[b] + Owns(MoveConstruct(temporary), b)
  {
    var slot := MoveConstruct(temporary);
    if |c.queue| < CAPACITY {
      OwnsAllSplit(c.queue, [slot], b);
    } else {
      var kept, last := c.queue[..CAPACITY - 1], c.queue[CAPACITY - 1];
      assert c.queue == kept + [last];
      OwnsAllSplit(kept, [slot], b);
      OwnsAllSplit(kept, [last], b);
    }
  }

  lemma PushTight(c: Chain, temporary: Value, h: Heap)
    requires TightChain(c) && |c.queue| <= CAPACITY && !temporary.clear
    ensures var (d, g) := Push(c, temporary, h);
            TightChain(d) && |d.queue| <= CAPACITY && g.next == h.next
  {
  }

  lemma PopOwns(c: Chain, h: Heap, b: nat)
    requires TightChain(c)
    ensures var (d, g) := Pop(c, h);
            OwnsBy(d, b) + g.freed[b] == OwnsBy(c, b) + h.freed[b]
  {
  }

  lemma PopTight(c: Chain, h: Heap)
    requires TightChain(c) && |c.queue| <= CAPACITY
    ensures var (d, g) := Pop(c, h);
            TightChain(d) && |d.queue| <= CAPACITY && g.next == h.next
  {
  }

  // One chain and the heap change; blocks are accounted for if they are within this chain.
  lemma ChainChanges(w: World, to: nat, c: Chain, h: Heap)
    requires SingleOwner(w) && to < |w.chains| && TightChain(c) && |c.queue| <= CAPACITY && w.heap.next <= h.next
    requires forall b: nat :: OwnsBy(c, b) + h.freed[b]
                           == OwnsBy(w.chains[to], b) + w.heap.freed[b] + if w.heap.next <= b < h.next then 1 else 0
    ensures SingleOwner(World(w.chains[to := c], h))
  {
    hide OwnsBy, OwnsIn, TightChain;
    forall b: nat ensures OwnsIn(w.chains[to := c], b) + h.freed[b] == if b < h.next then 1 else 0 {
      OwnsInUpdate(w.chains, to, c, b);
    }
  }

  lemma PushCopyKeeps(w: World, to: nat, original: Value)
    requires SingleOwner(w) && to < |w.chains|
    ensures SingleOwner(PushCopy(w, to, original))
  {
    hide Push, TightChain, OwnsIn, OwnsBy;
    var (temporary, h) := DeepCopy(original, w.heap);
    var (c, g) := Push(w.chains[to], temporary, h);
    PushTight(w.chains[to], temporary, h);
    forall b: nat
      ensures OwnsBy(c, b) + g.freed[b]
           == OwnsBy(w.chains[to], b) + w.heap.freed[b] + if w.heap.next <= b < g.next then 1 else 0
    {
      PushOwns(w.chains[to], temporary, h, b);
    }
    ChainChanges(w, to, c, g);
  }

  lemma TellKeeps(w: World, to: nat)
    requires SingleOwner(w) && to < |w.chains|
    ensures SingleOwner(Apply(w, Tell(to)))
  {
    hide Push, TightChain, OwnsIn, OwnsBy;
    var (c, g) := Push(w.chains[to], BLANK, w.heap);
    PushTight(w.chains[to], BLANK, w.heap);
    forall b: nat ensures OwnsBy(c, b) + g.freed[b] == OwnsBy(w.chains[to], b) + w.heap.freed[b] {
      PushOwns(w.chains[to], BLANK, w.heap, b);
    }
    ChainChanges(w, to, c, g);
  }

  lemma ReceiveKeeps(w: World, to: nat)
    requires SingleOwner(w) && to < |w.chains|
    ensures SingleOwner(Apply(w, Receive(to)))
  {
    hide Pop, TightChain, OwnsIn, OwnsBy;
    var (c, h) := Pop(w.chains[to], w.heap);
    PopTight(w.chains[to], w.heap);
    forall b: nat ensures OwnsBy(c, b) + h.freed[b] == OwnsBy(w.chains[to], b) + w.heap.freed[b] {
      PopOwns(w.chains[to], w.heap, b);
    }
    ChainChanges(w, to, c, h);
  }

  lemma ReadSyncKeeps(w: World, to: nat, good: bool)
    requires SingleOwner(w) && to < |w.chains|
    ensures SingleOwner(Apply(w, ReadSync(to, good)))
  {
    hide OwnsIn;
    var (d, h) := CopyVariant(w.chains[to].data, good, w.heap);
    ChainChanges(w, to, w.chains[to].(data := d), h);
  }

  lemma {:induction false} DestroyAllFrees(vs: seq<Value>, h: Heap, b: nat)
    ensures DestroyAll(vs, h).freed[b] == h.freed[b] + OwnsAll(vs, b)
  {
    if vs == [] {
    } else {
      DestroyAllFrees(vs[1..], Destroy(vs[0], h), b);
    }
  }

  lemma {:induction false} DestroyAllNext(vs: seq<Value>, h: Heap)
    ensures DestroyAll(vs, h).next == h.next
  {
    if vs == [] {
    } else {
      DestroyAllNext(vs[1..], Destroy(vs[0], h));
    }
  }

  lemma RemoveKeeps(w: World, to: nat)
    requires SingleOwner(w) && to < |w.chains|
    ensures SingleOwner(Apply(w, Remove(to)))
  {
    hide OwnsIn, OwnsAll, DestroyAll;
    var c := w.chains[to];
    var h := Destroy(c.data, DestroyAll(c.queue, w.heap));
    DestroyAllNext(c.queue, w.heap);
    forall b: nat ensures OwnsBy(Chain([], BLANK), b) + h.freed[b] == OwnsBy(c, b) + w.heap.freed[b] {
      DestroyAllFrees(c.queue, w.heap, b);
      NothingOwnedBy(b);
    }
    ChainChanges(w, to, Chain([], BLANK), h);
  }

  lemma NothingOwnedBy(b: nat)
    ensures OwnsBy(Chain([], BLANK), b) == 0
  {
  }

  lemma ApplyKeepsSingleOwner(w: World, e: Event)
    requires SingleOwner(w)
    ensures SingleOwner(Apply(w, e))
  {
    hide SingleOwner, Push, PushCopy, Pop, CopyVariant, Destroy, DestroyAll;
    match e
    case Publish(to, v) => if to < |w.chains| { PushCopyKeeps(w, to, v); }
    case Tell(to) => if to < |w.chains| { TellKeeps(w, to); }
    case Forward(source, to) =>
      if to < |w.chains| && source < |w.chains| { PushCopyKeeps(w, to, InitialOf(w.chains[source])); }
    case Receive(to) => if to < |w.chains| { ReceiveKeeps(w, to); }
    case ReadSync(to, good) => if to < |w.chains| { ReadSyncKeeps(w, to, good); }
    case Remove(to) => if to < |w.chains| { RemoveKeeps(w, to); }
  }

  // ----- what arrives -----

  // A copied value that holds something, in a block of its own.
  function Fresh(h: Heap): Value { Value(Some(h.next), true, true) }

  predicate Full(v: Value) { v.hasValue && v.data.Some? }

  // A published value goes to the back of the queue as a copy of its own; a queue that is full loses its back to it.
  lemma PublishArrives(w: World, to: nat, v: Value)
    requires to < |w.chains| && Full(v) && |w.chains[to].queue| <= CAPACITY
    ensures var t, q := Apply(w, Publish(to, v)), w.chains[to].queue;
            && |t.chains| == |w.chains| && t.heap.next == w.heap.next + 1 && t.chains[to].data == w.chains[to].data
            && t.chains[to].queue == (if |q| < CAPACITY then q else q[..CAPACITY - 1]) + [Fresh(w.heap)]
            && forall i :: 0 <= i < |w.chains| && i != to ==> t.chains[i] == w.chains[i]
  {
  }

  // A read hands the block at the front to the accessor; a front without a value leaves the accessor's block alone.
  lemma ReceiveArrives(w: World, to: nat)
    requires to < |w.chains| && w.chains[to].queue != [] && Tight(w.chains[to].queue[0])
    ensures var t, front := Apply(w, Receive(to)), w.chains[to].queue[0];
            && |t.chains| == |w.chains| && t.chains[to].queue == w.chains[to].queue[1..]
            && (Full(front) ==> t.chains[to].data == front)
            && (!front.hasValue ==> t.chains[to].data == w.chains[to].data)
  {
  }

  // A good synchronous read gives the accessor a block of its own, a newcomer gets a copy of its own.
  lemma CopiesArrive(w: World, source: nat, to: nat)
    requires to < |w.chains| && source < |w.chains|
    ensures Apply(w, ReadSync(to, true)).chains[to].data == Fresh(w.heap)
    ensures !Apply(w, ReadSync(to, false)).chains[to].data.hasValue
    ensures w.chains[to].queue == [] && Full(InitialOf(w.chains[source])) ==>
              Apply(w, Forward(source, to)).chains[to].queue == [Fresh(w.heap)]
    ensures w.chains[to].queue == [] && !InitialOf(w.chains[source]).hasValue ==> Apply(w, Forward(source, to)) == w
  {
  }

  function Start(accessors: nat): World {
    World(seq(accessors, i => Chain([], BLANK)), Heap(0, multiset{}))
  }

  lemma {:induction false} NothingOwned(cs: seq<Chain>, b: nat)
    requires forall i :: 0 <= i < |cs| ==> cs[i] == Chain([], BLANK)
    ensures OwnsIn(cs, b) == 0
  {
    if cs == [] {
    } else {
      NothingOwned(cs[1..], b);
    }
  }

  lemma StartSingleOwner(accessors: nat)
    ensures SingleOwner(Start(accessors))
  {
    forall b: nat ensures OwnsIn(Start(accessors).chains, b) == 0 {
      NothingOwned(Start(accessors).chains, b);
    }
  }

  // Along every run, after each complete push, pop or read, every block has exactly one owner or is freed once.
  lemma {:induction false} RunSingleOwner(accessors: nat, es: seq<Event>)
    ensures SingleOwner(Run(Start(accessors), es))
  {
    hide Apply, SingleOwner;
    if es == [] {
      StartSingleOwner(accessors);
    } else {
      RunSingleOwner(accessors, es[..|es| - 1]);
      ApplyKeepsSingleOwner(Run(Start(accessors), es[..|es| - 1]), es[|es| - 1]);
    }
  }

  lemma {:induction false} TearDownFrees(cs: seq<Chain>, h: Heap, b: nat)
    ensures TearDown(cs, h).freed[b] == h.freed[b] + OwnsIn(cs, b)
  {
    if cs == [] {
    } else {
      var g := DestroyAll(cs[0].queue, h);
      DestroyAllFrees(cs[0].queue, h, b);
      TearDownFrees(cs[1..], Destroy(cs[0].data, g), b);
    }
  }

  // By the end of the run every block allocated has been freed exactly once, and nothing else.
  lemma FreedExactlyOnce(accessors: nat, es: seq<Event>, b: nat)
    ensures var w := Run(Start(accessors), es);
            TearDown(w.chains, w.heap).freed[b] == if b < w.heap.next then 1 else 0
  {
    RunSingleOwner(accessors, es);
    var w := Run(Start(accessors), es);
    TearDownFrees(w.chains, w.heap, b);
  }

  // ----- the class -----

  class Memory {
    var heap: Heap

    constructor ()
      ensures heap == Heap(0, multiset{})
    {
      heap := Heap(0, multiset{});
    }
  }

  class ManagedDataValue {
    var data: Option<nat>
    var hasValue: bool
    var clearData: bool
    const memory: Memory

    ghost function Model(): Value
      reads this
    {
      Value(data, hasValue, clearData)
    }

    constructor (memory: Memory)
      ensures Model() == BLANK && this.memory == memory
    {
      data, hasValue, clearData := None, false, false;
      this.memory := memory;
    }

    constructor CopyOf(source: Value, memory: Memory)
      modifies memory
      ensures (Model(), memory.heap) == DeepCopy(source, old(memory.heap)) && this.memory == memory
    {
      this.memory := memory;
      data, hasValue, clearData := None, source.hasValue, false;
      new;
      if source.hasValue && source.data.Some? {
        data := Some(memory.heap.next);
        memory.heap := memory.heap.(next := memory.heap.next + 1);
      }
    }

    constructor MovedFrom(other: ManagedDataValue)
      ensures Model() == MoveConstruct(other.Model()) && memory == other.memory
    {
      data, hasValue, memory := other.data, other.hasValue, other.memory;
      clearData := false;
      if other.hasValue {
        clearData := true;
      }
    }

    method PrepareSelf()
      modifies this, memory
      ensures (Model(), memory.heap) == Prepare(old(Model()), old(memory.heap))
    {
      if hasValue {
        memory.heap := Free(data, memory.heap);
        data, hasValue := None, false;
      }
    }

    // Assigning a value to itself frees it and leaves it without a value.
    method Assign(other: ManagedDataValue)
      requires other.memory == memory
      modifies this, other, memory
      ensures other != this ==> (Model(), memory.heap) == MoveAssign(old(Model()), old(other.Model()), old(memory.heap))
      ensures other != this ==> other.Model() == old(other.Model()).(clear := false)
      ensures other == this ==> Model() == Prepare(old(Model()), old(memory.heap)).0.(clear := false)
      ensures other == this ==> memory.heap == Prepare(old(Model()), old(memory.heap)).1
    {
      PrepareSelf();
      data := other.data;
      hasValue := other.hasValue;
      if other.hasValue {
        clearData := true;
      }
      other.clearData := false;
    }

    method CopyFrom(good: bool)
      modifies this, memory
      ensures (Model(), memory.heap) == CopyVariant(old(Model()), good, old(memory.heap))
    {
      PrepareSelf();
      if good {
        data, hasValue := Some(memory.heap.next), true;
        memory.heap := memory.heap.(next := memory.heap.next + 1);
      }
      clearData := true;
    }

    method Delete()
      modifies this, memory
      ensures memory.heap == Destroy(old(Model()), old(memory.heap)) && !(hasValue && clearData)
    {
      if hasValue && clearData {
        memory.heap := Free(data, memory.heap);
        hasValue := false;
      }
    }
  }
}
