// Delivery in publication order.
module SubscriptionDelivery {
  import opened Common
  import opened FutureQueue
  import opened SubscriptionState
  import opened SubscriptionRuns
  import opened SubscriptionIndex

  // x was published by item h.
  predicate Published(x: Sample, h: Handle, history: seq<Value>) {
    x.Sample? && x.from == h && x.at < |history| && history[x.at] == x.v
  }

  predicate Before(x: Sample, y: Sample) { x.Sample? && y.Sample? && x.at < y.at }

  // What an accessor has consumed and what is queued for it was published by its item, in this order. The last value
  // is one of these unless the accessor read or wrote it directly.
  ghost predicate Ordered(a: Accessor, history: seq<Value>) {
    && (forall i :: 0 <= i < |a.consumed| ==> Published(a.consumed[i], a.home, history))
    && (forall i, j :: 0 <= i < j < |a.consumed| ==> Before(a.consumed[i], a.consumed[j]))
    && (forall i :: 0 <= i < |a.queue| && a.queue[i].Data? ==> Published(a.queue[i].s, a.home, history))
    && (forall i, j :: 0 <= i < j < |a.queue| && a.queue[i].Data? && a.queue[j].Data? ==> Before(a.queue[i].s, a.queue[j].s))
    && (forall i, j :: 0 <= i < |a.consumed| && 0 <= j < |a.queue| && a.queue[j].Data? ==> Before(a.consumed[i], a.queue[j].s))
    && (a.data.Some? && a.data.value.Sample? ==> Published(a.data.value, a.home, history))
  }

  ghost predicate HandlersOrdered(s: Mgr) {
    forall k :: 0 <= k < |s.pending| ==>
      var x := s.pending[k].sample; x.Sample? && x.from in s.pubs && Published(x, x.from, s.pubs[x.from])
  }

  ghost predicate AccessorsOrdered(s: Mgr) {
    forall a :: a in s.accs ==> s.accs[a].home in s.pubs && Ordered(s.accs[a], s.pubs[s.accs[a].home])
  }

  ghost predicate AllOrdered(s: Mgr) { AccessorsOrdered(s) && HandlersOrdered(s) }

  lemma HistoryGrows(a: Accessor, history: seq<Value>, v: Value)
    requires Ordered(a, history)
    ensures Ordered(a, history + [v])
  {
  }

  // A value that passed its test is recorded as published; nothing else changes for anybody.
  lemma TestOrdered(s: Mgr, monId: MonId, v: Value)
    requires AllOrdered(s)
    ensures AllOrdered(TestActive(s, monId, v))
  {
    hide Ordered, HasItem, IsActive, TestOn;
    if Indexed(s, monId) && s.index[monId] in s.pubs {
      TestedAccessors(s, monId, s.index[monId], v);
      TestedHandlers(s, monId, s.index[monId], v);
    }
  }

  lemma TestedAccessors(s: Mgr, monId: MonId, h: Handle, v: Value)
    requires AccessorsOrdered(s) && h in s.pubs
    ensures AccessorsOrdered(TestOn(s, monId, h, v))
  {
    hide Ordered, IsActive;
    var t := TestOn(s, monId, h, v);
    forall a | a in s.accs ensures t.accs[a].home in t.pubs && Ordered(t.accs[a], t.pubs[t.accs[a].home]) {
      HistoryGrows(s.accs[a], s.pubs[s.accs[a].home], v);
    }
  }

  lemma TestedHandlers(s: Mgr, monId: MonId, h: Handle, v: Value)
    requires HandlersOrdered(s) && h in s.pubs
    ensures HandlersOrdered(TestOn(s, monId, h, v))
  {
    hide IsActive;
    var t := TestOn(s, monId, h, v);
    forall k | 0 <= k < |t.pending|
      ensures var x := t.pending[k].sample; x.Sample? && x.from in t.pubs && Published(x, x.from, t.pubs[x.from])
    {
      if k < |s.pending| { assert t.pending[k] == s.pending[k]; }
    }
  }

  // ----- pushes -----

  // Nothing the accessor has consumed, and nothing that stays queued when a new element comes, is later than at.
  ghost predicate NoneLater(a: Accessor, at: nat) {
    && (forall i :: 0 <= i < |a.consumed| && a.consumed[i].Sample? ==> a.consumed[i].at < at)
    && (forall i :: 0 <= i < |a.queue| && i < CAPACITY - 1 && a.queue[i].Data? && a.queue[i].s.Sample? ==> a.queue[i].s.at < at)
  }

  lemma PushDataOrderedExactly(a: Accessor, history: seq<Value>, x: Sample)
    requires Ordered(a, history) && |a.queue| <= CAPACITY && x.Sample? && x.at < |history| && history[x.at] == x.v
    ensures Ordered(Push(a, Data(x)), history) <==> x.from == a.home && NoneLater(a, x.at)
  {
    var b := Push(a, Data(x));
    var n := |b.queue| - 1;
    assert b.queue[n] == Data(x) && forall i :: 0 <= i < n ==> b.queue[i] == a.queue[i];
    assert n == if |a.queue| < CAPACITY then |a.queue| else CAPACITY - 1;
    if Ordered(b, history) {
      assert Published(b.queue[n].s, a.home, history);
      forall i | 0 <= i < |a.consumed| && a.consumed[i].Sample? ensures a.consumed[i].at < x.at {
        assert Before(b.consumed[i], b.queue[n].s);
      }
      forall i | 0 <= i < |a.queue| && i < CAPACITY - 1 && a.queue[i].Data? && a.queue[i].s.Sample?
        ensures a.queue[i].s.at < x.at
      {
        assert i < n && Before(b.queue[i].s, b.queue[n].s);
      }
    }
  }

  lemma PushErrorOrdered(a: Accessor, history: seq<Value>)
    requires Ordered(a, history)
    ensures Ordered(Push(a, Error), history)
  {
  }

  // The handler finds the item it has tested, and no later value of this item has overtaken it.
  ghost predicate InTurn(s: Mgr, k: nat)
    requires k < |s.pending|
  {
    var p := s.pending[k];
    Indexed(s, p.monId) && p.sample.Sample? ==>
      && s.index[p.monId] == p.sample.from
      && forall a :: a in Members(s.items, p.sample.from) && a in s.accs ==> NoneLater(s.accs[a], p.sample.at)
  }

  ghost predicate BoundedQueues(s: Mgr) {
    forall a :: a in s.accs ==> |s.accs[a].queue| <= CAPACITY
  }

  lemma MemberHome(s: Mgr, h: Handle, a: AccId)
    requires Accounting(s) && a in Members(s.items, h)
    ensures a in s.accs && s.accs[a].home == h
  {
  }

  lemma SomeMember(s: Mgr, h: Handle) returns (a: AccId)
    requires Accounting(s) && HasItem(s.items, h)
    ensures a in Members(s.items, h)
  {
    var i :| 0 <= i < |s.items| && s.items[i].handle == h;
    a := s.items[i].accessors[0];
    assert a in s.items[i].accessors;
  }

  // A push keeps the order exactly when it comes in turn.
  lemma PushOrderedExactly(s: Mgr, k: nat)
    requires Accounting(s) && AllOrdered(s) && BoundedQueues(s) && k < |s.pending|
    ensures AllOrdered(PushPending(s, k)) <==> InTurn(s, k)
  {
    hide Accounting, Ordered, HandlersOrdered, Members, NoneLater, Published, Push, MapItems, HasItem;
    var p, t := s.pending[k], PushPending(s, k);
    UnlistedOrdered(s, k);
    assert p.sample.Sample? by { HandlerSample(s, k); }
    if Indexed(s, p.monId) {
      var h := s.index[p.monId];
      forall a | a in Members(s.items, h)
        ensures a in s.accs && t.accs[a].home == s.accs[a].home == h && t.accs[a] == Push(s.accs[a], Data(p.sample))
        ensures h in s.pubs && h == p.sample.from ==>
                  (Ordered(t.accs[a], s.pubs[h]) <==> NoneLater(s.accs[a], p.sample.at))
        ensures h != p.sample.from ==> !Ordered(t.accs[a], s.pubs[h])
      {
        MemberHome(s, h, a);
        PushSampleOrdered(s, k, a);
      }
      var m := SomeMember(s, h);
      assert forall a :: a in s.accs && a !in Members(s.items, h) ==> t.accs[a] == s.accs[a];
      if AllOrdered(t) {
        assert Ordered(t.accs[m], t.pubs[t.accs[m].home]) && t.accs[m].home == h;
        forall a | a in Members(s.items, h) ensures NoneLater(s.accs[a], p.sample.at) {
          assert Ordered(t.accs[a], t.pubs[t.accs[a].home]) && t.accs[a].home == h;
        }
      }
    }
  }

  lemma HandlerSample(s: Mgr, k: nat)
    requires HandlersOrdered(s) && k < |s.pending|
    ensures s.pending[k].sample.Sample?
  {
  }

  lemma UnlistedOrdered(s: Mgr, k: nat)
    requires HandlersOrdered(s) && k < |s.pending|
    ensures HandlersOrdered(PushPending(s, k))
  {
  }

  lemma PushSampleOrdered(s: Mgr, k: nat, a: AccId)
    requires AllOrdered(s) && BoundedQueues(s) && k < |s.pending| && a in s.accs
    ensures var x, b := s.pending[k].sample, Push(s.accs[a], Data(s.pending[k].sample));
            && b.home == s.accs[a].home && b.home in s.pubs && x.Sample?
            && (Ordered(b, s.pubs[b.home]) <==> x.from == b.home && NoneLater(s.accs[a], x.at))
  {
    var x, b := s.pending[k].sample, Push(s.accs[a], Data(s.pending[k].sample));
    if x.from == b.home {
      PushDataOrderedExactly(s.accs[a], s.pubs[b.home], x);
    } else {
      assert b.queue[|b.queue| - 1] == Data(x) && !Published(x, b.home, s.pubs[b.home]);
    }
  }

  lemma FailOrdered(s: Mgr)
    requires AllOrdered(s)
    ensures AllOrdered(Fail(s))
  {
    hide Ordered;
    forall a | a in s.accs ensures Ordered(Push(s.accs[a], Error), s.pubs[s.accs[a].home]) {
      PushErrorOrdered(s.accs[a], s.pubs[s.accs[a].home]);
    }
  }

  // ----- late subscribers -----

  lemma NewcomerOrderedExactly(tmp: Accessor, history: seq<Value>)
    requires Ordered(tmp, history)
    ensures Ordered(Newcomer(tmp.home), history)
    ensures InitialValue(tmp).Some? ==>
              (Ordered(Push(Newcomer(tmp.home), Data(InitialValue(tmp).value)), history) <==> InitialValue(tmp).value.Sample?)
  {
    if InitialValue(tmp).Some? {
      var b := Push(Newcomer(tmp.home), Data(InitialValue(tmp).value));
      assert b.queue == [Data(InitialValue(tmp).value)];
      assert Ordered(b, history) ==> Published(b.queue[0].s, b.home, history);
    }
  }

  // What a new subscriber of the name would copy is the last value of another accessor, and that accessor has read or
  // written it directly since it last took a value from its queue.
  predicate CopiesDirect(s: Mgr, name: string) {
    var i := FindName(s.items, name);
    && i < |s.items| && s.items[i].active && s.items[i].accessors != []
    && var tmp := s.items[i].accessors[|s.items[i].accessors| - 1];
       tmp in s.accs && s.accs[tmp].queue == [] && s.accs[tmp].data.Some? && s.accs[tmp].data.value.Direct?
       && s.accs[tmp].data.value.v.hasValue
  }

  lemma SubscribeNewcomer(s: Mgr, name: string, acc: AccId)
    requires Accounting(s) && AccessorsOrdered(s)
    ensures var t := Subscribe(s, name, acc);
            && acc in t.accs && t.accs[acc].home in t.pubs
            && (Ordered(t.accs[acc], t.pubs[t.accs[acc].home]) <==> !CopiesDirect(s, name))
  {
    hide DistinctItems, FindName, Ordered, Published;
    var t := Subscribe(s, name, acc);
    var i := FindName(s.items, name);
    if i < |s.items| {
      var it := s.items[i];
      var tmp := it.accessors[|it.accessors| - 1];
      assert tmp in it.accessors && tmp in s.accs && s.accs[tmp].home == it.handle;
      assert t.accs[acc] == if it.active && InitialValue(s.accs[tmp]).Some?
                            then Push(Newcomer(it.handle), Data(InitialValue(s.accs[tmp]).value)) else Newcomer(it.handle);
      NewcomerOrderedExactly(s.accs[tmp], s.pubs[it.handle]);
      QueueFrontPublished(s.accs[tmp], s.pubs[it.handle]);
    } else {
      EmptyNewcomerOrdered(s.nextHandle);
    }
  }

  // A late subscriber starts from a value its item has published exactly when it does not copy such a value.
  lemma SubscribeOrderedExactly(s: Mgr, name: string, acc: AccId)
    requires Accounting(s) && AllOrdered(s) && acc !in s.accs
    ensures AllOrdered(Subscribe(s, name, acc)) <==> !CopiesDirect(s, name)
  {
    hide DistinctItems, DisjointLists, AtHome, CopiesDirect, Subscribe, Ordered, Published;
    var t := Subscribe(s, name, acc);
    SubscribeNewcomer(s, name, acc);
    SubscribeOthers(s, name, acc);
    SubscribeFrame(s, name, acc);
    SubscribeHistories(s, name, acc);
    if !CopiesDirect(s, name) {
      forall a | a in t.accs ensures t.accs[a].home in t.pubs && Ordered(t.accs[a], t.pubs[t.accs[a].home]) {
        if a != acc { assert a in s.accs; }
      }
    }
  }

  lemma EmptyNewcomerOrdered(h: Handle)
    ensures Ordered(Newcomer(h), [])
  {
  }

  lemma QueueFrontPublished(a: Accessor, history: seq<Value>)
    requires Ordered(a, history)
    ensures a.queue != [] && a.queue[0].Data? ==> a.queue[0].s.Sample?
  {
  }

  lemma SubscribeHistories(s: Mgr, name: string, acc: AccId)
    requires AtHome(s)
    ensures var t := Subscribe(s, name, acc); forall h :: h in s.pubs ==> h in t.pubs && t.pubs[h] == s.pubs[h]
  {
    hide InitialValue, Push, FindName, Newcomer;
  }

  // ----- reads -----

  lemma PopOrdered(a: Accessor, history: seq<Value>)
    requires Ordered(a, history) && a.queue != []
    ensures var rest := a.(queue := a.queue[1..], seen := a.seen + [a.queue[0]]);
            && Ordered(rest, history)
            && (a.queue[0].Data? ==>
                  Ordered(rest.(data := Some(a.queue[0].s), consumed := a.consumed + [a.queue[0].s]), history))
  {
  }

  lemma PopKeepsOrder(s: Mgr, acc: AccId)
    requires AllOrdered(s)
    ensures AllOrdered(Pop(s, acc))
  {
    hide Ordered;
    if acc in s.accs && s.accs[acc].queue != [] {
      PopOrdered(s.accs[acc], s.pubs[s.accs[acc].home]);
    }
  }

  // A direct read or write by itself disturbs nobody.
  lemma DirectKeepsOrder(s: Mgr, acc: AccId, payload: int)
    requires AllOrdered(s)
    ensures AllOrdered(SyncRead(s, acc, payload)) && AllOrdered(Overwrite(s, acc, payload))
  {
  }

  // ----- over runs -----

  ghost predicate KeepsOrder(s: Mgr, st: Step) {
    match st
    case SSubscribe(name, _) => !CopiesDirect(s, name)
    case SPush(k) => k < |s.pending| ==> InTurn(s, k)
    case _ => true
  }

  ghost predicate SameHistories(s: Mgr, t: Mgr) {
    t.accs == s.accs && t.pubs == s.pubs && t.pending == s.pending
  }

  lemma StepSameHistories(s: Mgr, st: Step)
    requires !st.STest? && !st.SPush? && !st.SFail? && !st.SSubscribe? && !st.SPop? && !st.SSyncRead? && !st.SOverwrite?
    ensures SameHistories(s, Apply(s, st))
  {
    hide Apply;
    StepFrame(s, st);
  }

  lemma StepOrdered(s: Mgr, st: Step)
    requires Accounting(s) && AllOrdered(s) && BoundedQueues(s) && Disciplined(s, st)
    ensures AllOrdered(Apply(s, st)) <==> KeepsOrder(s, st)
  {
    hide Accounting, AllOrdered, BoundedQueues, TestActive, PushPending, Fail, Subscribe, Unsubscribe, Pop, SyncRead,
         Overwrite, CopiesDirect, InTurn, SameHistories;
    match st
    case STest(monId, v) => TestOrdered(s, monId, v);
    case SPush(k) => if k < |s.pending| { PushOrderedExactly(s, k); } else { NoSuchHandler(s, k); }
    case SFail => FailOrdered(s);
    case SSubscribe(name, acc) => SubscribeOrderedExactly(s, name, acc);
    case SPop(acc) => PopKeepsOrder(s, acc);
    case SSyncRead(acc, payload) => DirectKeepsOrder(s, acc, payload);
    case SOverwrite(acc, payload) => DirectKeepsOrder(s, acc, payload);
    case _ =>
      StepSameHistories(s, st);
      SameHistoriesOrdered(s, Apply(s, st));
  }

  lemma NoSuchHandler(s: Mgr, k: nat)
    requires k >= |s.pending|
    ensures PushPending(s, k) == s
  {
  }

  lemma SameHistoriesOrdered(s: Mgr, t: Mgr)
    requires SameHistories(s, t) && AllOrdered(s)
    ensures AllOrdered(t)
  {
  }

  lemma StepBounded(s: Mgr, st: Step)
    requires BoundedQueues(s)
    ensures BoundedQueues(Apply(s, st))
  {
    hide BoundedQueues, TestActive, PushPending, Fail, Subscribe, Unsubscribe, Pop, SyncRead, Overwrite, Flag, Reset, Mark,
         Monitor, ActivateAll, DeactivateIndexed, SameHistories;
    match st
    case STest(monId, v) => TestBounded(s, monId, v);
    case SPush(k) => PushBounded(s, k);
    case SFail => FailBounded(s);
    case SSubscribe(name, acc) => SubscribeBounded(s, name, acc);
    case SPop(acc) => ReadBounded(s, acc, 0);
    case SSyncRead(acc, payload) => ReadBounded(s, acc, payload);
    case SOverwrite(acc, payload) => ReadBounded(s, acc, payload);
    case _ =>
      StepSameHistories(s, st);
      SameHistoriesBounded(s, Apply(s, st));
  }

  lemma TestBounded(s: Mgr, monId: MonId, v: Value)
    requires BoundedQueues(s)
    ensures BoundedQueues(TestActive(s, monId, v))
  {
  }

  lemma PushBounded(s: Mgr, k: nat)
    requires BoundedQueues(s)
    ensures BoundedQueues(PushPending(s, k))
  {
    hide Members, MapItems;
  }

  lemma FailBounded(s: Mgr)
    requires BoundedQueues(s)
    ensures BoundedQueues(Fail(s))
  {
    hide Untold, MapItems;
  }

  lemma SubscribeBounded(s: Mgr, name: string, acc: AccId)
    requires BoundedQueues(s)
    ensures BoundedQueues(Subscribe(s, name, acc))
  {
    hide InitialValue, FindName;
  }

  lemma ReadBounded(s: Mgr, acc: AccId, payload: int)
    requires BoundedQueues(s)
    ensures BoundedQueues(Pop(s, acc)) && BoundedQueues(SyncRead(s, acc, payload)) && BoundedQueues(Overwrite(s, acc, payload))
  {
  }

  lemma SameHistoriesBounded(s: Mgr, t: Mgr)
    requires SameHistories(s, t) && BoundedQueues(s)
    ensures BoundedQueues(t)
  {
  }

  lemma InitOrdered()
    ensures AllOrdered(INIT) && BoundedQueues(INIT)
  {
  }

  lemma {:induction false} RunBounded(run: seq<Step>)
    ensures BoundedQueues(Exec(INIT, run))
  {
    hide Apply, BoundedQueues;
    if run == [] {
      InitOrdered();
    } else {
      RunBounded(run[..|run| - 1]);
      StepBounded(Exec(INIT, run[..|run| - 1]), run[|run| - 1]);
    }
  }

  // Everything consumed and queued is in publication order, in every state of a run, exactly when
  // every handler pushes in turn and no late subscriber copies a value another accessor read or wrote directly.
  lemma RunOrderedExactly(run: seq<Step>)
    requires Along(INIT, run, Disciplined)
    ensures Throughout(run, AllOrdered) <==> Along(INIT, run, KeepsOrder)
  {
    hide Apply, Exec, Accounting, AllOrdered, BoundedQueues, KeepsOrder, Throughout, Along;
    InitOrdered();
    forall k | 0 <= k < |run| ensures KeptExactly(run, k, AllOrdered, KeepsOrder) {
      if AllOrdered(Exec(INIT, run[..k])) {
        DisciplinedAt(run, k);
        RunBounded(run[..k]);
        StepOrdered(Exec(INIT, run[..k]), run[k]);
      }
    }
    ThroughoutExactly(run, AllOrdered, KeepsOrder);
  }

  function Payloads(samples: seq<Sample>): (r: seq<Value>)
    ensures |r| == |samples| && forall i :: 0 <= i < |r| ==> r[i] == samples[i].v
  {
    seq(|samples|, i requires 0 <= i < |samples| => samples[i].v)
  }

  // Then what an accessor consumes is what its item published, in that order, with values left out but none repeated.
  lemma DeliveredInOrder(run: seq<Step>, a: AccId)
    requires Along(INIT, run, Disciplined) && Along(INIT, run, KeepsOrder)
    requires a in Exec(INIT, run).accs
    ensures var s := Exec(INIT, run);
            s.accs[a].home in s.pubs && SubsequenceOf(Payloads(s.accs[a].consumed), s.pubs[s.accs[a].home])
  {
    hide Exec, Along, Throughout;
    RunOrderedExactly(run);
    ThroughoutLast(run, AllOrdered);
    var s := Exec(INIT, run);
    var c := s.accs[a].consumed;
    assert forall i :: 0 <= i < |c| ==> Published(c[i], s.accs[a].home, s.pubs[s.accs[a].home]);
    var idx: seq<nat> := seq(|c|, i requires 0 <= i < |c| => c[i].at);
    assert forall i, j :: 0 <= i < j < |c| ==> Before(c[i], c[j]);
    assert SelectedBy(Payloads(c), s.pubs[s.accs[a].home], idx);
  }
}
