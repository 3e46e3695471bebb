// The errors a reader sees.
//
// A reader takes the entries of its queue one by one; an error entry, and a notification without a value, reach it as
// a runtime_error. A full queue loses its newest entry to the next one, so the reader may see two errors in a row
// although they were never pushed in a row.
module SubscriptionReading {
  import opened Common
  import opened FutureQueue
  import opened SubscriptionState
  import opened SubscriptionRuns
  import opened SubscriptionIndex
  import opened SubscriptionErrors
  import opened SubscriptionDelivery

  // What the reader has taken and what it will take next.
  function Entries(a: Accessor): seq<Note> { a.seen + a.queue }

  // Reading the entry throws.
  predicate Fails(n: Note) { n.Data? ==> !n.s.v.hasValue }

  // The reader never has two failures in a row.
  ghost predicate Unrepeated(e: seq<Note>) {
    forall i :: 0 < i < |e| ==> !(Fails(e[i - 1]) && Fails(e[i]))
  }

  // What stays of the entries when another one comes.
  function Kept(a: Accessor): seq<Note>
    requires |a.queue| <= CAPACITY
  {
    if |a.queue| < CAPACITY then Entries(a) else Entries(a)[..|Entries(a)| - 1]
  }

  predicate EndsWell(e: seq<Note>) { e == [] || !Fails(e[|e| - 1]) }

  lemma PushedEntries(a: Accessor, n: Note)
    requires |a.queue| <= CAPACITY
    ensures Entries(Push(a, n)) == Kept(a) + [n]
  {
  }

  // Another entry is read apart from a failure before it exactly when it is no failure itself, or what stays in front of
  // it does not end in one.
  lemma PushApartExactly(a: Accessor, n: Note)
    requires |a.queue| <= CAPACITY && Unrepeated(Entries(a))
    ensures Unrepeated(Entries(Push(a, n))) <==> !Fails(n) || EndsWell(Kept(a))
  {
    PushedEntries(a, n);
    var e := Kept(a);
    assert forall i :: 0 <= i < |e| ==> e[i] == Entries(a)[i];
    if Fails(n) && !EndsWell(e) {
      assert (e + [n])[|e| - 1] == e[|e| - 1] && (e + [n])[|e|] == n;
    }
  }

  // ----- the state -----

  ghost predicate ReadersUnrepeated(s: Mgr) {
    forall a :: a in s.accs ==> Unrepeated(Entries(s.accs[a]))
  }

  ghost predicate AllEndWell(s: Mgr, targets: set<AccId>) {
    forall a :: a in targets && a in s.accs ==> |s.accs[a].queue| <= CAPACITY && EndsWell(Kept(s.accs[a]))
  }

  // Whoever is told a failure has something else in front of it.
  ghost predicate TellsApart(s: Mgr, st: Step) {
    match st
    case SFail => AllEndWell(s, Untold(s.items))
    case SPush(k) =>
      k < |s.pending| && Indexed(s, s.pending[k].monId) && Fails(Data(s.pending[k].sample)) ==>
        AllEndWell(s, Members(s.items, s.index[s.pending[k].monId]))
    case _ => true
  }

  lemma ToldApart(s: Mgr, t: Mgr, targets: set<AccId>, n: Note)
    requires BoundedQueues(s) && ReadersUnrepeated(s) && t.accs == PushTo(s.accs, targets, n)
    ensures ReadersUnrepeated(t) <==> !Fails(n) || AllEndWell(s, targets)
  {
    hide Unrepeated, Entries, EndsWell, Kept, Push, Fails;
    forall a | a in s.accs
      ensures |s.accs[a].queue| <= CAPACITY
      ensures Unrepeated(Entries(Push(s.accs[a], n))) <==> !Fails(n) || EndsWell(Kept(s.accs[a]))
    {
      PushApartExactly(s.accs[a], n);
    }
    if ReadersUnrepeated(t) && Fails(n) {
      forall a | a in targets && a in s.accs ensures EndsWell(Kept(s.accs[a])) {
        assert t.accs[a] == Push(s.accs[a], n);
      }
    }
  }

  lemma PushReading(s: Mgr, k: nat)
    requires BoundedQueues(s) && ReadersUnrepeated(s)
    ensures ReadersUnrepeated(PushPending(s, k)) <==> TellsApart(s, SPush(k))
  {
    hide BoundedQueues, ReadersUnrepeated, AllEndWell, MapItems, Members, HasItem, PushTo, Fails;
    var t := PushPending(s, k);
    if k < |s.pending| && Indexed(s, s.pending[k].monId) {
      ToldApart(s, t, Members(s.items, s.index[s.pending[k].monId]), Data(s.pending[k].sample));
    } else {
      SameReaders(s, t);
    }
  }

  lemma FailReading(s: Mgr)
    requires BoundedQueues(s) && ReadersUnrepeated(s)
    ensures ReadersUnrepeated(Fail(s)) <==> TellsApart(s, SFail)
  {
    ToldApart(s, Fail(s), Untold(s.items), Error);
  }

  lemma NewcomerReading(h: Handle, x: Sample)
    ensures Unrepeated(Entries(Newcomer(h))) && Unrepeated(Entries(Push(Newcomer(h), Data(x))))
  {
    PushedEntries(Newcomer(h), Data(x));
  }

  lemma SubscribeReading(s: Mgr, name: string, acc: AccId)
    requires acc !in s.accs && ReadersUnrepeated(s)
    ensures ReadersUnrepeated(Subscribe(s, name, acc))
  {
    hide Entries, Unrepeated, Push, Newcomer, Subscribe;
    SubscribeOthers(s, name, acc);
    SubscribeGets(s, name, acc);
    var b := Subscribe(s, name, acc).accs[acc];
    NewcomerReading(b.home, Direct(Value(true, 0)));
    forall x: Sample ensures Unrepeated(Entries(Push(Newcomer(b.home), Data(x)))) {
      NewcomerReading(b.home, x);
    }
  }

  // One accessor changes, but not what its reader has read and will read.
  lemma OneAccessorReading(s: Mgr, acc: AccId, b: Accessor)
    requires ReadersUnrepeated(s) && acc in s.accs && Entries(b) == Entries(s.accs[acc])
    ensures ReadersUnrepeated(s.(accs := s.accs[acc := b]))
  {
    hide Unrepeated, Entries;
  }

  lemma PopReading(s: Mgr, acc: AccId)
    requires ReadersUnrepeated(s)
    ensures ReadersUnrepeated(Pop(s, acc))
  {
    hide ReadersUnrepeated, Pop, Entries;
    if acc in s.accs && s.accs[acc].queue != [] {
      PoppedOne(s, acc);
      OneAccessorReading(s, acc, Pop(s, acc).accs[acc]);
    } else {
      PoppedNone(s, acc);
    }
  }

  lemma PoppedOne(s: Mgr, acc: AccId)
    requires acc in s.accs && s.accs[acc].queue != []
    ensures acc in Pop(s, acc).accs
    ensures var b := Pop(s, acc).accs[acc];
            && Pop(s, acc) == s.(accs := s.accs[acc := b])
            && Entries(b) == Entries(s.accs[acc]) && b.pushed == s.accs[acc].pushed && |b.queue| == |s.accs[acc].queue| - 1
  {
    var a := s.accs[acc];
    assert a.queue == [a.queue[0]] + a.queue[1..];
  }

  lemma PoppedNone(s: Mgr, acc: AccId)
    requires acc !in s.accs || s.accs[acc].queue == []
    ensures Pop(s, acc) == s
  {
  }

  lemma DirectReading(s: Mgr, acc: AccId, payload: int)
    requires ReadersUnrepeated(s)
    ensures ReadersUnrepeated(SyncRead(s, acc, payload)) && ReadersUnrepeated(Overwrite(s, acc, payload))
  {
    hide ReadersUnrepeated;
    if acc in s.accs {
      OneAccessorReading(s, acc, s.accs[acc].(data := Some(Direct(Value(true, payload)))));
    }
  }

  lemma SameReaders(s: Mgr, t: Mgr)
    requires t.accs == s.accs
    ensures ReadersUnrepeated(s) <==> ReadersUnrepeated(t)
  {
  }

  lemma StepReading(s: Mgr, st: Step)
    requires BoundedQueues(s) && ReadersUnrepeated(s) && Disciplined(s, st)
    ensures ReadersUnrepeated(Apply(s, st)) <==> TellsApart(s, st)
  {
    hide BoundedQueues, ReadersUnrepeated, AllEndWell, TestActive, PushPending, Fail, Flag, ActivateAll, DeactivateIndexed,
         Reset, Mark, Monitor, Subscribe, Unsubscribe, Pop, SyncRead, Overwrite, FindName;
    match st
    case SPush(k) => PushReading(s, k);
    case SFail => FailReading(s);
    case SSubscribe(name, acc) => SubscribeReading(s, name, acc);
    case SPop(acc) => PopReading(s, acc);
    case SSyncRead(acc, payload) => DirectReading(s, acc, payload);
    case SOverwrite(acc, payload) => DirectReading(s, acc, payload);
    case _ =>
      StepFrame(s, st);
      SameReaders(s, Apply(s, st));
  }

  lemma InitReading()
    ensures ReadersUnrepeated(INIT)
  {
  }

  // Over every run: no reader ever has two failures in a row exactly when, at every step that tells one, what stays in
  // the queues in front of it does not end in one.
  lemma ReadersUnrepeatedExactly(run: seq<Step>)
    requires Along(INIT, run, Disciplined)
    ensures Throughout(run, ReadersUnrepeated) <==> Along(INIT, run, TellsApart)
  {
    hide Apply, Exec, Accounting, BoundedQueues, ReadersUnrepeated, Disciplined, TellsApart, Throughout, Along;
    InitReading();
    forall k | 0 <= k < |run| ensures KeptExactly(run, k, ReadersUnrepeated, TellsApart) {
      if ReadersUnrepeated(Exec(INIT, run[..k])) {
        DisciplinedAt(run, k);
        RunBounded(run[..k]);
        StepReading(Exec(INIT, run[..k]), run[k]);
      }
    }
    ThroughoutExactly(run, ReadersUnrepeated, TellsApart);
  }

  // ----- servers that publish values -----

  // Every notification has a value, and what was pushed last is what will be read last.
  ghost predicate Told(a: Accessor) {
    && |a.queue| <= CAPACITY
    && (forall i :: 0 <= i < |Entries(a)| ==> Entries(a)[i].Data? ==> !Fails(Entries(a)[i]))
    && (a.pushed == [] <==> Entries(a) == [])
    && (a.pushed != [] && Entries(a) != [] ==> Entries(a)[|Entries(a)| - 1] == a.pushed[|a.pushed| - 1])
  }

  ghost predicate AllTold(s: Mgr) {
    && (forall a :: a in s.accs ==> Told(s.accs[a]))
    && (forall k :: 0 <= k < |s.pending| ==> s.pending[k].sample.v.hasValue)
  }

  predicate PublishesValues(s: Mgr, st: Step) { st.STest? ==> st.v.hasValue }

  // The queue has room, or would not lose the value between two errors.
  predicate Roomy(a: Accessor) {
    |a.queue| < CAPACITY || !a.queue[CAPACITY - 2].Error?
  }

  // An exception is only pushed to roomy queues.
  ghost predicate TellsRoomy(s: Mgr, st: Step) {
    st.SFail? ==> forall a :: a in Untold(s.items) && a in s.accs ==> Roomy(s.accs[a])
  }

  // For an accessor that was last told something else, which the mark of its item ensures, that is all it takes.
  lemma RoomyExactly(a: Accessor)
    requires Told(a) && !LastIsError(a.pushed)
    ensures EndsWell(Kept(a)) <==> Roomy(a)
  {
    var e := Entries(a);
    if |a.queue| == CAPACITY {
      assert Kept(a)[|Kept(a)| - 1] == e[|e| - 2] == a.queue[CAPACITY - 2];
    }
  }

  lemma PushTold(a: Accessor, n: Note)
    requires Told(a) && (n.Data? ==> !Fails(n))
    ensures Told(Push(a, n))
  {
    PushedEntries(a, n);
  }

  lemma PushAllTold(s: Mgr, k: nat)
    requires AllTold(s)
    ensures AllTold(PushPending(s, k))
  {
    hide Told, Push, MapItems, Members, HasItem;
    if k < |s.pending| {
      forall a | a in s.accs ensures Told(Push(s.accs[a], Data(s.pending[k].sample))) {
        PushTold(s.accs[a], Data(s.pending[k].sample));
      }
    }
  }

  lemma FailAllTold(s: Mgr)
    requires AllTold(s)
    ensures AllTold(Fail(s))
  {
    hide Told, Push, MapItems, Untold;
    forall a | a in s.accs ensures Told(Push(s.accs[a], Error)) {
      PushTold(s.accs[a], Error);
    }
  }

  lemma NewcomerTold(h: Handle, x: Sample)
    ensures Told(Newcomer(h)) && (x.v.hasValue ==> Told(Push(Newcomer(h), Data(x))))
  {
    PushedEntries(Newcomer(h), Data(x));
  }

  lemma SubscribeAllTold(s: Mgr, name: string, acc: AccId)
    requires AllTold(s) && acc !in s.accs
    ensures AllTold(Subscribe(s, name, acc))
  {
    hide Told, Push, Newcomer, Subscribe;
    SubscribeOthers(s, name, acc);
    SubscribeFrame(s, name, acc);
    SubscribeGets(s, name, acc);
    var b := Subscribe(s, name, acc).accs[acc];
    NewcomerTold(b.home, Direct(Value(true, 0)));
    forall x: Sample ensures x.v.hasValue ==> Told(Push(Newcomer(b.home), Data(x))) {
      NewcomerTold(b.home, x);
    }
  }

  lemma OneAccessorTold(s: Mgr, acc: AccId, b: Accessor)
    requires AllTold(s) && acc in s.accs && Entries(b) == Entries(s.accs[acc]) && b.pushed == s.accs[acc].pushed
    requires |b.queue| <= |s.accs[acc].queue|
    ensures AllTold(s.(accs := s.accs[acc := b]))
  {
    hide Entries, Fails;
    assert Told(s.accs[acc]) && Told(b);
    hide Told;
  }

  lemma ReadAllTold(s: Mgr, acc: AccId, payload: int)
    requires AllTold(s)
    ensures AllTold(Pop(s, acc)) && AllTold(SyncRead(s, acc, payload)) && AllTold(Overwrite(s, acc, payload))
  {
    hide AllTold, Pop, Fails;
    if acc in s.accs {
      OneAccessorTold(s, acc, s.accs[acc].(data := Some(Direct(Value(true, payload)))));
    }
    if acc in s.accs && s.accs[acc].queue != [] {
      PoppedOne(s, acc);
      OneAccessorTold(s, acc, Pop(s, acc).accs[acc]);
    } else {
      PoppedNone(s, acc);
    }
  }

  lemma TestTold(s: Mgr, monId: MonId, v: Value)
    requires AllTold(s) && v.hasValue
    ensures AllTold(TestActive(s, monId, v))
  {
    hide Told, HasItem, IsActive;
  }

  lemma StepTold(s: Mgr, st: Step)
    requires AllTold(s) && Disciplined(s, st) && PublishesValues(s, st)
    ensures AllTold(Apply(s, st))
  {
    hide Told, TestActive, PushPending, Fail, Flag, ActivateAll, DeactivateIndexed, Reset, Mark, Monitor, Subscribe,
         Unsubscribe, Pop, SyncRead, Overwrite, FindName;
    match st
    case STest(monId, v) => TestTold(s, monId, v);
    case SPush(k) => PushAllTold(s, k);
    case SFail => FailAllTold(s);
    case SSubscribe(name, acc) => SubscribeAllTold(s, name, acc);
    case SPop(acc) => ReadAllTold(s, acc, 0);
    case SSyncRead(acc, payload) => ReadAllTold(s, acc, payload);
    case SOverwrite(acc, payload) => ReadAllTold(s, acc, payload);
    case _ => StepFrame(s, st);
  }

  lemma {:induction false} RunTold(run: seq<Step>)
    requires Along(INIT, run, Disciplined) && Along(INIT, run, PublishesValues)
    ensures AllTold(Exec(INIT, run))
  {
    hide Apply, AllTold, Disciplined, PublishesValues;
    if run == [] {
      InitTold();
    } else {
      var before, st := run[..|run| - 1], run[|run| - 1];
      AlongPrefix(INIT, run, Disciplined);
      AlongPrefix(INIT, run, PublishesValues);
      RunTold(before);
      StepTold(Exec(INIT, before), st);
    }
  }

  lemma InitTold()
    ensures AllTold(INIT)
  {
  }

  lemma ApartExactly(s: Mgr, st: Step)
    requires Accounting(s) && ErrorsOnce(s) && AllTold(s)
    ensures TellsApart(s, st) <==> TellsRoomy(s, st)
  {
    hide Accounting, ErrorsOnce, Told, Untold, Roomy, EndsWell, Kept, LastIsError, Members, HasItem;
    if st.SFail? {
      forall a | a in Untold(s.items) && a in s.accs
        ensures |s.accs[a].queue| <= CAPACITY && (EndsWell(Kept(s.accs[a])) <==> Roomy(s.accs[a]))
      {
        UntoldMember(s, a);
        ToldBounded(s.accs[a]);
        RoomyExactly(s.accs[a]);
      }
    }
  }

  lemma ToldBounded(a: Accessor)
    requires Told(a)
    ensures |a.queue| <= CAPACITY
  {
  }

  // While the server publishes values, this means that exceptions are only pushed to roomy queues.
  lemma ReadersOfValuesExactly(run: seq<Step>)
    requires Along(INIT, run, Disciplined) && Along(INIT, run, PublishesValues)
    ensures Throughout(run, ReadersUnrepeated) <==> Along(INIT, run, TellsRoomy)
  {
    hide Apply, Exec, Accounting, ErrorsOnce, AllTold, Disciplined, PublishesValues, TellsApart, TellsRoomy, Throughout;
    ReadersUnrepeatedExactly(run);
    forall k | 0 <= k < |run| ensures TellsApart(Exec(INIT, run[..k]), run[k]) <==> TellsRoomy(Exec(INIT, run[..k]), run[k]) {
      AlongUpTo(INIT, run, Disciplined, k);
      AlongUpTo(INIT, run, PublishesValues, k);
      RunAccounting(run[..k]);
      RunErrors(run[..k]);
      RunTold(run[..k]);
      ApartExactly(Exec(INIT, run[..k]), run[k]);
    }
  }

  // A queue that holds a value, an error and a value gets its last value replaced by the next error.
  lemma ErrorsMeetInFullQueue(x: Sample, y: Sample)
    ensures var a := Newcomer(0).(queue := [Data(x), Error, Data(y)], pushed := [Data(x), Error, Data(y)]);
            !LastIsError(a.pushed) && Push(a, Error).queue == [Data(x), Error, Error]
  {
  }
}
