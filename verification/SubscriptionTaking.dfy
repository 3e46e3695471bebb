// What readers take out of their queues, and what newcomers start with.
module SubscriptionTaking {
  import opened Common
  import opened FutureQueue
  import opened SubscriptionState
  import opened SubscriptionRuns
  import opened SubscriptionIndex
  import opened SubscriptionDelivery
  import opened SubscriptionReading

  // The values among the entries of a queue.
  function ValuesOf(entries: seq<Note>): seq<Sample> {
    if entries == [] then []
    else
      var n := entries[|entries| - 1];
      ValuesOf(entries[..|entries| - 1]) + if n.Data? && n.s.v.hasValue then [n.s] else []
  }

  lemma ValuesSnoc(entries: seq<Note>, n: Note)
    ensures ValuesOf(entries + [n]) == ValuesOf(entries) + if n.Data? && n.s.v.hasValue then [n.s] else []
  {
    assert (entries + [n])[..|entries|] == entries;
  }

  lemma ValueOfOne(n: Note)
    ensures ValuesOf([n]) == if n.Data? && n.s.v.hasValue then [n.s] else []
  {
    assert [] + [n] == [n];
    ValuesSnoc([], n);
  }

  // What the next read takes.
  function Front(a: Accessor): seq<Note> { if a.queue == [] then [] else [a.queue[0]] }

  // One read takes the front, and nothing else: a value becomes the last value and is consumed, anything else is passed
  // over. What the reader has taken and will take stays the same, and so does everybody else.
  lemma PopTakes(s: Mgr, acc: AccId)
    requires acc in s.accs
    ensures var a, t := s.accs[acc], Pop(s, acc);
            && acc in t.accs && t == s.(accs := s.accs[acc := t.accs[acc]])
            && a.queue == Front(a) + t.accs[acc].queue && t.accs[acc].seen == a.seen + Front(a)
            && t.accs[acc].pushed == a.pushed && t.accs[acc].home == a.home
            && t.accs[acc].consumed == a.consumed + ValuesOf(Front(a))
            && t.accs[acc].data == if ValuesOf(Front(a)) == [] then a.data else Some(ValuesOf(Front(a))[0])
  {
    hide ValuesOf;
    var a := s.accs[acc];
    if a.queue != [] {
      ValueOfOne(a.queue[0]);
      PoppedOne(s, acc);
      FrontTaken(s, acc);
    } else {
      PoppedNone(s, acc);
      assert s.accs[acc := a] == s.accs;
      NoValues();
    }
  }

  lemma NoValues()
    ensures ValuesOf([]) == []
  {
  }

  lemma FrontTaken(s: Mgr, acc: AccId)
    requires acc in s.accs && s.accs[acc].queue != []
    ensures acc in Pop(s, acc).accs
    ensures var a, b := s.accs[acc], Pop(s, acc).accs[acc];
            && [a.queue[0]] + b.queue == a.queue && b.seen == a.seen + [a.queue[0]] && b.home == a.home
            && if a.queue[0].Data? && a.queue[0].s.v.hasValue
               then b.data == Some(a.queue[0].s) && b.consumed == a.consumed + [a.queue[0].s]
               else b.data == a.data && b.consumed == a.consumed
  {
  }

  // A direct read replaces the last value and nothing else, what is queued included; so does a write, for an accessor that
  // has a value.
  lemma DirectReplaces(s: Mgr, acc: AccId, payload: int)
    requires acc in s.accs
    ensures var a, t := s.accs[acc], SyncRead(s, acc, payload);
            && acc in t.accs && t == s.(accs := s.accs[acc := t.accs[acc]])
            && t.accs[acc].data == Some(Direct(Value(true, payload))) && t.accs[acc].(data := a.data) == a
            && Overwrite(s, acc, payload) == if a.data.Some? then t else s
  {
  }

  // ----- over runs -----

  // What was consumed is exactly the values among what was taken, in order, and the last value is the last one of them
  // unless the accessor has read or written it directly since.
  ghost predicate Taken(a: Accessor) {
    && a.consumed == ValuesOf(a.seen)
    && (a.data.Some? && a.data.value.Sample? ==> a.consumed != [] && a.consumed[|a.consumed| - 1] == a.data.value)
    && (a.data.None? ==> a.consumed == [])
  }

  ghost predicate AllTaken(s: Mgr) { forall a :: a in s.accs ==> Taken(s.accs[a]) }

  lemma PushTaken(a: Accessor, n: Note)
    requires Taken(a)
    ensures Taken(Push(a, n))
  {
  }

  lemma PopTaken(s: Mgr, acc: AccId)
    requires AllTaken(s)
    ensures AllTaken(Pop(s, acc))
  {
    hide Taken;
    if acc in s.accs {
      PoppedTaken(s, acc);
      assert Pop(s, acc) == s.(accs := s.accs[acc := Pop(s, acc).accs[acc]]) by { PopTakes(s, acc); }
    }
  }

  lemma PoppedTaken(s: Mgr, acc: AccId)
    requires acc in s.accs && Taken(s.accs[acc])
    ensures acc in Pop(s, acc).accs && Taken(Pop(s, acc).accs[acc])
  {
    if s.accs[acc].queue != [] {
      ValuesSnoc(s.accs[acc].seen, s.accs[acc].queue[0]);
    }
  }

  lemma ToldTaken(s: Mgr, t: Mgr, targets: set<AccId>, n: Note)
    requires AllTaken(s) && t.accs == PushTo(s.accs, targets, n)
    ensures AllTaken(t)
  {
    hide Taken, Push;
    forall a | a in s.accs ensures Taken(Push(s.accs[a], n)) {
      PushTaken(s.accs[a], n);
    }
  }

  lemma PendingTaken(s: Mgr, k: nat)
    requires AllTaken(s)
    ensures AllTaken(PushPending(s, k))
  {
    hide AllTaken, MapItems, Members, HasItem, PushTo;
    var t := PushPending(s, k);
    if k < |s.pending| && Indexed(s, s.pending[k].monId) {
      ToldTaken(s, t, Members(s.items, s.index[s.pending[k].monId]), Data(s.pending[k].sample));
    } else {
      SameTaken(s, t);
    }
  }

  lemma SameTaken(s: Mgr, t: Mgr)
    requires AllTaken(s) && t.accs == s.accs
    ensures AllTaken(t)
  {
  }

  lemma SubscribeTaken(s: Mgr, name: string, acc: AccId)
    requires AllTaken(s) && acc !in s.accs
    ensures AllTaken(Subscribe(s, name, acc))
  {
    hide Taken, Push, Newcomer, Subscribe;
    SubscribeOthers(s, name, acc);
    SubscribeGets(s, name, acc);
    var b := Subscribe(s, name, acc).accs[acc];
    assert Taken(Newcomer(b.home)) by { NewcomerTaken(b.home); }
    forall x: Sample ensures Taken(Push(Newcomer(b.home), Data(x))) {
      PushTaken(Newcomer(b.home), Data(x));
    }
  }

  lemma NewcomerTaken(h: Handle)
    ensures Taken(Newcomer(h))
  {
  }

  lemma DirectTaken(s: Mgr, acc: AccId, payload: int)
    requires AllTaken(s)
    ensures AllTaken(SyncRead(s, acc, payload)) && AllTaken(Overwrite(s, acc, payload))
  {
  }

  lemma StepTaken(s: Mgr, st: Step)
    requires AllTaken(s) && Disciplined(s, st)
    ensures AllTaken(Apply(s, st))
  {
    hide AllTaken, TestActive, PushPending, Fail, Flag, ActivateAll, DeactivateIndexed, Reset, Mark, Monitor, Subscribe,
         Unsubscribe, Pop, SyncRead, Overwrite, FindName;
    match st
    case SPush(k) => PendingTaken(s, k);
    case SFail => FailTaken(s);
    case SSubscribe(name, acc) => SubscribeTaken(s, name, acc);
    case SPop(acc) => PopTaken(s, acc);
    case SSyncRead(acc, payload) => DirectTaken(s, acc, payload);
    case SOverwrite(acc, payload) => DirectTaken(s, acc, payload);
    case _ =>
      StepFrame(s, st);
      SameTaken(s, Apply(s, st));
  }

  lemma FailTaken(s: Mgr)
    requires AllTaken(s)
    ensures AllTaken(Fail(s))
  {
    hide AllTaken;
    ToldTaken(s, Fail(s), Untold(s.items), Error);
  }

  // In every state of every run each accessor has consumed exactly the values among the entries it has taken.
  lemma {:induction false} RunTaken(run: seq<Step>)
    requires Along(INIT, run, Disciplined)
    ensures AllTaken(Exec(INIT, run))
  {
    hide Apply, Taken, Disciplined;
    if run == [] {
    } else {
      AlongPrefix(INIT, run, Disciplined);
      RunTaken(run[..|run| - 1]);
      StepTaken(Exec(INIT, run[..|run| - 1]), run[|run| - 1]);
    }
  }

  // ----- nothing is lost -----

  // Whatever was pushed has been taken or is still queued, in the order in which it was pushed.
  ghost predicate Lossless(s: Mgr) { forall a :: a in s.accs ==> Entries(s.accs[a]) == s.accs[a].pushed }

  ghost predicate RoomFor(s: Mgr, targets: set<AccId>) {
    forall a :: a in targets && a in s.accs ==> |s.accs[a].queue| < CAPACITY
  }

  // Whoever the step pushes to has room for it.
  ghost predicate FindsRoom(s: Mgr, st: Step) {
    match st
    case SFail => RoomFor(s, Untold(s.items))
    case SPush(k) =>
      k < |s.pending| && Indexed(s, s.pending[k].monId) ==> RoomFor(s, Members(s.items, s.index[s.pending[k].monId]))
    case _ => true
  }

  lemma PushLosslessExactly(a: Accessor, n: Note)
    requires Entries(a) == a.pushed && |a.queue| <= CAPACITY
    ensures Entries(Push(a, n)) == Push(a, n).pushed <==> |a.queue| < CAPACITY
  {
    PushedEntries(a, n);
  }

  lemma ToldLossless(s: Mgr, t: Mgr, targets: set<AccId>, n: Note)
    requires Lossless(s) && BoundedQueues(s) && t.accs == PushTo(s.accs, targets, n)
    ensures Lossless(t) <==> RoomFor(s, targets)
  {
    hide Push, Entries;
    forall a | a in s.accs
      ensures Entries(Push(s.accs[a], n)) == Push(s.accs[a], n).pushed <==> |s.accs[a].queue| < CAPACITY
    {
      PushLosslessExactly(s.accs[a], n);
    }
    if Lossless(t) {
      forall a | a in targets && a in s.accs ensures |s.accs[a].queue| < CAPACITY {
        assert t.accs[a] == Push(s.accs[a], n);
      }
    }
  }

  lemma PendingLossless(s: Mgr, k: nat)
    requires Lossless(s) && BoundedQueues(s)
    ensures Lossless(PushPending(s, k)) <==> FindsRoom(s, SPush(k))
  {
    hide Lossless, RoomFor, BoundedQueues, MapItems, Members, HasItem, PushTo;
    var t := PushPending(s, k);
    if k < |s.pending| && Indexed(s, s.pending[k].monId) {
      ToldLossless(s, t, Members(s.items, s.index[s.pending[k].monId]), Data(s.pending[k].sample));
    } else {
      SameLossless(s, t);
    }
  }

  lemma SameLossless(s: Mgr, t: Mgr)
    requires Lossless(s) && t.accs == s.accs
    ensures Lossless(t)
  {
  }

  lemma SubscribeLossless(s: Mgr, name: string, acc: AccId)
    requires Lossless(s) && acc !in s.accs
    ensures Lossless(Subscribe(s, name, acc))
  {
    hide Entries, Push, Newcomer, Subscribe;
    SubscribeOthers(s, name, acc);
    SubscribeGets(s, name, acc);
    var b := Subscribe(s, name, acc).accs[acc];
    assert Entries(Newcomer(b.home)) == Newcomer(b.home).pushed by { NewcomerLossless(b.home); }
    forall x: Sample ensures Entries(Push(Newcomer(b.home), Data(x))) == Push(Newcomer(b.home), Data(x)).pushed {
      NewcomerLossless(b.home);
      PushLosslessExactly(Newcomer(b.home), Data(x));
    }
  }

  lemma NewcomerLossless(h: Handle)
    ensures Entries(Newcomer(h)) == Newcomer(h).pushed && Newcomer(h).queue == []
  {
  }

  lemma ReadLossless(s: Mgr, acc: AccId, payload: int)
    requires Lossless(s)
    ensures Lossless(Pop(s, acc)) && Lossless(SyncRead(s, acc, payload)) && Lossless(Overwrite(s, acc, payload))
  {
    hide Pop;
    if acc in s.accs {
      PopTakes(s, acc);
      assert Entries(Pop(s, acc).accs[acc]) == Entries(s.accs[acc]);
    } else {
      PoppedNone(s, acc);
    }
  }

  lemma StepLossless(s: Mgr, st: Step)
    requires Lossless(s) && BoundedQueues(s) && Disciplined(s, st)
    ensures Lossless(Apply(s, st)) <==> FindsRoom(s, st)
  {
    hide Lossless, RoomFor, BoundedQueues, TestActive, PushPending, Fail, Flag, ActivateAll, DeactivateIndexed, Reset, Mark,
         Monitor, Subscribe, Unsubscribe, Pop, SyncRead, Overwrite, FindName;
    match st
    case SPush(k) => PendingLossless(s, k);
    case SFail => FailLossless(s);
    case SSubscribe(name, acc) => SubscribeLossless(s, name, acc);
    case SPop(acc) => ReadLossless(s, acc, 0);
    case SSyncRead(acc, payload) => ReadLossless(s, acc, payload);
    case SOverwrite(acc, payload) => ReadLossless(s, acc, payload);
    case _ =>
      StepFrame(s, st);
      SameLossless(s, Apply(s, st));
  }

  lemma FailLossless(s: Mgr)
    requires Lossless(s) && BoundedQueues(s)
    ensures Lossless(Fail(s)) <==> RoomFor(s, Untold(s.items))
  {
    hide Lossless, RoomFor, BoundedQueues;
    ToldLossless(s, Fail(s), Untold(s.items), Error);
  }

  // Over every run: everything pushed is taken in the end or still queued, in order, exactly when every push finds room.
  lemma RunLosslessExactly(run: seq<Step>)
    requires Along(INIT, run, Disciplined)
    ensures Throughout(run, Lossless) <==> Along(INIT, run, FindsRoom)
  {
    hide Apply, Exec, Accounting, Lossless, BoundedQueues, FindsRoom, Disciplined, Along, Throughout;
    assert Lossless(INIT) by { SameStart(); }
    forall k | 0 <= k < |run| ensures KeptExactly(run, k, Lossless, FindsRoom) {
      if Lossless(Exec(INIT, run[..k])) {
        DisciplinedAt(run, k);
        RunBounded(run[..k]);
        StepLossless(Exec(INIT, run[..k]), run[k]);
      }
    }
    ThroughoutExactly(run, Lossless, FindsRoom);
  }

  lemma SameStart()
    ensures Lossless(INIT)
  {
  }

  // ----- newcomers -----

  // The accessor a newcomer copies from: the last one on the list.
  function LastOf(it: Item): AccId
    requires it.accessors != []
  {
    it.accessors[|it.accessors| - 1]
  }

  // The other accessor has a value to offer: at the front of its queue, or else, with nothing queued, the last one.
  predicate Offers(a: Accessor) {
    if a.queue == [] then a.data.Some? && a.data.value.v.hasValue else ValuesOf(Front(a)) != []
  }

  // A newcomer to an active item starts with what the accessor that was last on its list would take next: after one read
  // of each, both have the same last value. It starts with nothing exactly when that accessor has nothing to offer, and
  // the other accessor notices nothing.
  lemma NewcomerCatchesUp(s: Mgr, name: string, acc: AccId)
    requires Accounting(s) && acc !in s.accs && FindName(s.items, name) < |s.items|
    ensures var it := s.items[FindName(s.items, name)];
            var t := Subscribe(s, name, acc);
            && acc in t.accs && it.accessors != [] && LastOf(it) in s.accs
            && var other := s.accs[LastOf(it)];
               && LastOf(it) in t.accs && t.accs[LastOf(it)] == other
               && (t.accs[acc].queue == [] <==> !(it.active && Offers(other)))
               && t.accs[acc].data == None && t.accs[acc].pushed == t.accs[acc].queue && t.accs[acc].home == it.handle
               && (it.active && Offers(other) ==>
                     var u := Pop(Pop(t, acc), LastOf(it));
                     acc in u.accs && LastOf(it) in u.accs && u.accs[acc].data == u.accs[LastOf(it)].data && u.accs[acc].data.Some?
                     && u.accs[acc].queue == [])
  {
    hide DistinctItems, FindName, DisjointLists;
    var it := s.items[FindName(s.items, name)];
    var t := Subscribe(s, name, acc);
    LastIsSubscribed(s, FindName(s.items, name));
    var other := s.accs[LastOf(it)];
    NewcomerStarts(s, name, acc);
    if it.active && Offers(other) {
      BothRead(t, acc, LastOf(it));
    }
  }

  lemma LastIsSubscribed(s: Mgr, i: nat)
    requires Accounting(s) && i < |s.items|
    ensures var it := s.items[i];
            it.accessors != [] && LastOf(it) in it.accessors && LastOf(it) in s.accs && s.accs[LastOf(it)].home == it.handle
  {
  }

  // It joins the end of the list, so that the next newcomer copies from it.
  lemma NewcomerIsLast(s: Mgr, name: string, acc: AccId)
    requires FindName(s.items, name) < |s.items|
    ensures var i, t := FindName(s.items, name), Subscribe(s, name, acc);
            && |t.items| == |s.items| && t.items[i].accessors != [] && LastOf(t.items[i]) == acc
            && t.items[i].accessors[..|t.items[i].accessors| - 1] == s.items[i].accessors
            && forall j :: 0 <= j < |s.items| && j != i ==> t.items[j] == s.items[j]
  {
    hide InitialValue, Push, FindName;
  }

  // What the other accessor offers.
  function Offer(a: Accessor): Note
    requires Offers(a)
  {
    if a.queue == [] then Data(a.data.value) else a.queue[0]
  }

  lemma NewcomerStarts(s: Mgr, name: string, acc: AccId)
    requires acc !in s.accs && FindName(s.items, name) < |s.items|
    requires var it := s.items[FindName(s.items, name)]; it.accessors != [] && LastOf(it) in s.accs
    ensures var it := s.items[FindName(s.items, name)];
            var other, t := s.accs[LastOf(it)], Subscribe(s, name, acc);
            && LastOf(it) in t.accs && t.accs[LastOf(it)] == other && acc in t.accs
            && t.accs[acc].queue == t.accs[acc].pushed == (if it.active && Offers(other) then [Offer(other)] else [])
            && t.accs[acc].data == None && t.accs[acc].home == it.handle
  {
    hide FindName, InitialValue, Push, ValuesOf;
    var it := s.items[FindName(s.items, name)];
    InitialOffer(s.accs[LastOf(it)]);
    FirstPush(it.handle);
  }

  lemma InitialOffer(a: Accessor)
    ensures InitialValue(a).Some? <==> Offers(a)
    ensures Offers(a) ==> Data(InitialValue(a).value) == Offer(a)
  {
    if a.queue != [] {
      ValueOfOne(a.queue[0]);
    }
  }

  lemma FirstPush(h: Handle)
    ensures forall n :: Push(Newcomer(h), n).queue == [n] && Push(Newcomer(h), n).pushed == [n]
    ensures forall n :: Push(Newcomer(h), n).data == None && Push(Newcomer(h), n).home == h
  {
  }

  lemma BothRead(t: Mgr, acc: AccId, o: AccId)
    requires acc in t.accs && o in t.accs && acc != o && Offers(t.accs[o])
    requires t.accs[acc].queue == [Offer(t.accs[o])] && t.accs[acc].data == None
    ensures var u := Pop(Pop(t, acc), o);
            acc in u.accs && o in u.accs && u.accs[acc].data == u.accs[o].data && u.accs[acc].data.Some? && u.accs[acc].queue == []
  {
    hide Pop, Entries;
    ValueOfOne(Offer(t.accs[o]));
    PopTakes(t, acc);
    PopTakes(Pop(t, acc), o);
  }
}
