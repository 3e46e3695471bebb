// Runs that show where the hypotheses of the other modules are needed.
module SubscriptionCounterexamples {
  import opened Common
  import opened FutureQueue
  import opened SubscriptionState
  import opened SubscriptionRuns
  import opened SubscriptionIndex
  import opened SubscriptionDelivery
  import opened SubscriptionTurns
  import opened SubscriptionServer

  const BLANK: Accessor := Newcomer(0)

  // The single item of the runs below: "a", subscribed by accessor 1.
  function Lone(monId: MonId, active: bool, monitored: bool): Item {
    Item(0, "a", [1], monId, active, monitored, false)
  }

  function Single(it: Item, index: map<MonId, Handle>, a: Accessor, published: seq<Value>): Mgr {
    Mgr([it], index, 1, false, map[1 := a], map[0 := published], 0, false, {}, [], false)
  }

  lemma Extend(run: seq<Step>, st: Step, ok: (Mgr, Step) -> bool, s: Mgr, t: Mgr) returns (more: seq<Step>)
    requires Along(INIT, run, ok) && Exec(INIT, run) == s && ok(s, st) && Apply(s, st) == t
    ensures more == run + [st] && Along(INIT, more, ok) && Exec(INIT, more) == t
  {
    AlongSnoc(INIT, run, st, ok);
    more := run + [st];
  }

  lemma EmptyRun(ok: (Mgr, Step) -> bool)
    ensures Along(INIT, [], ok) && Exec(INIT, []) == INIT
  {
  }

  lemma SubscribeFirst()
    ensures Apply(INIT, SSubscribe("a", 1)) == Single(Lone(0, false, false), map[], BLANK, [])
  {
    assert FindName([], "a") == 0;
  }

  lemma MonitorSingle(it: Item, index: map<MonId, Handle>, a: Accessor, published: seq<Value>, monId: MonId)
    requires it.handle == 0
    ensures Apply(Single(it, index, a, published), SMonitor(0, monId))
            == Single(it.(id := monId, isMonitored := true), index[monId := 0], a, published)
    ensures HasItem(Single(it, index, a, published).items, 0)
    ensures !it.isMonitored ==> Unmonitored(Single(it, index, a, published), 0)
  {
    var s := Single(it, index, a, published);
    assert s.items[0].handle == 0;
  }

  // Two overlapping addMonitoredItems both see the item unmonitored; the entry of the first creation survives
  // while the item carries the id of the second.
  lemma OverlappingCreationsUnsound() returns (run: seq<Step>)
    ensures Along(INIT, run, Disciplined) && NeverReused(run) && !Sound(Exec(INIT, run))
  {
    hide Exec, Along;
    run := OverlappingCreations();
    var last := Exec(INIT, run);
    assert 5 in last.index && !MonitoredAs(last.items, 0, 5);
  }

  lemma OverlappingCreations() returns (run: seq<Step>)
    ensures Along(INIT, run, Disciplined) && NeverReused(run)
    ensures Exec(INIT, run) == Single(Lone(6, false, true), map[5 := 0][6 := 0], BLANK, [])
  {
    hide Apply, Exec, Along;
    EmptyRun(Disciplined);
    SubscribeFirst();
    run := Extend([], SSubscribe("a", 1), Disciplined, INIT, Single(Lone(0, false, false), map[], BLANK, []));
    MonitorSingle(Lone(0, false, false), map[], BLANK, [], 5);
    run := Extend(run, SMonitor(0, 5), Disciplined, Single(Lone(0, false, false), map[], BLANK, []),
                  Single(Lone(5, false, true), map[5 := 0], BLANK, []));
    MonitorSingle(Lone(5, false, true), map[5 := 0], BLANK, [], 6);
    var last := Single(Lone(6, false, true), map[5 := 0][6 := 0], BLANK, []);
    run := Extend(run, SMonitor(0, 6), Disciplined, Single(Lone(5, false, true), map[5 := 0], BLANK, []), last);
  }

  // Unsubscribing the item then takes out the entry of its second id only; the first one leads to an erased item, which
  // the next deactivate uses.
  lemma StrayEntryUsed() returns (before: seq<Step>, run: seq<Step>)
    ensures run == before + [SUnsubscribe("a", 1)] + [SDeactivateIndexed] && Along(INIT, run, Disciplined) && NeverReused(before)
    ensures !Exec(INIT, before).broken && Exec(INIT, run).broken
  {
    hide Apply, Exec, Along, Unsubscribe, DeactivateIndexed;
    before := OverlappingCreations();
    var s := Single(Lone(6, false, true), map[5 := 0][6 := 0], BLANK, []);
    UnsubscribeTwice(s);
    run := Extend(before, SUnsubscribe("a", 1), Disciplined, s, s.(items := [], index := map[5 := 0]));
    var t := s.(items := [], index := map[5 := 0]);
    DeactivateStray(t);
    run := Extend(run, SDeactivateIndexed, Disciplined, t, Apply(t, SDeactivateIndexed));
  }

  lemma UnsubscribeTwice(s: Mgr)
    requires s == Single(Lone(6, false, true), map[5 := 0][6 := 0], BLANK, [])
    ensures Disciplined(s, SUnsubscribe("a", 1)) && Apply(s, SUnsubscribe("a", 1)) == s.(items := [], index := map[5 := 0])
  {
    assert FindName(s.items, "a") == 0 by {
      assert s.items[0].name == "a";
    }
    assert 1 in s.items[0].accessors;
  }

  lemma DeactivateStray(s: Mgr)
    requires s.items == [] && s.index == map[5 := 0]
    ensures Apply(s, SDeactivateIndexed).broken
  {
    assert 5 in s.index && !Indexed(s, 5);
  }

  // While the creation call runs the mutex is free: unsubscribe erases the item, and the creation completes on it.
  lemma CreationOnErasedItem()
    ensures var run := [SSubscribe("a", 1), SUnsubscribe("a", 1), SMonitor(0, 5)];
            Along(INIT, run, Disciplined) && NeverReused(run) && !Sound(Exec(INIT, run)) && Exec(INIT, run).broken
  {
    hide Apply, Exec, Along, Subscribe, Unsubscribe, Monitor;
    var s1 := Single(Lone(0, false, false), map[], BLANK, []);
    EmptyRun(Disciplined);
    SubscribeFirst();
    var run := Extend([], SSubscribe("a", 1), Disciplined, INIT, s1);
    UnsubscribeLone();
    var s2 := s1.(items := [], index := map[]);
    run := Extend(run, SUnsubscribe("a", 1), Disciplined, s1, s2);
    MonitorErased(s2);
    var last := s2.(index := map[5 := 0], broken := true);
    run := Extend(run, SMonitor(0, 5), Disciplined, s2, last);
    assert run == [SSubscribe("a", 1), SUnsubscribe("a", 1), SMonitor(0, 5)];
    assert 5 in last.index && !MonitoredAs(last.items, last.index[5], 5);
  }

  lemma UnsubscribeLone()
    ensures var s := Single(Lone(0, false, false), map[], BLANK, []);
            && Disciplined(s, SUnsubscribe("a", 1))
            && Apply(s, SUnsubscribe("a", 1)) == s.(items := [], index := map[])
  {
    var s := Single(Lone(0, false, false), map[], BLANK, []);
    assert FindName(s.items, "a") == 0 by {
      assert s.items[0].name == "a";
    }
    assert 1 in s.items[0].accessors;
  }

  lemma MonitorErased(s: Mgr)
    requires s.items == [] && s.index == map[]
    ensures Apply(s, SMonitor(0, 5)) == s.(index := map[5 := 0], broken := true)
  {
  }

  // ----- ids reused by a new subscription -----

  const OTHER: Item := Item(1, "b", [2], 0, false, false, false)

  function Pair(b: Item, index: map<MonId, Handle>): Mgr {
    Mgr([Lone(1, false, false), b], index, 2, false, map[1 := BLANK, 2 := Newcomer(1)],
        map[0 := [], 1 := []], 0, false, {}, [], false)
  }

  lemma ResetSingle(it: Item, index: map<MonId, Handle>, a: Accessor, published: seq<Value>)
    ensures Apply(Single(it, index, a, published), SReset) == Single(it.(isMonitored := false), map[], a, published)
  {
  }

  lemma SubscribeSecond()
    ensures Apply(Single(Lone(1, false, false), map[], BLANK, []), SSubscribe("b", 2)) == Pair(OTHER, map[])
  {
    var items := [Lone(1, false, false)];
    assert FindName(items, "b") == 1 by {
      assert items[0].name[0] != "b"[0];
    }
  }

  lemma MonitorSecond()
    ensures Apply(Pair(OTHER, map[]), SMonitor(1, 1)) == Pair(OTHER.(id := 1, isMonitored := true), map[1 := 1])
    ensures HasItem(Pair(OTHER, map[]).items, 1) && Unmonitored(Pair(OTHER, map[]), 1)
  {
    var s := Pair(OTHER, map[]);
    assert s.items[1].handle == 1;
  }

  lemma UnsubscribeFirst(b: Item)
    requires b == OTHER.(id := 1, isMonitored := true)
    ensures Disciplined(Pair(b, map[1 := 1]), SUnsubscribe("a", 1))
    ensures var t := Apply(Pair(b, map[1 := 1]), SUnsubscribe("a", 1)); t.items == [b] && t.index == map[]
  {
    var s := Pair(b, map[1 := 1]);
    assert FindName(s.items, "a") == 0 by {
      assert s.items[0].name == "a";
    }
  }

  lemma StaleId() returns (run: seq<Step>)
    ensures Along(INIT, run, CreatesUnmonitored) && Exec(INIT, run) == Single(Lone(1, false, false), map[], BLANK, [])
  {
    hide Apply, Exec, Along;
    var ok := CreatesUnmonitored;
    var it := Lone(0, false, false);
    EmptyRun(ok);
    SubscribeFirst();
    run := Extend([], SSubscribe("a", 1), ok, INIT, Single(it, map[], BLANK, []));
    MonitorSingle(it, map[], BLANK, [], 1);
    run := Extend(run, SMonitor(0, 1), ok, Single(it, map[], BLANK, []), Single(Lone(1, false, true), map[][1 := 0], BLANK, []));
    ResetSingle(Lone(1, false, true), map[][1 := 0], BLANK, []);
    run := Extend(run, SReset, ok,
      Single(Lone(1, false, true), map[][1 := 0], BLANK, []), Single(Lone(1, false, false), map[], BLANK, []));
  }

  // Item "a" keeps id 1 from the old subscription, item "b" is given 1 by the new one, and unsubscribing "a"
  // takes the entry of "b" away.
  lemma StaleIdLosesEntry() returns (run: seq<Step>)
    ensures Along(INIT, run, CreatesUnmonitored) && !Complete(Exec(INIT, run))
  {
    hide Apply, Exec, Along;
    var ok := CreatesUnmonitored;
    var b := OTHER.(id := 1, isMonitored := true);
    run := StaleId();
    SubscribeSecond();
    run := Extend(run, SSubscribe("b", 2), ok, Single(Lone(1, false, false), map[], BLANK, []), Pair(OTHER, map[]));
    MonitorSecond();
    run := Extend(run, SMonitor(1, 1), ok, Pair(OTHER, map[]), Pair(b, map[1 := 1]));
    UnsubscribeFirst(b);
    var last := Apply(Pair(b, map[1 := 1]), SUnsubscribe("a", 1));
    run := Extend(run, SUnsubscribe("a", 1), ok, Pair(b, map[1 := 1]), last);
    assert b in last.items;
  }

  // ----- direct reads and writes -----

  const ONE: Value := Value(true, 1)

  lemma ActivateSingle(it: Item, index: map<MonId, Handle>, a: Accessor, published: seq<Value>)
    ensures Apply(Single(it, index, a, published), SActivateAll) == Single(it.(active := true), index, a, published)
  {
  }

  function Pending(v: Value, at: nat): Handler { Handler(5, Sample(v, 0, at)) }

  lemma TestSingle(a: Accessor, published: seq<Value>, v: Value, pending: seq<Handler>)
    ensures var s := Single(Lone(5, true, true), map[5 := 0], a, published).(pending := pending);
            Apply(s, STest(5, v))
            == Single(Lone(5, true, true), map[5 := 0], a, published + [v]).(pending := pending + [Pending(v, |published|)])
  {
    var s := Single(Lone(5, true, true), map[5 := 0], a, published);
    assert s.items[0].handle == 0 && s.items[0].active;
  }

  // A push does not look at whether the item is active.
  lemma PushSingle(active: bool, a: Accessor, published: seq<Value>, pending: seq<Handler>, k: nat)
    requires k < |pending| && pending[k].monId == 5
    ensures var s := Single(Lone(5, active, true), map[5 := 0], a, published).(pending := pending);
            Apply(s, SPush(k)) == Single(Lone(5, active, true), map[5 := 0], Push(a, Data(pending[k].sample)), published).(
                                    pending := pending[..k] + pending[k + 1..])
  {
    var s := Single(Lone(5, active, true), map[5 := 0], a, published).(pending := pending);
    assert 1 in s.items[0].accessors;
    assert Members(s.items, 0) == {1};
    assert Apply(s, SPush(k)).items == s.items;
  }

  lemma PopSingle(it: Item, index: map<MonId, Handle>, published: seq<Value>)
    ensures var a := Push(BLANK, Data(Sample(ONE, 0, 0)));
            Apply(Single(it, index, a, published), SPop(1)) == Single(it, index, Popped(a), published)
  {
    var a := Push(BLANK, Data(Sample(ONE, 0, 0)));
    assert a.queue == [Data(Sample(ONE, 0, 0))] && a.queue[1..] == [];
    assert a.consumed + [Sample(ONE, 0, 0)] == [Sample(ONE, 0, 0)] && a.seen + [a.queue[0]] == [a.queue[0]];
  }

  function Popped(a: Accessor): Accessor {
    a.(queue := [], data := Some(Sample(ONE, 0, 0)), consumed := [Sample(ONE, 0, 0)], seen := [Data(Sample(ONE, 0, 0))])
  }

  // An active, monitored item that nothing has been published for.
  lemma Activated() returns (run: seq<Step>)
    ensures run == [SSubscribe("a", 1)] + [SMonitor(0, 5)] + [SActivateAll]
    ensures Along(INIT, run, CreatesUnmonitored) && Exec(INIT, run) == Single(Lone(5, true, true), map[5 := 0], BLANK, [])
  {
    hide Apply, Exec, Along;
    var ok := CreatesUnmonitored;
    var s1, s2 := Single(Lone(0, false, false), map[], BLANK, []), Single(Lone(5, false, true), map[5 := 0], BLANK, []);
    EmptyRun(ok);
    SubscribeFirst();
    run := Extend([], SSubscribe("a", 1), ok, INIT, s1);
    assert [] + [SSubscribe("a", 1)] == [SSubscribe("a", 1)];
    MonitorSingle(Lone(0, false, false), map[], BLANK, [], 5);
    run := Extend(run, SMonitor(0, 5), ok, s1, s2);
    ActivateSingle(Lone(5, false, true), map[5 := 0], BLANK, []);
    run := Extend(run, SActivateAll, ok, s2, Single(Lone(5, true, true), map[5 := 0], BLANK, []));
  }

  // The same with one handler that has passed its test.
  lemma Tested() returns (run: seq<Step>)
    ensures run == [SSubscribe("a", 1)] + [SMonitor(0, 5)] + [SActivateAll] + [STest(5, ONE)]
    ensures Along(INIT, run, CreatesUnmonitored)
    ensures Exec(INIT, run) == Single(Lone(5, true, true), map[5 := 0], BLANK, [ONE]).(pending := [Pending(ONE, 0)])
  {
    hide Apply, Exec, Along;
    run := Activated();
    TestSingle(BLANK, [], ONE, []);
    assert [] + [ONE] == [ONE] && [] + [Pending(ONE, 0)] == [Pending(ONE, 0)];
    var s := Single(Lone(5, true, true), map[5 := 0], BLANK, []);
    assert s.(pending := []) == s;
    run := Extend(run, STest(5, ONE), CreatesUnmonitored, s,
                  Single(Lone(5, true, true), map[5 := 0], BLANK, [ONE]).(pending := [Pending(ONE, 0)]));
  }

  lemma OneConsumed() returns (run: seq<Step>, a: Accessor)
    ensures Along(INIT, run, CreatesUnmonitored) && a.queue == [] && a.data == Some(Sample(ONE, 0, 0)) && a.home == 0
    ensures Exec(INIT, run) == Single(Lone(5, true, true), map[5 := 0], a, [ONE])
  {
    hide Apply, Exec, Along;
    var ok := CreatesUnmonitored;
    run := Tested();
    a := Push(BLANK, Data(Sample(ONE, 0, 0)));
    PushSingle(true, BLANK, [ONE], [Pending(ONE, 0)], 0);
    var s := Single(Lone(5, true, true), map[5 := 0], a, [ONE]);
    assert [Pending(ONE, 0)][..0] + [Pending(ONE, 0)][1..] == [];
    run := Extend(run, SPush(0), ok, Single(Lone(5, true, true), map[5 := 0], BLANK, [ONE]).(pending := [Pending(ONE, 0)]), s);
    PopSingle(Lone(5, true, true), map[5 := 0], [ONE]);
    a := Popped(a);
    run := Extend(run, SPop(1), ok, s, Single(Lone(5, true, true), map[5 := 0], a, [ONE]));
  }

  // ----- handlers that are late -----

  // deactivate comes between the test and the push of a handler: the value is pushed although the item is inactive.
  lemma PushAfterDeactivate() returns (before: seq<Step>, run: seq<Step>)
    ensures run == before + [SDeactivateIndexed] + [SPush(0)] && Along(INIT, run, CreatesUnmonitored)
    ensures var s := Exec(INIT, run);
            |s.items| == 1 && !s.items[0].active && 1 in s.accs && s.accs[1].queue == [Data(Sample(ONE, 0, 0))]
  {
    hide Apply, Exec, Along;
    var ok := CreatesUnmonitored;
    before := Tested();
    var s := Single(Lone(5, true, true), map[5 := 0], BLANK, [ONE]).(pending := [Pending(ONE, 0)]);
    var d := Single(Lone(5, false, true), map[5 := 0], BLANK, [ONE]).(pending := [Pending(ONE, 0)]);
    DeactivateSingle(s, d);
    run := Extend(before, SDeactivateIndexed, ok, s, d);
    PushSingle(false, BLANK, [ONE], [Pending(ONE, 0)], 0);
    var last := Apply(d, SPush(0));
    run := Extend(run, SPush(0), ok, d, last);
  }

  lemma DeactivateSingle(s: Mgr, d: Mgr)
    requires s.items == [Lone(5, true, true)] && s.index == map[5 := 0] && d == s.(items := [Lone(5, false, true)])
    ensures Apply(s, SDeactivateIndexed) == d
  {
    assert s.index[5] in s.index.Values;
    assert s.items[0].handle == s.index[5];
  }

  // A reset in this place leaves the handler with a null entry.
  lemma PushAfterReset() returns (before: seq<Step>, run: seq<Step>)
    ensures run == before + [SReset] + [SPush(0)] && Along(INIT, run, CreatesUnmonitored)
    ensures !Exec(INIT, before).broken && Exec(INIT, run).broken
  {
    hide Apply, Exec, Along;
    var ok := CreatesUnmonitored;
    before := Tested();
    var s := Single(Lone(5, true, true), map[5 := 0], BLANK, [ONE]).(pending := [Pending(ONE, 0)]);
    var r := Apply(s, SReset);
    ResetKeepsPending(s);
    run := Extend(before, SReset, ok, s, r);
    run := Extend(run, SPush(0), ok, r, Apply(r, SPush(0)));
  }

  lemma ResetKeepsPending(s: Mgr)
    requires |s.pending| == 1
    ensures Apply(Apply(s, SReset), SPush(0)).broken
  {
  }

  // Two handlers for one item of which the second overtakes the first: the accessor gets the values in reverse.
  lemma OvertakenHandler() returns (run: seq<Step>)
    ensures Along(INIT, run, CreatesUnmonitored) && NeverReused(run) && !AllOrdered(Exec(INIT, run))
  {
    hide Apply, Exec, Along, Push;
    var ok := CreatesUnmonitored;
    run := TestedTwice();
    var both := [Pending(ONE, 0)] + [Pending(TWO, 1)];
    var t := Single(Lone(5, true, true), map[5 := 0], BLANK, [ONE] + [TWO]).(pending := both);
    PushSingle(true, BLANK, [ONE] + [TWO], both, 1);
    assert both[..1] + both[2..] == [Pending(ONE, 0)];
    var a := Push(BLANK, Data(Sample(TWO, 0, 1)));
    var u := Single(Lone(5, true, true), map[5 := 0], a, [ONE] + [TWO]).(pending := [Pending(ONE, 0)]);
    run := Extend(run, SPush(1), ok, t, u);
    PushSingle(true, a, [ONE] + [TWO], [Pending(ONE, 0)], 0);
    var last := Apply(u, SPush(0));
    run := Extend(run, SPush(0), ok, u, last);
    ReversedQueue(last.accs[1], [ONE] + [TWO]);
    assert !AccessorsOrdered(last);
  }

  lemma TestedTwice() returns (run: seq<Step>)
    ensures run == [SSubscribe("a", 1)] + [SMonitor(0, 5)] + [SActivateAll] + [STest(5, ONE)] + [STest(5, TWO)]
    ensures Along(INIT, run, CreatesUnmonitored)
    ensures Exec(INIT, run) == Single(Lone(5, true, true), map[5 := 0], BLANK, [ONE] + [TWO]).(
                                 pending := [Pending(ONE, 0)] + [Pending(TWO, 1)])
  {
    hide Apply, Exec, Along;
    run := Tested();
    TestSingle(BLANK, [ONE], TWO, [Pending(ONE, 0)]);
    run := Extend(run, STest(5, TWO), CreatesUnmonitored,
                  Single(Lone(5, true, true), map[5 := 0], BLANK, [ONE]).(pending := [Pending(ONE, 0)]),
                  Single(Lone(5, true, true), map[5 := 0], BLANK, [ONE] + [TWO]).(pending := [Pending(ONE, 0)] + [Pending(TWO, 1)]));
  }

  const TWO: Value := Value(true, 2)

  lemma ReversedQueue(a: Accessor, history: seq<Value>)
    requires a == Push(Push(BLANK, Data(Sample(TWO, 0, 1))), Data(Sample(ONE, 0, 0)))
    ensures a.home == 0 && !Ordered(a, history)
  {
    assert a.queue == [Data(Sample(TWO, 0, 1)), Data(Sample(ONE, 0, 0))];
    assert !Before(a.queue[0].s, a.queue[1].s);
  }

  lemma DirectSingle(a: Accessor, direct: Step)
    requires a.home == 0 && a.data.Some? && (direct == SSyncRead(1, 7) || direct == SOverwrite(1, 7))
    ensures Apply(Single(Lone(5, true, true), map[5 := 0], a, [ONE]), direct)
            == Single(Lone(5, true, true), map[5 := 0], a.(data := Some(Direct(SEVEN))), [ONE])
  {
  }

  const SEVEN: Value := Value(true, 7)

  lemma LateSubscriber(a: Accessor)
    requires a.queue == [] && a.data == Some(Direct(SEVEN))
    ensures var u := Apply(Single(Lone(5, true, true), map[5 := 0], a, [ONE]), SSubscribe("a", 2));
            var t := Apply(u, SPop(2));
            t.pubs == map[0 := [ONE]] && 2 in t.accs && t.accs[2].home == 0 && t.accs[2].consumed == [Direct(SEVEN)]
  {
    var s := Single(Lone(5, true, true), map[5 := 0], a, [ONE]);
    assert FindName(s.items, "a") == 0 by {
      assert s.items[0].name == "a";
    }
    var u := Apply(s, SSubscribe("a", 2));
    assert u.accs[2].queue == [Data(a.data.value)];
  }

  // After accessor 1 has consumed the only published value and then reads or writes 7 itself, a late accessor
  // 2 is handed 7, which was never published.
  lemma DirectAccessLeaks(direct: Step) returns (run: seq<Step>)
    requires direct == SSyncRead(1, 7) || direct == SOverwrite(1, 7)
    ensures Along(INIT, run, CreatesUnmonitored) && 2 in Exec(INIT, run).accs
    ensures var s := Exec(INIT, run);
            s.accs[2].home in s.pubs && !SubsequenceOf(Payloads(s.accs[2].consumed), s.pubs[s.accs[2].home])
  {
    hide Apply, Exec, Along;
    var a;
    run, a := OneConsumed();
    DirectSingle(a, direct);
    var s, d := Single(Lone(5, true, true), map[5 := 0], a, [ONE]), a.(data := Some(Direct(SEVEN)));
    run := Extend(run, direct, CreatesUnmonitored, s, Single(Lone(5, true, true), map[5 := 0], d, [ONE]));
    run := SubscribeLate(run, d);
    SevenNotPublished();
    assert Payloads([Direct(SEVEN)]) == [SEVEN];
  }

  lemma SubscribeLate(run: seq<Step>, a: Accessor) returns (more: seq<Step>)
    requires Along(INIT, run, CreatesUnmonitored) && Exec(INIT, run) == Single(Lone(5, true, true), map[5 := 0], a, [ONE])
    requires a.queue == [] && a.data == Some(Direct(SEVEN))
    ensures Along(INIT, more, CreatesUnmonitored)
    ensures var t := Exec(INIT, more);
            t.pubs == map[0 := [ONE]] && 2 in t.accs && t.accs[2].home == 0 && t.accs[2].consumed == [Direct(SEVEN)]
  {
    hide Apply, Exec, Along;
    LateSubscriber(a);
    AlongSnoc(INIT, run, SSubscribe("a", 2), CreatesUnmonitored);
    AlongSnoc(INIT, run + [SSubscribe("a", 2)], SPop(2), CreatesUnmonitored);
    more := run + [SSubscribe("a", 2)] + [SPop(2)];
  }

  lemma SevenNotPublished()
    ensures !SubsequenceOf([SEVEN], [ONE])
  {
    forall idx: seq<nat> ensures !SelectedBy([SEVEN], [ONE], idx) {
      if |idx| == 1 && idx[0] < 1 {
        assert [ONE][idx[0]] != SEVEN;
      }
    }
  }

  // ----- activity that deactivate does not see -----

  // The same with asynchronous reading switched on and nothing monitored.
  function SingleAsync(it: Item): Mgr {
    Mgr([it], map[], 1, true, map[1 := BLANK], map[0 := []], 0, false, {}, [], false)
  }

  lemma SwitchAsync(it: Item)
    ensures Apply(Single(it, map[], BLANK, []), SAsync(true)) == SingleAsync(it)
    ensures Apply(SingleAsync(it), SAsync(false)) == Single(it, map[], BLANK, [])
  {
  }

  lemma MarkAsync(it: Item)
    requires it.handle == 0
    ensures Apply(SingleAsync(it), SMark(0)) == SingleAsync(it.(active := true))
  {
  }

  lemma DeactivateUnindexed(it: Item)
    ensures Apply(SingleAsync(it), SDeactivateIndexed) == SingleAsync(it)
  {
  }

  lemma FailedCreation() returns (run: seq<Step>)
    ensures Along(INIT, run, CreatesUnmonitored) && Exec(INIT, run) == SingleAsync(Lone(0, true, false))
  {
    hide Apply, Exec, Along;
    var ok := CreatesUnmonitored;
    var it := Lone(0, false, false);
    EmptyRun(ok);
    SubscribeFirst();
    run := Extend([], SSubscribe("a", 1), ok, INIT, Single(it, map[], BLANK, []));
    SwitchAsync(it);
    run := Extend(run, SAsync(true), ok, Single(it, map[], BLANK, []), SingleAsync(it));
    MarkAsync(it);
    run := Extend(run, SMark(0), ok, SingleAsync(it), SingleAsync(Lone(0, true, false)));
  }

  lemma ServedAgain(s: Mgr)
    requires s == Single(Lone(5, true, true), map[5 := 0], BLANK, [])
    ensures Notify(s, 5, ONE).accs != s.accs
  {
    TestSingle(BLANK, [], ONE, []);
    var t := TestActive(s, 5, ONE);
    assert s.(pending := []) == s && t == Apply(s, STest(5, ONE)) && |t.pending| == 1;
    PushSingle(true, BLANK, [] + [ONE], t.pending, 0);
    assert PushPending(t, 0) == Apply(t, SPush(0));
    assert |Push(BLANK, Data(Sample(ONE, 0, 0))).pushed| == 1;
    assert Notify(s, 5, ONE).accs[1] != s.accs[1];
  }

  // deactivate does not reach an item whose creation had failed: it stays active, and is served again as soon
  // as prepare() gets it monitored, although asynchronous reading was never switched on again.
  lemma UnindexedItemStaysActive() returns (before: seq<Step>, run: seq<Step>)
    ensures run == before + [SDeactivateIndexed] + [SAsync(false)] + [SMonitor(0, 5)]
    ensures Along(INIT, run, CreatesUnmonitored)
    ensures var s := Exec(INIT, run); Notify(s, 5, ONE).accs != s.accs
  {
    hide Apply, Exec, Along;
    var ok := CreatesUnmonitored;
    var it := Lone(0, true, false);
    before := FailedCreation();
    DeactivateUnindexed(it);
    run := Extend(before, SDeactivateIndexed, ok, SingleAsync(it), SingleAsync(it));
    SwitchAsync(it);
    run := Extend(run, SAsync(false), ok, SingleAsync(it), Single(it, map[], BLANK, []));
    MonitorSingle(it, map[], BLANK, [], 5);
    var last := Single(Lone(5, true, true), map[5 := 0], BLANK, []);
    assert map[][5 := 0] == map[5 := 0];
    run := Extend(run, SMonitor(0, 5), ok, Single(it, map[], BLANK, []), last);
    ServedAgain(last);
  }

  // ----- overlapping creations of subscriptions -----

  // Two createSubscription calls that both find no subscription leave two on the server, although no delete fails.
  lemma OverlappingSubscriptions()
    ensures var run := [SCreate(1), SCreate(2)];
            Along(INIT, run, RealIds) && Exec(INIT, run).live == {1, 2} && !OneSubscription(Exec(INIT, run))
  {
    var run := [SCreate(1), SCreate(2)];
    assert run[..1] == [SCreate(1)] && run[..1][..0] == [];
    assert Exec(INIT, run[..1]) == CreateSubscription(INIT, 1);
    assert Exec(INIT, run) == CreateSubscription(CreateSubscription(INIT, 1), 2);
  }
}
