// When pushes come in turn.
//
// The order of delivery depends on the handlers: it is kept when no push of a run overtakes the push of an earlier
// value of the same item. responseHandler runs inside client calls, and these hold the client lock, except when
// createSubscription removes a left-over subscription; as long as no handler starts while another one is between its
// test and its push, nothing is overtaken.
module SubscriptionTurns {
  import opened Common
  import opened FutureQueue
  import opened SubscriptionState
  import opened SubscriptionRuns
  import opened SubscriptionIndex
  import opened SubscriptionDelivery

  ghost predicate NoDirectCopies(s: Mgr, st: Step) { st.SSubscribe? ==> !CopiesDirect(s, st.name) }

  predicate OfItem(x: Sample, h: Handle) { x.Sample? && x.from == h }

  // The server does not issue an id for another item while a handler with this id is pending.
  predicate NoReissue(s: Mgr, st: Step) {
    st.SMonitor? ==> forall k :: 0 <= k < |s.pending| && s.pending[k].monId == st.monId ==> OfItem(s.pending[k].sample, st.h)
  }

  predicate Pushes(s: Mgr, st: Step, x: Sample) {
    st.SPush? && st.k < |s.pending| && s.pending[st.k].sample == x
  }

  ghost predicate PushedAt(run: seq<Step>, i: nat, x: Sample) {
    i < |run| && Pushes(Exec(INIT, run[..i]), run[i], x)
  }

  // Of two values of one item, the one that is pushed first was published first.
  ghost predicate NoneOvertaken(run: seq<Step>) {
    forall i, j, x, y :: i < j && PushedAt(run, i, x) && PushedAt(run, j, y) && y.Sample? && OfItem(x, y.from) ==> x.at < y.at
  }

  lemma PushedEarlier(run: seq<Step>, i: nat, x: Sample)
    requires run != [] && i < |run| - 1
    ensures PushedAt(run, i, x) <==> PushedAt(run[..|run| - 1], i, x)
  {
    hide Exec, Pushes;
    assert run[..|run| - 1][..i] == run[..i];
  }

  lemma PrefixNoneOvertaken(run: seq<Step>)
    requires run != [] && NoneOvertaken(run)
    ensures NoneOvertaken(run[..|run| - 1])
  {
    hide PushedAt;
    var before := run[..|run| - 1];
    forall i, j, x, y | i < j && PushedAt(before, i, x) && PushedAt(before, j, y) && y.Sample? && OfItem(x, y.from)
      ensures x.at < y.at
    {
      PushedInside(before, j, y);
      PushedEarlier(run, i, x);
      PushedEarlier(run, j, y);
    }
  }

  lemma PushedInside(run: seq<Step>, i: nat, x: Sample)
    requires PushedAt(run, i, x)
    ensures i < |run|
  {
  }

  // ----- whose handlers are pending -----

  // The entry of a pending handler, if there is one, names the item it has tested.
  ghost predicate HandlersAtHome(s: Mgr) {
    forall k :: 0 <= k < |s.pending| && s.pending[k].monId in s.index ==> OfItem(s.pending[k].sample, s.index[s.pending[k].monId])
  }

  // Entries disappear; only a creation makes or changes one.
  lemma StepKeepsEntries(s: Mgr, st: Step)
    requires !st.SMonitor?
    ensures forall k :: k in Apply(s, st).index ==> k in s.index && Apply(s, st).index[k] == s.index[k]
  {
    hide TestActive, PushPending, Fail, Flag, ActivateAll, DeactivateIndexed, Mark, Subscribe, Pop, SyncRead, Overwrite,
         RemoveFirst, FindName, MapItems;
    StepFrame(s, st);
  }

  lemma StepAtHome(s: Mgr, st: Step)
    requires HandlersAtHome(s) && NoReissue(s, st)
    ensures HandlersAtHome(Apply(s, st))
  {
    hide Apply;
    match st
    case STest(monId, v) => TestAtHome(s, monId, v);
    case SPush(k) => PushAtHome(s, k);
    case SMonitor(h, monId) => MonitorAtHome(s, h, monId);
    case _ =>
      StepFrame(s, st);
      StepKeepsEntries(s, st);
  }

  lemma TestAtHome(s: Mgr, monId: MonId, v: Value)
    requires HandlersAtHome(s)
    ensures HandlersAtHome(Apply(s, STest(monId, v)))
  {
    hide HasItem, IsActive;
  }

  lemma PushAtHome(s: Mgr, k: nat)
    requires HandlersAtHome(s)
    ensures HandlersAtHome(Apply(s, SPush(k)))
  {
    hide HasItem, MapItems, PushTo, Members;
  }

  lemma MonitorAtHome(s: Mgr, h: Handle, monId: MonId)
    requires HandlersAtHome(s) && NoReissue(s, SMonitor(h, monId))
    ensures HandlersAtHome(Apply(s, SMonitor(h, monId)))
  {
    hide HasItem, MapItems;
  }

  lemma {:induction false} RunAtHome(run: seq<Step>)
    requires Along(INIT, run, NoReissue)
    ensures HandlersAtHome(Exec(INIT, run))
  {
    hide Apply, NoReissue;
    if run == [] {
    } else {
      AlongPrefix(INIT, run, NoReissue);
      RunAtHome(run[..|run| - 1]);
      StepAtHome(Exec(INIT, run[..|run| - 1]), run[|run| - 1]);
    }
  }

  // ----- what accessors hold -----

  predicate Holds(a: Accessor, x: Sample) {
    Data(x) in a.queue || x in a.consumed || a.data == Some(x)
  }

  ghost predicate Held(s: Mgr, x: Sample) { exists a :: a in s.accs && Holds(s.accs[a], x) }

  lemma PushHolds(a: Accessor, n: Note, x: Sample)
    ensures Holds(Push(a, n), x) ==> Holds(a, x) || n == Data(x)
  {
  }

  lemma PushHeld(s: Mgr, k: nat, x: Sample)
    requires Held(PushPending(s, k), x)
    ensures Held(s, x) || Pushes(s, SPush(k), x)
  {
    hide Holds, Push, MapItems, Members, HasItem;
    var t := PushPending(s, k);
    var a :| a in t.accs && Holds(t.accs[a], x);
    if k < |s.pending| {
      PushHolds(s.accs[a], Data(s.pending[k].sample), x);
    }
  }

  lemma FailHeld(s: Mgr, x: Sample)
    requires Held(Fail(s), x)
    ensures Held(s, x)
  {
    hide Holds, Push, MapItems, Untold;
    var a :| a in Fail(s).accs && Holds(Fail(s).accs[a], x);
    PushHolds(s.accs[a], Error, x);
  }

  lemma InitialHeld(tmp: Accessor, x: Sample)
    ensures !Holds(Newcomer(tmp.home), x)
    ensures InitialValue(tmp).Some? && Holds(Push(Newcomer(tmp.home), Data(InitialValue(tmp).value)), x) ==> Holds(tmp, x)
  {
    if InitialValue(tmp).Some? {
      PushHolds(Newcomer(tmp.home), Data(InitialValue(tmp).value), x);
    }
  }

  lemma NobodyHolds(h: Handle, x: Sample)
    ensures !Holds(Newcomer(h), x)
  {
  }

  lemma NewcomerHolds(s: Mgr, name: string, acc: AccId, x: Sample)
    requires Accounting(s) && Holds(Subscribe(s, name, acc).accs[acc], x)
    ensures Held(s, x)
  {
    hide DistinctItems, FindName, Holds, Push, Newcomer;
    var i := FindName(s.items, name);
    NobodyHolds(s.nextHandle, x);
    if i < |s.items| {
      var it := s.items[i];
      var tmp := it.accessors[|it.accessors| - 1];
      assert tmp in it.accessors && tmp in s.accs && s.accs[tmp].home == it.handle;
      InitialHeld(s.accs[tmp], x);
    }
  }

  lemma SubscribeHeld(s: Mgr, name: string, acc: AccId, x: Sample)
    requires Accounting(s) && acc !in s.accs && Held(Subscribe(s, name, acc), x)
    ensures Held(s, x)
  {
    hide Accounting, Subscribe, Holds;
    var t := Subscribe(s, name, acc);
    SubscribeOthers(s, name, acc);
    var a :| a in t.accs && Holds(t.accs[a], x);
    if a == acc {
      NewcomerHolds(s, name, acc, x);
    }
  }

  lemma PopHeld(s: Mgr, acc: AccId, x: Sample)
    requires Held(Pop(s, acc), x)
    ensures Held(s, x)
  {
    hide Holds;
    var a :| a in Pop(s, acc).accs && Holds(Pop(s, acc).accs[a], x);
    if a == acc {
      PoppedHolds(s, acc, x);
    }
  }

  lemma PoppedHolds(s: Mgr, acc: AccId, x: Sample)
    requires acc in s.accs && Holds(Pop(s, acc).accs[acc], x)
    ensures Holds(s.accs[acc], x)
  {
    if s.accs[acc].queue != [] {
      assert s.accs[acc].queue == [s.accs[acc].queue[0]] + s.accs[acc].queue[1..];
    }
  }

  lemma DirectHeld(s: Mgr, acc: AccId, payload: int, x: Sample)
    requires x.Sample? && (Held(SyncRead(s, acc, payload), x) || Held(Overwrite(s, acc, payload), x))
    ensures Held(s, x)
  {
    if Held(SyncRead(s, acc, payload), x) {
      var a :| a in SyncRead(s, acc, payload).accs && Holds(SyncRead(s, acc, payload).accs[a], x);
      assert Holds(s.accs[a], x);
    } else {
      var a :| a in Overwrite(s, acc, payload).accs && Holds(Overwrite(s, acc, payload).accs[a], x);
      assert Holds(s.accs[a], x);
    }
  }

  lemma StepHeld(s: Mgr, st: Step, x: Sample)
    requires Accounting(s) && Disciplined(s, st) && x.Sample? && Held(Apply(s, st), x)
    ensures Held(s, x) || Pushes(s, st, x)
  {
    hide Accounting, Held, Pushes, TestActive, PushPending, Fail, Flag, ActivateAll, DeactivateIndexed, Reset, Mark, Monitor,
         Subscribe, Unsubscribe, Pop, SyncRead, Overwrite, FindName;
    match st
    case SPush(k) => PushHeld(s, k, x);
    case SFail => FailHeld(s, x);
    case SSubscribe(name, acc) => SubscribeHeld(s, name, acc, x);
    case SPop(acc) => PopHeld(s, acc, x);
    case SSyncRead(acc, payload) => DirectHeld(s, acc, payload, x);
    case SOverwrite(acc, payload) => DirectHeld(s, acc, payload, x);
    case _ =>
      StepFrame(s, st);
      SameHeld(s, Apply(s, st), x);
  }

  lemma SameHeld(s: Mgr, t: Mgr, x: Sample)
    requires t.accs == s.accs && Held(t, x)
    ensures Held(s, x)
  {
  }

  // Every published value that an accessor holds was pushed at some point of the run.
  lemma {:induction false} RunHeld(run: seq<Step>, x: Sample)
    requires Along(INIT, run, Disciplined) && x.Sample? && Held(Exec(INIT, run), x)
    ensures exists i :: PushedAt(run, i, x)
  {
    hide Apply, Accounting, Disciplined, Pushes;
    if run == [] {
    } else {
      var before, st := run[..|run| - 1], run[|run| - 1];
      AlongPrefix(INIT, run, Disciplined);
      RunAccounting(before);
      StepHeld(Exec(INIT, before), st, x);
      if Held(Exec(INIT, before), x) {
        RunHeld(before, x);
        var i :| PushedAt(before, i, x);
        PushedInside(before, i, x);
        PushedEarlier(run, i, x);
      } else {
        assert PushedAt(run, |run| - 1, x);
      }
    }
  }

  // ----- pushes come in turn -----

  lemma OrderedHolds(a: Accessor, history: seq<Value>, x: Sample)
    requires Ordered(a, history) && x.Sample? && Holds(a, x)
    ensures x.from == a.home
  {
  }

  // A value later than everything the accessor holds.
  lemma LaterThanHeld(a: Accessor, at: nat)
    requires forall x: Sample :: x.Sample? && Holds(a, x) ==> x.at < at
    ensures NoneLater(a, at)
  {
    forall i | 0 <= i < |a.consumed| && a.consumed[i].Sample? ensures a.consumed[i].at < at {
      assert Holds(a, a.consumed[i]);
    }
    forall i | 0 <= i < |a.queue| && a.queue[i].Data? && a.queue[i].s.Sample? ensures a.queue[i].s.at < at {
      assert a.queue[i] in a.queue && Holds(a, a.queue[i].s);
    }
  }

  lemma TurnComes(run: seq<Step>)
    requires run != [] && NoneOvertaken(run) && run[|run| - 1].SPush?
    requires var before := run[..|run| - 1];
             && Along(INIT, before, Disciplined) && AllOrdered(Exec(INIT, before)) && HandlersAtHome(Exec(INIT, before))
             && run[|run| - 1].k < |Exec(INIT, before).pending|
    ensures InTurn(Exec(INIT, run[..|run| - 1]), run[|run| - 1].k)
  {
    hide Exec, Apply, Accounting, Along, Members, Ordered, NoneLater, Holds, PushedAt;
    var before, k := run[..|run| - 1], run[|run| - 1].k;
    var s := Exec(INIT, before);
    var y := s.pending[k].sample;
    RunAccounting(before);
    PushedLast(run, y);
    forall a | a in Members(s.items, y.from) && a in s.accs ensures NoneLater(s.accs[a], y.at) {
      MemberHome(s, y.from, a);
      forall x: Sample | x.Sample? && Holds(s.accs[a], x) ensures x.at < y.at {
        OrderedHolds(s.accs[a], s.pubs[y.from], x);
        RunHeld(before, x);
        var i :| PushedAt(before, i, x);
        PushedInside(before, i, x);
        PushedEarlier(run, i, x);
      }
      LaterThanHeld(s.accs[a], y.at);
    }
  }

  lemma PushedLast(run: seq<Step>, y: Sample)
    requires run != [] && Pushes(Exec(INIT, run[..|run| - 1]), run[|run| - 1], y)
    ensures PushedAt(run, |run| - 1, y)
  {
  }

  // Without overtaking every push comes in turn.
  lemma {:induction false} NoneOvertakenKeepsOrder(run: seq<Step>)
    requires Along(INIT, run, Disciplined)
    requires Along(INIT, run, NoReissue) && Along(INIT, run, NoDirectCopies) && NoneOvertaken(run)
    ensures Along(INIT, run, KeepsOrder)
  {
    hide Apply, Exec, Accounting, Disciplined, NoReissue, CopiesDirect, InTurn, NoneOvertaken, AllOrdered,
         HandlersAtHome, Throughout;
    if run == [] {
    } else {
      var before, st := run[..|run| - 1], run[|run| - 1];
      AlongPrefix(INIT, run, Disciplined);
      AlongPrefix(INIT, run, NoReissue);
      AlongPrefix(INIT, run, NoDirectCopies);
      PrefixNoneOvertaken(run);
      NoneOvertakenKeepsOrder(before);
      RunOrderedExactly(before);
      ThroughoutLast(before, AllOrdered);
      RunAtHome(before);
      if st.SPush? && st.k < |Exec(INIT, before).pending| {
        TurnComes(run);
      }
      assert before + [st] == run;
      AlongSnoc(INIT, before, st, KeepsOrder);
    }
  }

  // Then accessors consume what their items published, in that order, whatever else is interleaved.
  lemma DeliveredUnlessOvertaken(run: seq<Step>, a: AccId)
    requires Along(INIT, run, Disciplined)
    requires Along(INIT, run, NoReissue) && Along(INIT, run, NoDirectCopies) && NoneOvertaken(run)
    requires a in Exec(INIT, run).accs
    ensures var s := Exec(INIT, run);
            s.accs[a].home in s.pubs && SubsequenceOf(Payloads(s.accs[a].consumed), s.pubs[s.accs[a].home])
  {
    hide Exec, Along, NoneOvertaken;
    NoneOvertakenKeepsOrder(run);
    DeliveredInOrder(run, a);
  }

  // ----- handlers that take turns -----

  predicate TakesTurns(s: Mgr, st: Step) { st.STest? ==> s.pending == [] }

  predicate Older(s: Mgr, x: Sample) { x.Sample? && x.from in s.pubs && x.at < |s.pubs[x.from]| }

  ghost predicate OlderPushes(run: seq<Step>, s: Mgr) {
    forall i, x :: PushedAt(run, i, x) ==> Older(s, x)
  }

  // At most one handler is pending, and no value of its item that was published later has been pushed.
  ghost predicate OneAhead(run: seq<Step>, s: Mgr) {
    && |s.pending| <= 1
    && (s.pending != [] ==>
          var y := s.pending[0].sample; Older(s, y) && forall i, x :: PushedAt(run, i, x) && OfItem(x, y.from) ==> x.at < y.at)
  }

  lemma StepHistories(s: Mgr, st: Step)
    requires Accounting(s) && Disciplined(s, st)
    ensures forall h :: h in s.pubs ==> h in Apply(s, st).pubs && |s.pubs[h]| <= |Apply(s, st).pubs[h]|
  {
    hide TestActive, PushPending, Fail, Flag, ActivateAll, DeactivateIndexed, Reset, Mark, Monitor, Subscribe, Unsubscribe,
         Pop, SyncRead, Overwrite, FindName, DistinctItems, DisjointLists;
    match st
    case STest(monId, v) => TestHistories(s, monId, v);
    case SSubscribe(name, acc) => SubscribeHistories(s, name, acc);
    case _ => StepFrame(s, st);
  }

  lemma TestHistories(s: Mgr, monId: MonId, v: Value)
    ensures forall h :: h in s.pubs ==> h in TestActive(s, monId, v).pubs && |s.pubs[h]| <= |TestActive(s, monId, v).pubs[h]|
  {
    hide HasItem, IsActive;
  }

  lemma TestAhead(run: seq<Step>, s: Mgr, monId: MonId, v: Value)
    requires OlderPushes(run, s) && s.pending == []
    ensures OneAhead(run, TestActive(s, monId, v))
  {
    hide HasItem, IsActive, PushedAt;
  }

  lemma PushAhead(s: Mgr, k: nat)
    requires |s.pending| <= 1
    ensures PushPending(s, k).pending == if k < |s.pending| then [] else s.pending
  {
    hide HasItem, MapItems, PushTo, Members;
  }

  lemma AheadMore(before: seq<Step>, s: Mgr, run: seq<Step>, t: Mgr)
    requires OneAhead(before, s) && t.pending == s.pending
    requires forall h :: h in s.pubs ==> h in t.pubs && |s.pubs[h]| <= |t.pubs[h]|
    requires forall i, x :: PushedAt(run, i, x) ==> PushedAt(before, i, x)
    ensures OneAhead(run, t)
  {
    hide PushedAt;
  }

  lemma PushedBeforeOrNow(run: seq<Step>, i: nat, x: Sample)
    requires run != [] && PushedAt(run, i, x)
    ensures PushedAt(run[..|run| - 1], i, x) || (i == |run| - 1 && Pushes(Exec(INIT, run[..|run| - 1]), run[|run| - 1], x))
  {
    hide Exec, Pushes;
    if i < |run| - 1 { PushedEarlier(run, i, x); }
  }

  lemma StepAhead(run: seq<Step>)
    requires run != []
    requires var before, st := run[..|run| - 1], run[|run| - 1];
             var s := Exec(INIT, before);
             && Accounting(s) && Disciplined(s, st) && TakesTurns(s, st) && OlderPushes(before, s) && OneAhead(before, s)
    ensures OlderPushes(run, Exec(INIT, run)) && OneAhead(run, Exec(INIT, run))
  {
    hide Apply, Accounting, Disciplined, PushedAt;
    var before, st := run[..|run| - 1], run[|run| - 1];
    var s, t := Exec(INIT, before), Apply(Exec(INIT, before), st);
    StepHistories(s, st);
    forall i, x | PushedAt(run, i, x) ensures Older(t, x) && (!st.SPush? ==> PushedAt(before, i, x)) {
      PushedBeforeOrNow(run, i, x);
    }
    NextAhead(run, s, st);
  }

  lemma NextAhead(run: seq<Step>, s: Mgr, st: Step)
    requires run != [] && s == Exec(INIT, run[..|run| - 1]) && st == run[|run| - 1]
    requires Accounting(s) && Disciplined(s, st) && TakesTurns(s, st)
    requires OlderPushes(run[..|run| - 1], s) && OneAhead(run[..|run| - 1], s)
    ensures OneAhead(run, Apply(s, st))
  {
    hide Exec, Accounting, Disciplined, PushedAt, TestActive, PushPending, Fail, Flag, ActivateAll, DeactivateIndexed, Reset,
         Mark, Monitor, Subscribe, Unsubscribe, Pop, SyncRead, Overwrite;
    var before := run[..|run| - 1];
    StepHistories(s, st);
    StepFrame(s, st);
    forall i, x | PushedAt(run, i, x) ensures PushedAt(before, i, x) || Pushes(s, st, x) {
      PushedBeforeOrNow(run, i, x);
    }
    match st
    case STest(monId, v) => TestAhead(run, s, monId, v);
    case SPush(k) =>
      PushAhead(s, k);
      if k >= |s.pending| { AheadMore(before, s, run, Apply(s, st)); }
    case _ => AheadMore(before, s, run, Apply(s, st));
  }

  lemma {:induction false} RunAhead(run: seq<Step>)
    requires Along(INIT, run, Disciplined) && Along(INIT, run, TakesTurns)
    ensures OlderPushes(run, Exec(INIT, run)) && OneAhead(run, Exec(INIT, run))
  {
    hide Apply, Accounting, Disciplined, TakesTurns, OlderPushes, OneAhead;
    if run == [] {
      NothingPushed();
    } else {
      AlongPrefix(INIT, run, Disciplined);
      AlongPrefix(INIT, run, TakesTurns);
      RunAccounting(run[..|run| - 1]);
      RunAhead(run[..|run| - 1]);
      StepAhead(run);
    }
  }

  lemma NothingPushed()
    ensures OlderPushes([], INIT) && OneAhead([], INIT)
  {
  }

  // Handlers that take turns overtake nothing.
  lemma {:induction false} TurnsOvertakeNothing(run: seq<Step>)
    requires Along(INIT, run, Disciplined) && Along(INIT, run, TakesTurns)
    ensures NoneOvertaken(run)
  {
    hide Apply, Exec, Disciplined, TakesTurns, PushedAt;
    if run == [] {
      NothingPushed();
    } else {
      var before := run[..|run| - 1];
      AlongPrefix(INIT, run, Disciplined);
      AlongPrefix(INIT, run, TakesTurns);
      TurnsOvertakeNothing(before);
      RunAhead(before);
      forall i, j, x, y | i < j && PushedAt(run, i, x) && PushedAt(run, j, y) && y.Sample? && OfItem(x, y.from)
        ensures x.at < y.at
      {
        PushedInside(run, j, y);
        PushedBeforeOrNow(run, i, x);
        PushedBeforeOrNow(run, j, y);
      }
    }
  }

  // ----- ids that are never reused -----

  ghost predicate IssuedIds(s: Mgr, issued: set<MonId>) {
    (forall k :: k in s.index ==> k in issued) && forall k :: 0 <= k < |s.pending| ==> s.pending[k].monId in issued
  }

  lemma StepIssued(s: Mgr, st: Step, issued: set<MonId>)
    requires IssuedIds(s, issued)
    ensures IssuedIds(Apply(s, st), if st.SMonitor? then issued + {st.monId} else issued)
  {
    hide Apply;
    match st
    case STest(monId, v) => TestIssued(s, monId, v, issued);
    case SPush(k) => PushIssued(s, k, issued);
    case SMonitor(h, monId) => MonitorIssued(s, h, monId, issued);
    case _ =>
      StepFrame(s, st);
      StepKeepsEntries(s, st);
  }

  lemma TestIssued(s: Mgr, monId: MonId, v: Value, issued: set<MonId>)
    requires IssuedIds(s, issued)
    ensures IssuedIds(Apply(s, STest(monId, v)), issued)
  {
    hide HasItem, IsActive;
  }

  lemma PushIssued(s: Mgr, k: nat, issued: set<MonId>)
    requires IssuedIds(s, issued)
    ensures IssuedIds(Apply(s, SPush(k)), issued)
  {
    hide HasItem, MapItems, PushTo, Members;
  }

  lemma MonitorIssued(s: Mgr, h: Handle, monId: MonId, issued: set<MonId>)
    requires IssuedIds(s, issued)
    ensures IssuedIds(Apply(s, SMonitor(h, monId)), issued + {monId})
  {
    hide HasItem, MapItems;
  }

  lemma {:induction false} FreshIdsNoReissue(run: seq<Step>)
    requires NeverReused(run)
    ensures Along(INIT, run, NoReissue) && IssuedIds(Exec(INIT, run), Issued(run))
  {
    hide Apply, NeverReused, Issued, IssuedIds;
    if run == [] {
      NothingIssued();
    } else {
      var before, st := run[..|run| - 1], run[|run| - 1];
      assert before + [st] == run;
      IssuedSnoc(before, st);
      FreshIdsNoReissue(before);
      StepIssued(Exec(INIT, before), st, Issued(before));
      FreshNoReissue(Exec(INIT, before), st, Issued(before));
      AlongSnoc(INIT, before, st, NoReissue);
    }
  }

  lemma FreshNoReissue(s: Mgr, st: Step, issued: set<MonId>)
    requires IssuedIds(s, issued) && (st.SMonitor? ==> st.monId !in issued)
    ensures NoReissue(s, st)
  {
  }

  lemma NothingIssued()
    ensures IssuedIds(INIT, Issued([]))
  {
  }

  // So what handlers deliver one after the other, under ids that are never reused, arrives in order.
  lemma DeliveredInTurns(run: seq<Step>, a: AccId)
    requires Along(INIT, run, Disciplined) && Along(INIT, run, NoDirectCopies)
    requires Along(INIT, run, TakesTurns) && NeverReused(run) && a in Exec(INIT, run).accs
    ensures var s := Exec(INIT, run);
            s.accs[a].home in s.pubs && SubsequenceOf(Payloads(s.accs[a].consumed), s.pubs[s.accs[a].home])
  {
    hide Exec, Along, NeverReused, NoneOvertaken;
    TurnsOvertakeNothing(run);
    FreshIdsNoReissue(run);
    DeliveredUnlessOvertaken(run, a);
  }
}
