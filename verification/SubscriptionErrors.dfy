// Errors are told once: in the push history of every accessor two errors never follow each other.
module SubscriptionErrors {
  import opened Common
  import opened FutureQueue
  import opened SubscriptionState
  import opened SubscriptionRuns

  ghost predicate NoRepeat(pushed: seq<Note>) {
    forall i :: 0 < i < |pushed| ==> !(pushed[i - 1].Error? && pushed[i].Error?)
  }

  predicate LastIsError(pushed: seq<Note>) { pushed != [] && pushed[|pushed| - 1].Error? }

  // hasException remembers that the last thing the accessors of the item were told is an error.
  ghost predicate ErrorsOnce(s: Mgr) {
    && (forall a :: a in s.accs ==> NoRepeat(s.accs[a].pushed))
    && (forall i, a :: 0 <= i < |s.items| && a in s.items[i].accessors && a in s.accs && LastIsError(s.accs[a].pushed)
          ==> s.items[i].hasException)
  }

  lemma PushErrors(s: Mgr, k: nat)
    requires Accounting(s) && ErrorsOnce(s)
    ensures ErrorsOnce(PushPending(s, k))
  {
    hide MapItems, DistinctItems, DisjointLists, AtHome, NoRepeat, LastIsError, Push, HasItem;
    PushedData();
    var t := PushPending(s, k);
    if k < |s.pending| && Indexed(s, s.pending[k].monId) {
      var h := s.index[s.pending[k].monId];
      forall i, a | 0 <= i < |t.items| && a in t.items[i].accessors && a in t.accs && LastIsError(t.accs[a].pushed)
        ensures t.items[i].hasException
      {
        assert a !in Members(s.items, h);
        assert a in s.items[i].accessors;
      }
    }
  }

  lemma PushedData()
    ensures forall a: Accessor, x ::
              !LastIsError(Push(a, Data(x)).pushed) && (NoRepeat(a.pushed) ==> NoRepeat(Push(a, Data(x)).pushed))
  {
  }

  lemma UntoldMember(s: Mgr, a: AccId)
    requires Accounting(s) && ErrorsOnce(s) && a in Untold(s.items)
    ensures a in s.accs && !LastIsError(s.accs[a].pushed)
    ensures forall i :: 0 <= i < |s.items| && a in s.items[i].accessors ==> NeedsError(s.items[i])
  {
  }

  lemma FailErrors(s: Mgr)
    requires Accounting(s) && ErrorsOnce(s)
    ensures ErrorsOnce(Fail(s))
  {
    var t := Fail(s);
    forall a | a in t.accs ensures NoRepeat(t.accs[a].pushed) {
      if a in Untold(s.items) { UntoldMember(s, a); }
    }
    forall i, a | 0 <= i < |t.items| && a in t.items[i].accessors && a in t.accs && LastIsError(t.accs[a].pushed)
      ensures t.items[i].hasException
    {
      if a in Untold(s.items) { UntoldMember(s, a); }
    }
  }

  lemma SubscribeMember(s: Mgr, name: string, acc: AccId, i: nat, a: AccId)
    requires i < |Subscribe(s, name, acc).items| && a in Subscribe(s, name, acc).items[i].accessors && a != acc
    ensures i < |s.items| && a in s.items[i].accessors
    ensures Subscribe(s, name, acc).items[i].hasException == s.items[i].hasException
  {
    hide InitialValue, Push;
  }

  lemma SubscribeAccs(s: Mgr, name: string, acc: AccId)
    requires acc !in s.accs
    ensures var t := Subscribe(s, name, acc);
            acc in t.accs && NoRepeat(t.accs[acc].pushed) && !LastIsError(t.accs[acc].pushed)
  {
    hide InitialValue, FindName, NoRepeat, LastIsError, Push, Newcomer, IndexOf, Names;
    NewcomerErrors();
  }

  lemma NewcomerErrors()
    ensures forall h: Handle :: NoRepeat(Newcomer(h).pushed) && !LastIsError(Newcomer(h).pushed)
    ensures forall h: Handle, x ::
              NoRepeat(Push(Newcomer(h), Data(x)).pushed) && !LastIsError(Push(Newcomer(h), Data(x)).pushed)
  {
  }

  lemma SubscribeErrors(s: Mgr, name: string, acc: AccId)
    requires ErrorsOnce(s) && acc !in s.accs
    ensures ErrorsOnce(Subscribe(s, name, acc))
  {
    hide Subscribe, NoRepeat, LastIsError;
    var t := Subscribe(s, name, acc);
    SubscribeAccs(s, name, acc);
    SubscribeOthers(s, name, acc);
    forall i, a | 0 <= i < |t.items| && a in t.items[i].accessors && a in t.accs && LastIsError(t.accs[a].pushed)
      ensures t.items[i].hasException
    {
      SubscribeMember(s, name, acc, i, a);
    }
  }

  lemma UnsubscribeMember(s: Mgr, name: string, acc: AccId, i: nat, a: AccId) returns (j: nat)
    requires DisjointLists(s.items) && Disciplined(s, SUnsubscribe(name, acc))
    requires i < |Unsubscribe(s, name, acc).items| && a in Unsubscribe(s, name, acc).items[i].accessors
    ensures j < |s.items| && a in s.items[j].accessors
    ensures Unsubscribe(s, name, acc).items[i].hasException == s.items[j].hasException
  {
    hide Unsubscribe, RemoveFirst, FindName, DisjointLists;
    var k := FindName(s.items, name);
    UnsubscribeItems(s, name, acc);
    if |s.items[k].accessors| > 1 {
      OwnListOf(s.items, k);
      RemoveFirstMembers(s.items[k].accessors, acc);
      return i;
    } else {
      return if i < k then i else i + 1;
    }
  }

  lemma OwnListOf(items: seq<Item>, i: nat)
    requires DisjointLists(items) && i < |items|
    ensures NoDuplicates(items[i].accessors)
  {
  }

  lemma UnsubscribeErrors(s: Mgr, name: string, acc: AccId)
    requires Accounting(s) && ErrorsOnce(s) && Disciplined(s, SUnsubscribe(name, acc))
    ensures ErrorsOnce(Unsubscribe(s, name, acc))
  {
    hide Unsubscribe, NoRepeat, LastIsError, DistinctItems, DisjointLists, AtHome;
    var t := Unsubscribe(s, name, acc);
    UnsubscribeAccs(s, name, acc);
    forall i, a | 0 <= i < |t.items| && a in t.items[i].accessors && a in t.accs && LastIsError(t.accs[a].pushed)
      ensures t.items[i].hasException
    {
      var j := UnsubscribeMember(s, name, acc, i, a);
    }
  }

  lemma UnsubscribeAccs(s: Mgr, name: string, acc: AccId)
    ensures Unsubscribe(s, name, acc).accs == s.accs
  {
    UnsubscribeFrame(s, name, acc);
  }

  // Steps that push nothing and clear no exception flag.
  ghost predicate SameErrors(s: Mgr, t: Mgr) {
    && SameShape(s, t)
    && (forall i :: 0 <= i < |s.items| ==> s.items[i].hasException ==> t.items[i].hasException)
    && (forall a :: a in s.accs ==> t.accs[a].pushed == s.accs[a].pushed)
  }

  lemma SameErrorsKeep(s: Mgr, t: Mgr)
    requires ErrorsOnce(s) && SameErrors(s, t)
    ensures ErrorsOnce(t)
  {
  }

  predicate TellsNobody(st: Step) { !st.SSubscribe? && !st.SUnsubscribe? && !st.SPush? && !st.SFail? }

  predicate MovesData(st: Step) { st.SPop? || st.SSyncRead? || st.SOverwrite? }

  lemma StepSamePushes(s: Mgr, st: Step, a: AccId)
    requires TellsNobody(st) && a in s.accs
    ensures a in Apply(s, st).accs && Apply(s, st).accs[a].pushed == s.accs[a].pushed
  {
    hide Apply;
    StepFrame(s, st);
    if MovesData(st) {
      MovedPushes(s, st, a);
    }
  }

  lemma MovedPushes(s: Mgr, st: Step, a: AccId)
    requires MovesData(st) && a in s.accs
    ensures a in Apply(s, st).accs && Apply(s, st).accs[a].pushed == s.accs[a].pushed
  {
    hide TestActive, PushPending, Fail, Flag, ActivateAll, DeactivateIndexed, Reset, Mark, Monitor, Subscribe, Unsubscribe,
         Pop, SyncRead, Overwrite;
    match st
    case SPop(acc) => PopPushes(s, acc);
    case SSyncRead(acc, payload) => DirectPushes(s, acc, payload);
    case SOverwrite(acc, payload) => DirectPushes(s, acc, payload);
  }

  lemma PopPushes(s: Mgr, acc: AccId)
    ensures forall a :: a in s.accs ==> a in Pop(s, acc).accs && Pop(s, acc).accs[a].pushed == s.accs[a].pushed
  {
  }

  lemma DirectPushes(s: Mgr, acc: AccId, payload: int)
    ensures forall a :: a in s.accs ==>
              a in SyncRead(s, acc, payload).accs && SyncRead(s, acc, payload).accs[a].pushed == s.accs[a].pushed
    ensures forall a :: a in s.accs ==>
              a in Overwrite(s, acc, payload).accs && Overwrite(s, acc, payload).accs[a].pushed == s.accs[a].pushed
  {
  }

  // No section but a push clears a mark.
  ghost predicate KeepsMarks(s: Mgr, t: Mgr) {
    |t.items| == |s.items| && forall i :: 0 <= i < |s.items| ==> s.items[i].hasException ==> t.items[i].hasException
  }

  lemma ItemMarks(s: Mgr, h: Handle, monId: MonId)
    ensures KeepsMarks(s, Flag(s, h)) && KeepsMarks(s, Mark(s, h)) && KeepsMarks(s, Monitor(s, h, monId))
  {
    hide MapItems, HasItem;
  }

  lemma AllMarks(s: Mgr)
    ensures KeepsMarks(s, ActivateAll(s)) && KeepsMarks(s, DeactivateIndexed(s)) && KeepsMarks(s, Reset(s))
  {
    hide MapItems;
  }

  lemma StepMarks(s: Mgr, st: Step)
    requires TellsNobody(st)
    ensures KeepsMarks(s, Apply(s, st))
  {
    hide KeepsMarks, TestActive, PushPending, Fail, Flag, ActivateAll, DeactivateIndexed, Reset, Mark, Monitor, Subscribe,
         Unsubscribe, Pop, SyncRead, Overwrite;
    match st
    case SFlag(h) => ItemMarks(s, h, 0);
    case SMark(h) => ItemMarks(s, h, 0);
    case SMonitor(h, monId) => ItemMarks(s, h, monId);
    case SActivateAll => AllMarks(s);
    case SDeactivateIndexed => AllMarks(s);
    case SReset => AllMarks(s);
    case _ =>
      StepFrame(s, st);
      SameItemsMarks(s, Apply(s, st));
  }

  lemma SameItemsMarks(s: Mgr, t: Mgr)
    requires t.items == s.items
    ensures KeepsMarks(s, t)
  {
  }

  lemma StepSameErrors(s: Mgr, st: Step)
    requires TellsNobody(st)
    ensures SameErrors(s, Apply(s, st))
  {
    hide Apply, SameShape;
    StepShape(s, st);
    StepMarks(s, st);
    forall a | a in s.accs ensures a in Apply(s, st).accs && Apply(s, st).accs[a].pushed == s.accs[a].pushed {
      StepSamePushes(s, st, a);
    }
  }

  lemma StepErrors(s: Mgr, st: Step)
    requires Accounting(s) && ErrorsOnce(s) && Disciplined(s, st)
    ensures ErrorsOnce(Apply(s, st))
  {
    hide Accounting, ErrorsOnce, PushPending, Fail, Subscribe, Unsubscribe;
    match st
    case SPush(k) => PushErrors(s, k);
    case SFail => FailErrors(s);
    case SSubscribe(name, acc) => SubscribeErrors(s, name, acc);
    case SUnsubscribe(name, acc) => UnsubscribeErrors(s, name, acc);
    case _ =>
      StepSameErrors(s, st);
      SameErrorsKeep(s, Apply(s, st));
  }

  lemma InitErrors()
    ensures ErrorsOnce(INIT)
  {
  }

  lemma {:induction false} RunErrors(run: seq<Step>)
    requires Along(INIT, run, Disciplined)
    ensures ErrorsOnce(Exec(INIT, run))
  {
    hide Apply, Accounting, ErrorsOnce;
    if run == [] {
      InitErrors();
    } else {
      var before := run[..|run| - 1];
      AlongPrefix(INIT, run, Disciplined);
      RunAccounting(before);
      RunErrors(before);
      StepErrors(Exec(INIT, before), run[|run| - 1]);
    }
  }

  // In the push history of every accessor, any two errors have a notification from the server between them.
  lemma ErrorsNeverRepeat(run: seq<Step>, a: AccId, i: nat, j: nat)
    requires Along(INIT, run, Disciplined) && a in Exec(INIT, run).accs
    requires var p := Exec(INIT, run).accs[a].pushed; i < j < |p| && p[i].Error? && p[j].Error?
    ensures exists k :: i < k < j && Exec(INIT, run).accs[a].pushed[k].Data?
  {
    RunErrors(run);
    var p := Exec(INIT, run).accs[a].pushed;
    assert !(p[i + 1 - 1].Error? && p[i + 1].Error?);
    assert p[i + 1].Data?;
  }

  // handleException tells each accessor of each active, unflagged item once, and nobody else; doing it again
  // changes nothing until a notification or a new activation.
  lemma FailTellsOnce(s: Mgr)
    requires Accounting(s)
    ensures forall i, a :: 0 <= i < |s.items| && a in s.items[i].accessors ==>
              Fail(s).accs[a].pushed ==
              s.accs[a].pushed + (if s.items[i].active && !s.items[i].hasException then [Error] else [])
    ensures forall a :: a in s.accs && a !in Listed(s.items) ==> Fail(s).accs[a] == s.accs[a]
    ensures Fail(Fail(s)) == Fail(s)
  {
    var t := Fail(s);
    forall i, a | 0 <= i < |s.items| && a in s.items[i].accessors
      ensures a in Untold(s.items) <==> NeedsError(s.items[i])
    {
    }
    assert Untold(t.items) == {};
    assert Fail(t).items == t.items;
    assert Fail(t).accs == t.accs;
  }
}
