// Runs: any interleaving of the sections of SubscriptionState, by any number of threads.
module SubscriptionRuns {
  import opened Common
  import opened FutureQueue
  import opened SubscriptionState

  datatype Step =
    | STest(monId: MonId, v: Value)  // responseHandler up to its test
    | SPush(k: nat)                  // the rest of it, for one that passed the test
    | SFail
    | SFlag(h: Handle)
    | SActivateAll
    | SDeactivateIndexed
    | SReset
    | SMark(h: Handle)
    | SMonitor(h: Handle, monId: MonId)
    | SSubscribe(name: string, acc: AccId)
    | SUnsubscribe(name: string, acc: AccId)
    | SPop(acc: AccId)
    | SSyncRead(acc: AccId, payload: int)
    | SOverwrite(acc: AccId, payload: int)
    | SAsync(on: bool)
    | SInactive                    // deactivate clears _subscriptionActive
    | SCreate(newId: nat)
    | SDelete(ok: bool)
    | SDropped(dropped: nat)

  function Apply(s: Mgr, st: Step): Mgr {
    match st
    case STest(monId, v) => TestActive(s, monId, v)
    case SPush(k) => PushPending(s, k)
    case SFail => Fail(s)
    case SFlag(h) => Flag(s, h)
    case SActivateAll => ActivateAll(s)
    case SDeactivateIndexed => DeactivateIndexed(s)
    case SReset => Reset(s)
    case SMark(h) => Mark(s, h)
    case SMonitor(h, monId) => Monitor(s, h, monId)
    case SSubscribe(name, acc) => Subscribe(s, name, acc)
    case SUnsubscribe(name, acc) => Unsubscribe(s, name, acc)
    case SPop(acc) => Pop(s, acc)
    case SSyncRead(acc, payload) => SyncRead(s, acc, payload)
    case SOverwrite(acc, payload) => Overwrite(s, acc, payload)
    case SAsync(on) => s.(asyncRead := on)
    case SInactive => s.(subActive := false)
    case SCreate(newId) => CreateSubscription(s, newId)
    case SDelete(ok) => DeleteSubscription(s, ok)
    case SDropped(dropped) => ServerDropped(s, dropped)
  }

  // Each accessor subscribes once and unsubscribes only what it subscribed.
  predicate Disciplined(s: Mgr, st: Step) {
    match st
    case SSubscribe(name, acc) => acc !in s.accs
    case SUnsubscribe(name, acc) =>
      var i := FindName(s.items, name);
      i < |s.items| && acc in s.items[i].accessors
    case _ => true
  }

  function Exec(s: Mgr, run: seq<Step>): Mgr {
    if run == [] then s else Apply(Exec(s, run[..|run| - 1]), run[|run| - 1])
  }

  // Every step of the run satisfies ok in the state it starts from.
  ghost predicate Along(s: Mgr, run: seq<Step>, ok: (Mgr, Step) -> bool) {
    forall k :: 0 <= k < |run| ==> ok(Exec(s, run[..k]), run[k])
  }

  lemma AlongPrefix(s: Mgr, run: seq<Step>, ok: (Mgr, Step) -> bool)
    requires run != [] && Along(s, run, ok)
    ensures Along(s, run[..|run| - 1], ok)
    ensures ok(Exec(s, run[..|run| - 1]), run[|run| - 1])
  {
    var init := run[..|run| - 1];
    forall k | 0 <= k < |init| ensures ok(Exec(s, init[..k]), init[k]) {
      assert init[..k] == run[..k];
    }
  }

  lemma AlongSnoc(s: Mgr, run: seq<Step>, st: Step, ok: (Mgr, Step) -> bool)
    requires Along(s, run, ok) && ok(Exec(s, run), st)
    ensures Along(s, run + [st], ok)
    ensures Exec(s, run + [st]) == Apply(Exec(s, run), st)
  {
    var more := run + [st];
    assert more[..|run|] == run;
    forall k | 0 <= k < |more| ensures ok(Exec(s, more[..k]), more[k]) {
      assert k < |run| ==> more[..k] == run[..k];
    }
  }

  lemma {:induction false} ExecConcat(s: Mgr, a: seq<Step>, b: seq<Step>, ok: (Mgr, Step) -> bool)
    ensures Exec(s, a + b) == Exec(Exec(s, a), b)
    ensures Along(s, a, ok) && Along(Exec(s, a), b, ok) ==> Along(s, a + b, ok)
  {
    if b == [] {
      assert a + b == a;
    } else {
      var init, last := b[..|b| - 1], b[|b| - 1];
      assert a + b == (a + init) + [last] && (a + b)[..|a + b| - 1] == a + init;
      ExecConcat(s, a, init, ok);
      if Along(s, a, ok) && Along(Exec(s, a), b, ok) {
        AlongPrefix(Exec(s, a), b, ok);
        AlongSnoc(s, a + init, last, ok);
      }
    }
  }

  lemma AlongUpTo(s: Mgr, run: seq<Step>, ok: (Mgr, Step) -> bool, k: nat)
    requires k <= |run| && Along(s, run, ok)
    ensures Along(s, run[..k], ok)
  {
    hide Exec, Apply;
    assert forall j :: 0 <= j < k ==> run[..k][..j] == run[..j];
  }

  // p holds in every state the run passes through.
  ghost predicate Throughout(run: seq<Step>, p: Mgr -> bool) {
    forall k :: 0 <= k <= |run| ==> p(Exec(INIT, run[..k]))
  }

  lemma ThroughoutLast(run: seq<Step>, p: Mgr -> bool)
    requires Throughout(run, p)
    ensures p(Exec(INIT, run))
  {
    assert run[..|run|] == run;
  }

  // At step k of the run, p is kept exactly under the condition ok.
  ghost predicate KeptExactly(run: seq<Step>, k: nat, p: Mgr -> bool, ok: (Mgr, Step) -> bool)
    requires k < |run|
  {
    p(Exec(INIT, run[..k])) ==> (p(Apply(Exec(INIT, run[..k]), run[k])) <==> ok(Exec(INIT, run[..k]), run[k]))
  }

  lemma ExecNext(s: Mgr, run: seq<Step>, k: nat)
    requires k < |run|
    ensures Exec(s, run[..k + 1]) == Apply(Exec(s, run[..k]), run[k])
  {
    hide Apply;
    assert run[..k + 1][..k] == run[..k];
  }

  lemma {:induction false} KeptUpTo(run: seq<Step>, k: nat, p: Mgr -> bool, ok: (Mgr, Step) -> bool)
    requires k <= |run| && p(INIT) && Along(INIT, run, ok)
    requires forall j :: 0 <= j < |run| ==> KeptExactly(run, j, p, ok)
    ensures p(Exec(INIT, run[..k]))
  {
    hide Apply;
    if k == 0 {
    } else {
      KeptUpTo(run, k - 1, p, ok);
      assert KeptExactly(run, k - 1, p, ok);
      ExecNext(INIT, run, k - 1);
    }
  }

  // What each step keeps exactly under a condition holds throughout the run exactly when each step meets it.
  lemma ThroughoutExactly(run: seq<Step>, p: Mgr -> bool, ok: (Mgr, Step) -> bool)
    requires p(INIT) && forall j :: 0 <= j < |run| ==> KeptExactly(run, j, p, ok)
    ensures Throughout(run, p) <==> Along(INIT, run, ok)
  {
    hide Apply, Exec;
    if Along(INIT, run, ok) {
      forall k | 0 <= k <= |run| ensures p(Exec(INIT, run[..k])) {
        KeptUpTo(run, k, p, ok);
      }
    }
    if Throughout(run, p) {
      forall k | 0 <= k < |run| ensures ok(Exec(INIT, run[..k]), run[k]) {
        assert KeptExactly(run, k, p, ok);
        ExecNext(INIT, run, k);
        assert p(Exec(INIT, run[..k])) && p(Exec(INIT, run[..k + 1]));
      }
    }
  }

  // ----- what a step leaves alone -----

  predicate ChangesItems(st: Step) {
    st.SPush? || st.SFail? || st.SFlag? || st.SActivateAll? || st.SDeactivateIndexed? || st.SReset? || st.SMark?
    || st.SMonitor? || st.SSubscribe? || st.SUnsubscribe?
  }

  predicate ChangesIndex(st: Step) { st.SReset? || st.SMonitor? || st.SUnsubscribe? }

  predicate ChangesAccs(st: Step) {
    st.SPush? || st.SFail? || st.SSubscribe? || st.SPop? || st.SSyncRead? || st.SOverwrite?
  }

  predicate ChangesPubs(st: Step) { st.STest? || st.SSubscribe? }

  predicate ChangesPending(st: Step) { st.STest? || st.SPush? }

  predicate ChangesServer(st: Step) { st.SCreate? || st.SDelete? || st.SDropped? }

  predicate ChangesBroken(st: Step) { st.STest? || st.SPush? || st.SMonitor? || st.SFlag? || st.SDeactivateIndexed? }

  // t differs from s at most in the parts a step like st changes.
  predicate Frame(s: Mgr, st: Step, t: Mgr) {
    && (!ChangesItems(st) ==> t.items == s.items)
    && (!ChangesIndex(st) ==> t.index == s.index)
    && (!ChangesAccs(st) ==> t.accs == s.accs)
    && (!ChangesPubs(st) ==> t.pubs == s.pubs)
    && (!ChangesPending(st) ==> t.pending == s.pending)
    && (!ChangesServer(st) ==> t.live == s.live && t.subId == s.subId)
    && (!ChangesServer(st) && !st.SInactive? ==> t.subActive == s.subActive)
    && (!st.SAsync? ==> t.asyncRead == s.asyncRead)
    && (!ChangesBroken(st) ==> t.broken == s.broken)
    && (!st.SSubscribe? ==> t.nextHandle == s.nextHandle)
  }

  lemma TestFrame(s: Mgr, monId: MonId, v: Value)
    ensures Frame(s, STest(monId, v), TestActive(s, monId, v))
  {
    hide IsActive;
  }

  lemma PushFrame(s: Mgr, k: nat)
    ensures Frame(s, SPush(k), PushPending(s, k))
  {
    hide MapItems, PushTo, Members, HasItem;
  }

  lemma SubscribeFrame(s: Mgr, name: string, acc: AccId)
    ensures Frame(s, SSubscribe(name, acc), Subscribe(s, name, acc))
  {
    hide Subscribe;
    SubscribeChanges(s, name, acc);
  }

  lemma SubscribeChanges(s: Mgr, name: string, acc: AccId)
    ensures var t := Subscribe(s, name, acc);
            t == s.(items := t.items, nextHandle := t.nextHandle, accs := t.accs, pubs := t.pubs)
  {
    hide FindName, InitialValue, Push, Newcomer, IndexOf, Names;
  }

  lemma UnsubscribeFrame(s: Mgr, name: string, acc: AccId)
    ensures Frame(s, SUnsubscribe(name, acc), Unsubscribe(s, name, acc))
  {
    hide Unsubscribe;
    UnsubscribeChanges(s, name, acc);
  }

  lemma UnsubscribeChanges(s: Mgr, name: string, acc: AccId)
    ensures Unsubscribe(s, name, acc)
         == s.(items := Unsubscribe(s, name, acc).items, index := Unsubscribe(s, name, acc).index)
  {
    hide FindName, RemoveFirst, IndexOf, Names;
  }

  lemma UnsubscribeItems(s: Mgr, name: string, acc: AccId)
    ensures var k, t := FindName(s.items, name), Unsubscribe(s, name, acc);
            if k == |s.items| then t.items == s.items && t.index == s.index
            else if |s.items[k].accessors| > 1 then
              && t.items == s.items[k := s.items[k].(accessors := RemoveFirst(s.items[k].accessors, acc))]
              && t.index == s.index
            else t.items == s.items[..k] + s.items[k + 1..] && t.index == s.index - {s.items[k].id}
  {
    hide FindName, RemoveFirst, IndexOf, Names;
  }

  // Nobody but the newcomer is touched.
  lemma SubscribeOthers(s: Mgr, name: string, acc: AccId)
    requires acc !in s.accs
    ensures var t := Subscribe(s, name, acc);
            t.accs.Keys == s.accs.Keys + {acc} && forall a :: a in s.accs ==> t.accs[a] == s.accs[a]
  {
    hide FindName, InitialValue, Push, Newcomer, IndexOf, Names;
  }

  // The newcomer starts empty or with one initial value.
  lemma SubscribeGets(s: Mgr, name: string, acc: AccId)
    ensures var t := Subscribe(s, name, acc);
            && acc in t.accs
            && (t.accs[acc] == Newcomer(t.accs[acc].home)
                || exists x: Sample :: x.v.hasValue && t.accs[acc] == Push(Newcomer(t.accs[acc].home), Data(x)))
  {
    hide FindName, Push, InitialValue, IndexOf, Names;
    PushHome();
  }

  lemma PopFrame(s: Mgr, acc: AccId)
    ensures Frame(s, SPop(acc), Pop(s, acc))
  {
  }

  lemma DirectFrame(s: Mgr, acc: AccId, payload: int)
    ensures Frame(s, SSyncRead(acc, payload), SyncRead(s, acc, payload))
    ensures Frame(s, SOverwrite(acc, payload), Overwrite(s, acc, payload))
  {
  }

  lemma MonitorFrame(s: Mgr, h: Handle, monId: MonId)
    ensures Frame(s, SMonitor(h, monId), Monitor(s, h, monId)) && Frame(s, SFlag(h), Flag(s, h))
    ensures Frame(s, SMark(h), Mark(s, h))
  {
    hide MapItems, HasItem;
  }

  lemma StepFrame(s: Mgr, st: Step)
    ensures Frame(s, st, Apply(s, st))
  {
    hide Frame, TestActive, PushPending, Fail, Flag, ActivateAll, DeactivateIndexed, Reset, Mark, Monitor, Subscribe,
         Unsubscribe, Pop, SyncRead, Overwrite, CreateSubscription, DeleteSubscription, ServerDropped;
    match st
    case STest(monId, v) => TestFrame(s, monId, v);
    case SPush(k) => PushFrame(s, k);
    case SSubscribe(name, acc) => SubscribeFrame(s, name, acc);
    case SUnsubscribe(name, acc) => UnsubscribeFrame(s, name, acc);
    case SPop(acc) => PopFrame(s, acc);
    case SSyncRead(acc, payload) => DirectFrame(s, acc, payload);
    case SOverwrite(acc, payload) => DirectFrame(s, acc, payload);
    case SFlag(h) => MonitorFrame(s, h, 0);
    case SMark(h) => MonitorFrame(s, h, 0);
    case SMonitor(h, monId) => MonitorFrame(s, h, monId);
    case _ => PlainFrame(s, st);
  }

  // The sections that change one or two fields.
  lemma PlainFrame(s: Mgr, st: Step)
    requires st.SFail? || st.SActivateAll? || st.SDeactivateIndexed? || st.SReset? || st.SAsync? || st.SInactive?
          || st.SCreate? || st.SDelete? || st.SDropped?
    ensures Frame(s, st, Apply(s, st))
  {
    hide MapItems, PushTo, Untold, TestActive, PushPending, Flag, Mark, Monitor, Subscribe, Unsubscribe, Pop, SyncRead,
         Overwrite;
  }

  // ----- accounting -----

  ghost predicate DistinctItems(items: seq<Item>) {
    forall i, j :: 0 <= i < j < |items| ==> items[i].handle != items[j].handle && items[i].name != items[j].name
  }

  ghost predicate DisjointLists(items: seq<Item>) {
    && (forall i :: 0 <= i < |items| ==> items[i].accessors != [] && NoDuplicates(items[i].accessors))
    && (forall i, j, a :: 0 <= i < |items| && 0 <= j < |items| && a in items[i].accessors && a in items[j].accessors ==> i == j)
  }

  ghost predicate AtHome(s: Mgr) {
    && (forall i :: 0 <= i < |s.items| ==> s.items[i].handle < s.nextHandle)
    && (forall i, a :: 0 <= i < |s.items| && a in s.items[i].accessors ==> a in s.accs && s.accs[a].home == s.items[i].handle)
    && (forall a :: a in s.accs ==> s.accs[a].home < s.nextHandle)
    && (forall h: Handle :: h in s.pubs <==> h < s.nextHandle)
  }

  ghost predicate Accounting(s: Mgr) {
    DistinctItems(s.items) && DisjointLists(s.items) && AtHome(s)
  }

  function Listed(items: seq<Item>): set<AccId> {
    set i, a | 0 <= i < |items| && a in items[i].accessors :: a
  }

  // Who is subscribed, read off the run alone.
  function Current(run: seq<Step>): set<AccId> {
    if run == [] then {}
    else
      var before := Current(run[..|run| - 1]);
      match run[|run| - 1]
      case SSubscribe(_, acc) => before + {acc}
      case SUnsubscribe(_, acc) => before - {acc}
      case _ => before
  }

  // A step that only touches flags, ids, queues and histories.
  ghost predicate SameShape(s: Mgr, t: Mgr) {
    && |s.items| == |t.items|
    && (forall i :: 0 <= i < |s.items| ==>
          s.items[i].handle == t.items[i].handle && s.items[i].name == t.items[i].name
          && s.items[i].accessors == t.items[i].accessors)
    && s.nextHandle == t.nextHandle
    && s.accs.Keys == t.accs.Keys
    && s.pubs.Keys == t.pubs.Keys
    && (forall a :: a in s.accs ==> t.accs[a].home == s.accs[a].home)
  }

  lemma ShapeAccounting(s: Mgr, t: Mgr)
    requires Accounting(s) && SameShape(s, t)
    ensures Accounting(t) && Listed(t.items) == Listed(s.items)
  {
  }

  lemma TestShape(s: Mgr, monId: MonId, v: Value)
    ensures SameShape(s, TestActive(s, monId, v))
  {
  }

  lemma PushShape(s: Mgr, k: nat)
    ensures SameShape(s, PushPending(s, k))
  {
    hide Members, MapItems, Push, PushTo, SameShape, PushOn;
    SelfShape(s);
    if k < |s.pending| {
      if Indexed(s, s.pending[k].monId) {
        PushOnShape(s, k, s.index[s.pending[k].monId]);
      } else {
        UnlistShape(s, k);
      }
    }
  }

  lemma UnlistShape(s: Mgr, k: nat)
    requires k < |s.pending|
    ensures SameShape(s, Unlist(s, k).(broken := true))
  {
  }

  lemma PushOnShape(s: Mgr, k: nat, h: Handle)
    requires k < |s.pending|
    ensures SameShape(s, PushOn(s, k, h))
  {
    hide Members, MapItems, Push;
    PushHome();
  }

  lemma PushHome()
    ensures forall a: Accessor, n :: Push(a, n).home == a.home
  {
  }

  lemma FailShape(s: Mgr)
    ensures SameShape(s, Fail(s))
  {
    hide MapItems, Untold, Push;
    PushHome();
  }

  lemma PutShape(s: Mgr, acc: AccId, a: Accessor)
    requires acc in s.accs && a.home == s.accs[acc].home
    ensures SameShape(s, s.(accs := s.accs[acc := a]))
  {
  }

  lemma ReadShape(s: Mgr, st: Step)
    requires st.SPop? || st.SSyncRead? || st.SOverwrite?
    ensures SameShape(s, Apply(s, st))
  {
    hide SameShape, TestActive, PushPending, Fail, Flag, ActivateAll, DeactivateIndexed, Reset, Mark, Monitor, Subscribe,
         Unsubscribe;
    var acc, t := st.acc, Apply(s, st);
    SelfShape(s);
    if acc in s.accs && t != s {
      PutShape(s, acc, t.accs[acc]);
    }
  }

  lemma SelfShape(s: Mgr)
    ensures SameShape(s, s)
  {
  }

  lemma StepShape(s: Mgr, st: Step)
    requires !st.SSubscribe? && !st.SUnsubscribe?
    ensures SameShape(s, Apply(s, st))
  {
    hide TestActive, PushPending, Fail, Flag, ActivateAll, DeactivateIndexed, Reset, Mark, Monitor, Pop, SyncRead, Overwrite,
         Subscribe, Unsubscribe;
    match st
    case STest(monId, v) => TestShape(s, monId, v);
    case SPush(k) => PushShape(s, k);
    case SFail => FailShape(s);
    case SPop(_) => ReadShape(s, st);
    case SSyncRead(_, _) => ReadShape(s, st);
    case SOverwrite(_, _) => ReadShape(s, st);
    case SFlag(h) => FlagShape(s, h);
    case SActivateAll => ActiveShape(s);
    case SDeactivateIndexed => ActiveShape(s);
    case SReset => MonitorShape(s, 0, 0);
    case SMark(h) => FlagShape(s, h);
    case SMonitor(h, monId) => MonitorShape(s, h, monId);
    case _ =>
  }

  lemma FlagShape(s: Mgr, h: Handle)
    ensures SameShape(s, Flag(s, h)) && SameShape(s, Mark(s, h))
  {
    hide MapItems, HasItem;
  }

  lemma ActiveShape(s: Mgr)
    ensures SameShape(s, ActivateAll(s)) && SameShape(s, DeactivateIndexed(s))
  {
    hide MapItems;
  }

  lemma MonitorShape(s: Mgr, h: Handle, monId: MonId)
    ensures SameShape(s, Reset(s)) && SameShape(s, Monitor(s, h, monId))
  {
    hide MapItems, HasItem;
  }

  // ----- subscribing and unsubscribing -----

  lemma AppendOne(items: seq<Item>, it: Item)
    requires DistinctItems(items) && DisjointLists(items)
    requires forall k :: 0 <= k < |items| ==> items[k].handle != it.handle && items[k].name != it.name
    requires |it.accessors| == 1 && it.accessors[0] !in Listed(items)
    ensures DistinctItems(items + [it]) && DisjointLists(items + [it])
    ensures Listed(items + [it]) == Listed(items) + {it.accessors[0]}
  {
    var t := items + [it];
    assert forall k :: 0 <= k < |items| ==> t[k] == items[k];
    assert t[|items|] == it;
    forall a | a in Listed(items) + {it.accessors[0]} ensures a in Listed(t) {
      if a in Listed(items) {
        var k :| 0 <= k < |items| && a in items[k].accessors;
        assert a in t[k].accessors;
      } else {
        assert a in t[|items|].accessors;
      }
    }
  }

  lemma RemoveOne(items: seq<Item>, i: nat)
    requires DistinctItems(items) && DisjointLists(items)
    requires i < |items| && |items[i].accessors| == 1
    ensures DistinctItems(items[..i] + items[i + 1..]) && DisjointLists(items[..i] + items[i + 1..])
    ensures Listed(items[..i] + items[i + 1..]) == Listed(items) - {items[i].accessors[0]}
  {
    var t := items[..i] + items[i + 1..];
    assert forall k :: 0 <= k < |t| ==> t[k] == items[if k < i then k else k + 1];
    RemoveOneListed(items, i, t);
  }

  lemma RemoveOneListed(items: seq<Item>, i: nat, t: seq<Item>)
    requires DisjointLists(items) && i < |items| && |items[i].accessors| == 1 && |t| == |items| - 1
    requires forall k :: 0 <= k < |t| ==> t[k] == items[if k < i then k else k + 1]
    ensures Listed(t) == Listed(items) - {items[i].accessors[0]}
  {
    var gone := items[i].accessors[0];
    forall x | x in Listed(items) && x != gone ensures x in Listed(t) {
      var k :| 0 <= k < |items| && x in items[k].accessors;
      assert t[if k < i then k else k - 1] == items[k];
    }
    forall x | x in Listed(t) ensures x in Listed(items) && x != gone {
      var k :| 0 <= k < |t| && x in t[k].accessors;
      assert x in items[if k < i then k else k + 1].accessors;
    }
  }

  lemma RemovedMembers(items: seq<Item>, i: nat)
    requires DistinctItems(items) && i < |items|
    ensures forall it :: it in items[..i] + items[i + 1..] <==> it in items && it != items[i]
  {
  }

  lemma AppendItem(s: Mgr, name: string, acc: AccId)
    requires Accounting(s) && acc !in s.accs && FindName(s.items, name) == |s.items|
    ensures Accounting(Subscribe(s, name, acc))
    ensures Listed(Subscribe(s, name, acc).items) == Listed(s.items) + {acc}
  {
    var t := Subscribe(s, name, acc);
    AppendOne(s.items, t.items[|s.items|]);
  }

  lemma AppendAccessor(s: Mgr, name: string, acc: AccId)
    requires Accounting(s) && acc !in s.accs && FindName(s.items, name) < |s.items|
    ensures Accounting(Subscribe(s, name, acc))
    ensures Listed(Subscribe(s, name, acc).items) == Listed(s.items) + {acc}
  {
    hide Listed, InitialValue, Push;
    var t := Subscribe(s, name, acc);
    var i := FindName(s.items, name);
    assert t.items[i].accessors == s.items[i].accessors + [acc];
    assert forall k :: 0 <= k < |s.items| && k != i ==> t.items[k] == s.items[k];
    assert forall k :: 0 <= k < |s.items| ==> acc !in s.items[k].accessors;
    ReplaceList(s.items, i, t.items, {acc}, {});
    AppendAtHome(s, name, acc);
  }

  lemma AppendAtHome(s: Mgr, name: string, acc: AccId)
    requires AtHome(s) && acc !in s.accs && FindName(s.items, name) < |s.items|
    ensures AtHome(Subscribe(s, name, acc))
  {
    hide InitialValue, DistinctItems, DisjointLists;
    var t := Subscribe(s, name, acc);
    var i := FindName(s.items, name);
    assert t.accs[acc].home == s.items[i].handle;
    forall k, a | 0 <= k < |t.items| && a in t.items[k].accessors
      ensures a in t.accs && t.accs[a].home == t.items[k].handle
    {
      assert k != i ==> t.items[k] == s.items[k];
      assert a != acc ==> a in s.items[k].accessors;
      assert k != i ==> acc !in s.items[k].accessors;
    }
  }

  // Replacing the list of item i by one with the same members, plus new ones, minus some.
  lemma ReplaceList(items: seq<Item>, i: nat, items': seq<Item>, added: set<AccId>, removed: set<AccId>)
    requires DistinctItems(items) && DisjointLists(items)
    requires i < |items| == |items'|
    requires forall k :: 0 <= k < |items| && k != i ==> items'[k] == items[k]
    requires items'[i].handle == items[i].handle && items'[i].name == items[i].name
    requires forall k :: 0 <= k < |items| ==> forall a :: a in added ==> a !in items[k].accessors
    requires forall a :: a in removed ==> a in items[i].accessors
    requires items'[i].accessors != [] && NoDuplicates(items'[i].accessors)
    requires forall a :: a in items'[i].accessors <==> (a in items[i].accessors || a in added) && a !in removed
    ensures DistinctItems(items') && DisjointLists(items')
    ensures Listed(items') == Listed(items) + added - removed
  {
  }

  lemma RemoveFirstMembers(l: seq<AccId>, a: AccId)
    requires NoDuplicates(l)
    ensures NoDuplicates(RemoveFirst(l, a))
    ensures forall x :: x in RemoveFirst(l, a) <==> x in l && x != a
    ensures a in l ==> |RemoveFirst(l, a)| == |l| - 1
  {
  }

  lemma DropAccessor(s: Mgr, name: string, acc: AccId)
    requires Accounting(s) && Disciplined(s, SUnsubscribe(name, acc))
    requires |s.items[FindName(s.items, name)].accessors| > 1
    ensures Accounting(Unsubscribe(s, name, acc))
    ensures Listed(Unsubscribe(s, name, acc).items) == Listed(s.items) - {acc}
  {
    hide RemoveFirst, IndexOf, Listed;
    var t := Unsubscribe(s, name, acc);
    var i := FindName(s.items, name);
    RemoveFirstMembers(s.items[i].accessors, acc);
    ReplaceList(s.items, i, t.items, {}, {acc});
    assert AtHome(t) by {
      assert forall k, a :: 0 <= k < |t.items| && a in t.items[k].accessors ==> a in s.items[k].accessors;
    }
  }

  lemma FewerItems(s: Mgr, t: Mgr)
    requires AtHome(s) && t.accs == s.accs && t.pubs == s.pubs && t.nextHandle == s.nextHandle
    requires forall it :: it in t.items ==> it in s.items
    ensures AtHome(t)
  {
    forall k | 0 <= k < |t.items| ensures t.items[k].handle < t.nextHandle {
      assert t.items[k] in t.items;
    }
    forall k, a | 0 <= k < |t.items| && a in t.items[k].accessors
      ensures a in t.accs && t.accs[a].home == t.items[k].handle
    {
      assert t.items[k] in t.items;
    }
  }

  lemma DropItem(s: Mgr, name: string, acc: AccId)
    requires Accounting(s) && Disciplined(s, SUnsubscribe(name, acc))
    requires |s.items[FindName(s.items, name)].accessors| == 1
    ensures Accounting(Unsubscribe(s, name, acc))
    ensures Listed(Unsubscribe(s, name, acc).items) == Listed(s.items) - {acc}
  {
    var t := Unsubscribe(s, name, acc);
    var i := FindName(s.items, name);
    RemoveOne(s.items, i);
    assert acc == s.items[i].accessors[0];
    FewerItems(s, t);
  }

  lemma StepAccounting(s: Mgr, st: Step)
    requires Accounting(s) && Disciplined(s, st)
    ensures Accounting(Apply(s, st))
    ensures Listed(Apply(s, st).items) ==
            match st
            case SSubscribe(_, acc) => Listed(s.items) + {acc}
            case SUnsubscribe(_, acc) => Listed(s.items) - {acc}
            case _ => Listed(s.items)
  {
    hide Accounting, SameShape, Subscribe, Unsubscribe, Listed, TestActive, PushPending, Fail, Flag, ActivateAll, DeactivateIndexed,
         Reset, Mark, Monitor, Pop, SyncRead, Overwrite;
    match st
    case SSubscribe(name, acc) =>
      if FindName(s.items, name) == |s.items| { AppendItem(s, name, acc); } else { AppendAccessor(s, name, acc); }
    case SUnsubscribe(name, acc) =>
      if |s.items[FindName(s.items, name)].accessors| > 1 { DropAccessor(s, name, acc); } else { DropItem(s, name, acc); }
    case _ =>
      StepShape(s, st);
      ShapeAccounting(s, Apply(s, st));
  }

  lemma InitAccounting()
    ensures Accounting(INIT) && Listed(INIT.items) == {}
  {
  }

  // In every disciplined run: item names are distinct, no item is without accessors, and the lists of
  // the items partition exactly the accessors that are subscribed at that point of the run.
  lemma {:induction false} RunAccounting(run: seq<Step>)
    requires Along(INIT, run, Disciplined)
    ensures Accounting(Exec(INIT, run))
    ensures Listed(Exec(INIT, run).items) == Current(run)
  {
    hide Apply, Accounting;
    if run == [] {
      InitAccounting();
    } else {
      AlongPrefix(INIT, run, Disciplined);
      RunAccounting(run[..|run| - 1]);
      StepAccounting(Exec(INIT, run[..|run| - 1]), run[|run| - 1]);
    }
  }
}
