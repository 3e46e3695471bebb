// When a section uses an item or an index entry that is gone, told by what happened before in the run.
module SubscriptionHandlers {
  import opened Common
  import opened SubscriptionState
  import opened SubscriptionRuns
  import opened SubscriptionIndex
  import opened SubscriptionListing

  // ----- what happens to an index entry -----

  // The step takes the entry of monId out of the index.
  predicate Removes(s: Mgr, st: Step, monId: MonId) {
    match st
    case SReset => true
    case SUnsubscribe(name, _) =>
      var i := FindName(s.items, name);
      i < |s.items| && |s.items[i].accessors| <= 1 && s.items[i].id == monId
    case _ => false
  }

  predicate Issues(st: Step, monId: MonId) { st.SMonitor? && st.monId == monId }

  predicate Entry(s: Mgr, monId: MonId, h: Handle) { monId in s.index && s.index[monId] == h }

  lemma StepEntry(s: Mgr, st: Step, monId: MonId, h: Handle)
    ensures Entry(Apply(s, st), monId, h) <==>
            st == SMonitor(h, monId) || (Entry(s, monId, h) && !Issues(st, monId) && !Removes(s, st, monId))
    ensures monId in Apply(s, st).index <==> Issues(st, monId) || (monId in s.index && !Removes(s, st, monId))
  {
    hide Subscribe, Unsubscribe, Monitor, Reset, TestActive, PushPending, Fail, Flag, ActivateAll, DeactivateIndexed, Mark,
         Pop, SyncRead, Overwrite;
    match st
    case SSubscribe(name, acc) => SubscribeEntries(s, name, acc);
    case SUnsubscribe(name, acc) => UnsubscribeEntries(s, name, acc);
    case SMonitor(h, id) => MonitorEntries(s, h, id);
    case SReset => ResetEntries(s);
    case _ => StepSameIndexing(s, st);
  }

  lemma SubscribeEntries(s: Mgr, name: string, acc: AccId)
    ensures Subscribe(s, name, acc).index == s.index
  {
    SubscribeFrame(s, name, acc);
  }

  lemma UnsubscribeEntries(s: Mgr, name: string, acc: AccId)
    ensures var t := Unsubscribe(s, name, acc).index;
            forall k :: (k in t <==> k in s.index && !Removes(s, SUnsubscribe(name, acc), k)) && (k in t ==> t[k] == s.index[k])
  {
    hide Unsubscribe, RemoveFirst, FindName;
    UnsubscribeItems(s, name, acc);
  }

  lemma MonitorEntries(s: Mgr, h: Handle, monId: MonId)
    ensures Monitor(s, h, monId).index == s.index[monId := h]
  {
  }

  lemma ResetEntries(s: Mgr)
    ensures Reset(s).index == map[]
  {
  }

  // From position i on, step j removed the entry, and no later one put it back.
  ghost predicate RemovedSince(s: Mgr, run: seq<Step>, i: nat, monId: MonId, j: nat) {
    && i <= j < |run| && Removes(Exec(s, run[..j]), run[j], monId)
    && forall m :: j < m < |run| ==> !Issues(run[m], monId)
  }

  lemma RemovedSinceSnoc(s: Mgr, run: seq<Step>, i: nat, monId: MonId)
    requires i < |run|
    ensures var before, st := run[..|run| - 1], run[|run| - 1];
            (exists j: nat :: RemovedSince(s, run, i, monId, j))
            <==> Removes(Exec(s, before), st, monId) || (!Issues(st, monId) && exists j: nat :: RemovedSince(s, before, i, monId, j))
  {
    hide Removes, Issues, Exec;
    var n := |run| - 1;
    var before := run[..n];
    assert forall j :: 0 <= j < n ==> before[..j] == run[..j];
    if j: nat :| RemovedSince(s, run, i, monId, j) {
      if j < n { assert RemovedSince(s, before, i, monId, j); }
    }
    if Removes(Exec(s, before), run[n], monId) {
      assert RemovedSince(s, run, i, monId, n);
    }
    if j: nat :| RemovedSince(s, before, i, monId, j) {
      if !Issues(run[n], monId) { assert RemovedSince(s, run, i, monId, j); }
    }
  }

  // An entry that was there at position i is gone at the end exactly when a reset, or an unsubscribe of the item with
  // that id, took it out since and no creation has put it back.
  lemma {:induction false} EntryGoneExactly(s: Mgr, run: seq<Step>, i: nat, monId: MonId)
    requires i <= |run| && monId in Exec(s, run[..i]).index
    ensures monId !in Exec(s, run).index <==> exists j: nat :: RemovedSince(s, run, i, monId, j)
  {
    hide Apply, RemovedSince;
    if i == |run| {
      assert run[..i] == run;
      NothingRemoved(s, run, monId);
    } else {
      var before := run[..|run| - 1];
      assert before[..i] == run[..i];
      EntryGoneExactly(s, before, i, monId);
      StepEntry(Exec(s, before), run[|run| - 1], monId, 0);
      RemovedSinceSnoc(s, run, i, monId);
    }
  }

  lemma NothingRemoved(s: Mgr, run: seq<Step>, monId: MonId)
    ensures forall j: nat :: !RemovedSince(s, run, |run|, monId, j)
  {
  }

  // Step i issued monId for item h, and this was neither issued again nor taken out since.
  ghost predicate IssuedFor(run: seq<Step>, monId: MonId, h: Handle, i: nat) {
    && i < |run| && run[i] == SMonitor(h, monId)
    && forall m :: i < m < |run| ==> !Issues(run[m], monId) && !Removes(Exec(INIT, run[..m]), run[m], monId)
  }

  ghost predicate PointsTo(run: seq<Step>, monId: MonId, h: Handle) { exists i: nat :: IssuedFor(run, monId, h, i) }

  lemma PointsToSnoc(run: seq<Step>, monId: MonId, h: Handle)
    requires run != []
    ensures var before, st := run[..|run| - 1], run[|run| - 1];
            PointsTo(run, monId, h) <==>
            st == SMonitor(h, monId)
            || (PointsTo(before, monId, h) && !Issues(st, monId) && !Removes(Exec(INIT, before), st, monId))
  {
    hide Removes, Issues, Exec;
    var n := |run| - 1;
    var before := run[..n];
    assert forall j :: 0 <= j < n ==> before[..j] == run[..j];
    if i: nat :| IssuedFor(run, monId, h, i) {
      if i < n { assert IssuedFor(before, monId, h, i); }
    }
    if run[n] == SMonitor(h, monId) {
      assert IssuedFor(run, monId, h, n);
    }
    if i: nat :| IssuedFor(before, monId, h, i) {
      if !Issues(run[n], monId) && !Removes(Exec(INIT, before), run[n], monId) { assert IssuedFor(run, monId, h, i); }
    }
  }

  // The index is what the creations of the run have left in it.
  lemma {:induction false} EntryExactly(run: seq<Step>, monId: MonId, h: Handle)
    ensures Entry(Exec(INIT, run), monId, h) <==> PointsTo(run, monId, h)
  {
    hide Apply, PointsTo;
    if run == [] {
      NothingIssuedYet(monId, h);
    } else {
      var before := run[..|run| - 1];
      EntryExactly(before, monId, h);
      StepEntry(Exec(INIT, before), run[|run| - 1], monId, h);
      PointsToSnoc(run, monId, h);
    }
  }

  lemma NothingIssuedYet(monId: MonId, h: Handle)
    ensures !PointsTo([], monId, h)
  {
  }

  // ----- what happens to an item -----

  predicate Creates(s: Mgr, st: Step, h: Handle) {
    st.SSubscribe? && FindName(s.items, st.name) == |s.items| && s.nextHandle == h
  }

  predicate Erases(s: Mgr, st: Step, h: Handle) {
    && st.SUnsubscribe?
    && var i := FindName(s.items, st.name); i < |s.items| && |s.items[i].accessors| <= 1 && s.items[i].handle == h
  }

  ghost predicate CreatedAt(run: seq<Step>, h: Handle, i: nat) {
    i < |run| && Creates(Exec(INIT, run[..i]), run[i], h)
  }

  ghost predicate ErasedAt(run: seq<Step>, h: Handle, i: nat) {
    i < |run| && Erases(Exec(INIT, run[..i]), run[i], h)
  }

  // No subscribe has made item h, or an unsubscribe has erased it.
  ghost predicate Gone(run: seq<Step>, h: Handle) {
    !(exists i: nat :: CreatedAt(run, h, i)) || exists i: nat :: ErasedAt(run, h, i)
  }

  lemma EventsSnoc(run: seq<Step>, h: Handle)
    requires run != []
    ensures var before, st := run[..|run| - 1], run[|run| - 1];
            && ((exists i: nat :: CreatedAt(run, h, i)) <==> Creates(Exec(INIT, before), st, h) || exists i: nat :: CreatedAt(before, h, i))
            && ((exists i: nat :: ErasedAt(run, h, i)) <==> Erases(Exec(INIT, before), st, h) || exists i: nat :: ErasedAt(before, h, i))
  {
    hide Creates, Erases, Exec;
    var n := |run| - 1;
    var before := run[..n];
    assert forall j :: 0 <= j < n ==> before[..j] == run[..j];
    assert before == run[..n];
    assert forall i: nat :: i < n ==> (CreatedAt(run, h, i) <==> CreatedAt(before, h, i));
    assert forall i: nat :: i < n ==> (ErasedAt(run, h, i) <==> ErasedAt(before, h, i));
    assert forall i: nat :: CreatedAt(before, h, i) || ErasedAt(before, h, i) ==> i < n;
    assert CreatedAt(run, h, n) <==> Creates(Exec(INIT, before), run[n], h);
    assert ErasedAt(run, h, n) <==> Erases(Exec(INIT, before), run[n], h);
  }

  lemma StepItem(s: Mgr, st: Step, h: Handle)
    requires Accounting(s) && Disciplined(s, st)
    ensures HasItem(Apply(s, st).items, h) <==> Creates(s, st, h) || (HasItem(s.items, h) && !Erases(s, st, h))
    ensures h < Apply(s, st).nextHandle <==> Creates(s, st, h) || h < s.nextHandle
  {
    hide Accounting, HasItem, FindName, SameShape, Subscribe, Unsubscribe, Monitor, Reset, TestActive, PushPending,
         Fail, Flag, ActivateAll, DeactivateIndexed, Mark, Pop, SyncRead, Overwrite;
    match st
    case SSubscribe(name, acc) =>
      SubscribeHandles(s, name, acc);
      SubscribeNext(s, name, acc);
    case SUnsubscribe(name, acc) =>
      AccountedItems(s);
      UnsubscribeFrame(s, name, acc);
      if |s.items[FindName(s.items, name)].accessors| <= 1 {
        EraseHandles(s, name, acc);
      } else {
        DropHandles(s, name, acc);
      }
    case _ =>
      StepFrame(s, st);
      StepShape(s, st);
      ShapeHandles(s, Apply(s, st));
  }

  lemma SubscribeNext(s: Mgr, name: string, acc: AccId)
    ensures Subscribe(s, name, acc).nextHandle == s.nextHandle + (if FindName(s.items, name) == |s.items| then 1 else 0)
  {
    hide FindName, InitialValue, Push, Newcomer;
  }

  lemma ItemBelow(s: Mgr, h: Handle)
    requires Accounting(s) && HasItem(s.items, h)
    ensures h < s.nextHandle
  {
  }

  // An item is on the list exactly when some subscribe made it and no unsubscribe has erased it.
  lemma {:induction false} PresentExactly(run: seq<Step>, h: Handle)
    requires Along(INIT, run, Disciplined)
    ensures HasItem(Exec(INIT, run).items, h) <==> !Gone(run, h)
    ensures h < Exec(INIT, run).nextHandle <==> exists i: nat :: CreatedAt(run, h, i)
    ensures (exists i: nat :: ErasedAt(run, h, i)) ==> h < Exec(INIT, run).nextHandle
  {
    hide Apply, Accounting, Disciplined, HasItem, CreatedAt, ErasedAt, Erases;
    if run == [] {
      NothingThere(h);
    } else {
      var before, st := run[..|run| - 1], run[|run| - 1];
      AlongPrefix(INIT, run, Disciplined);
      RunAccounting(before);
      PresentExactly(before, h);
      EventsSnoc(run, h);
      StepItem(Exec(INIT, before), st, h);
      ErasedWasThere(Exec(INIT, before), st, h);
      if HasItem(Exec(INIT, before).items, h) {
        ItemBelow(Exec(INIT, before), h);
      }
    }
  }

  lemma ErasedWasThere(s: Mgr, st: Step, h: Handle)
    ensures Erases(s, st, h) ==> HasItem(s.items, h) && !Creates(s, st, h)
  {
  }

  lemma NothingThere(h: Handle)
    ensures !HasItem(INIT.items, h) && INIT.nextHandle == 0 && forall i: nat :: !CreatedAt([], h, i) && !ErasedAt([], h, i)
  {
  }

  // ----- where a pending handler comes from -----

  // At step i handler p has passed its test.
  ghost predicate TestedAt(run: seq<Step>, p: Handler, i: nat) {
    && i < |run| && run[i] == STest(p.monId, p.sample.v)
    && var s := Exec(INIT, run[..i]); Apply(s, run[i]).pending == s.pending + [p]
  }

  lemma TestedEarlier(run: seq<Step>, p: Handler, i: nat)
    requires run != [] && TestedAt(run[..|run| - 1], p, i)
    ensures TestedAt(run, p, i)
  {
    hide Exec, Apply;
    assert run[..|run| - 1][..i] == run[..i];
  }

  lemma TestPasses(s: Mgr, monId: MonId, v: Value, p: Handler)
    requires p in TestActive(s, monId, v).pending && p !in s.pending
    ensures p.monId == monId && p.sample.v == v && TestActive(s, monId, v).pending == s.pending + [p]
  {
    hide HasItem, IsActive;
  }

  lemma TestedIndexed(run: seq<Step>, p: Handler, i: nat)
    requires TestedAt(run, p, i)
    ensures p.monId in Exec(INIT, run[..i]).index && p.monId in Exec(INIT, run[..i + 1]).index
  {
    hide HasItem, IsActive, Exec;
    var s := Exec(INIT, run[..i]);
    ExecNext(INIT, run, i);
    assert |s.pending + [p]| == |s.pending| + 1;
    assert p.monId in s.index;
    TestIndex(s, p.monId, p.sample.v);
  }

  lemma TestIndex(s: Mgr, monId: MonId, v: Value)
    ensures TestActive(s, monId, v).index == s.index
  {
    TestFrame(s, monId, v);
  }

  lemma StepPendings(s: Mgr, st: Step, p: Handler)
    requires p in Apply(s, st).pending && p !in s.pending
    ensures st == STest(p.monId, p.sample.v) && Apply(s, st).pending == s.pending + [p]
  {
    hide TestActive, PushPending, Fail, Flag, ActivateAll, DeactivateIndexed, Reset, Mark, Monitor, Subscribe, Unsubscribe,
         Pop, SyncRead, Overwrite;
    StepFrame(s, st);
    match st
    case STest(monId, v) => TestPasses(s, monId, v, p);
    case SPush(k) => PushShrinks(s, k, p);
    case _ =>
  }

  lemma PushShrinks(s: Mgr, k: nat, p: Handler)
    ensures p in PushPending(s, k).pending ==> p in s.pending
  {
    hide HasItem, MapItems, PushTo, Members;
  }

  lemma {:induction false} PendingTested(run: seq<Step>, p: Handler)
    requires p in Exec(INIT, run).pending
    ensures exists i: nat :: TestedAt(run, p, i)
  {
    hide Apply;
    if run == [] {
    } else {
      var before, st := run[..|run| - 1], run[|run| - 1];
      if p in Exec(INIT, before).pending {
        PendingTested(before, p);
        var i: nat :| TestedAt(before, p, i);
        TestedEarlier(run, p, i);
      } else {
        StepPendings(Exec(INIT, before), st, p);
        assert TestedAt(run, p, |run| - 1);
      }
    }
  }

  // ----- using what is gone -----

  // The entry of pending handler k was removed after its test, and not put back.
  ghost predicate LatePush(run: seq<Step>, k: nat) {
    k < |Exec(INIT, run).pending| && exists i: nat, j: nat :: LostAt(run, Exec(INIT, run).pending[k], i, j)
  }

  ghost predicate LostAt(run: seq<Step>, p: Handler, i: nat, j: nat) {
    TestedAt(run, p, i) && RemovedSince(INIT, run, i + 1, p.monId, j)
  }

  // A handler that passed its test no longer finds its id exactly then.
  lemma LatePushExactly(run: seq<Step>, k: nat)
    requires k < |Exec(INIT, run).pending|
    ensures Exec(INIT, run).pending[k].monId !in Exec(INIT, run).index <==> LatePush(run, k)
  {
    hide Exec, TestedAt, RemovedSince;
    var p := Exec(INIT, run).pending[k];
    PendingTested(run, p);
    var i: nat :| TestedAt(run, p, i);
    TestedInside(run, p, i);
    TestedIndexed(run, p, i);
    EntryGoneExactly(INIT, run, i + 1, p.monId);
    var from := i + 1;
    if j: nat :| RemovedSince(INIT, run, from, p.monId, j) {
      assert LostAt(run, p, i, j);
    }
    if LatePush(run, k) {
      var m: nat, j: nat :| LostAt(run, p, m, j);
      TestedInside(run, p, m);
      TestedIndexed(run, p, m);
      EntryGoneExactly(INIT, run, m + 1, p.monId);
    }
  }

  lemma TestedInside(run: seq<Step>, p: Handler, i: nat)
    requires TestedAt(run, p, i)
    ensures i < |run|
  {
  }

  // The index holds monId for an item that is gone.
  ghost predicate Stray(run: seq<Step>, monId: MonId) { exists h :: PointsTo(run, monId, h) && Gone(run, h) }

  lemma StrayExactly(run: seq<Step>, monId: MonId)
    requires Along(INIT, run, Disciplined)
    ensures var s := Exec(INIT, run); monId in s.index && !HasItem(s.items, s.index[monId]) <==> Stray(run, monId)
  {
    hide Exec, Along, PointsTo, Gone, HasItem;
    var s := Exec(INIT, run);
    if monId in s.index {
      EntryExactly(run, monId, s.index[monId]);
      PresentExactly(run, s.index[monId]);
    }
    if h :| PointsTo(run, monId, h) && Gone(run, h) {
      EntryExactly(run, monId, h);
      PresentExactly(run, h);
    }
  }

  // What step st, made after the run, finds to be gone.
  ghost predicate UsesGone(run: seq<Step>, st: Step) {
    match st
    case STest(monId, _) => Stray(run, monId)
    case SPush(k) => LatePush(run, k) || (k < |Exec(INIT, run).pending| && Stray(run, Exec(INIT, run).pending[k].monId))
    case SDeactivateIndexed => exists monId :: Stray(run, monId)
    case SMonitor(h, _) => Gone(run, h)
    case SFlag(h) => Gone(run, h)
    case _ => false
  }

  lemma StepBreaks(run: seq<Step>, st: Step)
    requires Along(INIT, run, Disciplined)
    ensures Apply(Exec(INIT, run), st).broken <==> Exec(INIT, run).broken || UsesGone(run, st)
  {
    hide Exec, Along, Accounting, Stray, LatePush, Gone, TestActive, PushPending, Fail, Flag, ActivateAll, DeactivateIndexed,
         Reset, Mark, Monitor, Subscribe, Unsubscribe, Pop, SyncRead, Overwrite, HasItem;
    var s := Exec(INIT, run);
    match st
    case STest(monId, v) =>
      RunAccounting(run);
      TestBreaks(s, monId, v);
      StrayExactly(run, monId);
    case SPush(k) =>
      PushBreaks(s, k);
      if k < |s.pending| {
        LatePushExactly(run, k);
        StrayExactly(run, s.pending[k].monId);
      } else {
        NoLatePush(run, k);
      }
    case SDeactivateIndexed =>
      DeactivateBreaks(s);
      forall monId ensures monId in s.index && !Indexed(s, monId) <==> Stray(run, monId) {
        StrayExactly(run, monId);
      }
    case SMonitor(h, monId) =>
      MonitorBreaks(s, h, monId);
      PresentExactly(run, h);
    case SFlag(h) =>
      FlagBreaks(s, h);
      PresentExactly(run, h);
    case _ => StepFrame(s, st);
  }

  lemma NoLatePush(run: seq<Step>, k: nat)
    requires k >= |Exec(INIT, run).pending|
    ensures !LatePush(run, k)
  {
  }

  lemma TestBreaks(s: Mgr, monId: MonId, v: Value)
    requires Accounting(s)
    ensures TestActive(s, monId, v).broken <==> s.broken || (monId in s.index && !HasItem(s.items, s.index[monId]))
  {
    hide IsActive, DistinctItems, DisjointLists;
  }

  lemma PushBreaks(s: Mgr, k: nat)
    ensures PushPending(s, k).broken <==> s.broken || (k < |s.pending| && !Indexed(s, s.pending[k].monId))
  {
    hide PushTo, Members, MapItems, HasItem;
  }

  lemma DeactivateBreaks(s: Mgr)
    ensures DeactivateIndexed(s).broken <==> s.broken || exists k :: k in s.index && !Indexed(s, k)
  {
    hide HasItem, MapItems;
  }

  lemma MonitorBreaks(s: Mgr, h: Handle, monId: MonId)
    ensures Monitor(s, h, monId).broken <==> s.broken || !HasItem(s.items, h)
  {
    hide HasItem, MapItems;
  }

  lemma FlagBreaks(s: Mgr, h: Handle)
    ensures Flag(s, h).broken <==> s.broken || !HasItem(s.items, h)
  {
    hide HasItem, MapItems;
  }

  ghost predicate UsesGoneAt(run: seq<Step>, j: nat) { j < |run| && UsesGone(run[..j], run[j]) }

  lemma UsesGoneSnoc(run: seq<Step>)
    requires run != []
    ensures var before := run[..|run| - 1];
            (exists j: nat :: UsesGoneAt(run, j)) <==> UsesGone(before, run[|run| - 1]) || exists j: nat :: UsesGoneAt(before, j)
  {
    hide UsesGone;
    var n := |run| - 1;
    var before := run[..n];
    assert forall j :: 0 <= j < n ==> before[..j] == run[..j];
    if j: nat :| UsesGoneAt(run, j) {
      if j < n { assert UsesGoneAt(before, j); }
    }
    if UsesGone(before, run[n]) {
      assert UsesGoneAt(run, n);
    }
    if j: nat :| UsesGoneAt(before, j) {
      assert UsesGoneAt(run, j);
    }
  }

  // Over every run: something that is gone is used exactly when a handler pushes after its entry was removed, when a
  // handler or deactivate follows an id that was issued for an item since erased, when a creation completes on an erased
  // item, or when an erased item is flagged.
  lemma {:induction false} BrokenExactly(run: seq<Step>)
    requires Along(INIT, run, Disciplined)
    ensures Exec(INIT, run).broken <==> exists j: nat :: UsesGoneAt(run, j)
  {
    hide Apply, Disciplined, UsesGone, UsesGoneAt;
    if run == [] {
      NothingUsed();
    } else {
      AlongPrefix(INIT, run, Disciplined);
      BrokenExactly(run[..|run| - 1]);
      StepBreaks(run[..|run| - 1], run[|run| - 1]);
      UsesGoneSnoc(run);
    }
  }

  lemma NothingUsed()
    ensures !Exec(INIT, []).broken && forall j: nat :: !UsesGoneAt([], j)
  {
  }

  // ----- while no entry names an erased item -----

  ghost predicate LateAt(run: seq<Step>, j: nat) {
    && j < |run|
    && match run[j]
       case SPush(k) => LatePush(run[..j], k)
       case SFlag(h) => Gone(run[..j], h)
       case _ => false
  }

  lemma ListedUses(run: seq<Step>, j: nat)
    requires Along(INIT, run, Disciplined) && Along(INIT, run, KeepsListed) && j < |run|
    ensures UsesGoneAt(run, j) <==> LateAt(run, j)
  {
    hide Apply, Exec, Disciplined, LatePush, Gone, Stray, HasItem;
    var before := run[..j];
    var s := Exec(INIT, before);
    AlongUpTo(INIT, run, Disciplined, j);
    RunListedExactly(run);
    assert AllListed(s) && KeepsListed(s, run[j]);
    forall monId ensures !Stray(before, monId) {
      StrayExactly(before, monId);
    }
    if run[j].SMonitor? {
      PresentExactly(before, run[j].h);
    }
  }

  // Then only a push after its entry was removed, and the flagging of an erased item, are left.
  lemma ListedBrokenExactly(run: seq<Step>)
    requires Along(INIT, run, Disciplined) && Along(INIT, run, KeepsListed)
    ensures Exec(INIT, run).broken <==> exists j: nat :: LateAt(run, j)
  {
    hide Exec, Along, UsesGone;
    BrokenExactly(run);
    forall j: nat | j < |run| ensures UsesGoneAt(run, j) <==> LateAt(run, j) {
      ListedUses(run, j);
    }
  }
}
