// When a callback cannot lose the client thread under its feet.
//
// _run implies that a client thread exists. A callback tests _run and later, inside deactivate(), tests the
// thread; in between another thread can have joined the client thread and cleared the pointer. If joins complete
// only while the client lock is free, that never happens, and no run of the backend gets stuck.
module LockCallbacks {
  import opened Common
  import opened LockModel
  import opened LockSafety
  import opened LockRuns

  // A step relocks a thread exactly when deactivate(), called back under the client lock, finds no thread.
  lemma RelockExactly(s: State, t: nat, choice: nat)
    requires LockInv(s) && CanStep(s, t)
    ensures Relocked(Step(s, t, choice).threads[t]) <==> Orphaned(s, t)
  {
    hide Ordered, Expand;
    var th := s.threads[t];
    var i, k := th.cont.head, th.cont.rest;
    if Relocked(th) {
      RelockedIsStuck(s, t);
    }
    assert ThreadOk(th);
    Unfold(i, k, th.held);
    if Orphaned(s, t) {
      OrphanExpands(k, th.held, s.sh, choice);
    } else {
      StepStaysOrdered(s, t, choice);
      var n := Step(s, t, choice).threads[t];
      if n.cont.Then? {
        Unfold(n.cont.head, n.cont.rest, n.held);
      }
    }
  }

  lemma StepStaysOrdered(s: State, t: nat, choice: nat)
    requires LockInv(s) && CanStep(s, t) && !Orphaned(s, t)
    ensures Ordered(Step(s, t, choice).threads[t].cont, Step(s, t, choice).threads[t].held)
  {
    hide Ordered, Expand;
    var th := s.threads[t];
    if Relocked(th) {
      RelockedIsStuck(s, t);
    }
    assert ThreadOk(th);
    Unfold(th.cont.head, th.cont.rest, th.held);
    if Compound(th.cont.head) && !th.cont.head.Start? {
      ExpandOrdered(th.cont.head, th.cont.rest, th.held, s.sh, choice);
    }
  }

  // A relocked thread stays where it is for ever, and keeps the client lock.
  lemma {:induction false} RelockedForEver(states: seq<State>, moves: seq<Move>, j: nat, k: nat, t: nat)
    requires Trace(states, moves) && Initial(states[0]) && j <= k < |states|
    requires t < |states[j].threads| && Relocked(states[j].threads[t])
    ensures t < |states[k].threads| && states[k].threads[t] == states[j].threads[t]
  {
    hide Step;
    if j == k {
    } else {
      RelockedForEver(states, moves, j, k - 1, t);
      RelockedIsStuck(states[k - 1], t);
      OthersUntouched(states[k - 1], moves[k - 1].t, moves[k - 1].choice);
    }
  }

  // ----- the invariant -----

  predicate Transparent(i: Instr) { i == Section || i == Acq(Items) || i == Rel(Items) }

  predicate Pending(c: CallbackStep) { c.CbDeactivate? || c.CbClearRun? || c.CbTail? || c.CbCheckThread? }

  // The thread is inside deactivate(), called back, and has not yet looked at the client thread.
  predicate CbAhead(k: Cont) {
    k.Then? && (if Transparent(k.head) then CbAhead(k.rest) else k.head.Cb? && Pending(k.head.c))
  }

  // Such a stretch only ever stands at the very front.
  predicate Tidy(k: Cont) {
    k.Then? ==> Tidy(k.rest) && (Transparent(k.head) || !CbAhead(k.rest))
  }

  // The last instruction of the client thread is the one that clears _run.
  predicate EndsRight(k: Cont) {
    k.Then? && (if k.rest.Done? then k.head.Cl? && !k.head.x.LowerFlag? else EndsRight(k.rest))
  }

  ghost predicate ThreadTidy(th: Thread, sh: Shared) {
    Tidy(th.cont) && (th.held.client && CbAhead(th.cont) ==> sh.thread.Some?)
  }

  ghost predicate CallbackInv(s: State) {
    && (s.sh.run ==> s.sh.thread.Some?)
    && (s.sh.thread.Some? ==>
          && s.sh.thread.value < |s.threads|
          && (s.threads[s.sh.thread.value].cont.Done? ==> !s.sh.run)
          && (s.threads[s.sh.thread.value].cont.Then? ==> EndsRight(s.threads[s.sh.thread.value].cont)))
    && (forall t :: 0 <= t < |s.threads| ==> ThreadTidy(s.threads[t], s.sh))
  }

  lemma {:induction false} ProgramTidy(k: Cont)
    requires UserProgram(k)
    ensures Tidy(k) && !CbAhead(k)
  {
    if k.Done? {
    } else {
      ProgramTidy(k.rest.rest);
      assert Tidy(k.rest) && !CbAhead(k.rest);
    }
  }

  lemma {:induction false} AfterCallTidy(k: Cont)
    requires Tidy(k)
    ensures Tidy(AfterCall(k)) && !CbAhead(AfterCall(k))
  {
    if k.Done? || k.head.EndOfCall? {
    } else {
      AfterCallTidy(k.rest);
    }
  }

  lemma TidyUnfold(i: Instr, k: Cont)
    ensures Tidy(Then(i, k)) <==> Tidy(k) && (Transparent(i) || !CbAhead(k))
    ensures CbAhead(Then(i, k)) <==> if Transparent(i) then CbAhead(k) else i.Cb? && Pending(i.c)
  {
  }

  // k behind a list of up to four plain instructions is tidy and not inside a callback.
  predicate Plain(i: Instr) { !i.Cb? || !Pending(i.c) }

  lemma TidyChain(i: Instr, j: Instr, l: Instr, m: Instr, k: Cont)
    requires Tidy(k) && !CbAhead(k) && Plain(i) && Plain(j) && Plain(l) && Plain(m)
    ensures Tidy(Then(m, k)) && !CbAhead(Then(m, k))
    ensures Tidy(Then(l, Then(m, k))) && !CbAhead(Then(l, Then(m, k)))
    ensures Tidy(Then(j, Then(l, Then(m, k)))) && !CbAhead(Then(j, Then(l, Then(m, k))))
    ensures Tidy(Then(i, Then(j, Then(l, Then(m, k))))) && !CbAhead(Then(i, Then(j, Then(l, Then(m, k)))))
  {
  }

  lemma OffTidy(o: OffStep, k: Cont, sh: Shared)
    requires Tidy(k) && !CbAhead(k)
    ensures Tidy(ExpandOff(o, k, sh)) && !CbAhead(ExpandOff(o, k, sh))
  {
  }

  lemma AddNextTidy(k: Cont, h: Held, sh: Shared, choice: nat)
    requires Tidy(k) && !CbAhead(k)
    ensures Tidy(ExpandOn(AddNext, k, h, sh, choice)) && !CbAhead(ExpandOn(AddNext, k, h, sh, choice))
  {
    hide Tidy, CbAhead;
    var again := Then(Acq(Items), Then(On(AddNext), k));
    TidyChain(Call(true), Call(true), Acq(Items), On(AddNext), k);
    TidyChain(Rel(Items), On(LockedCall), Section, Section, again);
    TidyChain(Call(true), Call(true), Rel(Items), On(LockedCall), again);
    TidyChain(Call(true), Call(true), Call(true), Rel(Items), k);
  }

  lemma OnTidy(n: OnStep, k: Cont, h: Held, sh: Shared, choice: nat)
    requires Tidy(k) && !CbAhead(k)
    ensures Tidy(ExpandOn(n, k, h, sh, choice)) && !CbAhead(ExpandOn(n, k, h, sh, choice))
  {
    hide Tidy, CbAhead;
    AfterCallTidy(k);
    match n
    case CreateSubscription => TidyChain(Call(true), Call(true), Off(RemoveSubscription(false)), On(CreateCall), k);
    case CreateCall => TidyChain(Call(true), Call(true), On(LockedCall), On(CreateDone), k);
    case CreateDone => TidyChain(Call(true), Call(true), Call(true), Rel(Async), AfterCall(k));
    case AddMonitoredItems => TidyChain(Call(true), Call(true), Acq(Items), On(AddNext), k);
    case AddNext => AddNextTidy(k, h, sh, choice);
    case NewItem => TidyChain(Call(true), Call(true), On(CreateSubscription), On(AddMonitoredItems), k);
    case Prepare => TidyChain(Call(true), Call(true), On(CreateSubscription), On(AddMonitoredItems), k);
    case Activate => TidyChain(Call(true), Call(true), On(CreateSubscription), On(ActivateTail), k);
    case ActivateTail =>
      TidyChain(Call(true), Call(true), Call(true), Section, k);
      TidyChain(Call(true), Call(true), Call(true), On(AddMonitoredItems), k);
    case LockedCall => TidyChain(Call(true), Acq(Client), Call(true), Rel(Client), k);
  }

  lemma ClTidy(x: ClientStep, k: Cont, sh: Shared, choice: nat)
    requires Tidy(k) && !CbAhead(k)
    ensures Tidy(ExpandCl(x, k, sh, choice)) && !CbAhead(ExpandCl(x, k, sh, choice))
  {
    hide Tidy, CbAhead;
    match x
    case Loop =>
      TidyChain(Call(true), Acq(Client), Call(true), Cl(AfterIterate), k);
      TidyChain(Call(true), Call(true), Call(true), Cl(Exit), k);
    case AfterIterate =>
      TidyChain(Call(true), Call(true), Rel(Client), Cl(Exit), k);
      TidyChain(Call(true), Call(true), Rel(Client), Cl(Loop), k);
    case Exit => TidyChain(Call(true), Call(true), Acq(Client), Cl(ExitBody), k);
    case ExitBody => TidyChain(Off(RemoveSubscription(true)), Cl(LowerFlag), Rel(Client), Cl(EndThread), k);
    case _ =>
  }

  lemma HalvesTidy(u: UserStep, k: Cont, choice: nat)
    requires Tidy(k) && !CbAhead(k) && Half(u)
    ensures Tidy(ExpandUs(u, k, choice)) && !CbAhead(ExpandUs(u, k, choice))
  {
    hide Tidy, CbAhead;
    AfterCallTidy(k);
    match u
    case ConnectDone => TidyChain(Call(true), Call(true), Call(true), On(Prepare), k);
    case AsyncBody => TidyChain(Call(true), On(Activate), Start, Rel(Async), k);
    case SubscribeBody =>
      TidyChain(Call(true), Call(true), Rel(Items), On(NewItem), k);
      TidyChain(Call(true), Acq(DataOf(choice)), Rel(DataOf(choice)), Rel(Items), k);
    case DropTail =>
      var last := Then(Off(StopRun), Then(Join, k));
      TidyChain(Call(true), Call(true), Off(StopRun), Join, k);
      TidyChain(On(LockedCall), Acq(Client), Off(RemoveSubscription(true)), Rel(Client), last);
      TidyChain(Call(true), Call(true), Call(true), On(LockedCall), k);
    case TransferDone =>
      TidyChain(Call(true), Call(true), Call(true), Rel(Client), k);
      TidyChain(Call(true), Section, Call(true), Us(Failed), k);
    case Failed => TidyChain(Call(true), Call(true), Call(true), Rel(Client), AfterCall(k));
  }

  lemma UsTidy(u: UserStep, k: Cont, choice: nat)
    requires Tidy(k) && !CbAhead(k)
    ensures Tidy(ExpandUs(u, k, choice)) && !CbAhead(ExpandUs(u, k, choice))
  {
    hide Tidy, CbAhead;
    if Half(u) {
      HalvesTidy(u, k, choice);
    } else {
      match u
      case ResetClient => TidyChain(Off(Deactivate), Section, Join, On(LockedCall), k);
      case Connect => TidyChain(Call(true), Us(ResetClient), On(LockedCall), Us(ConnectDone), k);
      case Open => TidyChain(Call(true), Call(true), Join, Us(Connect), k);
      case Close => TidyChain(Call(true), Call(true), Call(true), Us(ResetClient), k);
      case ActivateAsyncRead => TidyChain(Call(true), Call(true), Acq(Async), Us(AsyncBody), k);
      case NewAccessor => TidyChain(Call(true), Acq(Items), Us(SubscribeBody), Start, k);
      case DropAccessor => TidyChain(Call(true), Call(true), Section, Us(DropTail), k);
      case ReadQueue(a) => TidyChain(Call(true), Call(true), Acq(DataOf(a)), Rel(DataOf(a)), k);
      case SyncRead => TidyChain(Call(true), Acq(Client), Call(true), Us(TransferDone), k);
      case Write => TidyChain(Call(true), Call(true), Us(SyncRead), Us(SyncRead), k);
      case SetException => TidyChain(Call(true), Call(true), Section, Off(Deactivate), k);
      case DestroyManager => TidyChain(Call(true), Call(true), Off(Deactivate), Join, k);
    }
  }

  lemma CbTidy(c: CallbackStep, k: Cont, sh: Shared, choice: nat)
    requires Tidy(k) && !CbAhead(k)
    ensures Tidy(ExpandCb(c, k, sh, choice))
    ensures CbAhead(ExpandCb(c, k, sh, choice)) ==> Pending(c) || (c.Loss? && sh.run)
  {
  }

  // A callback gets into deactivate() only by testing _run, and then stays at the front until it leaves.
  lemma ExpandTidy(i: Instr, k: Cont, h: Held, sh: Shared, choice: nat)
    requires Compound(i) && Tidy(Then(i, k))
    ensures Tidy(Expand(i, k, h, sh, choice))
    ensures CbAhead(Expand(i, k, h, sh, choice)) ==> CbAhead(Then(i, k)) || sh.run
  {
    hide Tidy, CbAhead;
    TidyUnfold(i, k);
    match i
    case Call(locked) =>
      TidyChain(Call(locked), Call(locked), Cb(Loss), Call(locked), k);
      TidyChain(Call(locked), Call(locked), Cb(Response), Call(locked), k);
      TidyChain(Call(locked), Call(locked), Cb(Deleted), Call(locked), k);
    case Section =>
      TidyUnfold(Rel(Items), k);
      TidyUnfold(Acq(Items), Then(Rel(Items), k));
    case Cb(c) => CbTidy(c, k, sh, choice);
    case Off(o) => OffTidy(o, k, sh);
    case On(n) => OnTidy(n, k, h, sh, choice);
    case Cl(x) => ClTidy(x, k, sh, choice);
    case Us(u) => UsTidy(u, k, choice);
    case _ =>
  }

  lemma EndsUnfold(i: Instr, k: Cont)
    ensures !EndsRight(Done)
    ensures EndsRight(Then(i, k)) <==> if k.Done? then i.Cl? && !i.x.LowerFlag? else EndsRight(k)
  {
  }

  lemma ClEndsRight(x: ClientStep, k: Cont, sh: Shared, choice: nat)
    requires EndsRight(Then(Cl(x), k))
    ensures if x.EndThread? && k.Done? then ExpandCl(x, k, sh, choice).Done? else EndsRight(ExpandCl(x, k, sh, choice))
  {
    hide EndsRight;
    EndsUnfold(Cl(x), k);
    match x
    case Loop =>
      EndsUnfold(Cl(AfterIterate), k);
      EndsUnfold(Call(true), Then(Cl(AfterIterate), k));
      EndsUnfold(Acq(Client), Then(Call(true), Then(Cl(AfterIterate), k)));
      EndsUnfold(Cl(Exit), k);
    case AfterIterate =>
      EndsUnfold(Cl(Exit), k);
      EndsUnfold(Rel(Client), Then(Cl(Exit), k));
      EndsUnfold(Cl(Loop), k);
      EndsUnfold(Rel(Client), Then(Cl(Loop), k));
    case Exit =>
      EndsUnfold(Cl(ExitBody), k);
      EndsUnfold(Acq(Client), Then(Cl(ExitBody), k));
    case ExitBody =>
      var last := Then(Rel(Client), Then(Cl(EndThread), k));
      EndsUnfold(Cl(EndThread), k);
      EndsUnfold(Rel(Client), Then(Cl(EndThread), k));
      EndsUnfold(Cl(LowerFlag), last);
      EndsUnfold(Off(RemoveSubscription(true)), Then(Cl(LowerFlag), last));
    case _ =>
  }

  // The client thread cannot end without clearing _run.
  lemma ExpandEndsRight(i: Instr, k: Cont, h: Held, sh: Shared, choice: nat)
    requires ClientInstr(i) && EndsRight(Then(i, k))
    ensures if i == Cl(EndThread) && k.Done? then Expand(i, k, h, sh, choice).Done?
            else EndsRight(Expand(i, k, h, sh, choice))
  {
    hide EndsRight;
    EndsUnfold(i, k);
    match i
    case Call(locked) =>
      EndsUnfold(Call(locked), k);
      EndsUnfold(Cb(Loss), Then(Call(locked), k));
      EndsUnfold(Cb(Response), Then(Call(locked), k));
      EndsUnfold(Cb(Deleted), Then(Call(locked), k));
    case Section =>
      EndsUnfold(Rel(Items), k);
      EndsUnfold(Acq(Items), Then(Rel(Items), k));
    case Cb(c) => CbEndsRight(c, k, sh, choice);
    case Off(o) =>
      EndsUnfold(Section, k);
      EndsUnfold(Call(true), Then(Section, k));
    case Cl(x) => ClEndsRight(x, k, sh, choice);
    case _ =>
  }

  lemma CbEndsRight(c: CallbackStep, k: Cont, sh: Shared, choice: nat)
    requires k.Then? && EndsRight(k)
    ensures EndsRight(ExpandCb(c, k, sh, choice))
  {
  }

  // ----- joins that wait for the client lock -----

  // The step is not a join completing while somebody is inside the client lock.
  ghost predicate QuietJoin(s: State, t: nat) {
    t < |s.threads| && s.threads[t].cont.Then? && (s.threads[t].cont.head.Join? ==> Free(s, Client))
  }

  lemma StepThreadTidy(s: State, t: nat, choice: nat)
    requires LockInv(s) && CallbackInv(s) && CanStep(s, t) && QuietJoin(s, t)
    ensures ThreadTidy(Step(s, t, choice).threads[t], Step(s, t, choice).sh)
  {
    hide Tidy, CbAhead, Expand, LockInv, Free;
    var th := s.threads[t];
    var i, k := th.cont.head, th.cont.rest;
    assert ThreadTidy(th, s.sh);
    TidyUnfold(i, k);
    if i.Join? {
      FreeMeans(s, t);
    }
    if Compound(i) && !i.Start? {
      ExpandTidy(i, k, th.held, s.sh, choice);
    }
    EffectOnThread(i, s.sh, choice);
  }

  lemma FreeMeans(s: State, t: nat)
    requires t < |s.threads| && Free(s, Client)
    ensures !s.threads[t].held.client
  {
  }

  lemma EffectOnThread(i: Instr, sh: Shared, choice: nat)
    ensures Effect(i, sh, choice).thread == if i.Join? then None else sh.thread
    ensures Effect(i, sh, choice).run ==> sh.run
    ensures i == Cl(EndThread) ==> !Effect(i, sh, choice).run
  {
  }

  // The flags and the client thread: _run is up only while there is a client thread that has not ended.
  ghost predicate RunMeansThread(s: State) {
    && (s.sh.run ==> s.sh.thread.Some?)
    && (s.sh.thread.Some? ==>
          && s.sh.thread.value < |s.threads|
          && (s.threads[s.sh.thread.value].cont.Done? ==> !s.sh.run)
          && (s.threads[s.sh.thread.value].cont.Then? ==> EndsRight(s.threads[s.sh.thread.value].cont)))
  }

  lemma FlagsAfter(s: State, t: nat, choice: nat)
    requires CanStep(s, t)
    ensures var i, n := s.threads[t].cont.head, Step(s, t, choice);
            if i.Start? && |n.threads| > |s.threads| then s.sh.thread.None? && n.sh.thread == Some(|s.threads|)
            else n.sh.thread == (if i.Join? then None else s.sh.thread) && (n.sh.run ==> s.sh.run)
    ensures s.threads[t].cont.head == Cl(EndThread) ==> !Step(s, t, choice).sh.run
  {
    hide Expand, Effect;
    EffectOnThread(s.threads[t].cont.head, s.sh, choice);
  }

  lemma ClientStillEndsRight(s: State, t: nat, choice: nat)
    requires LockInv(s) && RunMeansThread(s) && CanStep(s, t) && s.sh.thread == Some(t)
    ensures var n := Step(s, t, choice).threads[t].cont;
            if n.Done? then s.threads[t].cont.head == Cl(EndThread) else EndsRight(n)
  {
    hide EndsRight, Expand, Effect;
    var th := s.threads[t];
    var i, k := th.cont.head, th.cont.rest;
    assert ThreadOk(th);
    ClientUnfold(i, k);
    EndsUnfold(i, k);
    if Compound(i) {
      ExpandEndsRight(i, k, th.held, s.sh, choice);
    }
  }

  lemma StepRunMeansThread(s: State, t: nat, choice: nat)
    requires LockInv(s) && RunMeansThread(s) && CanStep(s, t)
    ensures RunMeansThread(Step(s, t, choice))
  {
    hide EndsRight, Step, LockInv;
    FlagsAfter(s, t, choice);
    OthersUntouched(s, t, choice);
    if s.sh.thread == Some(t) {
      ClientStillEndsRight(s, t, choice);
    }
    EndsUnfold(Cl(Loop), Done);
    if s.threads[t].cont.head.Join? {
      JoinMeansEnded(s, t);
    }
  }

  lemma JoinMeansEnded(s: State, t: nat)
    requires RunMeansThread(s) && CanStep(s, t) && s.threads[t].cont.head.Join?
    ensures !s.sh.run
  {
  }

  lemma NewClientTidy(sh: Shared)
    ensures ThreadTidy(CLIENT_THREAD, sh)
  {
  }

  lemma StepCallbackInv(s: State, t: nat, choice: nat)
    requires LockInv(s) && CallbackInv(s) && CanStep(s, t) && QuietJoin(s, t)
    ensures CallbackInv(Step(s, t, choice))
  {
    hide Tidy, CbAhead, Step, LockInv, EndsRight, Free;
    assert RunMeansThread(s);
    StepThreadTidy(s, t, choice);
    StepRunMeansThread(s, t, choice);
    OthersUntouched(s, t, choice);
    FlagsAfter(s, t, choice);
    NewClientTidy(Step(s, t, choice).sh);
    var n := Step(s, t, choice);
    forall u | 0 <= u < |n.threads| ensures ThreadTidy(n.threads[u], n.sh) {
      if u < |s.threads| && u != t {
        assert ThreadTidy(s.threads[u], s.sh);
        if s.threads[t].cont.head.Join? { FreeMeans(s, u); }
      }
    }
  }

  // Schedules in which every join that completes does so while the client lock is free.
  ghost predicate QuietTrace(states: seq<State>, moves: seq<Move>) {
    Trace(states, moves) && forall k :: 0 <= k < |moves| ==> QuietJoin(states[k], moves[k].t)
  }

  lemma InitialCallbackInv(s: State)
    requires Initial(s)
    ensures CallbackInv(s)
  {
    forall t | 0 <= t < |s.threads| ensures ThreadTidy(s.threads[t], s.sh) {
      ProgramTidy(s.threads[t].cont);
    }
  }

  lemma {:induction false} QuietTraceOk(states: seq<State>, moves: seq<Move>, k: nat)
    requires QuietTrace(states, moves) && Initial(states[0]) && k < |states|
    ensures CallbackInv(states[k])
  {
    hide LockInv, Exclusive, CallbackInv, Step, CanStep;
    if k == 0 {
      InitialCallbackInv(states[0]);
    } else {
      QuietTraceOk(states, moves, k - 1);
      TraceOk(states, moves, k - 1);
      StepCallbackInv(states[k - 1], moves[k - 1].t, moves[k - 1].choice);
    }
  }

  lemma InitialRun(s: State)
    requires Initial(s)
    ensures RunMeansThread(s)
  {
  }

  // _run implies that a client thread exists, in every reachable state and whatever the joins do.
  lemma {:induction false} RunImpliesThread(states: seq<State>, moves: seq<Move>, k: nat)
    requires Trace(states, moves) && Initial(states[0]) && k < |states|
    ensures RunMeansThread(states[k])
  {
    hide LockInv, Exclusive, RunMeansThread, Step, CanStep;
    if k == 0 {
      InitialRun(states[0]);
    } else {
      RunImpliesThread(states, moves, k - 1);
      TraceOk(states, moves, k - 1);
      StepRunMeansThread(states[k - 1], moves[k - 1].t, moves[k - 1].choice);
    }
  }

  ghost predicate AnyRelocked(s: State) {
    exists t :: 0 <= t < |s.threads| && Relocked(s.threads[t])
  }

  ghost predicate OrphanBefore(states: seq<State>, moves: seq<Move>, k: nat)
    requires k <= |moves| && |states| == |moves| + 1
  {
    exists j :: 0 <= j < k && Orphaned(states[j], moves[j].t)
  }

  // A thread is relocked exactly when some earlier step was taken by an orphaned callback.
  lemma {:induction false} RelockedExactlyAfterOrphan(states: seq<State>, moves: seq<Move>, k: nat)
    requires Trace(states, moves) && Initial(states[0]) && k < |states|
    ensures AnyRelocked(states[k]) <==> OrphanBefore(states, moves, k)
  {
    hide LockInv, Exclusive, Step, CanStep, AnyRelocked, Orphaned;
    if k == 0 {
      NobodyRelocked(states[0]);
    } else {
      RelockedExactlyAfterOrphan(states, moves, k - 1);
      TraceOk(states, moves, k - 1);
      RelockedStep(states[k - 1], moves[k - 1].t, moves[k - 1].choice);
    }
  }

  lemma NobodyRelocked(s: State)
    requires Initial(s)
    ensures !AnyRelocked(s)
  {
  }

  lemma RelockedStep(s: State, t: nat, choice: nat)
    requires LockInv(s) && CanStep(s, t)
    ensures AnyRelocked(Step(s, t, choice)) <==> AnyRelocked(s) || Orphaned(s, t)
  {
    hide LockInv, Step, Orphaned;
    var n := Step(s, t, choice);
    OthersUntouched(s, t, choice);
    RelockExactly(s, t, choice);
    if u :| 0 <= u < |s.threads| && Relocked(s.threads[u]) {
      RelockedIsStuck(s, u);
      assert Relocked(n.threads[u]);
    }
    if u :| 0 <= u < |n.threads| && Relocked(n.threads[u]) && u != t {
      assert !Relocked(CLIENT_THREAD);
      assert Relocked(s.threads[u]);
    }
  }

  lemma NeverOrphaned(s: State, t: nat)
    requires CallbackInv(s)
    ensures !Orphaned(s, t)
  {
  }

  // Freedom from deadlock: in every state reached with such joins, if a thread has not finished, some thread
  // can go on, and if what goes on is a join, the client lock is free.
  lemma DeadlockFree(states: seq<State>, moves: seq<Move>, k: nat, unfinished: nat) returns (t: nat)
    requires QuietTrace(states, moves) && Initial(states[0]) && k < |states|
    requires unfinished < |states[k].threads| && states[k].threads[unfinished].cont.Then?
    ensures CanStep(states[k], t) && QuietJoin(states[k], t)
  {
    hide LockInv, Exclusive, CallbackInv, Step, Relocked, Orphaned;
    TraceOk(states, moves, k);
    RelockedExactlyAfterOrphan(states, moves, k);
    forall j | 0 <= j < k ensures !Orphaned(states[j], moves[j].t) {
      QuietTraceOk(states, moves, j);
      NeverOrphaned(states[j], moves[j].t);
    }
    t := Progress(states[k], unfinished);
  }
}
