// Lock order and freedom from deadlock for LockModel.
module LockSafety {
  import opened Common
  import opened LockModel

  // Every lock held ranks below l.
  predicate Above(h: Held, l: Lock) {
    match l
    case Async => h == NONE
    case Client => !h.client && !h.items && h.data.None?
    case Items => !h.items && h.data.None?
    case DataOf(_) => h.data.None?
  }

  // l is the highest lock held.
  predicate Top(h: Held, l: Lock) {
    Holds(h, l) && Above(Drop(h, l), l)
  }

  // What may be held where an instruction stands.
  datatype Place = Nothing | AsyncOnly | ClientOnly | ItemsOnly | BelowClient | ItemsOverAsync | BelowItems | UnderClient | Anything

  predicate At(p: Place, h: Held) {
    match p
    case Nothing => h == NONE
    case AsyncOnly => h == NONE.(async := true)
    case ClientOnly => h == NONE.(client := true)
    case ItemsOnly => h == NONE.(items := true)
    case BelowClient => Above(h, Client)
    case ItemsOverAsync => h.items && !h.client && h.data.None?
    case BelowItems => Above(h, Items)
    case UnderClient => Above(h, Items) && h.client
    case Anything => true
  }

  function PlaceOf(i: Instr): Place {
    match i
    case Call(locked) => if locked then UnderClient else BelowItems
    case Section => BelowItems
    case Start => Anything
    case Cb(c) => if c.Deleted? then Anything else BelowItems
    case Off(o) => if o.RemoveSubscription? then (if o.locked then UnderClient else BelowItems) else if o.StopRun? then Anything else BelowClient
    case On(n) => if n.AddNext? then ItemsOverAsync else BelowClient
    case Cl(x) => if x.AfterIterate? || x.ExitBody? || x.LowerFlag? then ClientOnly else Nothing
    case Us(u) =>
      if u.TransferDone? || u.Failed? then ClientOnly
      else if u.AsyncBody? then AsyncOnly
      else if u.SubscribeBody? then ItemsOnly
      else Nothing
    case _ => Nothing
  }

  predicate Needs(i: Instr, h: Held) {
    match i
    case Acq(l) => Above(h, l)
    case Rel(l) => Top(h, l)
    case _ => At(PlaceOf(i), h)
  }

  // The instructions that end by releasing what they stand under.
  predicate Releases(i: Instr) {
    (i.Cl? && (i.x.AfterIterate? || i.x.ExitBody?))
    || (i.Us? && (i.u.TransferDone? || i.u.Failed? || i.u.AsyncBody? || i.u.SubscribeBody?))
  }

  // What is held after it.
  function After(i: Instr, h: Held): Held {
    match i
    case Acq(l) => Take(h, l)
    case Rel(l) => Drop(h, l)
    case _ => if Releases(i) then NONE else if i == On(AddNext) then h.(items := false) else h
  }

  // The thread keeps to the lock order from here to its end.
  predicate Ordered(k: Cont, h: Held) {
    match k
    case Done => h == NONE
    case Then(i, r) => Needs(i, h) && Ordered(r, After(i, h))
  }

  lemma {:induction false} AfterCallOrdered(k: Cont, h: Held)
    requires Ordered(k, h)
    ensures Ordered(AfterCall(k), NONE)
  {
    if k.Done? || k.head.EndOfCall? {
    } else {
      AfterCallOrdered(k.rest, After(k.head, h));
    }
  }

  // A thread that waits for a client lock it holds itself.
  predicate Relocked(th: Thread) {
    th.held.client && th.cont.Then? && th.cont.head == Acq(Client)
  }

  // deactivate(), entered from a callback that runs under the client lock, finds no client thread any more.
  predicate Orphaned(s: State, t: nat) {
    && t < |s.threads| && s.threads[t].cont.Then? && s.threads[t].cont.head == Cb(CbCheckThread)
    && s.threads[t].held.client && s.sh.thread.None?
  }

  predicate Compound(i: Instr) { !i.Acq? && !i.Rel? }

  lemma Unfold(i: Instr, k: Cont, h: Held)
    ensures Ordered(Then(i, k), h) <==> Needs(i, h) && Ordered(k, After(i, h))
  {
  }

  lemma Two(i: Instr, j: Instr, k: Cont, h: Held)
    requires Needs(i, h) && Needs(j, After(i, h)) && Ordered(k, After(j, After(i, h)))
    ensures Ordered(Then(i, Then(j, k)), h)
  {
    hide Needs, After;
  }

  lemma Three(i: Instr, j: Instr, l: Instr, k: Cont, h: Held)
    requires Needs(i, h) && Needs(j, After(i, h)) && Needs(l, After(j, After(i, h)))
    requires Ordered(k, After(l, After(j, After(i, h))))
    ensures Ordered(Then(i, Then(j, Then(l, k))), h)
  {
    hide Needs, After;
    Two(j, l, k, After(i, h));
  }

  lemma UnderOrdered(l: Lock, i: Instr, k: Cont, h: Held)
    requires Above(h, l) && Needs(i, Take(h, l)) && After(i, Take(h, l)) == Take(h, l) && Ordered(k, h)
    ensures Ordered(Under(l, i, k), h)
  {
    hide Ordered;
    assert Drop(Take(h, l), l) == h;
    Three(Acq(l), i, Rel(l), k, h);
  }

  lemma CbOrdered(c: CallbackStep, k: Cont, h: Held, sh: Shared, choice: nat)
    requires Ordered(Then(Cb(c), k), h) && !(c.CbCheckThread? && h.client && sh.thread.None?)
    ensures Ordered(ExpandCb(c, k, sh, choice), h)
  {
    hide Ordered;
    Unfold(Cb(c), k, h);
    match c
    case Loss => if sh.run && choice != 0 { Two(Section, Cb(CbDeactivate), k, h); }
    case Response => Unfold(Section, k, h);
    case CbDeactivate => Two(Section, Cb(CbClearRun), k, h);
    case CbClearRun => Unfold(Cb(CbTail), k, h);
    case CbTail => Unfold(Cb(CbCheckThread), k, h);
    case CbCheckThread => if sh.thread.None? { UnderOrdered(Client, Off(RemoveSubscription(true)), k, h); }
    case Deleted =>
  }

  lemma OffOrdered(o: OffStep, k: Cont, h: Held, sh: Shared)
    requires Ordered(Then(Off(o), k), h)
    ensures Ordered(ExpandOff(o, k, sh), h)
  {
    hide Ordered;
    Unfold(Off(o), k, h);
    match o
    case Deactivate => Two(Section, Off(ClearRun), k, h);
    case ClearRun => Unfold(Off(Tail), k, h);
    case Tail => Unfold(Off(CheckThread), k, h);
    case CheckThread => UnderOrdered(Client, Off(RemoveSubscription(true)), k, h);
    case RemoveSubscription(locked) => Two(Call(locked), Section, k, h);
    case StopRun =>
  }

  lemma AddNextOrdered(k: Cont, h: Held, sh: Shared, choice: nat)
    requires Ordered(Then(On(AddNext), k), h)
    ensures Ordered(ExpandOn(AddNext, k, h, sh, choice), h)
  {
    hide Ordered;
    var low := h.(items := false);
    var again := Then(Acq(Items), Then(On(AddNext), k));
    Unfold(On(AddNext), k, h);
    assert Take(low, Items) == h;
    Unfold(Acq(Items), Then(On(AddNext), k), low);
    Two(Section, Section, again, low);
    Two(Rel(Items), On(LockedCall), again, h);
    Two(Rel(Items), On(LockedCall), Then(Section, Then(Section, again)), h);
    Unfold(Rel(Items), k, h);
  }

  lemma SetUpOrdered(n: OnStep, k: Cont, h: Held, sh: Shared, choice: nat)
    requires n.CreateSubscription? || n.CreateCall? || n.CreateDone? || n.LockedCall?
    requires Ordered(Then(On(n), k), h)
    ensures Ordered(ExpandOn(n, k, h, sh, choice), h)
  {
    hide Ordered;
    Unfold(On(n), k, h);
    match n
    case CreateSubscription =>
      Unfold(On(CreateCall), k, h);
      Two(Off(RemoveSubscription(false)), On(CreateCall), k, h);
    case CreateCall => Two(On(LockedCall), On(CreateDone), k, h);
    case CreateDone =>
      AfterCallOrdered(k, h);
      if h.async { Unfold(Rel(Async), AfterCall(k), h); }
    case LockedCall => UnderOrdered(Client, Call(true), k, h);
  }

  lemma OnOrdered(n: OnStep, k: Cont, h: Held, sh: Shared, choice: nat)
    requires Ordered(Then(On(n), k), h)
    ensures Ordered(ExpandOn(n, k, h, sh, choice), h)
  {
    hide Ordered;
    if n.AddNext? {
      AddNextOrdered(k, h, sh, choice);
    } else if n.CreateSubscription? || n.CreateCall? || n.CreateDone? || n.LockedCall? {
      SetUpOrdered(n, k, h, sh, choice);
    } else {
      Unfold(On(n), k, h);
      Unfold(On(AddMonitoredItems), k, h);
      Unfold(On(ActivateTail), k, h);
      match n
      case AddMonitoredItems => Two(Acq(Items), On(AddNext), k, h);
      case NewItem => Two(On(CreateSubscription), On(AddMonitoredItems), k, h);
      case Prepare => Two(On(CreateSubscription), On(AddMonitoredItems), k, h);
      case Activate => Two(On(CreateSubscription), On(ActivateTail), k, h);
      case ActivateTail => Unfold(Section, k, h);
    }
  }

  lemma ClOrdered(x: ClientStep, k: Cont, h: Held, sh: Shared, choice: nat)
    requires Ordered(Then(Cl(x), k), h)
    ensures Ordered(ExpandCl(x, k, sh, choice), h)
  {
    hide Ordered, ExpandCl;
    Unfold(Cl(x), k, h);
    if x.Loop? || x.AfterIterate? {
      LoopOrdered(x, k, h, sh, choice);
    } else {
      ExitOrdered(x, k, h, sh, choice);
    }
  }

  lemma LoopOrdered(x: ClientStep, k: Cont, h: Held, sh: Shared, choice: nat)
    requires (x.Loop? || x.AfterIterate?) && Ordered(Then(Cl(x), k), h)
    ensures Ordered(ExpandCl(x, k, sh, choice), h)
  {
    hide Ordered;
    Unfold(Cl(x), k, h);
    match x
    case Loop =>
      Three(Acq(Client), Call(true), Cl(AfterIterate), k, h);
      Unfold(Cl(Exit), k, h);
    case AfterIterate =>
      Two(Rel(Client), Cl(Exit), k, h);
      Two(Rel(Client), Cl(Loop), k, h);
  }

  lemma ExitOrdered(x: ClientStep, k: Cont, h: Held, sh: Shared, choice: nat)
    requires !x.Loop? && !x.AfterIterate? && Ordered(Then(Cl(x), k), h)
    ensures Ordered(ExpandCl(x, k, sh, choice), h)
  {
    hide Ordered;
    Unfold(Cl(x), k, h);
    match x
    case Exit => Two(Acq(Client), Cl(ExitBody), k, h);
    case ExitBody =>
      Two(Rel(Client), Cl(EndThread), k, h);
      Two(Off(RemoveSubscription(true)), Cl(LowerFlag), Then(Rel(Client), Then(Cl(EndThread), k)), h);
    case _ =>
  }

  // The halves of user calls that stand under a lock, and those that may end the call.
  predicate Half(u: UserStep) {
    u.AsyncBody? || u.DropTail? || u.TransferDone? || u.ConnectDone? || u.Failed? || u.SubscribeBody?
  }

  lemma FirstHalves(u: UserStep, k: Cont, h: Held, choice: nat)
    requires u.AsyncBody? || u.SubscribeBody?
    requires Ordered(Then(Us(u), k), h)
    ensures Ordered(ExpandUs(u, k, choice), h)
  {
    hide Ordered;
    Unfold(Us(u), k, h);
    match u
    case AsyncBody =>
      Unfold(Rel(Async), k, h);
      Three(On(Activate), Start, Rel(Async), k, h);
    case SubscribeBody =>
      Unfold(Rel(Items), k, h);
      Two(Rel(Items), On(NewItem), k, h);
      Three(Acq(DataOf(choice)), Rel(DataOf(choice)), Rel(Items), k, h);
  }

  lemma DropTailOrdered(k: Cont, choice: nat)
    requires Ordered(k, NONE)
    ensures Ordered(ExpandUs(DropTail, k, choice), NONE)
  {
    hide Ordered;
    var last := Then(Off(StopRun), Then(Join, k));
    Two(Off(StopRun), Join, k, NONE);
    UnderOrdered(Client, Off(RemoveSubscription(true)), last, NONE);
    Unfold(On(LockedCall), k, NONE);
    Unfold(On(LockedCall), Under(Client, Off(RemoveSubscription(true)), last), NONE);
  }

  lemma SecondHalves(u: UserStep, k: Cont, h: Held, choice: nat)
    requires u.TransferDone? || u.ConnectDone? || u.Failed?
    requires Ordered(Then(Us(u), k), h)
    ensures Ordered(ExpandUs(u, k, choice), h)
  {
    hide Ordered;
    Unfold(Us(u), k, h);
    AfterCallOrdered(k, After(Us(u), h));
    match u
    case TransferDone =>
      Unfold(Rel(Client), k, h);
      Three(Section, Call(true), Us(Failed), k, h);
    case ConnectDone => Unfold(On(Prepare), k, h);
    case Failed => Unfold(Rel(Client), AfterCall(k), h);
  }

  lemma ResetClientOrdered(k: Cont, choice: nat)
    requires Ordered(k, NONE)
    ensures Ordered(ExpandUs(ResetClient, k, choice), NONE)
  {
    hide Ordered;
    Two(Join, On(LockedCall), k, NONE);
    Two(Off(Deactivate), Section, Then(Join, Then(On(LockedCall), k)), NONE);
  }

  lemma CallsOrdered(u: UserStep, k: Cont, choice: nat)
    requires !Half(u) && !u.ResetClient? && !OnAccessor(u) && Ordered(k, NONE)
    ensures Ordered(ExpandUs(u, k, choice), NONE)
  {
    hide Ordered;
    Unfold(Us(ResetClient), k, NONE);
    match u
    case Connect => Three(Us(ResetClient), On(LockedCall), Us(ConnectDone), k, NONE);
    case Open => Two(Join, Us(Connect), k, NONE);
    case Close =>
    case ActivateAsyncRead => Two(Acq(Async), Us(AsyncBody), k, NONE);
    case SetException => Two(Section, Off(Deactivate), k, NONE);
    case DestroyManager => Two(Off(Deactivate), Join, k, NONE);
  }

  predicate OnAccessor(u: UserStep) {
    u.NewAccessor? || u.DropAccessor? || u.ReadQueue? || u.SyncRead? || u.Write?
  }

  lemma AccessorCallsOrdered(u: UserStep, k: Cont, choice: nat)
    requires OnAccessor(u) && Ordered(k, NONE)
    ensures Ordered(ExpandUs(u, k, choice), NONE)
  {
    hide Ordered;
    Unfold(Us(SyncRead), k, NONE);
    match u
    case NewAccessor => Three(Acq(Items), Us(SubscribeBody), Start, k, NONE);
    case DropAccessor => Two(Section, Us(DropTail), k, NONE);
    case ReadQueue(a) => Two(Acq(DataOf(a)), Rel(DataOf(a)), k, NONE);
    case SyncRead => Three(Acq(Client), Call(true), Us(TransferDone), k, NONE);
    case Write => Two(Us(SyncRead), Us(SyncRead), k, NONE);
  }

  lemma UsOrdered(u: UserStep, k: Cont, h: Held, choice: nat)
    requires Ordered(Then(Us(u), k), h)
    ensures Ordered(ExpandUs(u, k, choice), h)
  {
    hide Ordered, ExpandUs;
    if u.AsyncBody? || u.SubscribeBody? {
      FirstHalves(u, k, h, choice);
    } else if u.DropTail? {
      Unfold(Us(u), k, h);
      DropTailOrdered(k, choice);
    } else if Half(u) {
      SecondHalves(u, k, h, choice);
    } else {
      Unfold(Us(u), k, h);
      if u.ResetClient? {
        ResetClientOrdered(k, choice);
      } else if OnAccessor(u) {
        AccessorCallsOrdered(u, k, choice);
      } else {
        CallsOrdered(u, k, choice);
      }
    }
  }

  // Only the step that finds the client thread gone under the client lock leaves the order.
  lemma ExpandOrdered(i: Instr, k: Cont, h: Held, sh: Shared, choice: nat)
    requires Compound(i) && Ordered(Then(i, k), h)
    requires !(i == Cb(CbCheckThread) && h.client && sh.thread.None?)
    ensures Ordered(Expand(i, k, h, sh, choice), h)
  {
    hide Ordered;
    Unfold(i, k, h);
    match i
    case Cb(c) => CbOrdered(c, k, h, sh, choice);
    case Off(o) => OffOrdered(o, k, h, sh);
    case On(n) => OnOrdered(n, k, h, sh, choice);
    case Cl(x) => ClOrdered(x, k, h, sh, choice);
    case Us(u) => UsOrdered(u, k, h, choice);
    case Call(locked) =>
      Two(Cb(Loss), Call(locked), k, h);
      Two(Cb(Response), Call(locked), k, h);
      Two(Cb(Deleted), Call(locked), k, h);
    case Section => Two(Acq(Items), Rel(Items), k, h);
    case _ =>
  }
}
