// The threads of the backend and the locks they take, as a step model.
//
// A thread is a list of instructions that remain to be done. A compound instruction is replaced by the pieces
// its source function consists of; whatever depends on data outside this model (which branch, which callback a
// client call runs, whether the server answers) is a choice. Shared flags are read and written one at a time,
// except that start() sets _run and creates the thread in one step, together with the test for a missing thread.
module LockModel {
  import opened Common

  datatype Lock = Async | Client | Items | DataOf(acc: nat)

  // _asyncReadLock, client_lock, the item mutex and at most one dataUpdateLock.
  datatype Held = Held(async: bool, client: bool, items: bool, data: Option<nat>)

  const NONE: Held := Held(false, false, false, None)

  function Rank(l: Lock): nat {
    match l case Async => 0 case Client => 1 case Items => 2 case DataOf(_) => 3
  }

  predicate Holds(h: Held, l: Lock) {
    match l
    case Async => h.async
    case Client => h.client
    case Items => h.items
    case DataOf(a) => h.data == Some(a)
  }

  function Take(h: Held, l: Lock): Held {
    match l
    case Async => h.(async := true)
    case Client => h.(client := true)
    case Items => h.(items := true)
    case DataOf(a) => h.(data := Some(a))
  }

  function Drop(h: Held, l: Lock): Held {
    match l
    case Async => h.(async := false)
    case Client => h.(client := false)
    case Items => h.(items := false)
    case DataOf(_) => h.(data := None)
  }

  // Callbacks a client call may run. The last four are deactivate() entered from the first.
  datatype CallbackStep =
    | Loss                   // stateCallback, inactivityCallback: src/OPC-UA-Backend.cc:110-141
    | Response               // responseHandler: src/SubscriptionManager.cc:165-193
    | Deleted                // deleteSubscriptionCallback: src/SubscriptionManager.cc:30-37
    | CbDeactivate           // src/SubscriptionManager.cc:124-129
    | CbClearRun             // src/SubscriptionManager.cc:130-132
    | CbTail                 // src/SubscriptionManager.cc:134-135
    | CbCheckThread          // src/SubscriptionManager.cc:137-146

  // deactivate() entered otherwise, and what it shares with others.
  datatype OffStep =
    | Deactivate | ClearRun | Tail | CheckThread   // src/SubscriptionManager.cc:121-149
    | RemoveSubscription(locked: bool) // src/SubscriptionManager.cc:151-158
    | StopRun                // src/SubscriptionManager.cc:405

  // Building up: subscription, monitored items, activation.
  datatype OnStep =
    | CreateSubscription | CreateCall | CreateDone // src/SubscriptionManager.cc:195-226
    | AddMonitoredItems | AddNext                  // src/SubscriptionManager.cc:228-278
    | NewItem                // src/SubscriptionManager.cc:299-308
    | Prepare                // src/SubscriptionManager.cc:280-283
    | Activate | ActivateTail                      // src/SubscriptionManager.cc:105-119
    | LockedCall             // one client call under the client lock

  // runClient: src/SubscriptionManager.cc:64-103
  datatype ClientStep = Loop | AfterIterate | Exit | ExitBody | LowerFlag | EndThread

  // What user threads call, and the second halves of these calls.
  datatype UserStep =
    | ResetClient            // src/OPC-UA-Backend.cc:467-485
    | Connect | ConnectDone  // src/OPC-UA-Backend.cc:529-560
    | Open | Close           // src/OPC-UA-Backend.cc:487-527
    | ActivateAsyncRead | AsyncBody                // src/OPC-UA-Backend.cc:562-579
    | NewAccessor | SubscribeBody                  // subscribe: src/SubscriptionManager.cc:285-340
    | DropAccessor | DropTail                      // unsubscribe: src/SubscriptionManager.cc:359-409
    | ReadQueue(acc: nat)    // include/OPC-UA-BackendRegisterAccessor.h:285-293
    | SyncRead | TransferDone | Failed | Write     // include/OPC-UA-BackendRegisterAccessor.h:315-391
    | SetException           // src/OPC-UA-Backend.cc:587-591
    | DestroyManager         // src/SubscriptionManager.cc:39-46

  datatype Instr =
    | Acq(l: Lock)
    | Rel(l: Lock)
    | Call(locked: bool)     // one open62541 client call; it may run callbacks before it returns
    | Section                // anything that only takes and releases the item mutex
    | Start                  // start(), when there is no client thread
    | Join                   // stopClientThread()
    | EndOfCall              // a user call ends here, normally or by an exception
    | Cb(c: CallbackStep)
    | Off(o: OffStep)
    | On(n: OnStep)
    | Cl(x: ClientStep)
    | Us(u: UserStep)

  datatype Cont = Done | Then(head: Instr, rest: Cont)

  datatype Thread = Thread(cont: Cont, held: Held, isClient: bool)

  // thread is opcuaThread, by position in the list of threads.
  datatype Shared = Shared(run: bool, subActive: bool, removal: bool, thread: Option<nat>)

  datatype State = State(threads: seq<Thread>, sh: Shared)

  // An exception leaves the call it is thrown in; lock_guard releases what is held.
  function AfterCall(k: Cont): Cont {
    match k
    case Done => Done
    case Then(i, r) => if i.EndOfCall? then r else AfterCall(r)
  }

  function Under(l: Lock, i: Instr, k: Cont): Cont { Then(Acq(l), Then(i, Then(Rel(l), k))) }

  function Branch(choice: nat, a: Cont, b: Cont): Cont { if choice == 0 then a else b }

  function ExpandCb(c: CallbackStep, k: Cont, sh: Shared, choice: nat): Cont {
    match c
    case Loss => if sh.run && choice != 0 then Then(Section, Then(Cb(CbDeactivate), k)) else k
    case Response => Branch(choice, k, Then(Section, k))
    case Deleted => k
    case CbDeactivate => Then(Section, Then(Cb(CbClearRun), k))
    case CbClearRun => Then(Cb(CbTail), k)
    case CbTail => if sh.subActive then Then(Cb(CbCheckThread), k) else k
    case CbCheckThread => if sh.thread.Some? then k else Under(Client, Off(RemoveSubscription(true)), k)
  }

  function ExpandOff(o: OffStep, k: Cont, sh: Shared): Cont {
    match o
    case Deactivate => Then(Section, Then(Off(ClearRun), k))
    case ClearRun => Then(Off(Tail), k)
    case Tail => if sh.subActive then Then(Off(CheckThread), k) else k
    case CheckThread => if sh.thread.Some? then k else Under(Client, Off(RemoveSubscription(true)), k)
    case RemoveSubscription(locked) => Then(Call(locked), Then(Section, k))
    case StopRun => k
  }

  function ExpandOn(n: OnStep, k: Cont, h: Held, sh: Shared, choice: nat): Cont {
    match n
    case CreateSubscription =>
      Branch(choice, Then(On(CreateCall), k), Then(Off(RemoveSubscription(false)), Then(On(CreateCall), k)))
    case CreateCall => Then(On(LockedCall), Then(On(CreateDone), k))
    case CreateDone => if choice == 0 then (if h.async then Then(Rel(Async), AfterCall(k)) else AfterCall(k)) else k
    case AddMonitoredItems => Then(Acq(Items), Then(On(AddNext), k))
    case AddNext =>
      var again := Then(Acq(Items), Then(On(AddNext), k));
      if choice == 0 then Then(Rel(Items), k)
      else if choice == 1 then Then(Rel(Items), Then(On(LockedCall), again))
      else Then(Rel(Items), Then(On(LockedCall), Then(Section, Then(Section, again))))
    case NewItem =>
      if sh.subActive then Then(On(AddMonitoredItems), k)
      else Then(On(CreateSubscription), Then(On(AddMonitoredItems), k))
    case Prepare => Then(On(CreateSubscription), Then(On(AddMonitoredItems), k))
    case Activate => if sh.subActive then Then(On(ActivateTail), k) else Then(On(CreateSubscription), Then(On(ActivateTail), k))
    case ActivateTail => Branch(choice, Then(Section, k), Then(On(AddMonitoredItems), k))
    case LockedCall => Under(Client, Call(true), k)
  }

  function ExpandCl(x: ClientStep, k: Cont, sh: Shared, choice: nat): Cont {
    match x
    case Loop => if sh.run then Then(Acq(Client), Then(Call(true), Then(Cl(AfterIterate), k))) else Then(Cl(Exit), k)
    case AfterIterate => Then(Rel(Client), if sh.removal || choice == 0 then Then(Cl(Exit), k) else Then(Cl(Loop), k))
    case Exit => Then(Acq(Client), Then(Cl(ExitBody), k))
    case ExitBody =>
      var last := Then(Rel(Client), Then(Cl(EndThread), k));
      if sh.removal then Then(Off(RemoveSubscription(true)), Then(Cl(LowerFlag), last)) else last
    case LowerFlag => k
    case EndThread => k
  }

  function ExpandUs(u: UserStep, k: Cont, choice: nat): Cont {
    match u
    case ResetClient => Then(Off(Deactivate), Then(Section, Then(Join, Then(On(LockedCall), k))))
    case Connect => Then(Us(ResetClient), Then(On(LockedCall), Then(Us(ConnectDone), k)))
    case ConnectDone => if choice == 0 then AfterCall(k) else if choice == 1 then Then(On(Prepare), k) else k
    case Open => Branch(choice, k, Then(Join, Then(Us(Connect), k)))
    case Close => Then(Us(ResetClient), k)
    case ActivateAsyncRead => Then(Acq(Async), Then(Us(AsyncBody), k))
    case AsyncBody => Branch(choice, Then(Rel(Async), k), Then(On(Activate), Then(Start, Then(Rel(Async), k))))
    case NewAccessor => Then(Acq(Items), Then(Us(SubscribeBody), Then(Start, k)))
    case SubscribeBody =>
      if choice == 0 then Then(Rel(Items), k)
      else if choice == 1 then Then(Rel(Items), Then(On(NewItem), k))
      else Then(Acq(DataOf(choice)), Then(Rel(DataOf(choice)), Then(Rel(Items), k)))
    case DropAccessor => Then(Section, Then(Us(DropTail), k))
    case DropTail =>
      if choice == 0 then k
      else if choice == 1 then Then(On(LockedCall), k)
      else Then(On(LockedCall), Under(Client, Off(RemoveSubscription(true)), Then(Off(StopRun), Then(Join, k))))
    case ReadQueue(a) => Then(Acq(DataOf(a)), Then(Rel(DataOf(a)), k))
    case SyncRead => Then(Acq(Client), Then(Call(true), Then(Us(TransferDone), k)))
    case TransferDone => Branch(choice, Then(Rel(Client), k), Then(Section, Then(Call(true), Then(Us(Failed), k))))
    case Failed => Then(Rel(Client), AfterCall(k))
    case Write => Branch(choice, Then(Us(SyncRead), k), Then(Us(SyncRead), Then(Us(SyncRead), k)))
    case SetException => Then(Section, Then(Off(Deactivate), k))
    case DestroyManager => Then(Off(Deactivate), Then(Join, k))
  }

  // What instruction i turns into, with k behind it.
  function Expand(i: Instr, k: Cont, h: Held, sh: Shared, choice: nat): Cont {
    match i
    case Call(locked) =>
      if choice == 1 then Then(Cb(Loss), Then(Call(locked), k))
      else if choice == 2 then Then(Cb(Response), Then(Call(locked), k))
      else if choice == 3 then Then(Cb(Deleted), Then(Call(locked), k))
      else k
    case Section => Then(Acq(Items), Then(Rel(Items), k))
    case Cb(c) => ExpandCb(c, k, sh, choice)
    case Off(o) => ExpandOff(o, k, sh)
    case On(n) => ExpandOn(n, k, h, sh, choice)
    case Cl(x) => ExpandCl(x, k, sh, choice)
    case Us(u) => ExpandUs(u, k, choice)
    case _ => k
  }

  // What it does to the shared flags.
  function Effect(i: Instr, sh: Shared, choice: nat): Shared {
    match i
    case Join => sh.(thread := None)
    case Cb(c) => (
      match c
      case Deleted => sh.(subActive := false)
      case CbClearRun => sh.(run := false)
      case CbTail => sh.(subActive := false)
      case CbCheckThread => if sh.thread.Some? then sh.(removal := true) else sh
      case _ => sh)
    case Off(o) => (
      match o
      case ClearRun => sh.(run := false)
      case StopRun => sh.(run := false)
      case Tail => sh.(subActive := false)
      case CheckThread => if sh.thread.Some? then sh.(removal := true) else sh
      case _ => sh)
    case On(n) => if n.CreateDone? && choice != 0 then sh.(subActive := true) else sh
    case Cl(x) => if x.LowerFlag? then sh.(removal := false) else if x.EndThread? then sh.(run := false) else sh
    case _ => sh
  }

  predicate Free(s: State, l: Lock) {
    forall t :: 0 <= t < |s.threads| ==> !Holds(s.threads[t].held, l)
  }

  // A thread waits for a lock that is taken and for a client thread that has not ended; nothing else blocks.
  predicate CanStep(s: State, t: nat) {
    && t < |s.threads| && s.threads[t].cont.Then?
    && match s.threads[t].cont.head
       case Acq(l) => Free(s, l)
       case Join => s.sh.thread.Some? && s.sh.thread.value < |s.threads| ==> s.threads[s.sh.thread.value].cont.Done?
       case _ => true
  }

  const CLIENT_THREAD: Thread := Thread(Then(Cl(Loop), Done), NONE, true)

  function Step(s: State, t: nat, choice: nat): State
    requires CanStep(s, t)
  {
    var th := s.threads[t];
    var i, k := th.cont.head, th.cont.rest;
    match i
    case Acq(l) => s.(threads := s.threads[t := th.(cont := k, held := Take(th.held, l))])
    case Rel(l) => s.(threads := s.threads[t := th.(cont := k, held := Drop(th.held, l))])
    case Start =>
      var moved := s.threads[t := th.(cont := k)];
      if s.sh.thread.Some? || choice == 0 then s.(threads := moved)
      else if s.sh.subActive then
        State(moved + [CLIENT_THREAD], s.sh.(run := true, thread := Some(|s.threads|)))
      else State(moved, s.sh.(run := false))
    case _ =>
      State(s.threads[t := th.(cont := Expand(i, k, th.held, s.sh, choice))], Effect(i, s.sh, choice))
  }

  predicate UserCall(i: Instr) {
    (i.Us? && !i.u.ConnectDone? && !i.u.AsyncBody? && !i.u.SubscribeBody? && !i.u.DropTail? && !i.u.TransferDone? && !i.u.Failed?)
    || i == On(LockedCall)
  }

  // A user thread is any sequence of calls into the backend.
  predicate UserProgram(k: Cont) {
    k.Done? || (UserCall(k.head) && k.rest.Then? && k.rest.head.EndOfCall? && UserProgram(k.rest.rest))
  }

  ghost predicate Initial(s: State) {
    && s.sh == Shared(false, false, false, None)
    && forall t :: 0 <= t < |s.threads| ==>
         UserProgram(s.threads[t].cont) && s.threads[t].held == NONE && !s.threads[t].isClient
  }

  datatype Move = Move(t: nat, choice: nat)

  // The states a schedule passes through.
  ghost predicate Trace(states: seq<State>, moves: seq<Move>) {
    && |states| == |moves| + 1
    && forall k :: 0 <= k < |moves| ==>
         CanStep(states[k], moves[k].t) && states[k + 1] == Step(states[k], moves[k].t, moves[k].choice)
  }
}
