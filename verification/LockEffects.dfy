// What the calls of LockModel get done, in every schedule.
module LockEffects {
  import opened Common
  import opened LockModel
  import opened LockSafety
  import opened LockRuns

  // ----- who writes the flags -----

  // Every change of a shared flag, and nothing else, by one step of any thread.
  lemma FlagsWrittenExactly(s: State, t: nat, choice: nat)
    requires CanStep(s, t)
    ensures var i, n, f := s.threads[t].cont.head, Step(s, t, choice).sh, s.sh;
            var starts := i.Start? && f.thread.None? && choice != 0;
            && (n.run <==> if starts then f.subActive
                           else f.run && i !in {Off(ClearRun), Cb(CbClearRun), Off(StopRun), Cl(EndThread)})
            && (n.subActive <==> (i == On(CreateDone) && choice != 0) || (f.subActive && i !in {Off(Tail), Cb(CbTail), Cb(Deleted)}))
            && (n.removal <==> (f.thread.Some? && i in {Off(CheckThread), Cb(CbCheckThread)}) || (f.removal && i != Cl(LowerFlag)))
            && (n.thread == if i.Join? then None else if starts && f.subActive then Some(|s.threads|) else f.thread)
  {
    hide Expand;
  }

  // ----- what is still to be done -----

  // Instructions that are behind one another come one after the other; none of these leaves the call.
  predicate Harmless(i: Instr) {
    i.Acq? || i.Rel? || i.Call? || i.Section? || i.Start? || i.Join? || i.Cb? || i.Off? || i == On(LockedCall) || i == Cl(LowerFlag)
  }

  predicate Deactivates(i: Instr) {
    i == Off(Deactivate)
    || (i.Us? && (i.u.SetException? || i.u.ResetClient? || i.u.Close? || i.u.Connect? || i.u.DestroyManager?))
  }

  // The instruction comes to the target, whatever is chosen on the way.
  predicate Leads(i: Instr, target: Instr) {
    match target
    case Off(ClearRun) => Deactivates(i)
    case Off(Tail) => Deactivates(i) || i == Off(ClearRun)
    case Join => i.Us? && (i.u.ResetClient? || i.u.Close? || i.u.Connect? || i.u.DestroyManager?)
    case Call(locked) => i == Off(RemoveSubscription(locked)) || (locked && (i == On(LockedCall) || i == Us(SyncRead)))
    case Cl(x) => x.EndThread? && (i == Cl(Exit) || i == Cl(ExitBody))
    case _ => false
  }

  predicate WillDo(k: Cont, target: Instr) {
    k.Then? && (k.head == target || Leads(k.head, target) || (Harmless(k.head) && WillDo(k.rest, target)))
  }

  lemma Ahead(i: Instr, k: Cont, target: Instr)
    ensures WillDo(Then(i, k), target) <==> i == target || Leads(i, target) || (Harmless(i) && WillDo(k, target))
  {
  }

  // Harmless instructions unfold into harmless ones.
  lemma HarmlessExpands(i: Instr, k: Cont, h: Held, sh: Shared, choice: nat, target: Instr)
    requires Harmless(i) && Compound(i) && WillDo(k, target)
    ensures WillDo(Expand(i, k, h, sh, choice), target)
  {
  }

  lemma LeadsExpands(i: Instr, k: Cont, h: Held, sh: Shared, choice: nat, target: Instr)
    requires Leads(i, target)
    ensures WillDo(Expand(i, k, h, sh, choice), target)
  {
    match target
    case Cl(_) =>
      var last := Then(Rel(Client), Then(Cl(EndThread), k));
      assert WillDo(last, target) && WillDo(Then(Cl(LowerFlag), last), target);
    case _ =>
  }

  lemma StepWillDo(s: State, t: nat, choice: nat, target: Instr)
    requires CanStep(s, t) && WillDo(s.threads[t].cont, target) && s.threads[t].cont.head != target
    ensures WillDo(Step(s, t, choice).threads[t].cont, target)
  {
    hide Expand, WillDo, Leads, Harmless;
    var th := s.threads[t];
    var i, k := th.cont.head, th.cont.rest;
    Ahead(i, k, target);
    if Leads(i, target) {
      LeadsCompound(i, target);
      LeadsExpands(i, k, th.held, s.sh, choice, target);
    } else if Compound(i) && !i.Start? {
      HarmlessExpands(i, k, th.held, s.sh, choice, target);
    }
  }

  lemma LeadsCompound(i: Instr, target: Instr)
    requires Leads(i, target)
    ensures Compound(i) && !i.Start?
  {
  }

  // In every schedule: a thread that has the target ahead of it and later has not, has done it in between.
  lemma {:induction false} DoneBetween(states: seq<State>, moves: seq<Move>, j: nat, k: nat, t: nat, target: Instr)
      returns (m: nat)
    requires Trace(states, moves) && j <= k < |states| && t < |states[j].threads|
    requires WillDo(states[j].threads[t].cont, target)
    requires t < |states[k].threads| && !WillDo(states[k].threads[t].cont, target)
    ensures j <= m < k && moves[m].t == t && t < |states[m].threads|
    ensures states[m].threads[t].cont.Then? && states[m].threads[t].cont.head == target
    decreases k - j
  {
    hide Step, WillDo, CanStep;
    if moves[j].t == t && states[j].threads[t].cont.Then? && states[j].threads[t].cont.head == target {
      return j;
    }
    assert CanStep(states[j], moves[j].t) && states[j + 1] == Step(states[j], moves[j].t, moves[j].choice);
    HasThread(states[j], moves[j].t, moves[j].choice, t);
    if moves[j].t == t {
      StepWillDo(states[j], t, moves[j].choice, target);
    } else {
      OthersUntouched(states[j], moves[j].t, moves[j].choice);
    }
    m := DoneBetween(states, moves, j + 1, k, t, target);
  }

  lemma HasThread(s: State, t: nat, choice: nat, u: nat)
    requires CanStep(s, t) && u < |s.threads|
    ensures u < |Step(s, t, choice).threads|
    ensures s.threads[t].cont.Then?
  {
    OthersUntouched(s, t, choice);
  }

  // So setException, resetClient, close, connect and the destruction of the manager clear the run flag and the
  // subscription flag at some point before they are through.
  lemma CallsDeactivate(states: seq<State>, moves: seq<Move>, j: nat, k: nat, t: nat, u: UserStep) returns (a: nat, b: nat)
    requires Trace(states, moves) && j <= k < |states| && t < |states[j].threads| && t < |states[k].threads|
    requires Deactivates(Us(u)) && states[j].threads[t].cont.Then? && states[j].threads[t].cont.head == Us(u)
    requires !WillDo(states[k].threads[t].cont, Off(ClearRun)) && !WillDo(states[k].threads[t].cont, Off(Tail))
    ensures j < a <= k && j < b <= k && !states[a].sh.run && !states[b].sh.subActive
  {
    hide Step;
    var c := states[j].threads[t].cont;
    Ahead(c.head, c.rest, Off(ClearRun));
    Ahead(c.head, c.rest, Off(Tail));
    a := DoneBetween(states, moves, j, k, t, Off(ClearRun));
    FlagsWrittenExactly(states[a], t, moves[a].choice);
    b := DoneBetween(states, moves, j, k, t, Off(Tail));
    FlagsWrittenExactly(states[b], t, moves[b].choice);
    a, b := a + 1, b + 1;
  }

  // All but the first of them have joined the client thread by then.
  lemma CallsJoin(states: seq<State>, moves: seq<Move>, j: nat, k: nat, t: nat, u: UserStep) returns (a: nat)
    requires Trace(states, moves) && j <= k < |states| && t < |states[j].threads| && t < |states[k].threads|
    requires Deactivates(Us(u)) && !u.SetException?
    requires states[j].threads[t].cont.Then? && states[j].threads[t].cont.head == Us(u)
    requires !WillDo(states[k].threads[t].cont, Join)
    ensures j < a <= k && states[a].sh.thread.None?
  {
    hide Step;
    var c := states[j].threads[t].cont;
    Ahead(c.head, c.rest, Join);
    a := DoneBetween(states, moves, j, k, t, Join);
    FlagsWrittenExactly(states[a], t, moves[a].choice);
    a := a + 1;
  }

  // ----- who removes the subscription -----

  // deactivate without a client thread goes on to remove the subscription under the client lock; with one it leaves a
  // flag, and the client thread, when it finds the flag set after its loop, removes it and lowers the flag.
  lemma RemovalGoesOn(s: State, t: nat, choice: nat)
    requires CanStep(s, t)
    ensures var i, n := s.threads[t].cont.head, Step(s, t, choice);
            && (i in {Off(CheckThread), Cb(CbCheckThread)} ==>
                  if s.sh.thread.None? then WillDo(n.threads[t].cont, Off(RemoveSubscription(true))) else n.sh.removal)
            && (i == Cl(ExitBody) && s.sh.removal ==>
                  WillDo(n.threads[t].cont, Off(RemoveSubscription(true))) && WillDo(n.threads[t].cont, Cl(LowerFlag)))
            && (i in {Off(Tail), Cb(CbTail)} && s.sh.subActive ==>
                  n.threads[t].cont.Then? && n.threads[t].cont.head in {Off(CheckThread), Cb(CbCheckThread)})
  {
  }
}
