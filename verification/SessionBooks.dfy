/** Accounts that are kept in all runs: a session's reference count is the number of its outstanding requests and of the
    threads that hold a reference, and its mutex is held across steps by exactly one thread if it is locked. From that:
    no thread waits for ever, and no session is leaked. */
module SessionBooks {
  import opened SessionMachine
  import opened Wrappers
  import opened SessionSafety
  import opened SessionConservation
  import opened SessionCleanRuns
  import opened SessionIds

  /** `refs` and `mutex` are what the threads hold of the slot. */
  predicate Books(x: Slot, refs: nat, mutex: nat) {
    x.refCount == x.recvs + x.sends + refs && mutex == One(x.locked)
  }

  predicate BooksKept(st: State) {
    && Shapes(st)
    && forall s :: 0 <= s < |st.sessions| ==>
         Books(st.sessions[s], Total(Refs, st.threads, s), Total(Mutex, st.threads, s))
  }

  // ---------------------------------------------------------------- one step

  predicate BooksChange(pc: Pc, x: Slot, e: Effect) {
    && e.x.refCount - e.x.recvs - e.x.sends - Amount(Refs, e.pc, e.slot)
       == x.refCount - x.recvs - x.sends - Amount(Refs, pc, e.slot)
    && (Amount(Mutex, pc, e.slot) <= One(x.locked) ==>
          One(e.x.locked) - Amount(Mutex, e.pc, e.slot) == One(x.locked) - Amount(Mutex, pc, e.slot))
  }

  lemma EchoBooks(st: State, i: nat, c: Choice)
    requires CanMove(st, i, c) && InEcho(st.threads[i]) && !InLoop(st.threads[i]) && !st.threads[i].EchoSend?
    ensures var e := Plan(st, i, c).value;
            e.slot < |st.sessions| && BooksChange(st.threads[i], st.sessions[e.slot], e)
  {
  }

  lemma EchoSendBooks(st: State, i: nat, c: Choice)
    requires CanMove(st, i, c) && st.threads[i].EchoSend?
    ensures var e := Plan(st, i, c).value;
            e.slot < |st.sessions| && BooksChange(st.threads[i], st.sessions[e.slot], e)
  {
  }

  lemma LoopBooks(st: State, i: nat, c: Choice)
    requires CanMove(st, i, c) && InLoop(st.threads[i])
    ensures var e := Plan(st, i, c).value;
            e.slot < |st.sessions| && BooksChange(st.threads[i], st.sessions[e.slot], e)
  {
    var s := Plan(st, i, c).value.slot;
    NothingHeld(Refs, false, s, s);
    NothingHeld(Mutex, false, s, s);
  }

  lemma ReleaseBooks(st: State, i: nat, c: Choice)
    requires CanMove(st, i, c) && InRelease(st.threads[i])
    ensures var e := Plan(st, i, c).value;
            e.slot < |st.sessions| && BooksChange(st.threads[i], st.sessions[e.slot], e)
  {
  }

  lemma PostBooks(st: State, i: nat, c: Choice)
    requires CanMove(st, i, c) && InPost(st.threads[i])
    ensures var e := Plan(st, i, c).value;
            e.slot < |st.sessions| && BooksChange(st.threads[i], st.sessions[e.slot], e)
  {
  }

  lemma OtherBooks(st: State, i: nat, c: Choice)
    requires CanMove(st, i, c) && !InEcho(st.threads[i]) && !InRelease(st.threads[i]) && !InPost(st.threads[i])
    ensures var e := Plan(st, i, c).value;
            e.slot < |st.sessions| && BooksChange(st.threads[i], st.sessions[e.slot], e)
  {
  }

  lemma BooksOfPlan(st: State, i: nat, c: Choice)
    requires Shapes(st) && i < |st.threads| && Plan(st, i, c).Some?
    ensures var e := Plan(st, i, c).value;
            e.slot < |st.sessions| && BooksChange(st.threads[i], st.sessions[e.slot], e)
  {
    assert PcInRange(st.threads[i], |st.sessions|);
    hide Plan, BooksChange;
    if InLoop(st.threads[i]) {
      LoopBooks(st, i, c);
    } else if st.threads[i].EchoSend? {
      EchoSendBooks(st, i, c);
    } else if InEcho(st.threads[i]) {
      EchoBooks(st, i, c);
    } else if InRelease(st.threads[i]) {
      ReleaseBooks(st, i, c);
    } else if InPost(st.threads[i]) {
      PostBooks(st, i, c);
    } else {
      OtherBooks(st, i, c);
    }
  }

  lemma BooksAfter(st: State, i: nat, c: Choice, t: nat)
    requires BooksKept(st) && i < |st.threads| && Plan(st, i, c).Some? && t < |st.sessions|
    ensures var st' := ApplyPlan(st, i, c);
            && |st'.sessions| == |st.sessions|
            && Books(st'.sessions[t], Total(Refs, st'.threads, t), Total(Mutex, st'.threads, t))
  {
    hide Plan, Amount, Total, Shape, PcInRange, InRange;
    var e := Plan(st, i, c).value;
    PlanInRange(st, i, c);
    BooksOfPlan(st, i, c);
    TotalAfterUpdate(Refs, st.threads, i, e.pc, t);
    TotalAfterUpdate(Mutex, st.threads, i, e.pc, t);
    assert Books(st.sessions[t], Total(Refs, st.threads, t), Total(Mutex, st.threads, t));
    if t != e.slot {
      PlanElsewhere(st, i, c, Refs, t);
      PlanElsewhere(st, i, c, Mutex, t);
    }
  }

  lemma StepKeepsBooks(st: State, i: nat, c: Choice, st': State)
    requires BooksKept(st) && Next(st, i, c, st')
    ensures BooksKept(st') && |st'.sessions| == |st.sessions|
  {
    if Plan(st, i, c).Some? {
      StepKeepsShapes(st, i, c);
      hide Plan, Shapes, Books;
      forall t | 0 <= t < |st'.sessions|
        ensures Books(st'.sessions[t], Total(Refs, st'.threads, t), Total(Mutex, st'.threads, t))
      {
        BooksAfter(st, i, c, t);
      }
    }
  }

  lemma InitBooks(maxSession: nat, workers: nat)
    ensures BooksKept(Init(maxSession, workers))
  {
    InitAccounted(maxSession, workers);
    var st := Init(maxSession, workers);
    forall s | 0 <= s < maxSession
      ensures Books(st.sessions[s], Total(Refs, st.threads, s), Total(Mutex, st.threads, s))
    {
      IdleTotals(Refs, workers + 1, s);
      IdleTotals(Mutex, workers + 1, s);
    }
  }

  /** In every state of every run, references and mutexes are accounted for. */
  lemma {:induction false} RunsKeepBooks(sts: seq<State>, maxSession: nat, workers: nat, k: nat)
    requires IsRun(sts, maxSession, workers) && k < |sts|
    ensures BooksKept(sts[k]) && |sts[k].sessions| == maxSession
    decreases k
  {
    if k == 0 {
      InitBooks(maxSession, workers);
    } else {
      RunsKeepBooks(sts, maxSession, workers, k - 1);
      assert Follows(sts[k - 1], sts[k - 1 + 1]);
      var i, c :| Next(sts[k - 1], i, c, sts[k]);
      StepKeepsBooks(sts[k - 1], i, c, sts[k]);
    }
  }

  // ---------------------------------------------------------------- what the books say

  /** The thread holds the mutex of session s across its steps. */
  predicate HoldsMutex(pc: Pc, s: nat) { (pc.RelRead? || pc.RelDelete? || pc.RelClear?) && pc.slot == s }

  lemma HolderLocks(st: State, j: nat, s: nat)
    requires BooksKept(st) && j < |st.threads| && HoldsMutex(st.threads[j], s)
    ensures s < |st.sessions| && st.sessions[s].locked
  {
    assert PcInRange(st.threads[j], |st.sessions|);
    assert Books(st.sessions[s], Total(Refs, st.threads, s), Total(Mutex, st.threads, s));
    TotalAfterUpdate(Mutex, st.threads, j, Idle, s);
  }

  lemma OneHolder(st: State, i: nat, j: nat, s: nat)
    requires BooksKept(st) && i < |st.threads| && j < |st.threads| && i != j
    requires HoldsMutex(st.threads[i], s)
    ensures !HoldsMutex(st.threads[j], s)
  {
    HolderLocks(st, i, s);
    assert Books(st.sessions[s], Total(Refs, st.threads, s), Total(Mutex, st.threads, s));
    TotalAfterUpdate(Mutex, st.threads, i, Idle, s);
    TotalAfterUpdate(Mutex, st.threads[i := Idle], j, Idle, s);
  }

  lemma NobodyElseHolds(st: State, i: nat, s: nat)
    requires BooksKept(st) && i < |st.threads| && HoldsMutex(st.threads[i], s)
    ensures forall j :: 0 <= j < |st.threads| && j != i ==> !HoldsMutex(st.threads[j], s)
  {
    forall j | 0 <= j < |st.threads| && j != i ensures !HoldsMutex(st.threads[j], s) {
      OneHolder(st, i, j, s);
    }
  }

  /** The references that one thread, or two, are known to hold are counted. */
  lemma RefsCounted(st: State, i: nat, s: nat)
    requires BooksKept(st) && i < |st.threads| && s < |st.sessions|
    ensures Amount(Refs, st.threads[i], s) <= st.sessions[s].refCount
  {
    assert Books(st.sessions[s], Total(Refs, st.threads, s), Total(Mutex, st.threads, s));
    TotalAfterUpdate(Refs, st.threads, i, Idle, s);
  }

  lemma RefsOfTwo(st: State, i: nat, j: nat, s: nat)
    requires BooksKept(st) && i < |st.threads| && j < |st.threads| && i != j && s < |st.sessions|
    ensures Amount(Refs, st.threads[i], s) + Amount(Refs, st.threads[j], s) <= st.sessions[s].refCount
  {
    assert Books(st.sessions[s], Total(Refs, st.threads, s), Total(Mutex, st.threads, s));
    TotalAfterUpdate(Refs, st.threads, i, Idle, s);
    TotalAfterUpdate(Refs, st.threads[i := Idle], j, Idle, s);
  }

  // ---------------------------------------------------------------- no deadlock

  lemma OnlyReleasesHold(pc: Pc, s: nat)
    requires Shape(pc) && 0 < Amount(Mutex, pc, s)
    ensures HoldsMutex(pc, s)
  {
    if pc.Decrement? {
      NothingHeld(Mutex, false, pc.slot, s);
    }
  }

  lemma {:induction false} FindHolder(threads: seq<Pc>, s: nat) returns (j: nat)
    requires 0 < Total(Mutex, threads, s) && forall i :: 0 <= i < |threads| ==> Shape(threads[i])
    ensures j < |threads| && HoldsMutex(threads[j], s)
  {
    if Amount(Mutex, threads[0], s) > 0 {
      OnlyReleasesHold(threads[0], s);
      j := 0;
    } else {
      j := FindHolder(threads[1..], s);
      j := j + 1;
    }
  }

  /** The session whose mutex the next step of the thread may have to wait for. */
  function Needs(pc: Pc): nat
    requires !pc.Idle?
  {
    if pc.EchoSend? then pc.target else pc.slot
  }

  lemma WaitsForMutex(st: State, i: nat) returns (c: Choice)
    requires Shapes(st) && i < |st.threads| && !st.threads[i].Idle?
    ensures Needs(st.threads[i]) < |st.sessions|
    ensures !st.sessions[Needs(st.threads[i])].locked ==> Plan(st, i, c).Some?
    ensures HoldsMutex(st.threads[i], Needs(st.threads[i])) ==> Plan(st, i, c).Some?
  {
    assert PcInRange(st.threads[i], |st.sessions|);
    c := if st.threads[i].Receiving? then EndOfData else Go(true);
  }

  /** A thread inside an operation can take its next step, or waits for a mutex whose holder can: in no state of any
      run are threads waiting for each other. */
  lemma NoDeadlock(st: State, i: nat) returns (j: nat, c: Choice)
    requires BooksKept(st) && i < |st.threads| && !st.threads[i].Idle?
    ensures j < |st.threads| && Plan(st, j, c).Some?
    ensures j == i || HoldsMutex(st.threads[j], Needs(st.threads[i]))
  {
    c := WaitsForMutex(st, i);
    j := i;
    var s := Needs(st.threads[i]);
    if Plan(st, i, c).None? {
      assert Books(st.sessions[s], Total(Refs, st.threads, s), Total(Mutex, st.threads, s));
      j := FindHolder(st.threads, s);
      c := WaitsForMutex(st, j);
    }
  }

  // ---------------------------------------------------------------- no session is leaked

  /** The thread will post the next receive on session s, or give up the reference of the last one. */
  predicate Carries(pc: Pc, s: nat) {
    match pc
    case Inited(t) => t == s
    case Post(send, t, ok, _) => (!send && t == s) || Carries(ok, s)
    case Posting(send, t, ok, _) => (!send && t == s) || Carries(ok, s)
    case DecRelease(t, next) => t == s || Carries(next, s)
    case Decrement(_, next) => Carries(next, s)
    case RelRead(_, next) => Carries(next, s)
    case RelDelete(_, _, next) => Carries(next, s)
    case RelClear(_, next) => Carries(next, s)
    case RelFree(_, next) => Carries(next, s)
    case Receiving(t, _) => t == s
    case EchoUser(t, _) => t == s
    case EchoLookup(t, _, _) => t == s
    case EchoTarget(t, _, _) => t == s
    case EchoSend(t, _, _) => t == s
    case _ => false
  }

  predicate Carried(threads: seq<Pc>, s: nat) {
    exists j :: 0 <= j < |threads| && Carries(threads[j], s)
  }

  /** An active session that is not being released has a receive outstanding, or a requested disconnect, or a thread
      that carries it on; and a requested disconnect has a reference to wait for. */
  predicate Owed(x: Slot, carried: bool) {
    x.active && !x.locked ==>
      (0 < x.recvs || x.disconnectRequested || carried) && (x.disconnectRequested ==> 0 < x.refCount)
  }

  predicate NothingLeaks(st: State) {
    && BooksKept(st) && Agreement(st)
    && forall s :: 0 <= s < |st.sessions| ==> Owed(st.sessions[s], Carried(st.threads, s))
  }

  /** The step hands the session on, or it was carried by others. */
  ghost predicate CarryChange(pc: Pc, x: Slot, e: Effect) {
    && (forall t :: t != e.slot && Carries(pc, t) ==> Carries(e.pc, t))
    && (e.x.active && !e.x.locked ==>
          || 0 < e.x.recvs || e.x.disconnectRequested || Carries(e.pc, e.slot)
          || (x.active && !x.locked && x.recvs == 0 && !x.disconnectRequested && !Carries(pc, e.slot)))
    && (e.x.active && !e.x.locked && e.x.disconnectRequested ==>
          0 < e.x.refCount || (x.active && !x.locked && x.disconnectRequested && x.refCount <= 0))
  }

  /** An echo that overflows the send queue is sent under a reference to the session. */
  predicate EchoReferred(st: State, i: nat)
    requires i < |st.threads|
  {
    var pc := st.threads[i];
    pc.EchoSend? ==> pc.target == pc.slot < |st.sessions| && 0 < st.sessions[pc.slot].refCount
  }

  lemma EchoCarries(st: State, i: nat, c: Choice)
    requires CanMove(st, i, c) && EchoReferred(st, i) && InEcho(st.threads[i]) && !InLoop(st.threads[i])
    ensures var e := Plan(st, i, c).value;
            e.slot < |st.sessions| && CarryChange(st.threads[i], st.sessions[e.slot], e)
  {
  }

  lemma LoopCarries(st: State, i: nat, c: Choice)
    requires CanMove(st, i, c) && InLoop(st.threads[i])
    ensures var e := Plan(st, i, c).value;
            e.slot < |st.sessions| && CarryChange(st.threads[i], st.sessions[e.slot], e)
  {
    assert Carries(Decrement(Plan(st, i, c).value.slot, Post(false, Plan(st, i, c).value.slot, Idle, Idle)),
                   Plan(st, i, c).value.slot);
  }

  lemma ReleaseCarries(st: State, i: nat, c: Choice)
    requires CanMove(st, i, c) && InRelease(st.threads[i])
    ensures var e := Plan(st, i, c).value;
            e.slot < |st.sessions| && CarryChange(st.threads[i], st.sessions[e.slot], e)
  {
  }

  lemma PostCarriesOn(send: bool, s: nat, ok: Pc, fail: Pc, t: nat)
    ensures Carries(Post(send, s, ok, fail), t) == ((!send && t == s) || Carries(ok, t))
    ensures Carries(Posting(send, s, ok, fail), t) == ((!send && t == s) || Carries(ok, t))
    ensures Carries(DecRelease(s, fail), t) == (t == s || Carries(fail, t))
  {
  }

  lemma PostCarries(st: State, i: nat, c: Choice)
    requires CanMove(st, i, c) && InPost(st.threads[i])
    ensures var e := Plan(st, i, c).value;
            e.slot < |st.sessions| && CarryChange(st.threads[i], st.sessions[e.slot], e)
  {
    var pc := st.threads[i];
    forall t ensures Carries(pc, t) == ((!pc.send && t == pc.slot) || Carries(pc.ok, t)) {
      PostCarriesOn(pc.send, pc.slot, pc.ok, pc.fail, t);
    }
    forall t
      ensures Carries(Posting(pc.send, pc.slot, pc.ok, pc.fail), t) == ((!pc.send && t == pc.slot) || Carries(pc.ok, t))
    {
      PostCarriesOn(pc.send, pc.slot, pc.ok, pc.fail, t);
    }
    forall t ensures Carries(DecRelease(pc.slot, pc.fail), t) == (t == pc.slot || Carries(pc.fail, t)) {
      PostCarriesOn(pc.send, pc.slot, pc.ok, pc.fail, t);
    }
    assert !Carries(Connecting(pc.slot), pc.slot);
    hide Carries;
  }

  lemma OtherCarries(st: State, i: nat, c: Choice)
    requires CanMove(st, i, c) && !InEcho(st.threads[i]) && !InRelease(st.threads[i]) && !InPost(st.threads[i])
    ensures var e := Plan(st, i, c).value;
            e.slot < |st.sessions| && CarryChange(st.threads[i], st.sessions[e.slot], e)
  {
  }

  lemma CarriesOfPlan(st: State, i: nat, c: Choice)
    requires BooksKept(st) && Agreement(st) && i < |st.threads| && Plan(st, i, c).Some?
    ensures var e := Plan(st, i, c).value;
            e.slot < |st.sessions| && CarryChange(st.threads[i], st.sessions[e.slot], e)
  {
    assert PcInRange(st.threads[i], |st.sessions|) && Shape(st.threads[i]);
    if st.threads[i].EchoSend? {
      assert PcAgrees(st.threads[i], st.users, st.userIdCount);
      RefsCounted(st, i, st.threads[i].slot);
    }
    assert EchoReferred(st, i);
    hide Plan, CarryChange, EchoReferred;
    if InLoop(st.threads[i]) {
      LoopCarries(st, i, c);
    } else if InEcho(st.threads[i]) {
      EchoCarries(st, i, c);
    } else if InRelease(st.threads[i]) {
      ReleaseCarries(st, i, c);
    } else if InPost(st.threads[i]) {
      PostCarries(st, i, c);
    } else {
      OtherCarries(st, i, c);
    }
  }

  /** A session that was carried by a thread is so after its step, except its own slot by that thread. */
  lemma CarriedAfter(threads: seq<Pc>, i: nat, pc: Pc, s: nat)
    requires i < |threads| && Carried(threads, s)
    ensures Carried(threads[i := pc], s) || Carries(threads[i], s)
  {
    var j :| 0 <= j < |threads| && Carries(threads[j], s);
    if j != i {
      assert Carries(threads[i := pc][j], s);
    }
  }

  lemma OwedAfter(st: State, i: nat, c: Choice, s: nat)
    requires NothingLeaks(st) && i < |st.threads| && Plan(st, i, c).Some? && s < |st.sessions|
    ensures var st' := ApplyPlan(st, i, c);
            |st'.sessions| == |st.sessions| && Owed(st'.sessions[s], Carried(st'.threads, s))
  {
    hide Plan, Carries, Books, Agreement, Shape;
    var e, pc := Plan(st, i, c).value, st.threads[i];
    PlanInRange(st, i, c);
    CarriesOfPlan(st, i, c);
    var st' := ApplyPlan(st, i, c);
    assert Owed(st.sessions[s], Carried(st.threads, s));
    assert st'.threads[i] == e.pc;
    if Carried(st.threads, s) {
      CarriedAfter(st.threads, i, e.pc, s);
    }
    if Carries(e.pc, s) {
      assert Carried(st'.threads, s);
    }
  }

  lemma StepLeaksNothing(st: State, i: nat, c: Choice, st': State)
    requires NothingLeaks(st) && Next(st, i, c, st')
    ensures NothingLeaks(st')
  {
    StepKeepsBooks(st, i, c, st');
    StepKeepsAgreement(st, i, c, st');
    if Plan(st, i, c).Some? {
      hide Plan, BooksKept, Agreement, Owed, Carried;
      forall s | 0 <= s < |st'.sessions| ensures Owed(st'.sessions[s], Carried(st'.threads, s)) {
        OwedAfter(st, i, c, s);
      }
    }
  }

  lemma {:induction false} RunsLeakNothing(sts: seq<State>, maxSession: nat, workers: nat, k: nat)
    requires IsRun(sts, maxSession, workers) && k < |sts|
    ensures NothingLeaks(sts[k]) && |sts[k].sessions| == maxSession
    decreases k
  {
    RunsKeepBooks(sts, maxSession, workers, k);
    if k == 0 {
      InitAgrees(maxSession, workers);
    } else {
      RunsLeakNothing(sts, maxSession, workers, k - 1);
      assert Follows(sts[k - 1], sts[k - 1 + 1]);
      var i, c :| Next(sts[k - 1], i, c, sts[k]);
      StepLeaksNothing(sts[k - 1], i, c, sts[k]);
    }
  }

  /** No thread is inside an operation. */
  predicate Quiet(st: State) {
    forall i :: 0 <= i < |st.threads| ==> st.threads[i].Idle?
  }

  lemma {:induction false} QuietTotals(h: Holding, threads: seq<Pc>, s: nat)
    requires forall i :: 0 <= i < |threads| ==> threads[i].Idle?
    ensures Total(h, threads, s) == 0
  {
    if threads != [] {
      QuietTotals(h, threads[1..], s);
    }
  }

  lemma QuietUnlocked(st: State, s: nat)
    requires BooksKept(st) && Quiet(st) && s < |st.sessions|
    ensures !st.sessions[s].locked && st.sessions[s].refCount == st.sessions[s].recvs + st.sessions[s].sends
  {
    QuietTotals(Mutex, st.threads, s);
    QuietTotals(Refs, st.threads, s);
    assert Books(st.sessions[s], Total(Refs, st.threads, s), Total(Mutex, st.threads, s));
  }

  /** No session is leaked, in any run: whenever no operation is under way, an active session still has a completion
      to come that carries it on or can release it. */
  lemma NoSessionLeaks(sts: seq<State>, maxSession: nat, workers: nat, s: nat)
    requires IsRun(sts, maxSession, workers) && Quiet(sts[|sts| - 1]) && s < maxSession
    ensures var st := sts[|sts| - 1];
            && s < |st.sessions|
            && var x := st.sessions[s];
               (x.active ==> 0 < x.recvs || (x.disconnectRequested && 0 < x.sends))
  {
    RunsLeakNothing(sts, maxSession, workers, |sts| - 1);
    var st := sts[|sts| - 1];
    QuietUnlocked(st, s);
    assert Owed(st.sessions[s], Carried(st.threads, s));
  }
}
