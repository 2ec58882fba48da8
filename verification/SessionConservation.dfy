/** Ids, references and incarnations in the runs in which a failed association finds its session untouched.
    OnAccept releases a session whose association fails without looking at its reference count, so a worker left over
    from the slot's previous use can have taken a reference in between; SessionRuns shows what happens then. */
module SessionConservation {
  import opened SessionMachine
  import opened Wrappers
  import opened SessionSafety

  // ---------------------------------------------------------------- what a thread holds of a slot

  /** References to the session; its mutex, across steps; its id, taken off the free stack or not yet put back. */
  datatype Holding = Refs | Mutex | Id

  function One(b: bool): nat { if b then 1 else 0 }

  function Amount(h: Holding, pc: Pc, s: nat): nat {
    match pc
    case Claimed(t) => One(h.Id? && t == s)
    case Post(_, _, ok, _) => Amount(h, ok, s)
    case Posting(_, t, ok, _) => One(h.Refs? && t == s) + Amount(h, ok, s)
    case DecRelease(t, next) => One(h.Refs? && t == s) + Amount(h, next, s)
    case Decrement(t, next) => One(h.Refs? && t == s) + Amount(h, next, s)
    case RelRead(t, next) => One(h.Mutex? && t == s) + Amount(h, next, s)
    case RelDelete(t, _, next) => One(h.Mutex? && t == s) + Amount(h, next, s)
    case RelClear(t, next) => One(h.Mutex? && t == s) + Amount(h, next, s)
    case RelFree(t, next) => One(h.Id? && t == s) + Amount(h, next, s)
    case Receiving(t, _) => One(h.Refs? && t == s)
    case EchoUser(t, _) => One(h.Refs? && t == s)
    case EchoLookup(t, _, _) => One(h.Refs? && t == s)
    case EchoTarget(t, _, _) => One(h.Refs? && t == s)
    case EchoSend(t, _, _) => One(h.Refs? && t == s)
    case _ => 0
  }

  function Total(h: Holding, threads: seq<Pc>, s: nat): nat {
    if threads == [] then 0 else Amount(h, threads[0], s) + Total(h, threads[1..], s)
  }

  lemma {:induction false} TotalAfterUpdate(h: Holding, threads: seq<Pc>, i: nat, pc: Pc, s: nat)
    requires i < |threads|
    ensures Total(h, threads[i := pc], s) + Amount(h, threads[i], s) == Total(h, threads, s) + Amount(h, pc, s)
    ensures Amount(h, threads[i], s) <= Total(h, threads, s)
  {
    if i > 0 {
      TotalAfterUpdate(h, threads[1..], i - 1, pc, s);
      assert threads[i := pc][1..] == threads[1..][i - 1 := pc];
    } else {
      assert threads[i := pc][1..] == threads[1..];
    }
  }

  // ---------------------------------------------------------------- the invariant

  /** Where a call returns to. */
  predicate IsReturn(pc: Pc) { pc.Idle? || pc.Connecting? || pc.Receiving? }

  /** The threads are inside calls as the source nests them. */
  predicate Shape(pc: Pc) {
    match pc
    case Post(_, s, ok, fail) => IsReturn(ok) && (fail == ok || (ok == Connecting(s) && fail.Idle?))
    case Posting(_, s, ok, fail) => IsReturn(ok) && (fail == ok || (ok == Connecting(s) && fail.Idle?))
    case DecRelease(_, next) => IsReturn(next)
    case Decrement(s, next) => next == Sent(s) || next == Post(false, s, Idle, Idle)
    case RelRead(_, next) => IsReturn(next)
    case RelDelete(_, _, next) => IsReturn(next)
    case RelClear(_, next) => IsReturn(next)
    case RelFree(_, next) => IsReturn(next)
    case _ => true
  }

  /** The accounts of one slot: `refs`, `mutex` and `ids` are what the threads hold of it, `free` how often its id is
      on the free stack. */
  predicate Balance(x: Slot, refs: nat, mutex: nat, ids: nat, free: nat) {
    && x.refCount == x.recvs + x.sends + refs
    && mutex == One(x.locked)
    && (x.locked ==> x.active && x.refCount == 0)
    && (0 < x.refCount ==> x.active)
    && free + ids + One(x.active) == 1
  }

  predicate SlotBalanced(st: State, s: nat)
    requires s < |st.sessions|
  {
    Balance(st.sessions[s], Total(Refs, st.threads, s), Total(Mutex, st.threads, s), Total(Id, st.threads, s),
            multiset(st.stack)[s])
  }

  /** The incarnations a thread remembers are the current ones. */
  predicate PcCurrent(pc: Pc, sessions: seq<Slot>) {
    match pc
    case Receiving(s, g) => s < |sessions| && sessions[s].gen == g
    case EchoUser(s, g) => s < |sessions| && sessions[s].gen == g
    case EchoLookup(s, g, _) => s < |sessions| && sessions[s].gen == g
    case EchoTarget(s, g, _) => s < |sessions| && sessions[s].gen == g
    case EchoSend(s, g, _) => s < |sessions| && sessions[s].gen == g
    case Post(_, _, ok, fail) => PcCurrent(ok, sessions) && PcCurrent(fail, sessions)
    case Posting(_, _, ok, fail) => PcCurrent(ok, sessions) && PcCurrent(fail, sessions)
    case DecRelease(_, next) => PcCurrent(next, sessions)
    case Decrement(_, next) => PcCurrent(next, sessions)
    case RelRead(_, next) => PcCurrent(next, sessions)
    case RelDelete(_, _, next) => PcCurrent(next, sessions)
    case RelClear(_, next) => PcCurrent(next, sessions)
    case RelFree(_, next) => PcCurrent(next, sessions)
    case _ => true
  }

  predicate Conserved(st: State) {
    && InRange(st) && Agreement(st)
    && (forall s :: 0 <= s < |st.sessions| ==> SlotBalanced(st, s))
    && (forall i :: 0 <= i < |st.threads| ==> Shape(st.threads[i]) && PcCurrent(st.threads[i], st.sessions))
    && (forall k :: 0 <= k < |st.log| ==> st.log[k].targetGen == st.log[k].gen)
  }

  /** A failed association finds the session active and without references. */
  predicate Clean(st: State, i: nat, c: Choice)
    requires InRange(st) && i < |st.threads|
  {
    assert PcInRange(st.threads[i], |st.sessions|);
    st.threads[i].Inited? && c == Go(false) ==>
      var x := st.sessions[st.threads[i].slot]; x.active && x.refCount == 0
  }

  // ---------------------------------------------------------------- one step: the slot concerned

  predicate KeepsBalance(x: Slot, pc: Pc, e: Effect, refs: nat, mutex: nat, ids: nat, free: nat)
    requires Amount(Refs, pc, e.slot) <= refs && Amount(Mutex, pc, e.slot) <= mutex && Amount(Id, pc, e.slot) <= ids
    requires e.pop ==> 0 < free
  {
    Balance(x, refs, mutex, ids, free) ==>
      Balance(e.x, refs - Amount(Refs, pc, e.slot) + Amount(Refs, e.pc, e.slot),
              mutex - Amount(Mutex, pc, e.slot) + Amount(Mutex, e.pc, e.slot),
              ids - Amount(Id, pc, e.slot) + Amount(Id, e.pc, e.slot), free - One(e.pop) + One(e.push))
  }

  predicate Holds(pc: Pc, s: nat, refs: nat, mutex: nat, ids: nat) {
    Amount(Refs, pc, s) <= refs && Amount(Mutex, pc, s) <= mutex && Amount(Id, pc, s) <= ids
  }

  predicate InLoop(pc: Pc) { pc.Idle? || pc.Receiving? || pc.Sent? }

  predicate InPost(pc: Pc) { pc.Post? || pc.Posting? }

  /** A thread about to post again holds nothing meanwhile. */
  lemma NothingHeld(h: Holding, send: bool, s: nat, t: nat)
    ensures Amount(h, Post(send, s, Idle, Idle), t) == 0
  {
  }

  lemma IdlePlanBalances(st: State, i: nat, c: Choice, refs: nat, mutex: nat, ids: nat, free: nat)
    requires InRange(st) && i < |st.threads| && Plan(st, i, c).Some? && Shape(st.threads[i])
    requires st.threads[i].Idle? && PcInRange(st.threads[i], |st.sessions|)
    requires var e := Plan(st, i, c).value; Holds(st.threads[i], e.slot, refs, mutex, ids) && (e.pop ==> 0 < free)
    ensures var e := Plan(st, i, c).value;
            && Shape(e.pc) && e.slot < |st.sessions|
            && KeepsBalance(st.sessions[e.slot], st.threads[i], e, refs, mutex, ids, free)
  {
  }

  lemma LoopPlanBalances(st: State, i: nat, c: Choice, refs: nat, mutex: nat, ids: nat, free: nat)
    requires InRange(st) && i < |st.threads| && Plan(st, i, c).Some? && Shape(st.threads[i])
    requires InLoop(st.threads[i]) && !st.threads[i].Idle? && PcInRange(st.threads[i], |st.sessions|)
    requires var e := Plan(st, i, c).value; Holds(st.threads[i], e.slot, refs, mutex, ids) && (e.pop ==> 0 < free)
    ensures var e := Plan(st, i, c).value;
            && Shape(e.pc) && e.slot < |st.sessions|
            && KeepsBalance(st.sessions[e.slot], st.threads[i], e, refs, mutex, ids, free)
  {
    var s := st.threads[i].slot;
    NothingHeld(Refs, false, s, s);
    NothingHeld(Mutex, false, s, s);
    NothingHeld(Id, false, s, s);
  }

  lemma EchoPlanBalances(st: State, i: nat, c: Choice, refs: nat, mutex: nat, ids: nat, free: nat)
    requires InRange(st) && i < |st.threads| && Plan(st, i, c).Some? && Shape(st.threads[i])
    requires InEcho(st.threads[i]) && !InLoop(st.threads[i]) && PcInRange(st.threads[i], |st.sessions|)
    requires var e := Plan(st, i, c).value; Holds(st.threads[i], e.slot, refs, mutex, ids) && (e.pop ==> 0 < free)
    ensures var e := Plan(st, i, c).value;
            && Shape(e.pc) && e.slot < |st.sessions|
            && KeepsBalance(st.sessions[e.slot], st.threads[i], e, refs, mutex, ids, free)
  {
    if st.threads[i].EchoSend? {
      EchoSendBalances(st, i, c, refs, mutex, ids, free);
    }
  }

  lemma EchoSendBalances(st: State, i: nat, c: Choice, refs: nat, mutex: nat, ids: nat, free: nat)
    requires InRange(st) && i < |st.threads| && Plan(st, i, c).Some?
    requires st.threads[i].EchoSend? && PcInRange(st.threads[i], |st.sessions|)
    requires var e := Plan(st, i, c).value; Holds(st.threads[i], e.slot, refs, mutex, ids) && (e.pop ==> 0 < free)
    ensures var e := Plan(st, i, c).value;
            && Shape(e.pc) && e.slot < |st.sessions|
            && KeepsBalance(st.sessions[e.slot], st.threads[i], e, refs, mutex, ids, free)
  {
  }

  lemma ReleasePlanBalances(st: State, i: nat, c: Choice, refs: nat, mutex: nat, ids: nat, free: nat)
    requires InRange(st) && i < |st.threads| && Plan(st, i, c).Some? && Shape(st.threads[i])
    requires InRelease(st.threads[i]) && PcInRange(st.threads[i], |st.sessions|)
    requires var e := Plan(st, i, c).value; Holds(st.threads[i], e.slot, refs, mutex, ids) && (e.pop ==> 0 < free)
    ensures var e := Plan(st, i, c).value;
            && Shape(e.pc) && e.slot < |st.sessions|
            && KeepsBalance(st.sessions[e.slot], st.threads[i], e, refs, mutex, ids, free)
  {
  }

  lemma PostPlanBalances(st: State, i: nat, c: Choice, refs: nat, mutex: nat, ids: nat, free: nat)
    requires InRange(st) && i < |st.threads| && Plan(st, i, c).Some? && Shape(st.threads[i])
    requires InPost(st.threads[i]) && PcInRange(st.threads[i], |st.sessions|)
    requires var e := Plan(st, i, c).value; Holds(st.threads[i], e.slot, refs, mutex, ids) && (e.pop ==> 0 < free)
    ensures var e := Plan(st, i, c).value;
            && Shape(e.pc) && e.slot < |st.sessions|
            && KeepsBalance(st.sessions[e.slot], st.threads[i], e, refs, mutex, ids, free)
  {
    if st.threads[i].Posting? {
      PostingBalances(st, i, c, refs, mutex, ids, free);
    }
  }

  lemma PostingBalances(st: State, i: nat, c: Choice, refs: nat, mutex: nat, ids: nat, free: nat)
    requires InRange(st) && i < |st.threads| && Plan(st, i, c).Some? && Shape(st.threads[i])
    requires st.threads[i].Posting? && PcInRange(st.threads[i], |st.sessions|)
    requires var e := Plan(st, i, c).value; Holds(st.threads[i], e.slot, refs, mutex, ids) && (e.pop ==> 0 < free)
    ensures var e := Plan(st, i, c).value;
            && Shape(e.pc) && e.slot < |st.sessions|
            && KeepsBalance(st.sessions[e.slot], st.threads[i], e, refs, mutex, ids, free)
  {
  }

  lemma AcceptPlanBalances(st: State, i: nat, c: Choice, refs: nat, mutex: nat, ids: nat, free: nat)
    requires InRange(st) && i < |st.threads| && Plan(st, i, c).Some? && Shape(st.threads[i]) && Clean(st, i, c)
    requires !InEcho(st.threads[i]) && !InRelease(st.threads[i]) && !InPost(st.threads[i])
    requires PcInRange(st.threads[i], |st.sessions|)
    requires var e := Plan(st, i, c).value; Holds(st.threads[i], e.slot, refs, mutex, ids) && (e.pop ==> 0 < free)
    ensures var e := Plan(st, i, c).value;
            && Shape(e.pc) && e.slot < |st.sessions|
            && KeepsBalance(st.sessions[e.slot], st.threads[i], e, refs, mutex, ids, free)
  {
  }

  lemma PlanBalances(st: State, i: nat, c: Choice, refs: nat, mutex: nat, ids: nat, free: nat)
    requires InRange(st) && i < |st.threads| && Plan(st, i, c).Some? && Shape(st.threads[i]) && Clean(st, i, c)
    requires var e := Plan(st, i, c).value; Holds(st.threads[i], e.slot, refs, mutex, ids) && (e.pop ==> 0 < free)
    ensures var e := Plan(st, i, c).value;
            && Shape(e.pc) && e.slot < |st.sessions|
            && KeepsBalance(st.sessions[e.slot], st.threads[i], e, refs, mutex, ids, free)
  {
    assert PcInRange(st.threads[i], |st.sessions|);
    if st.threads[i].Idle? {
      IdlePlanBalances(st, i, c, refs, mutex, ids, free);
    } else if InLoop(st.threads[i]) {
      LoopPlanBalances(st, i, c, refs, mutex, ids, free);
    } else if InEcho(st.threads[i]) {
      EchoPlanBalances(st, i, c, refs, mutex, ids, free);
    } else if InRelease(st.threads[i]) {
      ReleasePlanBalances(st, i, c, refs, mutex, ids, free);
    } else if InPost(st.threads[i]) {
      PostPlanBalances(st, i, c, refs, mutex, ids, free);
    } else {
      AcceptPlanBalances(st, i, c, refs, mutex, ids, free);
    }
  }

  // ---------------------------------------------------------------- one step: the other slots

  lemma LoopPlanElsewhere(st: State, i: nat, c: Choice, h: Holding, t: nat)
    requires InRange(st) && i < |st.threads| && Plan(st, i, c).Some? && Shape(st.threads[i])
    requires InLoop(st.threads[i]) && PcInRange(st.threads[i], |st.sessions|)
    requires t != Plan(st, i, c).value.slot
    ensures Amount(h, Plan(st, i, c).value.pc, t) == Amount(h, st.threads[i], t)
  {
    NothingHeld(h, false, Plan(st, i, c).value.slot, t);
  }

  lemma EchoPlanElsewhere(st: State, i: nat, c: Choice, h: Holding, t: nat)
    requires InRange(st) && i < |st.threads| && Plan(st, i, c).Some? && Shape(st.threads[i])
    requires InEcho(st.threads[i]) && !InLoop(st.threads[i]) && PcInRange(st.threads[i], |st.sessions|)
    requires t != Plan(st, i, c).value.slot
    ensures Amount(h, Plan(st, i, c).value.pc, t) == Amount(h, st.threads[i], t)
  {
  }

  lemma ReleasePlanElsewhere(st: State, i: nat, c: Choice, h: Holding, t: nat)
    requires InRange(st) && i < |st.threads| && Plan(st, i, c).Some? && Shape(st.threads[i])
    requires InRelease(st.threads[i]) && PcInRange(st.threads[i], |st.sessions|)
    requires t != Plan(st, i, c).value.slot
    ensures Amount(h, Plan(st, i, c).value.pc, t) == Amount(h, st.threads[i], t)
  {
  }

  lemma OtherPlanElsewhere(st: State, i: nat, c: Choice, h: Holding, t: nat)
    requires InRange(st) && i < |st.threads| && Plan(st, i, c).Some? && Shape(st.threads[i])
    requires !InEcho(st.threads[i]) && !InRelease(st.threads[i]) && PcInRange(st.threads[i], |st.sessions|)
    requires t != Plan(st, i, c).value.slot
    ensures Amount(h, Plan(st, i, c).value.pc, t) == Amount(h, st.threads[i], t)
  {
  }

  lemma PlanElsewhere(st: State, i: nat, c: Choice, h: Holding, t: nat)
    requires InRange(st) && i < |st.threads| && Plan(st, i, c).Some? && Shape(st.threads[i])
    requires t != Plan(st, i, c).value.slot
    ensures Amount(h, Plan(st, i, c).value.pc, t) == Amount(h, st.threads[i], t)
  {
    assert PcInRange(st.threads[i], |st.sessions|);
    if InLoop(st.threads[i]) {
      LoopPlanElsewhere(st, i, c, h, t);
    } else if InEcho(st.threads[i]) {
      EchoPlanElsewhere(st, i, c, h, t);
    } else if InRelease(st.threads[i]) {
      ReleasePlanElsewhere(st, i, c, h, t);
    } else {
      OtherPlanElsewhere(st, i, c, h, t);
    }
  }

  lemma StackAfterCounts(stack: seq<nat>, e: Effect, t: nat)
    requires e.pop ==> stack != [] && !e.push && e.slot == stack[|stack| - 1]
    ensures multiset(StackAfter(stack, e))[t] + One(e.pop && t == e.slot)
            == multiset(stack)[t] + One(e.push && t == e.slot)
  {
    if e.pop {
      assert stack == stack[..|stack| - 1] + [stack[|stack| - 1]];
    }
  }

  lemma StepKeepsSlot(st: State, i: nat, c: Choice, t: nat)
    requires Conserved(st) && i < |st.threads| && Plan(st, i, c).Some? && Clean(st, i, c)
    requires t < |st.sessions|
    ensures var st' := ApplyPlan(st, i, c); |st'.sessions| == |st.sessions| && SlotBalanced(st', t)
  {
    hide Agreement, PcCurrent, Plan, Amount, Total, PcInRange, Shape;
    var pc, e := st.threads[i], Plan(st, i, c).value;
    PlanInRange(st, i, c);
    PopsTop(st, i, c);
    StackAfterCounts(st.stack, e, t);
    TotalAfterUpdate(Refs, st.threads, i, e.pc, t);
    TotalAfterUpdate(Mutex, st.threads, i, e.pc, t);
    TotalAfterUpdate(Id, st.threads, i, e.pc, t);
    assert SlotBalanced(st, t) && Shape(pc);
    if t == e.slot {
      PlanBalances(st, i, c, Total(Refs, st.threads, t), Total(Mutex, st.threads, t), Total(Id, st.threads, t),
                   multiset(st.stack)[t]);
    } else {
      PlanElsewhere(st, i, c, Refs, t);
      PlanElsewhere(st, i, c, Mutex, t);
      PlanElsewhere(st, i, c, Id, t);
    }
  }

  lemma PopsTop(st: State, i: nat, c: Choice)
    requires InRange(st) && i < |st.threads| && Plan(st, i, c).Some?
    ensures var e := Plan(st, i, c).value;
            e.pop ==> st.stack != [] && !e.push && e.slot == st.stack[|st.stack| - 1] && 0 < multiset(st.stack)[e.slot]
  {
    assert PcInRange(st.threads[i], |st.sessions|);
    if Plan(st, i, c).value.pop {
      assert st.stack[|st.stack| - 1] in multiset(st.stack);
    }
  }

  // ---------------------------------------------------------------- one step: incarnations

  /** What a thread knows stays current when the slot that changes keeps its incarnation or is not referenced. */
  lemma {:induction false} CurrentAfter(pc: Pc, sessions: seq<Slot>, s: nat, x: Slot)
    requires s < |sessions| && Shape(pc) && PcCurrent(pc, sessions)
    requires x.gen == sessions[s].gen || Amount(Refs, pc, s) == 0
    ensures PcCurrent(pc, sessions[s := x])
  {
  }

  lemma {:induction false} NoReferenceInTotal(threads: seq<Pc>, s: nat, j: nat)
    requires j < |threads| && Total(Refs, threads, s) == 0
    ensures Amount(Refs, threads[j], s) == 0
  {
    if j > 0 {
      NoReferenceInTotal(threads[1..], s, j - 1);
    }
  }

  predicate PlanIsCurrent(st: State, e: Effect) {
    && e.slot < |st.sessions|
    && PcCurrent(e.pc, st.sessions[e.slot := e.x])
    && (e.echo.Some? ==> e.echo.value.targetGen == e.echo.value.gen)
  }

  lemma EchoPlanCurrent(st: State, i: nat, c: Choice)
    requires InRange(st) && i < |st.threads| && Plan(st, i, c).Some? && Agreement(st)
    requires Shape(st.threads[i]) && PcCurrent(st.threads[i], st.sessions) && InEcho(st.threads[i])
    ensures PlanIsCurrent(st, Plan(st, i, c).value)
  {
    assert PcInRange(st.threads[i], |st.sessions|);
    assert PcAgrees(st.threads[i], st.users, st.userIdCount);
  }

  lemma OtherPlanCurrent(st: State, i: nat, c: Choice)
    requires InRange(st) && i < |st.threads| && Plan(st, i, c).Some?
    requires Shape(st.threads[i]) && PcCurrent(st.threads[i], st.sessions) && !InEcho(st.threads[i])
    ensures PlanIsCurrent(st, Plan(st, i, c).value)
    ensures st.threads[i].Claimed? || Plan(st, i, c).value.x.gen == st.sessions[Plan(st, i, c).value.slot].gen
  {
    assert PcInRange(st.threads[i], |st.sessions|);
  }

  /** Only Init starts a new incarnation, and nobody refers to the session then. */
  lemma InitUnreferenced(st: State, i: nat, s: nat)
    requires Conserved(st) && i < |st.threads| && st.threads[i] == Claimed(s)
    ensures s < |st.sessions| && !st.sessions[s].active && Total(Refs, st.threads, s) == 0
  {
    assert PcInRange(st.threads[i], |st.sessions|);
    assert SlotBalanced(st, s);
    TotalAfterUpdate(Id, st.threads, i, Idle, s);
  }

  lemma StepKeepsCurrent(st: State, i: nat, c: Choice, j: nat)
    requires Conserved(st) && i < |st.threads| && Plan(st, i, c).Some? && Clean(st, i, c) && j < |st.threads|
    ensures var st' := ApplyPlan(st, i, c);
            j < |st'.threads| && Shape(st'.threads[j]) && PcCurrent(st'.threads[j], st'.sessions)
    ensures PlanIsCurrent(st, Plan(st, i, c).value)
  {
    hide Agreement, PcCurrent;
    var pc, e := st.threads[i], Plan(st, i, c).value;
    PlanInRange(st, i, c);
    PopsTop(st, i, c);
    TotalAfterUpdate(Refs, st.threads, i, e.pc, e.slot);
    TotalAfterUpdate(Mutex, st.threads, i, e.pc, e.slot);
    TotalAfterUpdate(Id, st.threads, i, e.pc, e.slot);
    PlanBalances(st, i, c, Total(Refs, st.threads, e.slot), Total(Mutex, st.threads, e.slot),
                 Total(Id, st.threads, e.slot), multiset(st.stack)[e.slot]);
    if InEcho(pc) {
      EchoPlanCurrent(st, i, c);
      EchoKeepsGen(st, i, c);
    } else {
      OtherPlanCurrent(st, i, c);
    }
    if j != i {
      if pc.Claimed? {
        InitUnreferenced(st, i, e.slot);
        NoReferenceInTotal(st.threads, e.slot, j);
      }
      CurrentAfter(st.threads[j], st.sessions, e.slot, e.x);
    }
  }

  lemma EchoKeepsGen(st: State, i: nat, c: Choice)
    requires InRange(st) && i < |st.threads| && Plan(st, i, c).Some? && InEcho(st.threads[i])
    ensures var e := Plan(st, i, c).value; e.slot < |st.sessions| && e.x.gen == st.sessions[e.slot].gen
  {
    assert PcInRange(st.threads[i], |st.sessions|);
  }

  lemma StepConserves(st: State, i: nat, c: Choice, st': State)
    requires Conserved(st) && Next(st, i, c, st') && Clean(st, i, c)
    ensures Conserved(st')
  {
    StepKeepsAgreement(st, i, c, st');
    StepStaysInRange(st, i, c, st');
    if Plan(st, i, c).Some? {
      forall t | 0 <= t < |st'.sessions| ensures SlotBalanced(st', t) {
        StepKeepsSlot(st, i, c, t);
      }
      forall j | 0 <= j < |st'.threads| ensures Shape(st'.threads[j]) && PcCurrent(st'.threads[j], st'.sessions) {
        StepKeepsCurrent(st, i, c, j);
      }
      StepKeepsCurrent(st, i, c, i);
    }
  }

  /** The condition is exact: from a state with balanced accounts a step keeps them balanced if and only if it is not
      the release, after a failed association, of a session that is referred to or has been released already. */
  lemma StepConservesIffClean(st: State, i: nat, c: Choice, st': State)
    requires Conserved(st) && Next(st, i, c, st')
    ensures Conserved(st') <==> Clean(st, i, c)
  {
    if Clean(st, i, c) {
      StepConserves(st, i, c, st');
    } else {
      var s := st.threads[i].slot;
      assert PcInRange(st.threads[i], |st.sessions|);
      assert st'.sessions[s].locked && !(st'.sessions[s].active && st'.sessions[s].refCount == 0);
      assert !SlotBalanced(st', s);
    }
  }
}
