/** More of what is kept in all runs, about the accept thread and the session it is working on: what the fate of the
    user directory depends on. */
module SessionRegular {
  import opened SessionMachine
  import opened Wrappers
  import opened SessionSafety
  import opened SessionConservation
  import opened SessionIds
  import opened SessionBooks

  // ---------------------------------------------------------------- what the threads are for

  /** Thread 0 accepts, the others work. */
  predicate Role(pc: Pc, i: nat) {
    if i == 0 then
      match pc
      case Post(send, s, ok, fail) => !send && ok == Connecting(s) && fail.Idle?
      case Posting(send, s, ok, fail) => !send && ok == Connecting(s) && fail.Idle?
      case DecRelease(_, next) => next.Idle?
      case RelRead(_, next) => next.Idle?
      case RelDelete(_, _, next) => next.Idle?
      case RelClear(_, next) => next.Idle?
      case RelFree(_, next) => next.Idle?
      case _ => pc.Idle? || pc.Claimed? || pc.Inited? || pc.Connecting? || pc.Naming?
    else
      match pc
      case Post(_, _, ok, fail) => !ok.Connecting? && !fail.Connecting?
      case Posting(_, _, ok, fail) => !ok.Connecting? && !fail.Connecting?
      case DecRelease(_, next) => !next.Connecting?
      case RelRead(_, next) => !next.Connecting?
      case RelDelete(_, _, next) => !next.Connecting?
      case RelClear(_, next) => !next.Connecting?
      case RelFree(_, next) => !next.Connecting?
      case _ => !pc.Claimed? && !pc.Inited? && !pc.Connecting? && !pc.Naming?
  }

  predicate Roles(st: State) {
    0 < |st.threads| && forall i :: 0 <= i < |st.threads| ==> Role(st.threads[i], i)
  }

  /** The accept thread is working on a session that has no user yet. */
  predicate Accepting(pc: Pc) {
    pc.Inited? || pc.Connecting? || pc.Naming? || pc.Post? || pc.Posting? || pc.DecRelease?
    || pc.RelRead? || pc.RelDelete? || pc.RelClear?
  }

  /** OnAccept is about to create the user of session s, or to tell the session. */
  predicate BeingNamed(pc: Pc, s: nat) { pc == Connecting(s) || (pc.Naming? && pc.slot == s) }

  // ---------------------------------------------------------------- what a step can change

  /** What becomes of the slot's fields. */
  predicate SlotFacts(pc: Pc, x: Slot, e: Effect) {
    && (if pc.Claimed? then
          e.slot == pc.slot && e.x.active && e.x.userId == 0 && e.pc == Inited(e.slot) && !x.locked
        else if pc.RelClear? then
          e.slot == pc.slot && !e.x.active && e.x.userId == x.userId && e.pc == RelFree(pc.slot, pc.next)
        else e.x.active == x.active)
    && (if pc.Naming? then e.slot == pc.slot && e.x.userId == pc.userId && e.pc.Idle?
        else !pc.Claimed? ==> e.x.userId == x.userId)
  }

  /** What becomes of its mutex and reference count. */
  predicate LockFacts(pc: Pc, x: Slot, e: Effect) {
    && (x.locked && !e.x.locked ==> pc.RelClear?)
    && (pc.RelClear? ==> !e.x.locked)
    && (e.x.refCount != x.refCount ==> !x.locked)
    && (x.refCount < e.x.refCount ==> pc.Post? && x.active)
    && (e.pc.RelRead? && !pc.RelRead? ==> e.pc.slot == e.slot && !x.locked && e.x.locked)
    && (!x.locked && e.x.locked ==>
          && e.pc.RelRead? && !pc.Idle? && e.pc.slot == e.slot == pc.slot
          && ((pc.Inited? && e.x.refCount == x.refCount)
              || ((pc.DecRelease? || pc.Decrement?) && e.x.refCount == x.refCount - 1 && e.x.refCount < 1)))
    && (e.pc.Posting? ==>
          pc.Post? && pc.slot == e.pc.slot == e.slot && x.active && !x.locked && e.x.active && !e.x.locked)
  }

  predicate StepFacts(st: State, i: nat, e: Effect)
    requires i < |st.threads|
  {
    var pc := st.threads[i];
    && e.slot < |st.sessions|
    && SlotFacts(pc, st.sessions[e.slot], e) && LockFacts(pc, st.sessions[e.slot], e)
    && (if pc.Connecting? then
          e.slot == pc.slot && e.change == AddUser(pc.slot) && e.pc == Naming(pc.slot, st.userIdCount)
        else !e.change.AddUser? && !e.pc.Naming?)
    && (if pc.RelDelete? then
          e.change == EraseUser(pc.userId) && e.pc == RelClear(pc.slot, pc.next) && e.slot == pc.slot
          && e.x == st.sessions[e.slot]
        else !e.change.EraseUser? && !e.pc.RelClear?)
    && (if pc.RelRead? then
          e.slot == pc.slot && e.pc == RelDelete(pc.slot, st.sessions[e.slot].userId, pc.next)
          && e.x == st.sessions[e.slot]
        else !e.pc.RelDelete?)
    && (e.pc.Connecting? ==> pc.Posting? && pc.slot == e.pc.slot == e.slot)
    && (i == 0 && Accepting(e.pc) ==> pc.Claimed? || (Accepting(pc) && e.pc.slot == pc.slot))
    && Role(e.pc, i)
  }

  lemma EchoStepFacts(st: State, i: nat, c: Choice)
    requires CanMove(st, i, c) && Role(st.threads[i], i) && InEcho(st.threads[i]) && !InLoop(st.threads[i])
    ensures StepFacts(st, i, Plan(st, i, c).value)
  {
  }

  lemma LoopStepFacts(st: State, i: nat, c: Choice)
    requires CanMove(st, i, c) && Role(st.threads[i], i) && InLoop(st.threads[i])
    ensures StepFacts(st, i, Plan(st, i, c).value)
  {
  }

  lemma ReleaseStepFacts(st: State, i: nat, c: Choice)
    requires CanMove(st, i, c) && Role(st.threads[i], i) && InRelease(st.threads[i])
    ensures StepFacts(st, i, Plan(st, i, c).value)
  {
  }

  lemma PostStepFacts(st: State, i: nat, c: Choice)
    requires CanMove(st, i, c) && Role(st.threads[i], i) && InPost(st.threads[i])
    ensures StepFacts(st, i, Plan(st, i, c).value)
  {
  }

  lemma AcceptStepFacts(st: State, i: nat, c: Choice)
    requires CanMove(st, i, c) && Role(st.threads[i], i)
    requires !InEcho(st.threads[i]) && !InRelease(st.threads[i]) && !InPost(st.threads[i])
    ensures StepFacts(st, i, Plan(st, i, c).value)
  {
  }

  lemma FactsOfStep(st: State, i: nat, c: Choice)
    requires Shapes(st) && Roles(st) && i < |st.threads| && Plan(st, i, c).Some?
    ensures StepFacts(st, i, Plan(st, i, c).value)
  {
    hide StepFacts, Plan;
    assert Shape(st.threads[i]) && Role(st.threads[i], i) && PcInRange(st.threads[i], |st.sessions|);
    if InLoop(st.threads[i]) {
      LoopStepFacts(st, i, c);
    } else if InEcho(st.threads[i]) {
      EchoStepFacts(st, i, c);
    } else if InRelease(st.threads[i]) {
      ReleaseStepFacts(st, i, c);
    } else if InPost(st.threads[i]) {
      PostStepFacts(st, i, c);
    } else {
      AcceptStepFacts(st, i, c);
    }
  }

  // ---------------------------------------------------------------- the invariant

  /** A locked session is not referred to, unless it is the accept thread that releases it; an inactive session that is
      referred to has no user. */
  predicate SlotRegular(st: State, s: nat)
    requires s < |st.sessions| && 0 < |st.threads|
  {
    var x := st.sessions[s];
    && (x.locked ==> x.refCount == 0 || HoldsMutex(st.threads[0], s))
    && (!x.active && 0 < x.refCount ==> x.userId == 0)
  }

  /** A release of an inactive session has no user to read. */
  predicate PcRegular(pc: Pc, sessions: seq<Slot>) {
    pc.RelRead? ==> pc.slot < |sessions| && (!sessions[pc.slot].active ==> sessions[pc.slot].userId == 0)
  }

  /** The session the accept thread works on has no user id; while its receive is posted it is in use and free, and
      once it has been released its user can only be created in vain. */
  predicate AcceptRegular(pc: Pc, sessions: seq<Slot>) {
    && (Accepting(pc) ==> pc.slot < |sessions| && sessions[pc.slot].userId == 0)
    && (pc.Posting? ==> sessions[pc.slot].active && !sessions[pc.slot].locked)
    && (pc.Connecting? || pc.Naming? ==>
          !sessions[pc.slot].active ==> sessions[pc.slot].refCount == 0 && !sessions[pc.slot].locked)
  }

  predicate Regular(st: State) {
    && BooksKept(st) && Agreement(st) && Roles(st) && AcceptRegular(st.threads[0], st.sessions)
    && (forall s :: 0 <= s < |st.sessions| ==> SlotRegular(st, s))
    && (forall j :: 0 <= j < |st.threads| ==> PcRegular(st.threads[j], st.sessions))
  }

  predicate Moves(st: State, i: nat, c: Choice) {
    Regular(st) && i < |st.threads| && Plan(st, i, c).Some?
  }

  // ---------------------------------------------------------------- one step

  /** What the mover of a step holds. */
  lemma MoverHolds(st: State, i: nat, c: Choice)
    requires Moves(st, i, c)
    ensures var pc, e := st.threads[i], Plan(st, i, c).value;
            && StepFacts(st, i, e)
            && (pc.DecRelease? || pc.Decrement? ==> pc.slot < |st.sessions| && 1 <= st.sessions[pc.slot].refCount)
            && (pc.RelRead? || pc.RelDelete? || pc.RelClear? ==>
                  pc.slot < |st.sessions| && st.sessions[pc.slot].locked)
  {
    FactsOfStep(st, i, c);
    hide Plan;
    var pc := st.threads[i];
    assert PcInRange(pc, |st.sessions|);
    if pc.DecRelease? || pc.Decrement? {
      RefsCounted(st, i, pc.slot);
    } else if pc.RelRead? || pc.RelDelete? || pc.RelClear? {
      HolderLocks(st, i, pc.slot);
    }
  }

  lemma SlotRegularAfter(st: State, i: nat, c: Choice, s: nat)
    requires Moves(st, i, c) && s < |st.sessions|
    ensures var st' := ApplyPlan(st, i, c);
            |st'.sessions| == |st.sessions| && |st'.threads| == |st.threads| && SlotRegular(st', s)
  {
    MoverHolds(st, i, c);
    PlanInRange(st, i, c);
    hide Plan, BooksKept, Agreement, InRange;
    var pc, e := st.threads[i], Plan(st, i, c).value;
    assert SlotRegular(st, s) && Role(pc, i);
    if i == 0 && HoldsMutex(pc, s) {
      assert HoldsMutex(e.pc, s) || pc.RelClear?;
    }
  }

  lemma PcRegularAfter(st: State, i: nat, c: Choice, j: nat)
    requires Moves(st, i, c) && j < |st.threads|
    ensures var st' := ApplyPlan(st, i, c); j < |st'.threads| && PcRegular(st'.threads[j], st'.sessions)
  {
    MoverHolds(st, i, c);
    PlanInRange(st, i, c);
    var pc, e := st.threads[i], Plan(st, i, c).value;
    assert Role(pc, i) && PcRegular(st.threads[j], st.sessions) && SlotRegular(st, e.slot);
    if j != i && st.threads[j].RelRead? {
      HolderLocks(st, j, st.threads[j].slot);
      if HoldsMutex(pc, st.threads[j].slot) {
        OneHolder(st, i, j, st.threads[j].slot);
      }
    }
    hide Plan, BooksKept, Agreement, InRange;
  }

  /** A step of the accept thread itself. */
  lemma AcceptRegularAfterOwn(st: State, c: Choice)
    requires Moves(st, 0, c)
    ensures var st' := ApplyPlan(st, 0, c);
            |st'.threads| == |st.threads| && AcceptRegular(st'.threads[0], st'.sessions)
  {
    MoverHolds(st, 0, c);
    PlanInRange(st, 0, c);
    hide Plan, BooksKept, Agreement, InRange, PcRegular;
    var pc, e := st.threads[0], Plan(st, 0, c).value;
    assert Role(pc, 0) && SlotRegular(st, e.slot);
    if pc.Posting? {
      RefsCounted(st, 0, pc.slot);
    }
  }

  /** A step of a worker while the receive is being posted: the reference held for that keeps the session. */
  lemma AcceptRegularWhilePosting(st: State, i: nat, c: Choice)
    requires Moves(st, i, c) && i != 0 && st.threads[0].Posting?
    ensures var st' := ApplyPlan(st, i, c);
            |st'.threads| == |st.threads| && AcceptRegular(st'.threads[0], st'.sessions)
  {
    MoverHolds(st, i, c);
    PlanInRange(st, i, c);
    var pc, e, named := st.threads[i], Plan(st, i, c).value, st.threads[0];
    RefsOfTwo(st, 0, i, named.slot);
    hide Plan, BooksKept, Agreement, InRange, PcRegular;
    assert Role(pc, i) && SlotRegular(st, e.slot);
  }

  /** A step of a worker at any other time. */
  lemma AcceptRegularAfterOther(st: State, i: nat, c: Choice)
    requires Moves(st, i, c) && i != 0 && !st.threads[0].Posting?
    ensures var st' := ApplyPlan(st, i, c);
            |st'.threads| == |st.threads| && AcceptRegular(st'.threads[0], st'.sessions)
  {
    PlanInRange(st, i, c);
    UserlessAfterOther(st, i, c);
    ReleasedAfterOther(st, i, c);
  }

  lemma UserlessAfterOther(st: State, i: nat, c: Choice)
    requires Moves(st, i, c) && i != 0
    ensures var named, st' := st.threads[0], ApplyPlan(st, i, c);
            Accepting(named) ==> named.slot < |st'.sessions| && st'.sessions[named.slot].userId == 0
  {
    MoverHolds(st, i, c);
    hide Plan, BooksKept, Agreement, InRange, PcRegular, SlotRegular, LockFacts;
    assert Role(st.threads[i], i);
  }

  lemma ReleasedAfterOther(st: State, i: nat, c: Choice)
    requires Moves(st, i, c) && i != 0
    ensures var named, st' := st.threads[0], ApplyPlan(st, i, c);
            (named.Connecting? || named.Naming?) && named.slot < |st'.sessions| ==>
              var x := st'.sessions[named.slot];
              !x.active ==> x.refCount == 0 && !x.locked
  {
    MoverHolds(st, i, c);
    hide Plan, BooksKept, Agreement, InRange, PcRegular;
    var pc, e, named := st.threads[i], Plan(st, i, c).value, st.threads[0];
    assert Role(pc, i) && SlotRegular(st, e.slot);
    assert named.Connecting? || named.Naming? ==> !HoldsMutex(named, named.slot);
  }

  lemma StepKeepsRegular(st: State, i: nat, c: Choice, st': State)
    requires Regular(st) && Next(st, i, c, st')
    ensures Regular(st') && |st'.sessions| == |st.sessions|
  {
    StepKeepsBooks(st, i, c, st');
    StepKeepsAgreement(st, i, c, st');
    if Plan(st, i, c).Some? {
      FactsOfStep(st, i, c);
      if i == 0 {
        AcceptRegularAfterOwn(st, c);
      } else if st.threads[0].Posting? {
        AcceptRegularWhilePosting(st, i, c);
      } else {
        AcceptRegularAfterOther(st, i, c);
      }
      hide Plan, BooksKept, Agreement, SlotRegular, PcRegular, AcceptRegular;
      forall s | 0 <= s < |st'.sessions| ensures SlotRegular(st', s) {
        SlotRegularAfter(st, i, c, s);
      }
      forall j | 0 <= j < |st'.threads| ensures PcRegular(st'.threads[j], st'.sessions) {
        PcRegularAfter(st, i, c, j);
      }
    }
  }

  lemma {:induction false} RunsAreRegular(sts: seq<State>, maxSession: nat, workers: nat, k: nat)
    requires IsRun(sts, maxSession, workers) && k < |sts|
    ensures Regular(sts[k]) && |sts[k].sessions| == maxSession
    decreases k
  {
    if k == 0 {
      InitBooks(maxSession, workers);
      InitAgrees(maxSession, workers);
    } else {
      RunsAreRegular(sts, maxSession, workers, k - 1);
      assert Follows(sts[k - 1], sts[k - 1 + 1]);
      var i, c :| Next(sts[k - 1], i, c, sts[k]);
      StepKeepsRegular(sts[k - 1], i, c, sts[k]);
    }
  }
}
