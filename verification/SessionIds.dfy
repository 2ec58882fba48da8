/** What becomes of the ids, in all runs. An id is accounted for if it is exactly once on the free stack, with an active
    session or in the hands of a thread; that goes wrong when a session is cleared that has been cleared before, and
    then only. */
module SessionIds {
  import opened SessionMachine
  import opened Wrappers
  import opened SessionSafety
  import opened SessionConservation
  import opened SessionCleanRuns

  /** How often id s is free, held by a thread, or in use. */
  function Places(st: State, s: nat): nat
    requires s < |st.sessions|
  {
    multiset(st.stack)[s] + Total(Id, st.threads, s) + One(st.sessions[s].active)
  }

  predicate AllAccounted(st: State) {
    forall s :: 0 <= s < |st.sessions| ==> Places(st, s) == 1
  }

  /** Thread i is about to clear a session that is not active, and then to free its id. */
  predicate ClearsAgain(st: State, i: nat)
    requires i < |st.threads|
  {
    var pc := st.threads[i];
    pc.RelClear? && pc.slot < |st.sessions| && !st.sessions[pc.slot].active
  }

  /** The step from st to st' is such a clear. */
  ghost predicate ClearedAgain(st: State, st': State) {
    |st.threads| == |st'.threads| &&
      exists i: nat :: i < |st.threads| && ClearsAgain(st, i) && st'.threads[i] != st.threads[i]
  }

  predicate Shapes(st: State) {
    InRange(st) && forall i :: 0 <= i < |st.threads| ==> Shape(st.threads[i])
  }

  // ---------------------------------------------------------------- one step

  /** What the step does to the places of its own slot: nothing, but for a clear of an inactive session and an
      initialisation of an active one. */
  predicate PlacesChange(pc: Pc, x: Slot, e: Effect) {
    && Shape(e.pc)
    && (pc.RelClear? || pc.Claimed? ==> e.slot == pc.slot && e.pc != pc)
    && Amount(Id, e.pc, e.slot) + One(e.push) + One(e.x.active) + One(pc.Claimed? && x.active)
       == Amount(Id, pc, e.slot) + One(e.pop) + One(x.active) + One(pc.RelClear? && !x.active)
  }

  predicate CanMove(st: State, i: nat, c: Choice) {
    && InRange(st) && i < |st.threads| && Plan(st, i, c).Some?
    && Shape(st.threads[i]) && PcInRange(st.threads[i], |st.sessions|)
  }

  lemma EchoPlaces(st: State, i: nat, c: Choice)
    requires CanMove(st, i, c) && InEcho(st.threads[i])
    ensures var e := Plan(st, i, c).value;
            e.slot < |st.sessions| && PlacesChange(st.threads[i], st.sessions[e.slot], e)
  {
    NothingHeld(Id, false, Plan(st, i, c).value.slot, Plan(st, i, c).value.slot);
  }

  lemma ReleasePlaces(st: State, i: nat, c: Choice)
    requires CanMove(st, i, c) && InRelease(st.threads[i])
    ensures var e := Plan(st, i, c).value;
            e.slot < |st.sessions| && PlacesChange(st.threads[i], st.sessions[e.slot], e)
  {
  }

  lemma OtherPlaces(st: State, i: nat, c: Choice)
    requires CanMove(st, i, c) && !InEcho(st.threads[i]) && !InRelease(st.threads[i])
    ensures var e := Plan(st, i, c).value;
            e.slot < |st.sessions| && PlacesChange(st.threads[i], st.sessions[e.slot], e)
  {
  }

  lemma PlacesOfPlan(st: State, i: nat, c: Choice)
    requires Shapes(st) && i < |st.threads| && Plan(st, i, c).Some?
    ensures var e := Plan(st, i, c).value;
            e.slot < |st.sessions| && PlacesChange(st.threads[i], st.sessions[e.slot], e)
  {
    assert PcInRange(st.threads[i], |st.sessions|);
    hide Plan, PlacesChange;
    if InEcho(st.threads[i]) {
      EchoPlaces(st, i, c);
    } else if InRelease(st.threads[i]) {
      ReleasePlaces(st, i, c);
    } else {
      OtherPlaces(st, i, c);
    }
  }

  lemma StepKeepsShapes(st: State, i: nat, c: Choice)
    requires Shapes(st) && i < |st.threads| && Plan(st, i, c).Some?
    ensures Shapes(ApplyPlan(st, i, c)) && |ApplyPlan(st, i, c).sessions| == |st.sessions|
  {
    StepStaysInRange(st, i, c, ApplyPlan(st, i, c));
    PlacesOfPlan(st, i, c);
    hide Plan;
  }

  /** The places of each slot after a step. */
  lemma PlacesAfter(st: State, i: nat, c: Choice, t: nat)
    requires Shapes(st) && i < |st.threads| && Plan(st, i, c).Some? && t < |st.sessions|
    ensures var pc, st' := st.threads[i], ApplyPlan(st, i, c);
            && |st'.sessions| == |st.sessions|
            && Places(st', t) + One(pc == Claimed(t) && st.sessions[t].active)
               == Places(st, t) + One(ClearsAgain(st, i) && pc.slot == t)
  {
    hide Plan, Amount, Total, Shape, PcInRange, InRange;
    var pc, e := st.threads[i], Plan(st, i, c).value;
    PlanInRange(st, i, c);
    PlacesOfPlan(st, i, c);
    PopsTop(st, i, c);
    StackAfterCounts(st.stack, e, t);
    TotalAfterUpdate(Id, st.threads, i, e.pc, t);
    if t != e.slot {
      assert Shape(pc);
      PlanElsewhere(st, i, c, Id, t);
    }
  }

  /** A step keeps all ids accounted for exactly if it does not clear a session that is not active. */
  lemma StepAccountsIff(st: State, i: nat, c: Choice)
    requires Shapes(st) && AllAccounted(st) && i < |st.threads| && Plan(st, i, c).Some?
    ensures AllAccounted(ApplyPlan(st, i, c)) <==> !ClearsAgain(st, i)
  {
    var pc, st' := st.threads[i], ApplyPlan(st, i, c);
    StepKeepsShapes(st, i, c);
    if pc.Claimed? {
      assert PcInRange(pc, |st.sessions|) && Places(st, pc.slot) == 1;
      TotalAfterUpdate(Id, st.threads, i, Idle, pc.slot);
      assert !st.sessions[pc.slot].active;
    }
    hide Plan, Places, Shapes, Apply, ApplyPlan;
    forall t | 0 <= t < |st'.sessions|
      ensures Places(st', t) == if ClearsAgain(st, i) && pc.slot == t then 2 else 1
    {
      PlacesAfter(st, i, c, t);
    }
    if ClearsAgain(st, i) {
      assert Places(st', pc.slot) == 2;
    }
  }

  // ---------------------------------------------------------------- all runs

  ghost predicate NeverClearedAgain(sts: seq<State>) {
    forall k :: 0 <= k < |sts| - 1 ==> !ClearedAgain(sts[k], sts[k + 1])
  }

  ghost predicate AlwaysAccounted(sts: seq<State>) {
    forall k :: 0 <= k < |sts| ==> AllAccounted(sts[k])
  }

  lemma InitAccounted(maxSession: nat, workers: nat)
    ensures Shapes(Init(maxSession, workers)) && AllAccounted(Init(maxSession, workers))
  {
    var st := Init(maxSession, workers);
    InitAgrees(maxSession, workers);
    forall s | 0 <= s < maxSession ensures Places(st, s) == 1 {
      IdleTotals(Id, workers + 1, s);
      EachIdOnce(maxSession, s);
    }
  }

  lemma ClearIsStep(st: State, i: nat, c: Choice)
    requires Shapes(st) && i < |st.threads| && Plan(st, i, c).Some?
    ensures ClearedAgain(st, ApplyPlan(st, i, c)) <==> ClearsAgain(st, i)
  {
    PlacesOfPlan(st, i, c);
    var st' := ApplyPlan(st, i, c);
    hide Plan;
    if ClearsAgain(st, i) {
      assert st'.threads[i] != st.threads[i];
    }
  }

  lemma StepAccounted(st: State, i: nat, c: Choice, st': State)
    requires Shapes(st) && Next(st, i, c, st')
    ensures Shapes(st')
    ensures AllAccounted(st) ==> (AllAccounted(st') <==> !ClearedAgain(st, st'))
  {
    if Plan(st, i, c).Some? {
      StepKeepsShapes(st, i, c);
      ClearIsStep(st, i, c);
      if AllAccounted(st) {
        StepAccountsIff(st, i, c);
      }
    }
  }

  lemma {:induction false} RunsKeepShapes(sts: seq<State>, maxSession: nat, workers: nat, k: nat)
    requires IsRun(sts, maxSession, workers) && k < |sts|
    ensures Shapes(sts[k])
    decreases k
  {
    if k == 0 {
      InitAccounted(maxSession, workers);
    } else {
      RunsKeepShapes(sts, maxSession, workers, k - 1);
      assert Follows(sts[k - 1], sts[k - 1 + 1]);
      var i, c :| Next(sts[k - 1], i, c, sts[k]);
      StepAccounted(sts[k - 1], i, c, sts[k]);
    }
  }

  lemma {:induction false} AccountedUpTo(sts: seq<State>, maxSession: nat, workers: nat, k: nat)
    requires IsRun(sts, maxSession, workers) && NeverClearedAgain(sts) && k < |sts|
    ensures AllAccounted(sts[k])
    decreases k
  {
    if k == 0 {
      InitAccounted(maxSession, workers);
    } else {
      AccountedUpTo(sts, maxSession, workers, k - 1);
      RunsKeepShapes(sts, maxSession, workers, k - 1);
      assert Follows(sts[k - 1], sts[k - 1 + 1]) && !ClearedAgain(sts[k - 1], sts[k - 1 + 1]);
      var i, c :| Next(sts[k - 1], i, c, sts[k]);
      StepAccounted(sts[k - 1], i, c, sts[k]);
    }
  }

  /** In every run: each id is always exactly once free, held or in use if and only if no step has cleared a session
      that was not active. */
  lemma IdsAreAccountedIff(sts: seq<State>, maxSession: nat, workers: nat)
    requires IsRun(sts, maxSession, workers)
    ensures AlwaysAccounted(sts) <==> NeverClearedAgain(sts)
  {
    if NeverClearedAgain(sts) {
      forall k | 0 <= k < |sts| ensures AllAccounted(sts[k]) {
        AccountedUpTo(sts, maxSession, workers, k);
      }
    } else {
      var k :| 0 <= k < |sts| - 1 && ClearedAgain(sts[k], sts[k + 1]);
      if AlwaysAccounted(sts) {
        assert AllAccounted(sts[k]) && AllAccounted(sts[k + 1]);
        RunsKeepShapes(sts, maxSession, workers, k);
        assert Follows(sts[k], sts[k + 1]);
        var i, c :| Next(sts[k], i, c, sts[k + 1]);
        StepAccounted(sts[k], i, c, sts[k + 1]);
        assert false;
      }
    }
  }

  /** What that means for the free stack: no id is on it twice, and a free id names an inactive session that no thread
      is claiming or freeing; so only a cleared slot is ever handed out. */
  lemma FreeIdsAreClear(st: State, k: nat)
    requires InRange(st) && AllAccounted(st) && k < |st.stack|
    ensures var s := st.stack[k];
            && s < |st.sessions| && !st.sessions[s].active && Total(Id, st.threads, s) == 0
            && forall j :: 0 <= j < |st.stack| && j != k ==> st.stack[j] != s
  {
    var s := st.stack[k];
    assert Places(st, s) == 1 && s in multiset(st.stack);
    forall j | 0 <= j < |st.stack| && j != k ensures st.stack[j] != s {
      if st.stack[j] == s {
        TwiceInMultiset(st.stack, if j < k then j else k, if j < k then k else j);
      }
    }
  }

  /** A release, from the moment its thread has the mutex to the return of the id, with nobody in between. */
  lemma ReleaseByItself(st: State, i: nat, s: nat) returns (st2: State, st3: State, st4: State, st5: State)
    requires InRange(st) && i < |st.threads| && st.threads[i] == RelRead(s, Idle)
    ensures Next(st, i, Go(true), st2) && Next(st2, i, Go(true), st3)
    ensures Next(st3, i, Go(true), st4) && Next(st4, i, Go(true), st5)
    ensures s < |st.sessions|
    ensures st5.sessions == st.sessions[s := st.sessions[s].(active := false, locked := false)]
    ensures st5.stack == st.stack + [s] && st5.threads == st.threads[i := Idle]
  {
    assert PcInRange(st.threads[i], |st.sessions|);
    var x := st.sessions[s];
    st2 := st.(threads := st.threads[i := RelDelete(s, x.userId, Idle)]);
    assert st.sessions[s := x] == st.sessions;
    assert Next(st, i, Go(true), st2);
    StepStaysInRange(st, i, Go(true), st2);
    st3, st4, st5 := ReleaseRest(st2, i, s);
  }

  lemma ReleaseRest(st: State, i: nat, s: nat) returns (st3: State, st4: State, st5: State)
    requires InRange(st) && i < |st.threads| && s < |st.sessions|
    requires st.threads[i] == RelDelete(s, st.sessions[s].userId, Idle)
    ensures Next(st, i, Go(true), st3) && Next(st3, i, Go(true), st4) && Next(st4, i, Go(true), st5)
    ensures st5.sessions == st.sessions[s := st.sessions[s].(active := false, locked := false)]
    ensures st5.stack == st.stack + [s] && st5.threads == st.threads[i := Idle]
  {
    st3 := ApplyPlan(st, i, Go(true));
    StepStaysInRange(st, i, Go(true), st3);
    st4 := ApplyPlan(st3, i, Go(true));
    StepStaysInRange(st3, i, Go(true), st4);
    st5 := ApplyPlan(st4, i, Go(true));
  }

  /** Why a step that is not clean cannot be left at that: from balanced accounts, the release it begins ends, when
      nobody interferes, with a session that is not active but referred to, or with an id that is free or held twice. */
  lemma UncleanReleaseBreaks(st: State, i: nat, c: Choice)
    returns (st1: State, st2: State, st3: State, st4: State, st5: State)
    requires Conserved(st) && i < |st.threads| && Plan(st, i, c).Some? && !Clean(st, i, c)
    ensures Next(st, i, c, st1) && Next(st1, i, Go(true), st2) && Next(st2, i, Go(true), st3)
    ensures Next(st3, i, Go(true), st4) && Next(st4, i, Go(true), st5)
    ensures var s := st.threads[i].slot;
            && s < |st5.sessions| && !st5.sessions[s].active && s in st5.stack
            && (0 < st5.sessions[s].refCount || 2 <= Places(st5, s))
  {
    var s := st.threads[i].slot;
    assert PcInRange(st.threads[i], |st.sessions|) && SlotBalanced(st, s);
    st1 := ApplyPlan(st, i, c);
    StepStaysInRange(st, i, c, st1);
    st2, st3, st4, st5 := ReleaseByItself(st1, i, s);
    TotalAfterUpdate(Id, st.threads, i, Idle, s);
    assert st5.threads == st.threads[i := Idle];
    hide Plan, InRange, Total, Amount;
  }

  lemma CleanStepsClearOnce(st: State, i: nat)
    requires Conserved(st) && i < |st.threads|
    ensures !ClearsAgain(st, i)
  {
    var pc := st.threads[i];
    if pc.RelClear? {
      assert PcInRange(pc, |st.sessions|);
      assert SlotBalanced(st, pc.slot);
      TotalAfterUpdate(Mutex, st.threads, i, Idle, pc.slot);
    }
  }

  /** Clean runs do not: only a failed association that finds its session referred to or released can come to that. */
  lemma CleanRunsClearOnce(sts: seq<State>, maxSession: nat, workers: nat)
    requires IsCleanRun(sts, maxSession, workers)
    ensures NeverClearedAgain(sts) && AlwaysAccounted(sts)
  {
    CleanIsRun(sts, maxSession, workers);
    forall k | 0 <= k < |sts| - 1 ensures !ClearedAgain(sts[k], sts[k + 1]) {
      CleanRunsConserve(sts[..k + 1], maxSession, workers);
      forall i: nat | i < |sts[k].threads| ensures !ClearsAgain(sts[k], i) {
        CleanStepsClearOnce(sts[k], i);
      }
    }
    IdsAreAccountedIff(sts, maxSession, workers);
  }
}
