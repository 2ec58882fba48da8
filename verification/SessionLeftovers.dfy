/** The sending flag, in all runs. PostSend raises it and refuses while it is up; only the completion of a send on a
    session that is still active lowers it again. Where a send ends otherwise, the slot never sends again, whichever
    sessions use it later: Session::Init leaves the flag as it is. */
module SessionLeftovers {
  import opened SessionMachine
  import opened Wrappers
  import opened SessionSafety
  import opened SessionConservation
  import opened SessionCleanRuns
  import opened SessionIds

  /** A send on slot s that the thread is posting or completing. */
  function SendHeld(pc: Pc, s: nat): nat {
    match pc
    case Posting(send, t, _, _) => One(send && t == s)
    case Decrement(t, next) => One(next == Sent(t) && t == s)
    case Sent(t) => One(t == s)
    case _ => 0
  }

  function SendsHeld(threads: seq<Pc>, s: nat): nat {
    if threads == [] then 0 else SendHeld(threads[0], s) + SendsHeld(threads[1..], s)
  }

  /** The sends on slot s that are outstanding, being posted or being completed. */
  function UnderWay(st: State, s: nat): nat
    requires s < |st.sessions|
  {
    st.sessions[s].sends + SendsHeld(st.threads, s)
  }

  /** At most one send is under way on a slot, and its flag is up. */
  predicate SendsAccounted(st: State) {
    Shapes(st) && forall s :: 0 <= s < |st.sessions| ==> UnderWay(st, s) <= One(st.sessions[s].isSending)
  }

  /** The flag is up although no send is under way. */
  predicate Stuck(st: State, s: nat) {
    s < |st.sessions| && st.sessions[s].isSending && UnderWay(st, s) == 0
  }

  /** A send on slot s ends without the flag being lowered: its completion carries no bytes, WSASend fails, or OnSend
      returns early, because it has released the session or because the session is not active. */
  predicate LosesFlag(st: State, i: nat, c: Choice, s: nat)
    requires InRange(st) && i < |st.threads|
  {
    assert PcInRange(st.threads[i], |st.sessions|);
    match st.threads[i]
    case Idle => c == Dequeue(s, true, true)
    case Posting(send, t, _, _) => send && t == s && c == Go(false)
    case Decrement(t, next) =>
      next == Sent(t) && t == s && st.sessions[t].disconnectRequested && st.sessions[t].refCount <= 1
    case Sent(t) => t == s && !st.sessions[t].active
    case _ => false
  }

  // ---------------------------------------------------------------- one step

  lemma {:induction false} SendsAfterUpdate(threads: seq<Pc>, i: nat, pc: Pc, s: nat)
    requires i < |threads|
    ensures SendsHeld(threads[i := pc], s) + SendHeld(threads[i], s) == SendsHeld(threads, s) + SendHeld(pc, s)
    ensures SendHeld(threads[i], s) <= SendsHeld(threads, s)
  {
    if i > 0 {
      SendsAfterUpdate(threads[1..], i - 1, pc, s);
      assert threads[i := pc][1..] == threads[1..][i - 1 := pc];
    } else {
      assert threads[i := pc][1..] == threads[1..];
    }
  }

  /** What a step does to the sends under way on slot s and to its flag: `n` and `up` are those of its own slot before
      the step. */
  ghost predicate SendFacts(st: State, i: nat, c: Choice, e: Effect)
    requires InRange(st) && i < |st.threads| && e.slot < |st.sessions|
  {
    var pc, x, s := st.threads[i], st.sessions[e.slot], e.slot;
    var n, n' := x.sends + SendHeld(pc, s), e.x.sends + SendHeld(e.pc, s);
    && (forall t :: t != s ==> SendHeld(e.pc, t) == SendHeld(pc, t) && !LosesFlag(st, i, c, t))
    && (if LosesFlag(st, i, c, s) then n == n' + 1 && e.x.isSending == x.isSending
        else if pc.Sent? then n == n' + 1 && !e.x.isSending
        else if pc.Post? && e.pc.Posting? && e.pc.send then n' == n + 1 && !x.isSending && e.x.isSending
        else n' == n && e.x.isSending == x.isSending)
  }

  lemma EchoSends(st: State, i: nat, c: Choice)
    requires CanMove(st, i, c) && InEcho(st.threads[i]) && !InLoop(st.threads[i])
    ensures var e := Plan(st, i, c).value; e.slot < |st.sessions| && SendFacts(st, i, c, e)
  {
  }

  lemma LoopSends(st: State, i: nat, c: Choice)
    requires CanMove(st, i, c) && InLoop(st.threads[i])
    ensures var e := Plan(st, i, c).value; e.slot < |st.sessions| && SendFacts(st, i, c, e)
  {
  }

  lemma ReleaseSends(st: State, i: nat, c: Choice)
    requires CanMove(st, i, c) && InRelease(st.threads[i])
    ensures var e := Plan(st, i, c).value; e.slot < |st.sessions| && SendFacts(st, i, c, e)
  {
  }

  lemma OtherSends(st: State, i: nat, c: Choice)
    requires CanMove(st, i, c) && !InEcho(st.threads[i]) && !InRelease(st.threads[i])
    ensures var e := Plan(st, i, c).value; e.slot < |st.sessions| && SendFacts(st, i, c, e)
  {
  }

  lemma SendsOfPlan(st: State, i: nat, c: Choice)
    requires Shapes(st) && i < |st.threads| && Plan(st, i, c).Some?
    ensures var e := Plan(st, i, c).value; e.slot < |st.sessions| && SendFacts(st, i, c, e)
  {
    assert PcInRange(st.threads[i], |st.sessions|);
    hide Plan, SendFacts;
    if InLoop(st.threads[i]) {
      LoopSends(st, i, c);
    } else if InEcho(st.threads[i]) {
      EchoSends(st, i, c);
    } else if InRelease(st.threads[i]) {
      ReleaseSends(st, i, c);
    } else {
      OtherSends(st, i, c);
    }
  }

  /** One step, seen from slot s: from a sound state it becomes stuck exactly by a step that loses its flag, stays
      stuck, and never has more than one send under way. */
  lemma SlotAfterStep(st: State, i: nat, c: Choice, s: nat)
    requires SendsAccounted(st) && i < |st.threads| && Plan(st, i, c).Some? && s < |st.sessions|
    ensures var st' := ApplyPlan(st, i, c);
            && |st'.sessions| == |st.sessions|
            && UnderWay(st', s) <= One(st'.sessions[s].isSending)
            && (Stuck(st', s) <==> Stuck(st, s) || LosesFlag(st, i, c, s))
  {
    var e := Plan(st, i, c).value;
    SendsOfPlan(st, i, c);
    PlanInRange(st, i, c);
    SendsAfterUpdate(st.threads, i, e.pc, s);
    hide Plan, PcInRange, InRange, Shape, LosesFlag, SendHeld, SendsHeld;
    assert UnderWay(st, s) <= One(st.sessions[s].isSending);
    LostFlagWasUp(st, i, c, s);
  }

  lemma LostFlagWasUp(st: State, i: nat, c: Choice, s: nat)
    requires Shapes(st) && i < |st.threads| && Plan(st, i, c).Some? && s < |st.sessions|
    ensures LosesFlag(st, i, c, s) ==> 1 <= st.sessions[s].sends + SendHeld(st.threads[i], s)
    ensures st.threads[i].Sent? ==> Plan(st, i, c).value.slot == st.threads[i].slot
                                    && 1 <= SendHeld(st.threads[i], st.threads[i].slot)
  {
    assert PcInRange(st.threads[i], |st.sessions|);
  }

  lemma StepAccountsSends(st: State, i: nat, c: Choice, st': State)
    requires SendsAccounted(st) && Next(st, i, c, st')
    ensures SendsAccounted(st') && |st'.sessions| == |st.sessions|
  {
    if Plan(st, i, c).Some? {
      StepKeepsShapes(st, i, c);
      hide Plan, Shapes, UnderWay;
      forall s | 0 <= s < |st'.sessions| ensures UnderWay(st', s) <= One(st'.sessions[s].isSending) {
        SlotAfterStep(st, i, c, s);
      }
    }
  }

  // ---------------------------------------------------------------- all runs

  lemma {:induction false} NoSendsAtFirst(n: nat, s: nat)
    ensures SendsHeld(seq(n, _ => Idle), s) == 0
  {
    if n > 0 {
      var threads: seq<Pc> := seq(n, _ => Idle);
      assert threads[1..] == seq(n - 1, _ => Idle);
      NoSendsAtFirst(n - 1, s);
    }
  }

  lemma {:induction false} RunsAccountSends(sts: seq<State>, maxSession: nat, workers: nat, k: nat)
    requires IsRun(sts, maxSession, workers) && k < |sts|
    ensures SendsAccounted(sts[k]) && |sts[k].sessions| == maxSession
    decreases k
  {
    if k == 0 {
      InitAccounted(maxSession, workers);
      forall s | 0 <= s < maxSession ensures UnderWay(sts[0], s) == 0 {
        NoSendsAtFirst(workers + 1, s);
      }
    } else {
      RunsAccountSends(sts, maxSession, workers, k - 1);
      assert Follows(sts[k - 1], sts[k - 1 + 1]);
      var i, c :| Next(sts[k - 1], i, c, sts[k]);
      StepAccountsSends(sts[k - 1], i, c, sts[k]);
    }
  }

  /** The step from st to st' loses the flag of slot s. */
  ghost predicate FlagLost(st: State, st': State, s: nat) {
    exists i: nat, c: Choice :: Next(st, i, c, st') && LosesFlag(st, i, c, s) && Plan(st, i, c).Some?
  }

  lemma StuckAfter(st: State, st': State, s: nat)
    requires SendsAccounted(st) && Follows(st, st') && s < |st.sessions|
    ensures Stuck(st', s) <==> Stuck(st, s) || FlagLost(st, st', s)
  {
    if FlagLost(st, st', s) {
      var i: nat, c: Choice :| Next(st, i, c, st') && LosesFlag(st, i, c, s) && Plan(st, i, c).Some?;
      SlotAfterStep(st, i, c, s);
    } else {
      var i, c :| Next(st, i, c, st');
      if Plan(st, i, c).Some? {
        SlotAfterStep(st, i, c, s);
      }
    }
  }

  /** In every run a slot is stuck if and only if some step so far has lost its flag; so once it is stuck it stays so,
      and no send is under way on it ever again. */
  lemma {:induction false} StuckIffFlagLost(sts: seq<State>, maxSession: nat, workers: nat, s: nat, k: nat)
    requires IsRun(sts, maxSession, workers) && s < maxSession && k < |sts|
    ensures Stuck(sts[k], s) <==> exists j :: 0 <= j < k && FlagLost(sts[j], sts[j + 1], s)
    decreases k
  {
    hide FlagLost, Stuck, SendsAccounted, IsRun, Follows;
    if k == 0 {
      FlagsDownAtFirst(sts, maxSession, workers, s);
    } else {
      StuckIffFlagLost(sts, maxSession, workers, s, k - 1);
      StuckAfterStep(sts, maxSession, workers, s, k);
      OneStepMore(sts, s, k);
    }
  }

  lemma FlagsDownAtFirst(sts: seq<State>, maxSession: nat, workers: nat, s: nat)
    requires IsRun(sts, maxSession, workers) && s < maxSession
    ensures !Stuck(sts[0], s)
  {
  }

  lemma StuckAfterStep(sts: seq<State>, maxSession: nat, workers: nat, s: nat, k: nat)
    requires IsRun(sts, maxSession, workers) && s < maxSession && 0 < k < |sts|
    ensures Stuck(sts[k], s) <==> Stuck(sts[k - 1], s) || FlagLost(sts[k - 1], sts[k], s)
  {
    RunsAccountSends(sts, maxSession, workers, k - 1);
    assert Follows(sts[k - 1], sts[k - 1 + 1]);
    hide FlagLost, Stuck, Follows;
    StuckAfter(sts[k - 1], sts[k], s);
  }

  lemma OneStepMore(sts: seq<State>, s: nat, k: nat)
    requires 0 < k < |sts|
    ensures (exists j :: 0 <= j < k && FlagLost(sts[j], sts[j + 1], s))
            <==> (exists j :: 0 <= j < k - 1 && FlagLost(sts[j], sts[j + 1], s)) || FlagLost(sts[k - 1], sts[k], s)
  {
    hide FlagLost;
    if FlagLost(sts[k - 1], sts[k], s) {
      assert FlagLost(sts[k - 1], sts[k - 1 + 1], s);
    }
  }

  lemma StuckForGood(sts: seq<State>, maxSession: nat, workers: nat, s: nat, k: nat, m: nat)
    requires IsRun(sts, maxSession, workers) && s < maxSession && k <= m < |sts|
    ensures Stuck(sts[k], s) ==> Stuck(sts[m], s) && sts[m].sessions[s].sends == 0
  {
    StuckIffFlagLost(sts, maxSession, workers, s, k);
    StuckIffFlagLost(sts, maxSession, workers, s, m);
  }
}
