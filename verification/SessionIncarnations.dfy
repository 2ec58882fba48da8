/** To which connection an echo goes, in all runs. A slot is used for one connection after the other, and a worker goes
    on with the messages of a connection without asking whether the slot has been taken up again in between. An echo
    reaches a later connection exactly when that has happened to the worker that sends it. */
module SessionIncarnations {
  import opened SessionMachine
  import opened Wrappers
  import opened SessionSafety
  import opened SessionConservation
  import opened SessionCleanRuns
  import opened SessionIds
  import opened SessionBooks

  /** One use of a slot. */
  datatype Incarnation = Incarnation(slot: nat, gen: nat)

  /** The connection whose messages the thread is handling, or will go on handling when its call returns. */
  function Memory(pc: Pc): Option<Incarnation> {
    match pc
    case Receiving(s, g) => Some(Incarnation(s, g))
    case EchoUser(s, g) => Some(Incarnation(s, g))
    case EchoLookup(s, g, _) => Some(Incarnation(s, g))
    case EchoTarget(s, g, _) => Some(Incarnation(s, g))
    case EchoSend(s, g, _) => Some(Incarnation(s, g))
    case Post(_, _, ok, _) => Memory(ok)
    case Posting(_, _, ok, _) => Memory(ok)
    case DecRelease(_, next) => Memory(next)
    case Decrement(_, next) => Memory(next)
    case RelRead(_, next) => Memory(next)
    case RelDelete(_, _, next) => Memory(next)
    case RelClear(_, next) => Memory(next)
    case RelFree(_, next) => Memory(next)
    case _ => None
  }

  /** Slot s is initialised in the step from st to st'. */
  ghost predicate Initialises(st: State, st': State, s: nat) {
    |st.threads| == |st'.threads| &&
      exists j: nat :: j < |st.threads| && st.threads[j] == Claimed(s) && st'.threads[j] != Claimed(s)
  }

  /** Thread i, in state k of the run, is handling a connection whose slot has been initialised again since. */
  ghost predicate Outlived(sts: seq<State>, k: nat, i: nat)
    requires k < |sts|
    decreases k
  {
    && 0 < k && i < |sts[k].threads| && i < |sts[k - 1].threads|
    && Memory(sts[k].threads[i]).Some? && Memory(sts[k - 1].threads[i]).Some?
    && (Outlived(sts, k - 1, i)
        || Initialises(sts[k - 1], sts[k], Memory(sts[k - 1].threads[i]).value.slot))
  }

  /** Thread i sends an echo in the step from st to st'. */
  predicate Sends(st: State, i: nat, st': State) {
    && i < |st.threads| == |st'.threads| && st.threads[i].EchoSend?
    && st'.threads[i] != st.threads[i] && st'.log != st.log
  }

  /** Some worker sends an echo although the slot has been initialised since its message came in. */
  ghost predicate EchoTooLate(sts: seq<State>) {
    exists k: nat, i: nat :: k < |sts| - 1 && Outlived(sts, k, i) && Sends(sts[k], i, sts[k + 1])
  }

  predicate EchoesReturn(log: seq<Echo>) {
    forall k :: 0 <= k < |log| ==> log[k].target == log[k].slot && log[k].targetGen == log[k].gen
  }

  // ---------------------------------------------------------------- one step

  /** What a step does to the memory of its thread, to the incarnation of its slot and to the log. */
  predicate MemoryChange(pc: Pc, x: Slot, e: Effect) {
    && (Memory(e.pc).Some? ==>
          Memory(e.pc) == Memory(pc) || (pc.Idle? && 0 < x.recvs && Memory(e.pc) == Some(Incarnation(e.slot, x.gen))))
    && (if pc.Claimed? then e.slot == pc.slot && e.pc != pc && e.x.gen == x.genCount && e.x.genCount == x.genCount + 1
        else e.x.gen == x.gen && e.x.genCount == x.genCount)
    && (e.x.active || 0 < e.x.refCount ==> x.active || 0 < x.refCount || pc.Claimed?)
    && (e.echo.Some? ==>
          pc.EchoSend? && e.pc != pc && e.slot == pc.target && e.echo.value == Echo(pc.slot, pc.gen, pc.target, x.gen))
  }

  lemma EchoMemory(st: State, i: nat, c: Choice)
    requires CanMove(st, i, c) && InEcho(st.threads[i]) && !InLoop(st.threads[i])
    ensures var e := Plan(st, i, c).value;
            e.slot < |st.sessions| && MemoryChange(st.threads[i], st.sessions[e.slot], e)
  {
  }

  lemma NothingRemembered(send: bool, s: nat)
    ensures Memory(Decrement(s, Post(send, s, Idle, Idle))) == None
  {
    assert Memory(Post(send, s, Idle, Idle)) == None;
  }

  lemma LoopMemory(st: State, i: nat, c: Choice)
    requires CanMove(st, i, c) && InLoop(st.threads[i])
    ensures var e := Plan(st, i, c).value;
            e.slot < |st.sessions| && MemoryChange(st.threads[i], st.sessions[e.slot], e)
  {
    NothingRemembered(false, Plan(st, i, c).value.slot);
  }

  lemma ReleaseMemory(st: State, i: nat, c: Choice)
    requires CanMove(st, i, c) && InRelease(st.threads[i])
    ensures var e := Plan(st, i, c).value;
            e.slot < |st.sessions| && MemoryChange(st.threads[i], st.sessions[e.slot], e)
  {
  }

  lemma PostMemory(st: State, i: nat, c: Choice)
    requires CanMove(st, i, c) && InPost(st.threads[i])
    ensures var e := Plan(st, i, c).value;
            e.slot < |st.sessions| && MemoryChange(st.threads[i], st.sessions[e.slot], e)
  {
  }

  lemma AcceptMemory(st: State, i: nat, c: Choice)
    requires CanMove(st, i, c) && !InEcho(st.threads[i]) && !InRelease(st.threads[i]) && !InPost(st.threads[i])
    ensures var e := Plan(st, i, c).value;
            e.slot < |st.sessions| && MemoryChange(st.threads[i], st.sessions[e.slot], e)
  {
  }

  lemma MemoryOfPlan(st: State, i: nat, c: Choice)
    requires Shapes(st) && i < |st.threads| && Plan(st, i, c).Some?
    ensures var e := Plan(st, i, c).value;
            e.slot < |st.sessions| && MemoryChange(st.threads[i], st.sessions[e.slot], e)
  {
    hide Plan, MemoryChange;
    assert PcInRange(st.threads[i], |st.sessions|);
    if InLoop(st.threads[i]) {
      LoopMemory(st, i, c);
    } else if InEcho(st.threads[i]) {
      EchoMemory(st, i, c);
    } else if InRelease(st.threads[i]) {
      ReleaseMemory(st, i, c);
    } else if InPost(st.threads[i]) {
      PostMemory(st, i, c);
    } else {
      AcceptMemory(st, i, c);
    }
  }

  /** A thread that handles a connection refers to the session. */
  lemma MemoryRefers(pc: Pc)
    requires Shape(pc) && Memory(pc).Some?
    ensures 0 < Amount(Refs, pc, Memory(pc).value.slot)
  {
  }

  // ---------------------------------------------------------------- what all runs keep

  /** A slot that is in use or referred to has been initialised. */
  predicate Born(x: Slot) { x.active || 0 < x.refCount ==> x.gen < x.genCount }

  /** A remembered connection is the slot's current one or an earlier one. */
  predicate Past(pc: Pc, sessions: seq<Slot>) {
    var m := Memory(pc);
    m.Some? ==> m.value.slot < |sessions| && m.value.gen <= sessions[m.value.slot].gen
  }

  predicate Dated(st: State) {
    && BooksKept(st) && Agreement(st)
    && (forall s :: 0 <= s < |st.sessions| ==> Born(st.sessions[s]))
    && (forall j :: 0 <= j < |st.threads| ==> Past(st.threads[j], st.sessions))
  }

  /** The connection that thread j handles is not the slot's current one. */
  predicate Stale(st: State, j: nat)
    requires j < |st.threads|
  {
    var m := Memory(st.threads[j]);
    m.Some? && m.value.slot < |st.sessions| && st.sessions[m.value.slot].gen != m.value.gen
  }

  lemma MemoryIsBorn(st: State, j: nat)
    requires Dated(st) && j < |st.threads| && Memory(st.threads[j]).Some?
    ensures var s := Memory(st.threads[j]).value.slot;
            s < |st.sessions| && st.sessions[s].gen < st.sessions[s].genCount
  {
    var s := Memory(st.threads[j]).value.slot;
    MemoryRefers(st.threads[j]);
    assert Past(st.threads[j], st.sessions);
    RefsCounted(st, j, s);
    assert Born(st.sessions[s]);
  }

  lemma PastAfter(st: State, i: nat, c: Choice, j: nat)
    requires Dated(st) && i < |st.threads| && Plan(st, i, c).Some? && j < |st.threads|
    ensures var st' := ApplyPlan(st, i, c); j < |st'.threads| && Past(st'.threads[j], st'.sessions)
  {
    MemoryOfPlan(st, i, c);
    var pc, e := st.threads[i], Plan(st, i, c).value;
    if pc.Claimed? {
      assert Born(st.sessions[pc.slot]);
    }
    if Memory(st.threads[j]).Some? {
      MemoryIsBorn(st, j);
    }
    assert Past(st.threads[j], st.sessions) && Past(pc, st.sessions);
    hide Plan, BooksKept, Agreement, Memory;
  }

  lemma StepKeepsDated(st: State, i: nat, c: Choice, st': State)
    requires Dated(st) && Next(st, i, c, st')
    ensures Dated(st')
  {
    StepKeepsBooks(st, i, c, st');
    StepKeepsAgreement(st, i, c, st');
    if Plan(st, i, c).Some? {
      MemoryOfPlan(st, i, c);
      hide Plan, BooksKept, Agreement, Past, Memory;
      forall s | 0 <= s < |st'.sessions| ensures Born(st'.sessions[s]) {
        assert Born(st.sessions[s]);
      }
      forall j | 0 <= j < |st'.threads| ensures Past(st'.threads[j], st'.sessions) {
        PastAfter(st, i, c, j);
      }
    }
  }

  lemma {:induction false} RunsAreDated(sts: seq<State>, maxSession: nat, workers: nat, k: nat)
    requires IsRun(sts, maxSession, workers) && k < |sts|
    ensures Dated(sts[k]) && |sts[k].threads| == workers + 1
    decreases k
  {
    if k == 0 {
      InitBooks(maxSession, workers);
      InitAgrees(maxSession, workers);
    } else {
      RunsAreDated(sts, maxSession, workers, k - 1);
      assert Follows(sts[k - 1], sts[k - 1 + 1]);
      var i, c :| Next(sts[k - 1], i, c, sts[k]);
      StepKeepsDated(sts[k - 1], i, c, sts[k]);
      StepStaysInRange(sts[k - 1], i, c, sts[k]);
    }
  }

  // ---------------------------------------------------------------- stale means outlived

  lemma InitialisesIff(st: State, i: nat, c: Choice, s: nat)
    requires Dated(st) && i < |st.threads| && Plan(st, i, c).Some?
    ensures Initialises(st, ApplyPlan(st, i, c), s) <==> st.threads[i] == Claimed(s)
  {
    MemoryOfPlan(st, i, c);
    var st' := ApplyPlan(st, i, c);
    hide Plan, BooksKept, Agreement, Memory;
    if st.threads[i] == Claimed(s) {
      assert st'.threads[i] != Claimed(s);
    }
  }

  /** A thread's connection becomes stale when its slot is initialised, and stays so. */
  lemma StaleAfter(st: State, i: nat, c: Choice, j: nat)
    requires Dated(st) && i < |st.threads| && Plan(st, i, c).Some? && j < |st.threads|
    ensures var st', m := ApplyPlan(st, i, c), Memory(st.threads[j]);
            && j < |st'.threads|
            && (Stale(st', j) <==>
                  m.Some? && Memory(st'.threads[j]).Some? && (Stale(st, j) || st.threads[i] == Claimed(m.value.slot)))
  {
    MemoryOfPlan(st, i, c);
    var pc, e := st.threads[i], Plan(st, i, c).value;
    if Memory(st.threads[j]).Some? {
      MemoryIsBorn(st, j);
    }
    assert Past(st.threads[j], st.sessions);
    assert pc.Idle? || pc.Claimed? ==> Memory(pc) == None;
    hide Plan, BooksKept, Agreement, Memory;
  }

  lemma {:induction false} StaleIffOutlived(sts: seq<State>, maxSession: nat, workers: nat, k: nat, j: nat)
    requires IsRun(sts, maxSession, workers) && k < |sts| && j <= workers
    ensures |sts[k].threads| == workers + 1 && (Stale(sts[k], j) <==> Outlived(sts, k, j))
    decreases k
  {
    RunsAreDated(sts, maxSession, workers, k);
    if k > 0 {
      RunsAreDated(sts, maxSession, workers, k - 1);
      StaleIffOutlived(sts, maxSession, workers, k - 1, j);
      assert Follows(sts[k - 1], sts[k - 1 + 1]);
      var i, c :| Next(sts[k - 1], i, c, sts[k]);
      hide Plan, Dated, Memory;
      if Plan(sts[k - 1], i, c).Some? {
        StaleAfter(sts[k - 1], i, c, j);
        if Memory(sts[k - 1].threads[j]).Some? {
          InitialisesIff(sts[k - 1], i, c, Memory(sts[k - 1].threads[j]).value.slot);
        }
      }
    }
  }

  // ---------------------------------------------------------------- where echoes go

  /** A step that sends an echo sends it to another connection exactly if the sender's connection is stale. */
  lemma StepEchoes(st: State, i: nat, c: Choice)
    requires Dated(st) && i < |st.threads| && Plan(st, i, c).Some? && EchoesReturn(st.log)
    ensures var st' := ApplyPlan(st, i, c);
            EchoesReturn(st'.log) <==> !(Stale(st, i) && Sends(st, i, st'))
  {
    MemoryOfPlan(st, i, c);
    var pc, e, st' := st.threads[i], Plan(st, i, c).value, ApplyPlan(st, i, c);
    assert PcInRange(pc, |st.sessions|) && PcAgrees(pc, st.users, st.userIdCount);
    hide Plan, BooksKept;
    if e.echo.Some? {
      assert st'.log[|st.log|] == e.echo.value;
      assert |st'.log| != |st.log|;
    }
  }

  lemma OnlyMoverSends(st: State, i: nat, c: Choice, j: nat)
    requires InRange(st) && i < |st.threads| && Plan(st, i, c).Some? && Sends(st, j, ApplyPlan(st, i, c))
    ensures j == i
  {
  }

  lemma StepKeepsLog(st: State, i: nat, c: Choice, st': State)
    requires Next(st, i, c, st')
    ensures st.log <= st'.log
  {
  }

  lemma {:induction false} LogsGrow(sts: seq<State>, maxSession: nat, workers: nat, k: nat, n: nat)
    requires IsRun(sts, maxSession, workers) && k <= n < |sts|
    ensures sts[k].log <= sts[n].log
    decreases n
  {
    if k < n {
      LogsGrow(sts, maxSession, workers, k, n - 1);
      assert Follows(sts[n - 1], sts[n - 1 + 1]);
      var i, c :| Next(sts[n - 1], i, c, sts[n]);
      StepKeepsLog(sts[n - 1], i, c, sts[n]);
    }
  }

  /** The step after state k. */
  lemma EchoesOfStep(sts: seq<State>, maxSession: nat, workers: nat, k: nat)
    requires IsRun(sts, maxSession, workers) && k < |sts| - 1 && EchoesReturn(sts[k].log)
    ensures EchoesReturn(sts[k + 1].log) <==> forall i: nat :: Outlived(sts, k, i) ==> !Sends(sts[k], i, sts[k + 1])
  {
    RunsAreDated(sts, maxSession, workers, k);
    assert Follows(sts[k], sts[k + 1]);
    var i, c :| Next(sts[k], i, c, sts[k + 1]);
    hide Plan, Dated, EchoesReturn, Outlived, Stale;
    if Plan(sts[k], i, c).Some? {
      StepEchoes(sts[k], i, c);
      StaleIffOutlived(sts, maxSession, workers, k, i);
      forall j: nat | Outlived(sts, k, j) && Sends(sts[k], j, sts[k + 1]) ensures j == i {
        OnlyMoverSends(sts[k], i, c, j);
      }
    }
  }

  lemma {:induction false} EchoesReturnUpTo(sts: seq<State>, maxSession: nat, workers: nat, k: nat)
    requires IsRun(sts, maxSession, workers) && k < |sts| && !EchoTooLate(sts)
    ensures EchoesReturn(sts[k].log)
    decreases k
  {
    if k > 0 {
      EchoesReturnUpTo(sts, maxSession, workers, k - 1);
      EchoesOfStep(sts, maxSession, workers, k - 1);
    }
  }

  lemma LateEchoShows(sts: seq<State>, maxSession: nat, workers: nat, k: nat, i: nat)
    requires IsRun(sts, maxSession, workers) && k < |sts| - 1 && Outlived(sts, k, i) && Sends(sts[k], i, sts[k + 1])
    ensures !EchoesReturn(sts[|sts| - 1].log)
  {
    hide IsRun, Outlived, Sends;
    assert k + 1 < |sts|;
    LogsGrow(sts, maxSession, workers, k, |sts| - 1);
    LogsGrow(sts, maxSession, workers, k + 1, |sts| - 1);
    if EchoesReturn(sts[|sts| - 1].log) {
      assert EchoesReturn(sts[k].log) && EchoesReturn(sts[k + 1].log);
      EchoesOfStep(sts, maxSession, workers, k);
    }
  }

  /** In every run: all echoes went back to the connection their message came in on, the same slot and the same use of
      it, if and only if no worker has sent one after the slot was initialised again behind its back. */
  lemma EchoesReturnIff(sts: seq<State>, maxSession: nat, workers: nat)
    requires IsRun(sts, maxSession, workers)
    ensures EchoesReturn(sts[|sts| - 1].log) <==> !EchoTooLate(sts)
  {
    hide Outlived, Sends, EchoesReturn;
    assert 0 < |sts|;
    if !EchoTooLate(sts) {
      EchoesReturnUpTo(sts, maxSession, workers, |sts| - 1);
    } else {
      var k: nat, i: nat :| k < |sts| - 1 && Outlived(sts, k, i) && Sends(sts[k], i, sts[k + 1]);
      LateEchoShows(sts, maxSession, workers, k, i);
    }
  }

  // ---------------------------------------------------------------- what rules it out

  /** No slot is initialised while a thread handles a connection of it. */
  ghost predicate NeverOutlived(sts: seq<State>) {
    forall k: nat, i: nat :: k < |sts| ==> !Outlived(sts, k, i)
  }

  lemma CurrentIsFresh(pc: Pc, sessions: seq<Slot>)
    requires PcCurrent(pc, sessions) && Memory(pc).Some? && Memory(pc).value.slot < |sessions|
    ensures sessions[Memory(pc).value.slot].gen == Memory(pc).value.gen
  {
  }

  /** Clean runs never do, so that all their echoes return. */
  lemma CleanRunsOutliveNothing(sts: seq<State>, maxSession: nat, workers: nat)
    requires IsCleanRun(sts, maxSession, workers)
    ensures IsRun(sts, maxSession, workers) && NeverOutlived(sts) && EchoesReturn(sts[|sts| - 1].log)
  {
    CleanIsRun(sts, maxSession, workers);
    forall k: nat, i: nat | k < |sts| && Outlived(sts, k, i) ensures false {
      CleanRunsConserve(sts[..k + 1], maxSession, workers);
      RunsAreDated(sts, maxSession, workers, k);
      StaleIffOutlived(sts, maxSession, workers, k, i);
      CurrentIsFresh(sts[k].threads[i], sts[k].sessions);
    }
    EchoesReturnIff(sts, maxSession, workers);
  }
}
