/** What holds in every interleaving, whatever the workers, the clients and the foreign calls do. */
module SessionSafety {
  import opened SessionMachine
  import opened Wrappers

  /** `sts` is a run: it starts with an empty table of users and all ids free, and each state follows from the one
      before by a step of some thread. */
  ghost predicate IsRun(sts: seq<State>, maxSession: nat, workers: nat) {
    && sts != [] && sts[0] == Init(maxSession, workers)
    && forall k :: 0 <= k < |sts| - 1 ==> Follows(sts[k], sts[k + 1])
  }

  ghost predicate Follows(st: State, st': State) { exists i, c :: Next(st, i, c, st') }

  // ---------------------------------------------------------------- who belongs to which session

  /** A user id that is out of use, or names session s. */
  predicate UserIs(u: nat, s: nat, users: map<nat, nat>, count: nat) {
    u < count && (u in users ==> users[u] == s)
  }

  /** The user ids and targets a thread has got hold of belong to the session it is working for. */
  predicate PcAgrees(pc: Pc, users: map<nat, nat>, count: nat) {
    match pc
    case Naming(s, u) => 0 < u && UserIs(u, s, users, count)
    case EchoLookup(s, _, u) => UserIs(u, s, users, count)
    case EchoTarget(s, _, t) => t == s
    case EchoSend(s, _, t) => t == s
    case Post(_, _, ok, fail) => PcAgrees(ok, users, count) && PcAgrees(fail, users, count)
    case Posting(_, _, ok, fail) => PcAgrees(ok, users, count) && PcAgrees(fail, users, count)
    case DecRelease(_, next) => PcAgrees(next, users, count)
    case Decrement(_, next) => PcAgrees(next, users, count)
    case RelRead(_, next) => PcAgrees(next, users, count)
    case RelDelete(s, u, next) => UserIs(u, s, users, count) && PcAgrees(next, users, count)
    case RelClear(_, next) => PcAgrees(next, users, count)
    case RelFree(_, next) => PcAgrees(next, users, count)
    case _ => true
  }

  /** A slot's user id is absent from the directory or its record names that slot; no echo has left its session. */
  predicate Agreement(st: State) {
    && 1 <= st.userIdCount
    && (forall u :: u in st.users ==> 0 < u < st.userIdCount)
    && (forall s :: 0 <= s < |st.sessions| ==> UserIs(st.sessions[s].userId, s, st.users, st.userIdCount))
    && (forall i :: 0 <= i < |st.threads| ==> PcAgrees(st.threads[i], st.users, st.userIdCount))
    && (forall k :: 0 <= k < |st.log| ==> st.log[k].target == st.log[k].slot)
  }

  lemma {:induction false} AgreesAfterChange(pc: Pc, users: map<nat, nat>, count: nat,
                                             users': map<nat, nat>, count': nat)
    requires PcAgrees(pc, users, count)
    requires count <= count' && forall u :: u < count && u in users' ==> u in users && users'[u] == users[u]
    ensures PcAgrees(pc, users', count')
  {
    match pc
    case Post(_, _, ok, fail) =>
      AgreesAfterChange(ok, users, count, users', count');
      AgreesAfterChange(fail, users, count, users', count');
    case Posting(_, _, ok, fail) =>
      AgreesAfterChange(ok, users, count, users', count');
      AgreesAfterChange(fail, users, count, users', count');
    case DecRelease(_, next) => AgreesAfterChange(next, users, count, users', count');
    case Decrement(_, next) => AgreesAfterChange(next, users, count, users', count');
    case RelRead(_, next) => AgreesAfterChange(next, users, count, users', count');
    case RelDelete(_, _, next) => AgreesAfterChange(next, users, count, users', count');
    case RelClear(_, next) => AgreesAfterChange(next, users, count, users', count');
    case RelFree(_, next) => AgreesAfterChange(next, users, count, users', count');
    case _ =>
  }

  /** What the step of a thread that knows only agreeing ids leaves behind agrees too. */
  predicate PlanAgrees(st: State, i: nat, e: Effect)
    requires i < |st.threads|
  {
    && (if st.threads[i].Connecting? then e.pc == Naming(e.slot, st.userIdCount) && e.change == AddUser(e.slot)
        else PcAgrees(e.pc, st.users, st.userIdCount) && !e.change.AddUser?)
    && e.slot < |st.sessions| && UserIs(e.x.userId, e.slot, st.users, st.userIdCount)
    && (e.echo.Some? ==> e.echo.value.target == e.echo.value.slot)
  }

  lemma EchoPlanAgrees(st: State, i: nat, c: Choice)
    requires InRange(st) && i < |st.threads| && Plan(st, i, c).Some? && Agreement(st)
    requires InEcho(st.threads[i])
    ensures PlanAgrees(st, i, Plan(st, i, c).value)
  {
    assert PcAgrees(st.threads[i], st.users, st.userIdCount);
    assert PcInRange(st.threads[i], |st.sessions|);
  }

  lemma ReleasePlanAgrees(st: State, i: nat, c: Choice)
    requires InRange(st) && i < |st.threads| && Plan(st, i, c).Some? && Agreement(st)
    requires InRelease(st.threads[i])
    ensures PlanAgrees(st, i, Plan(st, i, c).value)
  {
    assert PcAgrees(st.threads[i], st.users, st.userIdCount);
    assert PcInRange(st.threads[i], |st.sessions|);
  }

  lemma OtherPlanAgrees(st: State, i: nat, c: Choice)
    requires InRange(st) && i < |st.threads| && Plan(st, i, c).Some? && Agreement(st)
    requires !InEcho(st.threads[i]) && !InRelease(st.threads[i])
    ensures PlanAgrees(st, i, Plan(st, i, c).value)
  {
    assert PcAgrees(st.threads[i], st.users, st.userIdCount);
    assert PcInRange(st.threads[i], |st.sessions|);
  }

  lemma ApplyAgrees(st: State, i: nat, e: Effect)
    requires InRange(st) && i < |st.threads| && Agreement(st) && e.slot < |st.sessions|
    requires PlanAgrees(st, i, e)
    ensures Agreement(Apply(st, i, e))
  {
    var st' := Apply(st, i, e);
    forall j | 0 <= j < |st'.threads| ensures PcAgrees(st'.threads[j], st'.users, st'.userIdCount) {
      if j != i || !e.change.AddUser? {
        AgreesAfterChange(if j == i then e.pc else st.threads[j], st.users, st.userIdCount, st'.users, st'.userIdCount);
      }
    }
  }

  lemma StepKeepsAgreement(st: State, i: nat, c: Choice, st': State)
    requires Agreement(st) && Next(st, i, c, st')
    ensures Agreement(st')
  {
    if Plan(st, i, c).Some? {
      if InEcho(st.threads[i]) {
        EchoPlanAgrees(st, i, c);
      } else if InRelease(st.threads[i]) {
        ReleasePlanAgrees(st, i, c);
      } else {
        OtherPlanAgrees(st, i, c);
      }
      PlanInRange(st, i, c);
      ApplyAgrees(st, i, Plan(st, i, c).value);
    }
  }

  // ---------------------------------------------------------------- all runs

  lemma InitAgrees(maxSession: nat, workers: nat)
    ensures InRange(Init(maxSession, workers)) && Agreement(Init(maxSession, workers))
  {
  }

  /** In every state of every run: an echo received on a session was dropped or sent on that same session, a slot's
      user id is out of use or its record names that slot, and every id used as an index is in range. */
  lemma {:induction false} EchoStaysOnItsSession(sts: seq<State>, maxSession: nat, workers: nat)
    requires IsRun(sts, maxSession, workers)
    ensures var st := sts[|sts| - 1];
            && InRange(st) && Agreement(st)
            && |st.sessions| == maxSession && |st.threads| == workers + 1
            && forall k :: 0 <= k < |st.log| ==> st.log[k].target == st.log[k].slot
    decreases |sts|
  {
    if |sts| == 1 {
      InitAgrees(maxSession, workers);
    } else {
      var before := sts[..|sts| - 1];
      EchoStaysOnItsSession(before, maxSession, workers);
      var st, st' := before[|before| - 1], sts[|sts| - 1];
      assert Follows(sts[|sts| - 2], sts[|sts| - 1]);
      var i, c :| Next(st, i, c, st');
      StepKeepsAgreement(st, i, c, st');
      StepStaysInRange(st, i, c, st');
    }
  }
}
