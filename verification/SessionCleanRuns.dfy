/** What the balanced accounts of SessionConservation mean for whole runs. */
module SessionCleanRuns {
  import opened SessionMachine
  import opened Wrappers
  import opened SessionSafety
  import opened SessionConservation

  // ---------------------------------------------------------------- all clean runs

  ghost predicate FollowsCleanly(st: State, st': State) {
    exists i, c :: Next(st, i, c, st') && Clean(st, i, c)
  }

  ghost predicate IsCleanRun(sts: seq<State>, maxSession: nat, workers: nat) {
    && sts != [] && sts[0] == Init(maxSession, workers)
    && forall k :: 0 <= k < |sts| - 1 ==> FollowsCleanly(sts[k], sts[k + 1])
  }

  lemma CleanIsRun(sts: seq<State>, maxSession: nat, workers: nat)
    requires IsCleanRun(sts, maxSession, workers)
    ensures IsRun(sts, maxSession, workers)
  {
    forall k | 0 <= k < |sts| - 1 ensures Follows(sts[k], sts[k + 1]) {
      assert FollowsCleanly(sts[k], sts[k + 1]);
    }
  }

  lemma {:induction false} IdleTotals(h: Holding, n: nat, s: nat)
    ensures Total(h, seq(n, _ => Idle), s) == 0
  {
    if n > 0 {
      var threads: seq<Pc> := seq(n, _ => Idle);
      assert threads[1..] == seq(n - 1, _ => Idle);
      IdleTotals(h, n - 1, s);
    }
  }

  lemma {:induction false} EachIdOnce(n: nat, s: nat)
    requires s < n
    ensures multiset(AllIds(n))[s] == 1
  {
    assert AllIds(n) == AllIds(n - 1) + [n - 1];
    if s < n - 1 {
      EachIdOnce(n - 1, s);
    } else {
      assert s !in AllIds(n - 1);
    }
  }

  lemma InitConserved(maxSession: nat, workers: nat)
    ensures Conserved(Init(maxSession, workers))
  {
    var st := Init(maxSession, workers);
    InitAgrees(maxSession, workers);
    forall s | 0 <= s < maxSession ensures SlotBalanced(st, s) {
      IdleTotals(Refs, workers + 1, s);
      IdleTotals(Mutex, workers + 1, s);
      IdleTotals(Id, workers + 1, s);
      EachIdOnce(maxSession, s);
    }
  }

  lemma {:induction false} CleanRunsConserve(sts: seq<State>, maxSession: nat, workers: nat)
    requires IsCleanRun(sts, maxSession, workers)
    ensures Conserved(sts[|sts| - 1]) && |sts[|sts| - 1].sessions| == maxSession
    decreases |sts|
  {
    if |sts| == 1 {
      InitConserved(maxSession, workers);
    } else {
      CleanRunsConserve(sts[..|sts| - 1], maxSession, workers);
      assert FollowsCleanly(sts[|sts| - 2], sts[|sts| - 1]);
      var i, c :| Next(sts[|sts| - 2], i, c, sts[|sts| - 1]) && Clean(sts[|sts| - 2], i, c);
      StepConserves(sts[|sts| - 2], i, c, sts[|sts| - 1]);
      StepStaysInRange(sts[|sts| - 2], i, c, sts[|sts| - 1]);
    }
  }

  // ---------------------------------------------------------------- what that means

  /** In every state of a clean run each id is exactly once either on the free stack, or with an active session, or
      in the hands of one thread (being claimed or being returned). A free id names an inactive session with no
      references, no requests outstanding and its mutex free; so only such a session is ever initialised. */
  lemma IdsAreConserved(sts: seq<State>, maxSession: nat, workers: nat, s: nat)
    requires IsCleanRun(sts, maxSession, workers) && s < maxSession
    ensures var st := sts[|sts| - 1];
            && s < |st.sessions|
            && multiset(st.stack)[s] + Total(Id, st.threads, s) + One(st.sessions[s].active) == 1
            && (forall k :: 0 <= k < |st.stack| ==> st.stack[k] < maxSession)
            && (forall j, k :: 0 <= j < k < |st.stack| ==> st.stack[j] != st.stack[k])
            && (s in st.stack ==> var x := st.sessions[s];
                  !x.active && !x.locked && x.refCount == 0 && x.recvs == 0 && x.sends == 0)
  {
    CleanRunsConserve(sts, maxSession, workers);
    var st := sts[|sts| - 1];
    assert SlotBalanced(st, s);
    forall j, k | 0 <= j < k < |st.stack| ensures st.stack[j] != st.stack[k] {
      assert SlotBalanced(st, st.stack[j]);
      if st.stack[j] == st.stack[k] {
        TwiceInMultiset(st.stack, j, k);
      }
    }
    if s in st.stack {
      assert s in multiset(st.stack);
    }
  }

  lemma TwiceInMultiset(stack: seq<nat>, j: nat, k: nat)
    requires j < k < |stack| && stack[j] == stack[k]
    ensures 2 <= multiset(stack)[stack[j]]
  {
    assert stack == stack[..k] + [stack[k]] + stack[k + 1..];
    assert stack[j] in stack[..k];
    assert stack[j] in multiset(stack[..k]);
  }

  lemma WhereReleasesBegin(st: State, i: nat, c: Choice)
    requires InRange(st) && i < |st.threads| && Plan(st, i, c).Some? && Plan(st, i, c).value.pc.RelRead?
    requires Shape(st.threads[i])
    ensures var pc, e := st.threads[i], Plan(st, i, c).value;
            && e.slot < |st.sessions| && e.pc.slot == e.slot && !st.sessions[e.slot].locked && e.x.locked
            && ((pc.Inited? && pc.slot == e.slot && c == Go(false) && e.x.refCount == st.sessions[e.slot].refCount)
                || (Amount(Refs, pc, e.slot) >= 1
                    && e.x.refCount == st.sessions[e.slot].refCount - 1 && e.x.refCount < 1))
  {
    assert PcInRange(st.threads[i], |st.sessions|);
  }

  /** In a clean run a release is begun only on an active session whose mutex is free and that nobody refers to any
      more, so at most once for each time its id is handed out. */
  lemma ReleaseOncePerAllocation(st: State, i: nat, c: Choice)
    requires Conserved(st) && i < |st.threads| && Clean(st, i, c) && Plan(st, i, c).Some?
    requires Plan(st, i, c).value.pc.RelRead?
    ensures var e := Plan(st, i, c).value;
            && e.slot < |st.sessions| && e.pc.slot == e.slot
            && st.sessions[e.slot].active && !st.sessions[e.slot].locked && e.x.refCount == 0 && e.x.locked
            && Total(Mutex, st.threads, e.slot) == 0
  {
    WhereReleasesBegin(st, i, c);
    hide Agreement, PcCurrent, InRange, Plan, Amount, Total, Shape;
    var e := Plan(st, i, c).value;
    assert SlotBalanced(st, e.slot);
    TotalAfterUpdate(Refs, st.threads, i, Idle, e.slot);
  }
}
