/** The user directory against the session table, in all runs. The receive is posted before the user is created, so a
    release can come before the user exists; and a slot whose id has been freed twice can be initialised while it is in
    use. Directory and sessions agree between operations exactly in the runs in which neither has cost a user. */
module SessionDirectory {
  import opened SessionMachine
  import opened Wrappers
  import opened SessionSafety
  import opened SessionConservation
  import opened SessionCleanRuns
  import opened SessionIds
  import opened SessionBooks
  import opened SessionRegular

  /** Thread i is about to read, for a release, the user id of a session that OnAccept is still naming. */
  predicate TooEarly(st: State, i: nat)
    requires i < |st.threads|
  {
    st.threads[i].RelRead? && BeingNamed(st.threads[0], st.threads[i].slot)
  }

  /** Thread i is about to initialise a slot whose user is in the directory. */
  predicate Overwrites(st: State, i: nat)
    requires i < |st.threads|
  {
    var pc := st.threads[i];
    pc.Claimed? && pc.slot < |st.sessions| && st.sessions[pc.slot].userId in st.users
    && !st.sessions[pc.slot].locked
  }

  predicate LosesUser(st: State, i: nat)
    requires i < |st.threads|
  {
    TooEarly(st, i) || Overwrites(st, i)
  }

  /** The step from st to st' is one of these. */
  ghost predicate UserLost(st: State, st': State) {
    |st.threads| == |st'.threads| &&
      exists i: nat :: i < |st.threads| && LosesUser(st, i) && st'.threads[i] != st.threads[i]
  }

  /** The directory is in bijection with the sessions that have been accepted and not released: each user's record
      names an active session whose user id is that user's, and each active session with a user id is the session of
      that user. */
  predicate DirectoryAgrees(st: State) {
    && (forall u :: u in st.users ==>
          var s := st.users[u]; s < |st.sessions| && st.sessions[s].active && st.sessions[s].userId == u != 0)
    && (forall s :: 0 <= s < |st.sessions| && st.sessions[s].active && st.sessions[s].userId != 0 ==>
          st.sessions[s].userId in st.users && st.users[st.sessions[s].userId] == s)
  }

  // ---------------------------------------------------------------- the invariant while no user is lost

  predicate PcMatches(pc: Pc, sessions: seq<Slot>, users: map<nat, nat>) {
    && (pc.RelDelete? ==> pc.slot < |sessions| && pc.userId == sessions[pc.slot].userId)
    && (pc.RelClear? ==> pc.slot < |sessions| && sessions[pc.slot].userId !in users)
    && (pc.Naming? ==> pc.userId in users)
  }

  /** A recorded user belongs to an active session of that user, except just before OnAccept tells the session. */
  predicate UserMatches(st: State, u: nat)
    requires u in st.users && 0 < |st.threads|
  {
    var s := st.users[u];
    s < |st.sessions| && ((st.sessions[s].active && st.sessions[s].userId == u) || st.threads[0] == Naming(s, u))
  }

  /** An active session that has its user and is not being released is in the directory. */
  predicate SlotMatches(x: Slot, users: map<nat, nat>) {
    x.active && !x.locked && x.userId != 0 ==> x.userId in users
  }

  predicate HasRead(pc: Pc, s: nat) { (pc.RelDelete? || pc.RelClear?) && pc.slot == s }

  /** No release of the session being named has read its user id. */
  predicate NamedUnread(st: State)
    requires 0 < |st.threads|
  {
    var pc := st.threads[0];
    pc.Connecting? || pc.Naming? ==>
      && pc.slot < |st.sessions| && st.sessions[pc.slot].active
      && forall j :: 0 <= j < |st.threads| ==> !HasRead(st.threads[j], pc.slot)
  }

  predicate Matching(st: State) {
    && Regular(st) && NamedUnread(st)
    && (forall u :: u in st.users ==> UserMatches(st, u))
    && (forall s :: 0 <= s < |st.sessions| ==> SlotMatches(st.sessions[s], st.users))
    && (forall i :: 0 <= i < |st.threads| ==> PcMatches(st.threads[i], st.sessions, st.users))
  }

  // ---------------------------------------------------------------- one step that loses no user

  predicate Steps(st: State, i: nat, c: Choice) {
    Matching(st) && i < |st.threads| && Plan(st, i, c).Some? && !LosesUser(st, i)
  }

  lemma UserMatchesAfter(st: State, i: nat, c: Choice, u: nat)
    requires Steps(st, i, c) && u in ApplyPlan(st, i, c).users
    ensures UserMatches(ApplyPlan(st, i, c), u)
  {
    var pc, e := st.threads[i], Plan(st, i, c).value;
    MoverHolds(st, i, c);
    hide Plan, BooksKept, SlotRegular, PcRegular, AcceptRegular;
    assert PcMatches(pc, st.sessions, st.users) && Role(pc, i);
    if u in st.users && u != st.userIdCount {
      assert UserMatches(st, u);
      assert pc.RelClear? ==> HasRead(pc, pc.slot);
    }
  }

  lemma SlotMatchesAfter(st: State, i: nat, c: Choice, t: nat)
    requires Steps(st, i, c) && t < |st.sessions|
    ensures var st' := ApplyPlan(st, i, c); t < |st'.sessions| && SlotMatches(st'.sessions[t], st'.users)
  {
    var pc, e := st.threads[i], Plan(st, i, c).value;
    MoverHolds(st, i, c);
    hide Plan, BooksKept, SlotRegular, PcRegular, AcceptRegular;
    assert PcMatches(pc, st.sessions, st.users);
    assert SlotMatches(st.sessions[t], st.users);
    if pc.RelDelete? {
      assert UserIs(st.sessions[t].userId, t, st.users, st.userIdCount);
      assert UserIs(st.sessions[pc.slot].userId, pc.slot, st.users, st.userIdCount);
    }
  }

  /** The moving thread. */
  lemma MoverMatchesAfter(st: State, i: nat, c: Choice)
    requires Steps(st, i, c)
    ensures var st' := ApplyPlan(st, i, c); i < |st'.threads| && PcMatches(st'.threads[i], st'.sessions, st'.users)
  {
    var pc, e := st.threads[i], Plan(st, i, c).value;
    MoverHolds(st, i, c);
    hide Plan, BooksKept, SlotRegular, PcRegular, AcceptRegular;
    assert PcMatches(pc, st.sessions, st.users) && Role(pc, i);
  }

  /** Another thread: nobody changes what it relies on. */
  lemma OtherMatchesAfter(st: State, i: nat, c: Choice, j: nat)
    requires Steps(st, i, c) && j < |st.threads| && j != i
    ensures var st' := ApplyPlan(st, i, c); j < |st'.threads| && PcMatches(st'.threads[j], st'.sessions, st'.users)
  {
    var pc, other, e := st.threads[i], st.threads[j], Plan(st, i, c).value;
    MoverHolds(st, i, c);
    if other.RelDelete? || other.RelClear? {
      HolderLocks(st, j, other.slot);
    }
    hide Plan, BooksKept, SlotRegular, PcRegular, AcceptRegular;
    assert PcMatches(pc, st.sessions, st.users) && Role(pc, i) && Role(other, j);
    assert PcMatches(other, st.sessions, st.users);
    if other.RelDelete? || other.RelClear? {
      assert HasRead(other, other.slot);
      assert UserIs(st.sessions[other.slot].userId, other.slot, st.users, st.userIdCount);
    }
    if pc.RelDelete? && other.Naming? {
      assert PcAgrees(other, st.users, st.userIdCount);
      assert UserIs(st.sessions[pc.slot].userId, pc.slot, st.users, st.userIdCount);
      assert HasRead(pc, pc.slot);
    }
  }

  lemma NamedUnreadAfter(st: State, i: nat, c: Choice)
    requires Steps(st, i, c)
    ensures var st' := ApplyPlan(st, i, c); 0 < |st'.threads| && NamedUnread(st')
  {
    var pc, e := st.threads[i], Plan(st, i, c).value;
    MoverHolds(st, i, c);
    assert Role(pc, i);
    var st' := ApplyPlan(st, i, c);
    var named := st'.threads[0];
    hide Plan, BooksKept, SlotRegular, PcRegular, Agreement;
    if named.Connecting? || named.Naming? {
      if i == 0 && named.Connecting? {
        forall j | 0 <= j < |st.threads| ensures !HasRead(st'.threads[j], named.slot) {
          if HasRead(st.threads[j], named.slot) {
            HolderLocks(st, j, named.slot);
          }
        }
      } else {
        assert st.threads[0].Connecting? || st.threads[0].Naming?;
        assert !HasRead(pc, named.slot);
        forall j | 0 <= j < |st.threads| ensures !HasRead(st'.threads[j], named.slot) {
          assert !HasRead(st.threads[j], named.slot);
        }
      }
    }
  }

  lemma StepKeepsMatching(st: State, i: nat, c: Choice)
    requires Steps(st, i, c)
    ensures Matching(ApplyPlan(st, i, c))
  {
    var st' := ApplyPlan(st, i, c);
    StepKeepsRegular(st, i, c, st');
    NamedUnreadAfter(st, i, c);
    hide Plan, Regular, NamedUnread, PcMatches, UserMatches, SlotMatches, LosesUser, Apply, ApplyPlan;
    forall u | u in st'.users ensures UserMatches(st', u) {
      UserMatchesAfter(st, i, c, u);
    }
    forall t | 0 <= t < |st'.sessions| ensures SlotMatches(st'.sessions[t], st'.users) {
      SlotMatchesAfter(st, i, c, t);
    }
    forall j | 0 <= j < |st'.threads| ensures PcMatches(st'.threads[j], st'.sessions, st'.users) {
      SameThreads(st, i, c);
      if j == i {
        MoverMatchesAfter(st, i, c);
      } else {
        OtherMatchesAfter(st, i, c, j);
      }
    }
  }

  lemma SameThreads(st: State, i: nat, c: Choice)
    requires InRange(st) && i < |st.threads| && Plan(st, i, c).Some?
    ensures |ApplyPlan(st, i, c).threads| == |st.threads|
  {
  }

  // ---------------------------------------------------------------- after a user is lost

  /** A release of session s, if any is under way, has read the user id; or s has been released. */
  predicate Past(st: State, s: nat) {
    s < |st.sessions| &&
      (!st.sessions[s].active
       || (st.sessions[s].locked
           && forall j :: 0 <= j < |st.threads| ==> !(st.threads[j].RelRead? && st.threads[j].slot == s)))
  }

  /** Nobody will erase user u: no release has read this id, and none will. */
  predicate Orphan(st: State, u: nat) {
    && 0 < |st.threads| && u in st.users && st.users[u] < |st.sessions|
    && (forall j :: 0 <= j < |st.threads| ==> !(st.threads[j].RelDelete? && st.threads[j].userId == u))
    && var s := st.users[u];
       (st.threads[0] == Naming(s, u) || st.sessions[s].userId == u ==> Past(st, s))
  }

  /** There is such a user, or OnAccept is about to create one. */
  ghost predicate Lost(st: State) {
    0 < |st.threads| &&
      ((st.threads[0].Connecting? && Past(st, st.threads[0].slot)) || exists u :: Orphan(st, u))
  }

  lemma PastStays(st: State, i: nat, c: Choice, s: nat)
    requires Moves(st, i, c) && Past(st, s) && st.threads[i] != Claimed(s)
    ensures Past(ApplyPlan(st, i, c), s)
  {
    MoverHolds(st, i, c);
    hide Plan, BooksKept, SlotRegular, PcRegular, AcceptRegular, Agreement;
  }

  lemma OrphanStays(st: State, i: nat, c: Choice, u: nat)
    requires Moves(st, i, c) && Orphan(st, u)
    ensures Orphan(ApplyPlan(st, i, c), u)
  {
    var pc, e, s := st.threads[i], Plan(st, i, c).value, st.users[u];
    MoverHolds(st, i, c);
    hide Plan, BooksKept, SlotRegular, AcceptRegular;
    assert Role(pc, i) && PcRegular(pc, st.sessions);
    if pc.RelRead? {
      assert UserIs(st.sessions[pc.slot].userId, pc.slot, st.users, st.userIdCount);
    }
    if (st.threads[0] == Naming(s, u) || st.sessions[s].userId == u) && pc != Claimed(s) {
      PastStays(st, i, c, s);
    }
  }

  lemma ConnectingGetsLost(st: State, i: nat, c: Choice)
    requires Moves(st, i, c) && st.threads[0].Connecting? && Past(st, st.threads[0].slot)
    ensures Lost(ApplyPlan(st, i, c))
  {
    var s, st' := st.threads[0].slot, ApplyPlan(st, i, c);
    MoverHolds(st, i, c);
    hide Plan, BooksKept, SlotRegular, PcRegular, AcceptRegular;
    assert Role(st.threads[i], i);
    PastStays(st, i, c, s);
    if i == 0 {
      forall j | 0 <= j < |st'.threads|
        ensures !(st'.threads[j].RelDelete? && st'.threads[j].userId == st.userIdCount)
      {
        assert j > 0 ==> PcAgrees(st.threads[j], st.users, st.userIdCount);
      }
      assert Orphan(st', st.userIdCount);
    }
  }

  lemma LostStays(st: State, i: nat, c: Choice)
    requires Moves(st, i, c) && Lost(st)
    ensures Lost(ApplyPlan(st, i, c))
  {
    if u :| Orphan(st, u) {
      OrphanStays(st, i, c, u);
    } else {
      ConnectingGetsLost(st, i, c);
    }
  }

  /** A read that is too early loses the user. */
  lemma TooEarlyLoses(st: State, i: nat, c: Choice)
    requires Matching(st) && i < |st.threads| && Plan(st, i, c).Some? && TooEarly(st, i)
    ensures Lost(ApplyPlan(st, i, c))
  {
    var s, named, st' := st.threads[i].slot, st.threads[0], ApplyPlan(st, i, c);
    MoverHolds(st, i, c);
    hide Plan, BooksKept, SlotRegular, PcRegular;
    assert i != 0;
    NobodyElseHolds(st, i, s);
    assert forall j :: 0 <= j < |st.threads| && j != i ==> !HoldsMutex(st.threads[j], s);
    forall j | 0 <= j < |st'.threads| ensures !(st'.threads[j].RelRead? && st'.threads[j].slot == s) {
      assert j != i ==> !HoldsMutex(st.threads[j], s);
    }
    assert Past(st', s);
    if named.Naming? {
      var u := named.userId;
      assert PcMatches(named, st.sessions, st.users) && PcAgrees(named, st.users, st.userIdCount);
      forall j | 0 <= j < |st'.threads| ensures !(st'.threads[j].RelDelete? && st'.threads[j].userId == u) {
        assert j != i ==> !HoldsMutex(st.threads[j], s) && PcAgrees(st.threads[j], st.users, st.userIdCount);
      }
      assert Orphan(st', u);
    }
  }

  /** So does initialising a slot whose user is there. */
  lemma OverwriteLoses(st: State, i: nat, c: Choice)
    requires Moves(st, i, c) && Overwrites(st, i)
    ensures Lost(ApplyPlan(st, i, c))
  {
    var s, st' := st.threads[i].slot, ApplyPlan(st, i, c);
    var u := st.sessions[s].userId;
    MoverHolds(st, i, c);
    hide Plan, BooksKept, SlotRegular, PcRegular, AcceptRegular;
    assert Role(st.threads[i], i) && UserIs(u, s, st.users, st.userIdCount);
    forall j | 0 <= j < |st'.threads| ensures !(st'.threads[j].RelDelete? && st'.threads[j].userId == u) {
      if j != i && st.threads[j].RelDelete? {
        assert PcAgrees(st.threads[j], st.users, st.userIdCount);
        HolderLocks(st, j, st.threads[j].slot);
      }
    }
    assert Orphan(st', u);
  }

  // ---------------------------------------------------------------- all runs

  ghost predicate NeverUserLost(sts: seq<State>) {
    forall k :: 0 <= k < |sts| - 1 ==> !UserLost(sts[k], sts[k + 1])
  }

  lemma LossIsStep(st: State, i: nat, c: Choice)
    requires Moves(st, i, c)
    ensures UserLost(st, ApplyPlan(st, i, c)) <==> LosesUser(st, i)
  {
    FactsOfStep(st, i, c);
    var st' := ApplyPlan(st, i, c);
    hide Plan, BooksKept, SlotRegular, PcRegular, AcceptRegular, Agreement;
    if LosesUser(st, i) {
      assert st'.threads[i] != st.threads[i];
    }
  }

  lemma StandingStill(st: State)
    ensures !UserLost(st, st)
  {
  }

  lemma StepMatchesOrLoses(st: State, i: nat, c: Choice, st': State)
    requires Regular(st) && Next(st, i, c, st')
    ensures Lost(st) ==> Lost(st')
    ensures Matching(st) ==> if UserLost(st, st') then Lost(st') else Matching(st')
  {
    if Plan(st, i, c).None? {
      StandingStill(st);
    } else {
      LossIsStep(st, i, c);
      hide Plan, Regular, UserLost, TooEarly, Overwrites, Apply;
      if Lost(st) {
        LostStays(st, i, c);
      }
      if Matching(st) {
        if TooEarly(st, i) {
          TooEarlyLoses(st, i, c);
        } else if Overwrites(st, i) {
          OverwriteLoses(st, i, c);
        } else {
          StepKeepsMatching(st, i, c);
        }
      }
    }
  }

  lemma NeverLostOfMore(sts: seq<State>)
    requires |sts| > 1
    ensures var before := sts[..|sts| - 1];
            NeverUserLost(sts) <==> NeverUserLost(before) && !UserLost(before[|before| - 1], sts[|sts| - 1])
  {
    hide UserLost;
    var before := sts[..|sts| - 1];
    assert forall k :: 0 <= k < |before| ==> before[k] == sts[k];
    if NeverUserLost(before) && !UserLost(before[|before| - 1], sts[|sts| - 1]) {
      forall k | 0 <= k < |sts| - 1 ensures !UserLost(sts[k], sts[k + 1]) {
        if k < |before| - 1 {
          assert !UserLost(before[k], before[k + 1]);
        }
      }
    }
  }

  lemma InitMatches(maxSession: nat, workers: nat)
    ensures Matching(Init(maxSession, workers))
  {
    var sts := [Init(maxSession, workers)];
    RunsAreRegular(sts, maxSession, workers, 0);
  }

  /** In every run, either no user has been lost and directory and sessions match, or one has, for good. */
  lemma {:induction false} MatchingOrLost(sts: seq<State>, maxSession: nat, workers: nat)
    requires IsRun(sts, maxSession, workers)
    ensures var st := sts[|sts| - 1];
            (NeverUserLost(sts) ==> Matching(st)) && (!NeverUserLost(sts) ==> Lost(st))
    decreases |sts|
  {
    if |sts| == 1 {
      InitMatches(maxSession, workers);
    } else {
      var before := sts[..|sts| - 1];
      MatchingOrLost(before, maxSession, workers);
      RunsAreRegular(before, maxSession, workers, |before| - 1);
      assert Follows(sts[|sts| - 2], sts[|sts| - 2 + 1]);
      var st, st' := before[|before| - 1], sts[|sts| - 1];
      var i, c :| Next(st, i, c, st');
      NeverLostOfMore(sts);
      StepMatchesOrLoses(st, i, c, st');
    }
  }

  lemma MatchingAgrees(st: State)
    requires Matching(st) && Quiet(st)
    ensures DirectoryAgrees(st)
  {
    forall u | u in st.users ensures UserMatches(st, u) && st.threads[0].Idle? {
    }
    forall s | 0 <= s < |st.sessions| && st.sessions[s].active && st.sessions[s].userId != 0
      ensures st.sessions[s].userId in st.users && st.users[st.sessions[s].userId] == s
    {
      QuietUnlocked(st, s);
      assert SlotMatches(st.sessions[s], st.users);
      assert UserIs(st.sessions[s].userId, s, st.users, st.userIdCount);
    }
  }

  lemma LostDisagrees(st: State)
    requires BooksKept(st) && Lost(st) && Quiet(st)
    ensures !DirectoryAgrees(st)
  {
    assert st.threads[0].Idle?;
    var u :| Orphan(st, u);
    QuietUnlocked(st, st.users[u]);
  }

  /** Whenever no operation is under way, in any run, the directory agrees with the session table if and only if no
      release so far has read the user id of a session that OnAccept was still naming and no slot has been initialised
      while its user was in the directory. */
  lemma DirectoryAgreesIff(sts: seq<State>, maxSession: nat, workers: nat)
    requires IsRun(sts, maxSession, workers) && Quiet(sts[|sts| - 1])
    ensures DirectoryAgrees(sts[|sts| - 1]) <==> NeverUserLost(sts)
  {
    MatchingOrLost(sts, maxSession, workers);
    RunsAreRegular(sts, maxSession, workers, |sts| - 1);
    if NeverUserLost(sts) {
      MatchingAgrees(sts[|sts| - 1]);
    } else {
      LostDisagrees(sts[|sts| - 1]);
    }
  }

  // ---------------------------------------------------------------- where the second cause comes from

  /** While ids are accounted for and no user is lost, no slot is initialised while its user is in the directory. */
  lemma OverwriteNeedsDoubleId(st: State, i: nat)
    requires Matching(st) && AllAccounted(st) && i < |st.threads|
    ensures !Overwrites(st, i)
  {
    var pc := st.threads[i];
    if pc.Claimed? && pc.slot < |st.sessions| {
      var u := st.sessions[pc.slot].userId;
      assert Places(st, pc.slot) == 1;
      TotalAfterUpdate(Id, st.threads, i, Idle, pc.slot);
      assert Role(pc, i);
      assert u in st.users ==> UserIs(u, pc.slot, st.users, st.userIdCount) && UserMatches(st, u);
    }
  }

  /** The step from st to st' is a read that is too early. */
  ghost predicate ReadEarly(st: State, st': State) {
    |st.threads| == |st'.threads| &&
      exists i: nat :: i < |st.threads| && TooEarly(st, i) && st'.threads[i] != st.threads[i]
  }

  ghost predicate NeverReadEarly(sts: seq<State>) {
    forall k :: 0 <= k < |sts| - 1 ==> !ReadEarly(sts[k], sts[k + 1])
  }

  lemma OnlyReadLoses(st: State, st': State)
    requires Matching(st) && AllAccounted(st)
    ensures UserLost(st, st') <==> ReadEarly(st, st')
  {
    hide Matching, AllAccounted, TooEarly, Overwrites;
    forall i: nat | i < |st.threads| ensures !Overwrites(st, i) {
      OverwriteNeedsDoubleId(st, i);
    }
  }

  /** As long as no id is freed twice, only early reads lose users. */
  lemma {:induction false} OnlyEarlyReadsLose(sts: seq<State>, maxSession: nat, workers: nat)
    requires IsRun(sts, maxSession, workers) && NeverClearedAgain(sts)
    ensures NeverUserLost(sts) <==> NeverReadEarly(sts)
    decreases |sts|
  {
    hide UserLost, ReadEarly, ClearedAgain, Next;
    if |sts| > 1 {
      var before := sts[..|sts| - 1];
      var st, st' := before[|before| - 1], sts[|sts| - 1];
      assert forall k :: 0 <= k < |before| ==> before[k] == sts[k];
      OnlyEarlyReadsLose(before, maxSession, workers);
      NeverLostOfMore(sts);
      NeverEarlyOfMore(sts);
      if NeverUserLost(before) {
        MatchingOrLost(before, maxSession, workers);
        AccountedUpTo(before, maxSession, workers, |before| - 1);
        OnlyReadLoses(st, st');
      }
    }
  }

  lemma NeverEarlyOfMore(sts: seq<State>)
    requires |sts| > 1
    ensures var before := sts[..|sts| - 1];
            NeverReadEarly(sts) <==> NeverReadEarly(before) && !ReadEarly(before[|before| - 1], sts[|sts| - 1])
  {
    hide ReadEarly;
    var before := sts[..|sts| - 1];
    assert forall k :: 0 <= k < |before| ==> before[k] == sts[k];
    if NeverReadEarly(before) && !ReadEarly(before[|before| - 1], sts[|sts| - 1]) {
      forall k | 0 <= k < |sts| - 1 ensures !ReadEarly(sts[k], sts[k + 1]) {
        if k < |before| - 1 {
          assert !ReadEarly(before[k], before[k + 1]);
        }
      }
    }
  }

  /** So it is in clean runs. */
  lemma CleanDirectoryAgreesIff(sts: seq<State>, maxSession: nat, workers: nat)
    requires IsCleanRun(sts, maxSession, workers) && Quiet(sts[|sts| - 1])
    ensures DirectoryAgrees(sts[|sts| - 1]) <==> NeverReadEarly(sts)
  {
    CleanIsRun(sts, maxSession, workers);
    CleanRunsClearOnce(sts, maxSession, workers);
    OnlyEarlyReadsLose(sts, maxSession, workers);
    DirectoryAgreesIff(sts, maxSession, workers);
  }
}
