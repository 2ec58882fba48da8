/** Concrete runs of a server with one session slot and two workers: what the theorems of SessionDirectory,
    SessionLeftovers, SessionIds and SessionIncarnations exclude does happen. */
module SessionRuns {
  import opened SessionMachine
  import opened Wrappers
  import opened SessionSafety
  import opened SessionConservation
  import opened SessionCleanRuns
  import opened SessionDirectory
  import opened SessionIds
  import opened SessionBooks
  import opened SessionIncarnations
  import opened SessionLeftovers

  function Last(sts: seq<State>): State
    requires sts != []
  {
    sts[|sts| - 1]
  }

  // The slot initialised; with its user, one message being handled; after a release during a send; used again; and
  // used by the next connection, before and after it has its user.

  const NEW := FRESH_SLOT.(active := true, genCount := 1)
  const NAMED := NEW.(userId := 1, refCount := 1)
  const SPENT := FRESH_SLOT.(userId := 1, isSending := true, genCount := 1)
  const AGAIN := FRESH_SLOT.(active := true, isSending := true, gen := 1, genCount := 2)

  const NEXT := AGAIN.(refCount := 1, gen := 2, genCount := 3)
  const MET := NEXT.(userId := 2, refCount := 2, recvs := 1)

  const REPOST := Post(false, 0, Idle, Idle)
  const REPOSTING := Posting(false, 0, Idle, Idle)
  const REPLY := Post(true, 0, Receiving(0, 0), Receiving(0, 0))
  const REPLYING := Posting(true, 0, Receiving(0, 0), Receiving(0, 0))

  /** Before the first user is created, the id taken. */
  function Opened(x: Slot, accept: Pc, worker: Pc): State { State([x], [], map[], 1, [accept, worker, Idle], []) }

  /** User 1 is in the directory. */
  function Serving(x: Slot, accept: Pc, w1: Pc, w2: Pc, log: seq<Echo>): State {
    State([x], [], map[1 := 0], 2, [accept, w1, w2], log)
  }

  /** User 1 has been erased, an echo sent. */
  function Later(x: Slot, stack: seq<nat>, accept: Pc, worker: Pc): State {
    State([x], stack, map[], 2, [accept, worker, Idle], [Echo(0, 0, 0, 0)])
  }

  /** User 2 has been created. */
  function Meeting(x: Slot, accept: Pc, worker: Pc): State {
    State([x], [], map[2 := 0], 3, [accept, worker, Idle], [Echo(0, 0, 0, 0)])
  }

  predicate Leads(st: State, i: nat, c: Choice, st': State) {
    InRange(st) && i < |st.threads| && Plan(st, i, c).Some? && ApplyPlan(st, i, c) == st'
  }

  /** A run, and a clean one. */
  ghost predicate Cleanly(sts: seq<State>) { IsRun(sts, 1, 2) && IsCleanRun(sts, 1, 2) }

  lemma Continue(sts: seq<State>, i: nat, c: Choice, st': State) returns (r: seq<State>)
    requires IsRun(sts, 1, 2) && Leads(Last(sts), i, c, st')
    ensures IsRun(r, 1, 2) && Last(r) == st'
    ensures Cleanly(sts) && !(Last(sts).threads[i].Inited? && c == Go(false)) ==> Cleanly(r)
  {
    r := sts + [st'];
    assert Next(Last(sts), i, c, st');
    assert Follows(Last(sts), st');
    forall k | 0 <= k < |r| - 1 ensures Follows(r[k], r[k + 1]) {
      if k < |sts| - 1 {
        assert Follows(sts[k], sts[k + 1]);
      }
    }
    if Cleanly(sts) && !(Last(sts).threads[i].Inited? && c == Go(false)) {
      assert Clean(Last(sts), i, c);
      forall k | 0 <= k < |r| - 1 ensures FollowsCleanly(r[k], r[k + 1]) {
        if k < |sts| - 1 {
          assert FollowsCleanly(sts[k], sts[k + 1]);
        }
      }
    }
  }

  /** Thread i carries out DisconnectSession without interruption. */
  lemma Release(sts: seq<State>, i: nat) returns (r: seq<State>)
    requires IsRun(sts, 1, 2) && InRange(Last(sts)) && |Last(sts).sessions| == 1
    requires i < |Last(sts).threads| && Last(sts).threads[i] == RelRead(0, Idle)
    ensures IsRun(r, 1, 2) && (Cleanly(sts) ==> Cleanly(r))
    ensures var st := Last(sts); var x := st.sessions[0];
            Last(r) == State([x.(active := false, locked := false)], st.stack + [0], st.users - {x.userId},
                             st.userIdCount, st.threads[i := Idle], st.log)
  {
    hide Cleanly;
    var st := Last(sts);
    var x := st.sessions[0];
    r := Continue(sts, i, Go(true), st.(threads := st.threads[i := RelDelete(0, x.userId, Idle)]));
    r := Continue(r, i, Go(true), st.(threads := st.threads[i := RelClear(0, Idle)], users := st.users - {x.userId}));
    r := Continue(r, i, Go(true), st.(threads := st.threads[i := RelFree(0, Idle)], users := st.users - {x.userId},
                                      sessions := [x.(active := false, locked := false)]));
    r := Continue(r, i, Go(true), st.(threads := st.threads[i := Idle], users := st.users - {x.userId},
                                      sessions := [x.(active := false, locked := false)], stack := st.stack + [0]));
  }

  // ---------------------------------------------------------------- a user left behind

  /** The accept thread takes up a connection. */
  lemma Claim() returns (r: seq<State>)
    ensures Cleanly(r) && Last(r) == Opened(NEW, Inited(0), Idle)
  {
    r := [Init(1, 2)];
    assert Last(r) == State([FRESH_SLOT], [0], map[], 1, [Idle, Idle, Idle], []);
    r := Continue(r, 0, Accept, Opened(FRESH_SLOT, Claimed(0), Idle));
    r := Continue(r, 0, Go(true), Opened(NEW, Inited(0), Idle));
  }

  /** Its receive is posted; OnConnect is still to come. */
  lemma Connect() returns (r: seq<State>)
    ensures Cleanly(r) && Last(r) == Opened(NEW.(refCount := 1, recvs := 1), Connecting(0), Idle)
  {
    r := Claim();
    r := Continue(r, 0, Go(true), Opened(NEW, Post(false, 0, Connecting(0), Idle), Idle));
    r := Continue(r, 0, Go(true), Opened(NEW.(refCount := 1), Posting(false, 0, Connecting(0), Idle), Idle));
    r := Continue(r, 0, Go(true), Opened(NEW.(refCount := 1, recvs := 1), Connecting(0), Idle));
  }

  /** Worker 1 sees the connection close and releases the session before OnAccept has created its user. */
  lemma CloseEarly() returns (r: seq<State>)
    ensures Cleanly(r)
    ensures Last(r) == State([NEW.(active := false)], [0], map[], 1, [Connecting(0), Idle, Idle], [])
  {
    r := Connect();
    r := Continue(r, 1, Dequeue(0, false, true), Opened(NEW.(refCount := 1), Connecting(0), DecRelease(0, Idle)));
    r := Continue(r, 1, Go(true), Opened(NEW.(locked := true), Connecting(0), RelRead(0, Idle)));
    r := Release(r, 1);
    assert Last(r) == State([NEW.(active := false)], [0], map[], 1, [Connecting(0), Idle, Idle], []);
  }

  /** The user created after that stays in the directory although no session is left and all threads are idle. The run
      is clean: only the early read of the user id is to blame. */
  lemma UserLeftBehind() returns (r: seq<State>)
    ensures Cleanly(r) && Quiet(Last(r)) && !DirectoryAgrees(Last(r)) && !NeverReadEarly(r)
    ensures |Last(r).sessions| == 1 && !Last(r).sessions[0].active && Last(r).users == map[1 := 0]
  {
    r := CloseEarly();
    var x := NEW.(active := false);
    r := Continue(r, 0, Go(true), State([x], [0], map[1 := 0], 2, [Naming(0, 1), Idle, Idle], []));
    r := Continue(r, 0, Go(true), State([x.(userId := 1)], [0], map[1 := 0], 2, [Idle, Idle, Idle], []));
    assert 1 in Last(r).users;
    CleanDirectoryAgreesIff(r, 1, 2);
  }

  // ---------------------------------------------------------------- a send flag left up

  /** The regular end of OnAccept. */
  lemma Named() returns (r: seq<State>)
    ensures Cleanly(r) && Last(r) == Serving(NAMED.(recvs := 1), Idle, Idle, Idle, [])
  {
    r := Connect();
    r := Continue(r, 0, Go(true), Serving(NEW.(refCount := 1, recvs := 1), Naming(0, 1), Idle, Idle, []));
    r := Continue(r, 0, Go(true), Serving(NAMED.(recvs := 1), Idle, Idle, Idle, []));
  }

  /** A message comes in. */
  lemma MessageCame() returns (r: seq<State>)
    ensures Cleanly(r) && Last(r) == Serving(NAMED, Idle, EchoUser(0, 0), Idle, [])
  {
    r := Named();
    r := Continue(r, 1, Dequeue(0, false, false), Serving(NAMED, Idle, Receiving(0, 0), Idle, []));
    r := Continue(r, 1, Message, Serving(NAMED, Idle, EchoUser(0, 0), Idle, []));
  }

  /** Worker 1 finds where the echo goes. */
  lemma EchoAsked() returns (r: seq<State>)
    ensures Cleanly(r) && Last(r) == Serving(NAMED, Idle, EchoTarget(0, 0, 0), Idle, [])
  {
    r := MessageCame();
    r := Continue(r, 1, Go(true), Serving(NAMED, Idle, EchoLookup(0, 0, 1), Idle, []));
    r := Continue(r, 1, Go(true), Serving(NAMED, Idle, EchoTarget(0, 0, 0), Idle, []));
  }

  /** It queues the echo. */
  lemma EchoQueued() returns (r: seq<State>)
    ensures Cleanly(r) && Last(r) == Serving(NAMED, Idle, REPLY, Idle, [Echo(0, 0, 0, 0)])
  {
    r := EchoAsked();
    r := Continue(r, 1, Go(true), Serving(NAMED, Idle, EchoSend(0, 0, 0), Idle, []));
    r := Continue(r, 1, Go(true), Serving(NAMED, Idle, REPLY, Idle, [Echo(0, 0, 0, 0)]));
  }

  /** It posts the queue for sending. */
  lemma EchoPosted() returns (r: seq<State>)
    ensures Cleanly(r)
    ensures var x := NAMED.(refCount := 2, isSending := true, sends := 1);
            Last(r) == Serving(x, Idle, Receiving(0, 0), Idle, [Echo(0, 0, 0, 0)])
  {
    r := EchoQueued();
    var x, log := NAMED.(refCount := 2, isSending := true), [Echo(0, 0, 0, 0)];
    r := Continue(r, 1, Go(true), Serving(x, Idle, REPLYING, Idle, log));
    r := Continue(r, 1, Go(true), Serving(x.(sends := 1), Idle, Receiving(0, 0), Idle, log));
  }

  /** It gives up its reference and is about to post the next receive. */
  lemma Stale() returns (r: seq<State>)
    ensures Cleanly(r)
    ensures Last(r) == Serving(NAMED.(isSending := true, sends := 1), Idle, REPOST, Idle, [Echo(0, 0, 0, 0)])
  {
    r := EchoPosted();
    var x, log := NAMED.(refCount := 2, isSending := true, sends := 1), [Echo(0, 0, 0, 0)];
    r := Continue(r, 1, EndOfData, Serving(x, Idle, Decrement(0, REPOST), Idle, log));
    r := Continue(r, 1, Go(true), Serving(x.(refCount := 1), Idle, REPOST, Idle, log));
  }

  /** Worker 2 sees the send fail and releases the session, with the sending flag still up. */
  lemma SendFails() returns (r: seq<State>)
    ensures Cleanly(r) && Last(r) == Later(SPENT, [0], Idle, REPOST)
  {
    r := Stale();
    var x, log := NAMED.(isSending := true), [Echo(0, 0, 0, 0)];
    r := Continue(r, 2, Dequeue(0, true, true), Serving(x, Idle, REPOST, DecRelease(0, Idle), log));
    r := Continue(r, 2, Go(true), Serving(x.(refCount := 0, locked := true), Idle, REPOST, RelRead(0, Idle), log));
    r := Release(r, 2);
    assert Last(r) == Later(SPENT, [0], Idle, REPOST);
  }

  /** That slot will never send again. */
  lemma StuckSlotReached() returns (r: seq<State>)
    ensures Cleanly(r) && Stuck(Last(r), 0)
  {
    r := SendFails();
    ThreeThreads(Idle, REPOST, Idle, 0);
  }

  lemma ThreeThreads(p: Pc, q: Pc, r: Pc, s: nat)
    ensures SendsHeld([p, q, r], s) == SendHeld(p, s) + SendHeld(q, s) + SendHeld(r, s)
  {
    assert [p, q, r][1..] == [q, r] && [q, r][1..] == [r] && [r][1..] == [];
    assert SendsHeld([r], s) == SendHeld(r, s);
    assert SendsHeld([q, r], s) == SendHeld(q, s) + SendsHeld([r], s);
  }

  // ---------------------------------------------------------------- an id freed twice

  /** The slot is used again, and worker 1 posts its receive on the new session. */
  lemma Reused() returns (r: seq<State>)
    ensures Cleanly(r) && Last(r) == Later(AGAIN.(refCount := 1), [], Inited(0), REPOSTING)
  {
    r := SendFails();
    r := Continue(r, 0, Accept, Later(SPENT, [], Claimed(0), REPOST));
    r := Continue(r, 0, Go(true), Later(AGAIN, [], Inited(0), REPOST));
    r := Continue(r, 1, Go(true), Later(AGAIN.(refCount := 1), [], Inited(0), REPOSTING));
  }

  /** The association of the new session fails; it is released although worker 1 refers to it. */
  lemma AssociationFails() returns (r: seq<State>)
    ensures IsRun(r, 1, 2) && Last(r) == Later(AGAIN.(active := false, refCount := 1), [0], Idle, REPOSTING)
  {
    r := Reused();
    r := Continue(r, 0, Go(false), Later(AGAIN.(refCount := 1, locked := true), [], RelRead(0, Idle), REPOSTING));
    r := Release(r, 0);
    assert Last(r) == Later(AGAIN.(active := false, refCount := 1), [0], Idle, REPOSTING);
  }

  /** Worker 1's receive fails, and the session is released a second time: its id is on the free stack twice. */
  lemma FreedTwice() returns (r: seq<State>)
    ensures IsRun(r, 1, 2) && Last(r).stack == [0, 0] && !NeverClearedAgain(r)
  {
    r := AssociationFails();
    hide Cleanly;
    var x := AGAIN.(active := false);
    r := Continue(r, 1, Go(false), Later(x.(refCount := 1), [0], Idle, DecRelease(0, Idle)));
    r := Continue(r, 1, Go(true), Later(x.(locked := true), [0], Idle, RelRead(0, Idle)));
    r := Release(r, 1);
    assert Last(r).stack == [0, 0];
    TwoPlaces(r);
  }

  lemma TwoPlaces(r: seq<State>)
    requires IsRun(r, 1, 2) && Last(r).stack == [0, 0] && |Last(r).sessions| == 1
    ensures !NeverClearedAgain(r)
  {
    IdsAreAccountedIff(r, 1, 2);
    assert Places(Last(r), 0) >= 2 by {
      assert multiset(Last(r).stack)[0] == 2;
    }
    assert !AllAccounted(Last(r));
  }

  // ---------------------------------------------------------------- an echo to the next connection

  /** Worker 1's receive on the released session completes with data. */
  lemma DataForNobody() returns (r: seq<State>)
    ensures IsRun(r, 1, 2)
    ensures Last(r) == Later(AGAIN.(active := false, refCount := 1), [0], Idle, Receiving(0, 1))
  {
    r := AssociationFails();
    hide Cleanly;
    var x := AGAIN.(active := false, refCount := 1);
    r := Continue(r, 1, Go(true), Later(x.(recvs := 1), [0], Idle, Idle));
    r := Continue(r, 1, Dequeue(0, false, false), Later(x, [0], Idle, Receiving(0, 1)));
  }

  /** Meanwhile the slot is given to the next connection. */
  lemma NextClaims() returns (r: seq<State>)
    ensures IsRun(r, 1, 2) && Last(r) == Later(NEXT, [], Inited(0), Receiving(0, 1))
  {
    r := DataForNobody();
    hide Cleanly;
    r := Continue(r, 0, Accept, Later(AGAIN.(active := false, refCount := 1), [], Claimed(0), Receiving(0, 1)));
    r := Continue(r, 0, Go(true), Later(NEXT, [], Inited(0), Receiving(0, 1)));
  }

  lemma NextAsks() returns (r: seq<State>)
    ensures IsRun(r, 1, 2) && Last(r) == Later(NEXT, [], Post(false, 0, Connecting(0), Idle), Receiving(0, 1))
  {
    r := NextClaims();
    hide Cleanly;
    r := Continue(r, 0, Go(true), Later(NEXT, [], Post(false, 0, Connecting(0), Idle), Receiving(0, 1)));
  }

  lemma NextPosts() returns (r: seq<State>)
    ensures IsRun(r, 1, 2)
    ensures Last(r) == Later(NEXT.(refCount := 2, recvs := 1), [], Connecting(0), Receiving(0, 1))
  {
    r := NextAsks();
    hide Cleanly;
    var x, w := NEXT.(refCount := 2), Receiving(0, 1);
    r := Continue(r, 0, Go(true), Later(x, [], Posting(false, 0, Connecting(0), Idle), w));
    r := Continue(r, 0, Go(true), Later(x.(recvs := 1), [], Connecting(0), w));
  }

  lemma NextNamed() returns (r: seq<State>)
    ensures IsRun(r, 1, 2) && Last(r) == Meeting(MET, Idle, Receiving(0, 1))
  {
    r := NextPosts();
    hide Cleanly;
    r := Continue(r, 0, Go(true), Meeting(MET.(userId := 0), Naming(0, 2), Receiving(0, 1)));
    r := Continue(r, 0, Go(true), Meeting(MET, Idle, Receiving(0, 1)));
  }

  /** Worker 1 looks up the session's user, who is that of the next connection. */
  lemma NextLookedUp() returns (r: seq<State>)
    ensures IsRun(r, 1, 2) && Last(r) == Meeting(MET, Idle, EchoLookup(0, 1, 2))
  {
    r := NextNamed();
    hide Cleanly;
    r := Continue(r, 1, Message, Meeting(MET, Idle, EchoUser(0, 1)));
    r := Continue(r, 1, Go(true), Meeting(MET, Idle, EchoLookup(0, 1, 2)));
  }

  lemma NextAddressed() returns (r: seq<State>)
    ensures IsRun(r, 1, 2) && Last(r) == Meeting(MET, Idle, EchoSend(0, 1, 0))
  {
    r := NextLookedUp();
    hide Cleanly;
    r := Continue(r, 1, Go(true), Meeting(MET, Idle, EchoTarget(0, 1, 0)));
    r := Continue(r, 1, Go(true), Meeting(MET, Idle, EchoSend(0, 1, 0)));
  }

  /** It puts the echo into that connection's send queue. */
  lemma EchoReachesNext() returns (r: seq<State>)
    ensures IsRun(r, 1, 2) && Last(r).log == [Echo(0, 0, 0, 0), Echo(0, 1, 0, 2)] && EchoTooLate(r)
  {
    r := NextAddressed();
    hide Cleanly;
    r := Continue(r, 1, Go(true), Meeting(MET, Idle, Post(true, 0, Receiving(0, 1), Receiving(0, 1)))
                                    .(log := [Echo(0, 0, 0, 0), Echo(0, 1, 0, 2)]));
    assert Last(r).log[1] == Echo(0, 1, 0, 2);
    EchoesReturnIff(r, 1, 2);
  }
}
