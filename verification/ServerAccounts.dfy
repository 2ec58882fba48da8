/** What the server's operations keep when they run alone: each id is exactly once free or in use, an inactive session
    is not referred to, and the directory agrees with the sessions. */
module ServerAccounts {
  import opened SessionMachine
  import opened SessionConservation
  import opened SessionCleanRuns
  import opened SessionDirectory
  import opened ServerSteps

  // ---------------------------------------------------------------- what the operations keep

  /** The accounts of one slot when a thread holds `held` references to it: the id is free exactly once or in use, and
      only an active session is referred to. */
  predicate SlotSound(x: Slot, held: nat, free: nat) {
    && !x.locked && x.refCount == x.recvs + x.sends + held && (0 < x.refCount ==> x.active)
    && free + One(x.active) == 1
  }

  function HeldOf(s: nat, who: nat, held: nat): nat { if s == who then held else 0 }

  /** All slots are sound, with `held` references to session `who` held by the calling thread, and the directory
      agrees with the sessions. */
  predicate Sound(t: Tables, who: nat, held: nat) {
    && InTables(t) && 0 < t.userIdCount && (forall u :: u in t.users ==> 0 < u < t.userIdCount)
    && DirectoryAgrees(Solo(t, Idle))
    && forall s :: 0 <= s < |t.sessions| ==> SlotSound(t.sessions[s], HeldOf(s, who, held), multiset(t.stack)[s])
  }

  /** Every session in use has its user. */
  predicate Served(t: Tables) {
    forall s :: 0 <= s < |t.sessions| && t.sessions[s].active ==> t.sessions[s].userId != 0
  }

  /** Another slot keeps its accounts if its id is not moved. */
  predicate OthersSame(t: Tables, t': Tables, id: nat) {
    && |t'.sessions| == |t.sessions|
    && forall s :: 0 <= s < |t.sessions| && s != id ==>
         t'.sessions[s] == t.sessions[s] && multiset(t'.stack)[s] == multiset(t.stack)[s]
  }

  /** Changing only flags and counts of one slot keeps the tables sound if it keeps that slot sound. */
  lemma SlotChanged(t: Tables, id: nat, x: Slot, held: nat, held': nat)
    requires Sound(t, id, held) && id < |t.sessions|
    requires x.active == t.sessions[id].active && x.userId == t.sessions[id].userId
    requires SlotSound(x, held', multiset(t.stack)[id])
    ensures Sound(SetSlot(t, id, x), id, held')
  {
    var t' := SetSlot(t, id, x);
    forall s | 0 <= s < |t'.sessions|
      ensures SlotSound(t'.sessions[s], HeldOf(s, id, held'), multiset(t'.stack)[s])
    {
      assert SlotSound(t.sessions[s], HeldOf(s, id, held), multiset(t.stack)[s]);
    }
    forall s | 0 <= s < |t'.sessions| && t'.sessions[s].active && t'.sessions[s].userId != 0
      ensures t'.sessions[s].userId in t'.users && t'.users[t'.sessions[s].userId] == s
    {
      assert t.sessions[s].active && t.sessions[s].userId == t'.sessions[s].userId;
    }
  }

  /** Releasing an active session that nobody refers to. The mutex is the caller's. */
  lemma ReleasedKeeps(t: Tables, id: nat, held: nat)
    requires id < |t.sessions| && Sound(SetSlot(t, id, t.sessions[id].(locked := false)), id, held)
    requires t.sessions[id].active && t.sessions[id].refCount == 0
    ensures held == 0 && Sound(Released(t, id), id, 0) && (Served(t) ==> Served(Released(t, id)))
  {
    var b, r := SetSlot(t, id, t.sessions[id].(locked := false)), Released(t, id);
    assert SlotSound(b.sessions[id], held, multiset(b.stack)[id]);
    forall s | 0 <= s < |r.sessions| ensures SlotSound(r.sessions[s], HeldOf(s, id, 0), multiset(r.stack)[s]) {
      assert SlotSound(b.sessions[s], HeldOf(s, id, held), multiset(b.stack)[s]);
    }
    var u := t.sessions[id].userId;
    forall v | v in r.users
      ensures var s := r.users[v]; s < |r.sessions| && r.sessions[s].active && r.sessions[s].userId == v != 0
    {
      assert v in b.users && b.sessions[b.users[v]].userId == v;
    }
    forall s | 0 <= s < |r.sessions| && r.sessions[s].active && r.sessions[s].userId != 0
      ensures r.sessions[s].userId in r.users && r.users[r.sessions[s].userId] == s
    {
      assert s != id && b.sessions[s] == r.sessions[s] && b.users[b.sessions[s].userId] == s;
      assert u != 0 ==> b.users[u] == id;
    }
  }

  lemma ServedChanged(t: Tables, id: nat, x: Slot)
    requires id < |t.sessions| && x.active == t.sessions[id].active && x.userId == t.sessions[id].userId
    ensures Served(t) ==> Served(SetSlot(t, id, x))
  {
  }

  lemma GivenUpKeeps(t: Tables, id: nat, held: nat)
    requires id < |t.sessions| && Sound(t, id, held + 1)
    ensures Sound(GivenUp(t, id), id, held) && (Served(t) ==> Served(GivenUp(t, id)))
  {
    var y := t.sessions[id];
    var x := y.(refCount := y.refCount - 1);
    assert SlotSound(y, held + 1, multiset(t.stack)[id]);
    hide Sound, Served, Released;
    SlotChanged(t, id, x, held + 1, held);
    ServedChanged(t, id, x);
    if x.refCount < 1 {
      ReleaseUnlocked(t, id, x, held);
    } else {
      SlotChanged(t, id, x.(disconnectRequested := true), held + 1, held);
      ServedChanged(t, id, x.(disconnectRequested := true));
    }
  }

  lemma ReleaseUnlocked(t: Tables, id: nat, x: Slot, held: nat)
    requires id < |t.sessions| && !x.locked && x.active && x.refCount == 0
    requires Sound(SetSlot(t, id, x), id, held)
    ensures held == 0
    ensures var r := Released(SetSlot(t, id, x.(locked := true)), id);
            Sound(r, id, 0) && (Served(SetSlot(t, id, x)) ==> Served(r))
  {
    var l := SetSlot(t, id, x.(locked := true));
    assert l.sessions[id].(locked := false) == x;
    assert SetSlot(l, id, x) == SetSlot(t, id, x);
    ReleasedKeeps(l, id, held);
  }

  lemma DecrementedKeeps(t: Tables, id: nat, held: nat)
    requires id < |t.sessions| && Sound(t, id, held + 1)
    ensures Sound(Decremented(t, id), id, held) && (Served(t) ==> Served(Decremented(t, id)))
  {
    var y := t.sessions[id];
    var x := y.(refCount := y.refCount - 1);
    assert SlotSound(y, held + 1, multiset(t.stack)[id]);
    hide Sound, Served, SlotSound, Released;
    SlotChanged(t, id, x, held + 1, held);
    ServedChanged(t, id, x);
    if ReleasesAtDecrement(y) {
      ReleaseUnlocked(t, id, x, held);
    }
  }

  lemma PostedKeeps(t: Tables, send: bool, id: nat, posted: bool, held: nat)
    requires id < |t.sessions| && Sound(t, id, held)
    ensures Sound(Posted(t, send, id, posted), id, held) && (Served(t) ==> Served(Posted(t, send, id, posted)))
  {
    hide Sound, GivenUp, Served, SlotSound;
    var x := t.sessions[id];
    if !Refused(x, send) {
      var y := x.(refCount := x.refCount + 1, isSending := x.isSending || send);
      if posted {
        PostTakenKeeps(t, id, x, if send then y.(sends := y.sends + 1) else y.(recvs := y.recvs + 1), held);
      } else {
        ReferenceKeeps(t, id, y, held);
        GivenUpKeeps(SetSlot(t, id, y), id, held);
      }
    }
  }

  lemma PostTakenKeeps(t: Tables, id: nat, x: Slot, y: Slot, held: nat)
    requires id < |t.sessions| && Sound(t, id, held) && x == t.sessions[id] && x.active
    requires y.active && y.userId == x.userId && y.locked == x.locked
    requires y.refCount == x.refCount + 1 && y.recvs + y.sends == x.recvs + x.sends + 1
    ensures Sound(SetSlot(t, id, y), id, held) && (Served(t) ==> Served(SetSlot(t, id, y)))
  {
    assert SlotSound(x, held, multiset(t.stack)[id]);
    hide Sound;
    SlotChanged(t, id, y, held, held);
  }

  lemma ReferenceKeeps(t: Tables, id: nat, y: Slot, held: nat)
    requires id < |t.sessions| && Sound(t, id, held) && t.sessions[id].active
    requires var x := t.sessions[id];
             y.active && y.userId == x.userId && y.locked == x.locked && y.refCount == x.refCount + 1
             && y.recvs == x.recvs && y.sends == x.sends
    ensures Sound(SetSlot(t, id, y), id, held + 1) && (Served(t) ==> Served(SetSlot(t, id, y)))
  {
    assert SlotSound(t.sessions[id], held, multiset(t.stack)[id]);
    hide Sound;
    SlotChanged(t, id, y, held, held + 1);
  }

  lemma LogDoesNotMatter(t: Tables, log: seq<Echo>, who: nat, held: nat)
    requires Sound(t, who, held)
    ensures Sound(t.(log := log), who, held)
  {
  }

  lemma HolderIsActive(t: Tables, id: nat)
    requires id < |t.sessions| && Sound(t, id, 1)
    ensures t.sessions[id].active
  {
    assert SlotSound(t.sessions[id], 1, multiset(t.stack)[id]);
  }

  lemma PacketSentKeeps(t: Tables, from: nat, gen: nat, target: nat, a: Answers, held: nat)
    requires target < |t.sessions| && Sound(t, target, held)
    ensures var r := PacketSent(t, from, gen, target, a);
            && Sound(r, target, held) && (Served(t) ==> Served(r)) && OneEcho(t, r, from, target)
            && r.sessions[target].gen == t.sessions[target].gen
            && (t.sessions[target].active && a.room ==>
                  r.log == t.log + [Echo(from, gen, target, t.sessions[target].gen)])
            && (t.sessions[target].active && !a.room ==> r.log == t.log && r.sessions[target].disconnectRequested)
  {
    var x := t.sessions[target];
    if x.active && !a.room {
      assert SlotSound(x, held, multiset(t.stack)[target]);
      SlotChanged(t, target, x.(disconnectRequested := true), held, held);
    } else if x.active {
      var log := t.log + [Echo(from, gen, target, x.gen)];
      LogDoesNotMatter(t, log, target, held);
      PostedKeeps(t.(log := log), true, target, a.posted, held);
      PostedKeepsLog(t.(log := log), true, target, a.posted);
    }
  }

  lemma PostedKeepsLog(t: Tables, send: bool, id: nat, posted: bool)
    requires id < |t.sessions|
    ensures var r := Posted(t, send, id, posted);
            |r.sessions| == |t.sessions| && r.log == t.log && r.sessions[id].gen == t.sessions[id].gen
  {
  }

  /** At most one echo has been sent, and that on `target`. */
  predicate OneEcho(t: Tables, t': Tables, from: nat, target: nat) {
    t'.log == t.log
    || (|t'.log| == |t.log| + 1 && t'.log[..|t.log|] == t.log
        && t'.log[|t.log|].slot == from && t'.log[|t.log|].target == target)
  }

  /** An echo for an active session goes to that session, if anywhere. When the session has its user it is sent if there
      is room for it, and else the disconnect is requested. */
  lemma UnicastKeeps(t: Tables, from: nat, gen: nat, a: Answers, held: nat)
    requires from < |t.sessions| && t.sessions[from].active && Sound(t, from, held)
    ensures var x, r := t.sessions[from], Unicast(t, from, gen, t.sessions[from].userId, a);
            && Sound(r, from, held) && (Served(t) ==> Served(r)) && OneEcho(t, r, from, from)
            && r.sessions[from].gen == x.gen
            && (x.userId != 0 && a.room ==> r.log == t.log + [Echo(from, gen, from, x.gen)])
            && (x.userId != 0 && !a.room ==> r.log == t.log && r.sessions[from].disconnectRequested)
  {
    var u := t.sessions[from].userId;
    if u in t.users {
      assert t.users[u] == from;
      PacketSentKeeps(t, from, gen, from, a, held);
    }
  }

  lemma SendDoneKeeps(t: Tables, id: nat, a: Answers)
    requires id < |t.sessions| && Sound(t, id, 1)
    ensures Sound(SendDone(t, id, a), id, 0) && (Served(t) ==> Served(SendDone(t, id, a)))
  {
    DecrementedKeeps(t, id, 0);
    var d := Decremented(t, id);
    var x := d.sessions[id];
    if !ReleasesAtDecrement(t.sessions[id]) && x.active {
      assert SlotSound(x, 0, multiset(d.stack)[id]);
      SlotChanged(d, id, x.(isSending := false), 0, 0);
      if a.queued {
        PostedKeeps(SetSlot(d, id, x.(isSending := false)), true, id, a.posted, 0);
      }
    }
  }

  /** Every echo sent is one for session `from` that goes back to it. */
  predicate EchoesOf(t: Tables, t': Tables, from: nat, most: nat) {
    && t.log <= t'.log && |t'.log| <= |t.log| + most
    && forall k :: |t.log| <= k < |t'.log| ==> t'.log[k].slot == t'.log[k].target == from
  }

  /** The messages whose echo finds room in the send queue. */
  function WithRoom(answers: seq<Answers>): (n: nat)
    ensures n <= |answers|
  {
    if answers == [] then 0 else (if answers[0].room then 1 else 0) + WithRoom(answers[1..])
  }

  function Copies(n: nat, e: Echo): (log: seq<Echo>)
    ensures |log| == n
  {
    seq(n, _ => e)
  }

  /** The log has grown by exactly one echo for each message with room, of connection `gen` of slot `from` and put in
      its own queue. */
  predicate EchoesAdded(t: Tables, t': Tables, from: nat, gen: nat, answers: seq<Answers>)
    requires from < |t.sessions|
  {
    t'.log == t.log + Copies(WithRoom(answers), Echo(from, gen, from, t.sessions[from].gen))
  }

  lemma AnsweredKeeps(t: Tables, from: nat, gen: nat, a: Answers)
    requires from < |t.sessions| && Sound(t, from, 1)
    ensures var r := Answered(t, from, gen, a);
            && Sound(r, from, 1) && (Served(t) ==> Served(r)) && OneEcho(t, r, from, from)
            && r.sessions[from].gen == t.sessions[from].gen
            && (Served(t) ==>
                  r.log == t.log + if a.room then [Echo(from, gen, from, t.sessions[from].gen)] else [])
  {
    assert SlotSound(t.sessions[from], 1, multiset(t.stack)[from]);
    UnicastKeeps(t, from, gen, a, 1);
  }

  lemma OneMoreEcho(t: Tables, t': Tables, t'': Tables, from: nat, most: nat)
    requires OneEcho(t, t', from, from) && EchoesOf(t', t'', from, most)
    ensures EchoesOf(t, t'', from, most + 1)
  {
  }

  lemma OneMoreAdded(t: Tables, t': Tables, t'': Tables, from: nat, gen: nat, answers: seq<Answers>)
    requires from < |t.sessions| == |t'.sessions| && t'.sessions[from].gen == t.sessions[from].gen && answers != []
    requires t'.log == t.log + if answers[0].room then [Echo(from, gen, from, t.sessions[from].gen)] else []
    requires EchoesAdded(t', t'', from, gen, answers[1..])
    ensures EchoesAdded(t, t'', from, gen, answers)
  {
  }

  lemma {:induction false} AllAnsweredKeeps(t: Tables, from: nat, gen: nat, answers: seq<Answers>)
    requires from < |t.sessions| && Sound(t, from, 1)
    ensures var r := AllAnswered(t, from, gen, answers);
            && Sound(r, from, 1) && (Served(t) ==> Served(r)) && EchoesOf(t, r, from, |answers|)
            && (Served(t) ==> EchoesAdded(t, r, from, gen, answers))
    decreases |answers|
  {
    assert InTables(t);
    assert EchoesOf(t, t, from, 0) && EchoesAdded(t, t, from, gen, []);
    hide Answered, Sound, Served, OneEcho, EchoesOf, EchoesAdded;
    if answers != [] {
      var next := Answered(t, from, gen, answers[0]);
      AnsweredKeeps(t, from, gen, answers[0]);
      AnsweredInTables(t, from, gen, answers[0]);
      AllAnsweredKeeps(next, from, gen, answers[1..]);
      OneMoreEcho(t, next, AllAnswered(t, from, gen, answers), from, |answers| - 1);
      if Served(t) {
        OneMoreAdded(t, next, AllAnswered(t, from, gen, answers), from, gen, answers);
      }
    }
  }

  lemma RepostedKeeps(t: Tables, id: nat, posted: bool)
    requires id < |t.sessions| && Sound(t, id, 1)
    ensures var r := Reposted(t, id, posted);
            Sound(r, id, 0) && (Served(t) ==> Served(r)) && r.log == t.log
  {
    DecrementedKeeps(t, id, 0);
    if !ReleasesAtDecrement(t.sessions[id]) {
      PostedKeeps(Decremented(t, id), false, id, posted, 0);
    }
  }

  /** A completed receive gives back the reference it holds. Each message is answered at most once, to its sender, and
      when all sessions have their users exactly the messages whose echo finds room are. */
  lemma ReceiveDoneKeeps(t: Tables, id: nat, gen: nat, answers: seq<Answers>, posted: bool)
    requires id < |t.sessions| && Sound(t, id, 1)
    ensures var r := ReceiveDone(t, id, gen, answers, posted);
            && Sound(r, id, 0) && (Served(t) ==> Served(r)) && EchoesOf(t, r, id, |answers|)
            && (Served(t) ==> EchoesAdded(t, r, id, gen, answers))
  {
    AllAnsweredKeeps(t, id, gen, answers);
    RepostedKeeps(AllAnswered(t, id, gen, answers), id, posted);
  }

  predicate EchoesHome(log: seq<Echo>) { forall k :: 0 <= k < |log| ==> log[k].target == log[k].slot }

  /** Dequeuing a completion hands the request's reference to the worker. */
  lemma DequeuedKeeps(t: Tables, p: Packet)
    requires Due(t, p) && Sound(t, p.id, 0)
    ensures Sound(Dequeued(t, p), p.id, 1) && (Served(t) ==> Served(Dequeued(t, p)))
  {
    var x := t.sessions[p.id];
    assert SlotSound(x, 0, multiset(t.stack)[p.id]);
    hide Sound;
    SlotChanged(t, p.id, if p.send then x.(sends := x.sends - 1) else x.(recvs := x.recvs - 1), 0, 1);
  }

  lemma ReleasedLog(t: Tables, id: nat, a: Answers)
    requires id < |t.sessions|
    ensures GivenUp(t, id).log == SendDone(t, id, a).log == t.log
  {
  }

  /** Whatever completes, a worker that takes the packet by itself keeps the tables sound, all sessions in use served
      and all echoes with their sender. */
  lemma CompletedKeeps(t: Tables, p: Packet, who: nat)
    requires Due(t, p) && Sound(t, who, 0)
    ensures var r := Completed(t, p);
            Sound(r, who, 0) && (Served(t) ==> Served(r)) && (EchoesHome(t.log) ==> EchoesHome(r.log))
  {
    assert InTables(t);
    hide Sound, Served, SlotSound, SendDone, GivenUp, ReceiveDone;
    NobodyHolds(t, who, p.id);
    DequeuedKeeps(t, p);
    var d := Dequeued(t, p);
    assert d.log == t.log;
    ReleasedLog(d, p.id, p.last);
    if p.zero || (!p.send && !p.arrived) {
      GivenUpKeeps(d, p.id, 0);
    } else if p.send {
      SendDoneKeeps(d, p.id, p.last);
    } else {
      ReceiveDoneKeeps(d, p.id, t.sessions[p.id].gen, p.answers, p.last.posted);
    }
    NobodyHolds(Completed(t, p), p.id, who);
  }

  lemma {:induction false} AllCompletedKeeps(t: Tables, packets: seq<Packet>, who: nat)
    requires Sound(t, who, 0) && AllDue(t, packets)
    ensures var r := AllCompleted(t, packets).0;
            Sound(r, who, 0) && (Served(t) ==> Served(r)) && (EchoesHome(t.log) ==> EchoesHome(r.log))
    decreases |packets|
  {
    assert InTables(t);
    hide Sound, Served, Completed, EchoesHome;
    if packets != [] && packets[0].Completion? {
      CompletedKeeps(t, packets[0], who);
      AllCompletedKeeps(Completed(t, packets[0]), packets[1..], who);
    }
  }

  lemma FreshSlotSound(n: nat, s: nat)
    requires s < n
    ensures SlotSound(FRESH_SLOT, HeldOf(s, 0, 0), multiset(AllIds(n))[s])
  {
    EachIdOnce(n, s);
  }

  /** The tables the server starts with. */
  lemma InitialTables(t: Tables, n: nat)
    requires t.sessions == seq(n, _ => FRESH_SLOT) && t.stack == AllIds(n) && t.users == map[] && t.userIdCount == 1
    ensures Sound(t, 0, 0) && Served(t)
  {
    hide SlotSound, HeldOf;
    assert forall s :: 0 <= s < n ==> t.sessions[s] == FRESH_SLOT && t.stack[s] == s;
    assert DirectoryAgrees(Solo(t, Idle));
    forall s | 0 <= s < |t.sessions| ensures SlotSound(t.sessions[s], HeldOf(s, 0, 0), multiset(t.stack)[s]) {
      FreshSlotSound(n, s);
    }
  }

  lemma NobodyHolds(t: Tables, who: nat, who': nat)
    requires Sound(t, who, 0)
    ensures Sound(t, who', 0)
  {
    forall s | 0 <= s < |t.sessions| ensures SlotSound(t.sessions[s], HeldOf(s, who', 0), multiset(t.stack)[s]) {
      assert SlotSound(t.sessions[s], HeldOf(s, who, 0), multiset(t.stack)[s]);
    }
  }

  /** The new session is in use, has no user yet and nobody refers to it. */
  lemma CreatedKeeps(t: Tables)
    requires t.stack != [] && Sound(t, t.stack[|t.stack| - 1], 0)
    ensures var id, c := t.stack[|t.stack| - 1], Created(t);
            && Sound(c, id, 0) && OthersSame(t, c, id)
            && c.sessions[id].active && c.sessions[id].userId == 0 && c.sessions[id].refCount == 0
  {
    var id, c := t.stack[|t.stack| - 1], Created(t);
    assert t.stack == t.stack[..|t.stack| - 1] + [id];
    assert multiset(t.stack) == multiset(t.stack[..|t.stack| - 1]) + multiset{id};
    assert SlotSound(t.sessions[id], 0, multiset(t.stack)[id]);
    forall s | 0 <= s < |c.sessions| ensures SlotSound(c.sessions[s], HeldOf(s, id, 0), multiset(c.stack)[s]) {
      assert SlotSound(t.sessions[s], HeldOf(s, id, 0), multiset(t.stack)[s]);
    }
    forall s | 0 <= s < |c.sessions| && c.sessions[s].active && c.sessions[s].userId != 0
      ensures c.sessions[s].userId in c.users && c.users[c.sessions[s].userId] == s
    {
      assert s != id && t.sessions[s] == c.sessions[s];
    }
  }

  /** Naming an active session that has no user. */
  lemma ConnectedKeeps(t: Tables, id: nat)
    requires id < |t.sessions| && Sound(t, id, 0) && t.sessions[id].active && t.sessions[id].userId == 0
    ensures Sound(Connected(t, id), id, 0)
  {
    var r := Connected(t, id);
    forall s | 0 <= s < |r.sessions| ensures SlotSound(r.sessions[s], HeldOf(s, id, 0), multiset(r.stack)[s]) {
      assert SlotSound(t.sessions[s], HeldOf(s, id, 0), multiset(t.stack)[s]);
    }
    forall s | 0 <= s < |r.sessions| && r.sessions[s].active && r.sessions[s].userId != 0
      ensures r.sessions[s].userId in r.users && r.users[r.sessions[s].userId] == s
    {
      if s != id {
        assert t.sessions[s] == r.sessions[s] && t.sessions[s].userId in t.users;
      }
    }
  }

  /** OnAccept keeps the tables sound, and all sessions in use served. */
  lemma AcceptedKeeps(t: Tables, a: Answers, who: nat)
    requires Sound(t, who, 0)
    ensures Sound(Accepted(t, a), who, 0) && (Served(t) ==> Served(Accepted(t, a)))
  {
    if t.stack != [] {
      var id, c := t.stack[|t.stack| - 1], Created(t);
      NobodyHolds(t, who, id);
      CreatedKeeps(t);
      if !a.associated {
        assert SetSlot(c, id, c.sessions[id]) == c;
        assert SlotSound(c.sessions[id], 0, multiset(c.stack)[id]);
        ReleaseUnlocked(c, id, c.sessions[id], 0);
      } else {
        AssociatedKeeps(t, c, id, a);
      }
      NobodyHolds(Accepted(t, a), id, who);
    }
  }

  /** What OnAccept does to tables that are sound: without a free id nothing; if association or receive fail the id is
      free again, on top, and no user is there; otherwise the session has a receive outstanding and the next user id,
      and the user's record names it. */
  lemma AcceptOutcome(t: Tables, a: Answers, who: nat)
    requires Sound(t, who, 0)
    ensures var r := Accepted(t, a);
            && r.log == t.log
            && (t.stack == [] ==> r == t)
            && (t.stack != [] ==>
                  var id := t.stack[|t.stack| - 1];
                  && id < |r.sessions|
                  && (!a.associated || !a.posted ==>
                        r.stack == t.stack && r.users == t.users && !r.sessions[id].active)
                  && (a.associated && a.posted ==>
                        && r.stack + [id] == t.stack && r.users == t.users[t.userIdCount := id]
                        && r.sessions[id].active && r.sessions[id].userId == t.userIdCount
                        && r.sessions[id].recvs == 1 && r.sessions[id].refCount == 1))
  {
    if t.stack != [] {
      var id := t.stack[|t.stack| - 1];
      assert id in multiset(t.stack);
      assert SlotSound(t.sessions[id], HeldOf(id, who, 0), multiset(t.stack)[id]);
      assert t.users - {0} == t.users;
      assert t.stack[..|t.stack| - 1] + [id] == t.stack;
    }
  }

  lemma AssociatedKeeps(t: Tables, c: Tables, id: nat, a: Answers)
    requires id < |c.sessions| && Sound(c, id, 0) && OthersSame(t, c, id)
    requires c.sessions[id].active && c.sessions[id].userId == 0 && c.sessions[id].refCount == 0
    ensures var r := Posted(c, false, id, a.posted);
            var d := if a.posted then Connected(r, id) else r;
            Sound(d, id, 0) && (Served(t) ==> Served(d))
  {
    PostedKeeps(c, false, id, a.posted, 0);
    if a.posted {
      ConnectedKeeps(Posted(c, false, id, true), id);
    }
  }

  // ---------------------------------------------------------------- the machine's thread, come to rest

  /** However the foreign calls turn out, where the accept thread comes to rest by itself the tables are sound and all
      sessions in use are served. */
  lemma AcceptAtRest(t: Tables, a: Answers, who: nat, t': Tables, pc: Pc)
    requires Sound(t, who, 0) && t.stack != [] && Stopped(pc)
    requires Reaches(t.(stack := t.stack[..|t.stack| - 1]), Claimed(t.stack[|t.stack| - 1]), a, t', pc)
    ensures pc.Idle? && Sound(t', who, 0) && (Served(t) ==> Served(t'))
  {
    var id := t.stack[|t.stack| - 1];
    assert SlotSound(t.sessions[id], HeldOf(id, who, 0), multiset(t.stack)[id]);
    AcceptedAlone(t, a);
    AcceptedKeeps(t, a, who);
    OutcomeIsUnique(t.(stack := t.stack[..|t.stack| - 1]), Claimed(id), a, Accepted(t, a), Idle, t', pc);
  }

  /** Where a worker comes to rest after an echo, at most one echo has been sent, and that to where it came from. */
  lemma EchoAtRest(t: Tables, from: nat, gen: nat, a: Answers, held: nat, t': Tables, pc: Pc)
    requires from < |t.sessions| && t.sessions[from].active && Sound(t, from, held) && Stopped(pc)
    requires Reaches(t, EchoUser(from, gen), a, t', pc)
    ensures pc == Receiving(from, gen) && Sound(t', from, held) && OneEcho(t, t', from, from)
  {
    forall i | 0 <= i < |t.sessions| ensures !t.sessions[i].locked {
      assert SlotSound(t.sessions[i], HeldOf(i, from, held), multiset(t.stack)[i]);
    }
    EchoAlone(t, from, gen, a);
    UnicastKeeps(t, from, gen, a, held);
    var r := Unicast(t, from, gen, t.sessions[from].userId, a);
    OutcomeIsUnique(t, EchoUser(from, gen), a, r, Receiving(from, gen), t', pc);
  }

  /** A completed send gives back the reference it holds. */
  lemma SendAtRest(t: Tables, id: nat, a: Answers, t': Tables, pc: Pc)
    requires id < |t.sessions| && Sound(t, id, 1) && Stopped(pc) && Reaches(t, Decrement(id, Sent(id)), a, t', pc)
    ensures pc.Idle? && Sound(t', id, 0) && (Served(t) ==> Served(t'))
  {
    assert SlotSound(t.sessions[id], 1, multiset(t.stack)[id]);
    SendDoneAlone(t, id, a);
    SendDoneKeeps(t, id, a);
    OutcomeIsUnique(t, Decrement(id, Sent(id)), a, SendDone(t, id, a), Idle, t', pc);
  }

  /** Where a worker comes to rest after a completed receive, its reference is given back, the tables are sound, and
      exactly the messages whose echo found room have been answered. */
  lemma ReceiveAtRest(t: Tables, id: nat, gen: nat, s: Script, t': Tables)
    requires id < |t.sessions| && Sound(t, id, 1) && Served(t) && s.arrived
    requires Ends(t, Receiving(id, gen), s, t')
    ensures Sound(t', id, 0) && Served(t') && EchoesAdded(t, t', id, gen, s.answers)
  {
    forall i | 0 <= i < |t.sessions| ensures !t.sessions[i].locked {
      assert SlotSound(t.sessions[i], HeldOf(i, id, 1), multiset(t.stack)[i]);
    }
    ReceiveDoneAlone(t, id, gen, s);
    ReceiveDoneKeeps(t, id, gen, s.answers, s.last.posted);
    EndIsUnique(t, Receiving(id, gen), s, ReceiveDone(t, id, gen, s.answers, s.last.posted), t');
  }
}
