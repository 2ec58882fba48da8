/** The server's objects: the session manager, the lobby, and the operations that work across them, each proved to
    compute its function of ServerSteps and so to keep the accounts of ServerAccounts. */
module Server {
  import opened SessionMachine
  import opened Wrappers
  import opened ServerSteps
  import opened ServerAccounts

  /** The user directory. */
  class Lobby {
    var users: map<nat, nat>
    var userIdCount: nat

    constructor ()
      ensures users == map[] && userIdCount == 1
    {
      users, userIdCount := map[], 1;
    }

    method CreateUser(sessionId: nat) returns (userId: nat)
      modifies this
      ensures userId == old(userIdCount) && userIdCount == old(userIdCount) + 1
      ensures users == Emplaced(old(users), userId, sessionId)
      ensures users == if userId in old(users) then old(users) else old(users)[userId := sessionId]
    {
      if userIdCount !in users {
        users := users[userIdCount := sessionId];
      }
      userId := userIdCount;
      userIdCount := userIdCount + 1;
    }

    method DeleteUser(userId: nat)
      modifies this`users
      ensures users == old(users) - {userId}
    {
      users := users - {userId};
    }

    method OnConnect(sessionId: nat) returns (userId: nat)
      modifies this
      ensures userId == old(userIdCount) && userIdCount == old(userIdCount) + 1
      ensures users == Emplaced(old(users), userId, sessionId)
    {
      userId := CreateUser(sessionId);
    }

    method OnRelease(userId: nat)
      modifies this`users
      ensures users == old(users) - {userId}
    {
      DeleteUser(userId);
    }
  }

  /** The session table and the free ids. The sessions' own methods take the id of the session they are called on. */
  class SessionManager {
    var sessions: seq<Slot>
    var sessionIdStack: seq<nat>
    const networkEvents: Lobby
    ghost var log: seq<Echo>

    ghost function Now(): Tables
      reads this, networkEvents
    {
      Tables(sessions, sessionIdStack, networkEvents.users, networkEvents.userIdCount, log)
    }

    /** Init: the machine's initial tables. */
    constructor (lobby: Lobby, maxSession: nat)
      requires lobby.users == map[] && lobby.userIdCount == 1
      ensures networkEvents == lobby && log == []
      ensures forall workers: nat :: Solo(Now(), Idle) == Init(maxSession, workers).(threads := [Idle])
      ensures sessionIdStack == seq(maxSession, i => i) && |sessions| == maxSession
      ensures Sound(Now(), 0, 0) && Served(Now())
    {
      networkEvents := lobby;
      sessions, sessionIdStack, log := [], [], [];
      new;
      var i := 0;
      while i < maxSession
        invariant 0 <= i <= maxSession && sessionIdStack == [] && log == []
        invariant lobby.users == map[] && lobby.userIdCount == 1
        invariant sessions == seq(i, _ => FRESH_SLOT)
      {
        sessions := sessions + [FRESH_SLOT];
        i := i + 1;
      }
      i := 0;
      while i < maxSession
        invariant 0 <= i <= maxSession && sessions == seq(maxSession, _ => FRESH_SLOT) && log == []
        invariant lobby.users == map[] && lobby.userIdCount == 1
        invariant sessionIdStack == AllIds(i)
      {
        sessionIdStack := sessionIdStack + [i];
        i := i + 1;
      }
      InitialTables(Now(), maxSession);
    }

    method GetIdLock() returns (id: Option<nat>)
      modifies this`sessionIdStack
      ensures id.None? <==> old(sessionIdStack) == []
      ensures id.None? ==> sessionIdStack == []
      ensures id.Some? ==> sessionIdStack + [id.value] == old(sessionIdStack)
    {
      if sessionIdStack != [] {
        id := Some(sessionIdStack[|sessionIdStack| - 1]);
        sessionIdStack := sessionIdStack[..|sessionIdStack| - 1];
      } else {
        id := None;
      }
    }

    method FreeIdLock(id: nat)
      modifies this`sessionIdStack
      ensures sessionIdStack == old(sessionIdStack) + [id]
    {
      sessionIdStack := sessionIdStack + [id];
    }

    method CreateSession() returns (id: Option<nat>)
      requires InTables(Now())
      modifies this
      ensures id.None? <==> old(sessionIdStack) == []
      ensures id.None? ==> Now() == old(Now())
      ensures id.Some? ==> id.value == old(sessionIdStack[|sessionIdStack| - 1]) && Now() == Created(old(Now()))
      ensures Sound(old(Now()), 0, 0) ==> Sound(Now(), 0, 0)
    {
      hide Sound, Served, OneEcho;
      id := GetIdLock();
      if id.None? {
        return;
      }
      assert old(sessionIdStack[|sessionIdStack| - 1]) == id.value;
      assert old(sessionIdStack[..|sessionIdStack| - 1]) == sessionIdStack;
      sessions := sessions[id.value := InitSlot(sessions[id.value])];
      if Sound(old(Now()), 0, 0) {
        NobodyHolds(old(Now()), 0, id.value);
        CreatedKeeps(old(Now()));
        NobodyHolds(Now(), id.value, 0);
      }
    }

    /** None where the source returns a null pointer. */
    method GetSessionPointer(id: nat) returns (session: Option<nat>)
      requires id < |sessions|
      ensures session == if sessions[id].active then Some(id) else None
    {
      session := if !sessions[id].active then None else Some(id);
    }

    /** The caller holds the session's mutex. */
    method DisconnectSession(id: nat)
      requires id < |sessions| && sessions[id].locked
      modifies this, networkEvents
      ensures Now() == Released(old(Now()), id)
      ensures var x := old(sessions)[id];
              x.active && x.refCount == 0 && Sound(SetSlot(old(Now()), id, x.(locked := false)), id, 0) ==>
                Sound(Now(), id, 0)
    {
      hide Sound, Served, OneEcho;
      var userId := sessions[id].userId;
      networkEvents.OnRelease(userId);
      sessions := sessions[id := sessions[id].(active := false)];
      sessions := sessions[id := sessions[id].(locked := false)];
      FreeIdLock(id);
      ghost var was := old(Now());
      if was.sessions[id].active && was.sessions[id].refCount == 0
         && Sound(SetSlot(was, id, was.sessions[id].(locked := false)), id, 0) {
        ReleasedKeeps(was, id, 0);
      }
    }

    method DecrementRefCountAndRelease(id: nat)
      requires id < |sessions| && !sessions[id].locked
      modifies this, networkEvents
      ensures Now() == GivenUp(old(Now()), id)
      ensures Sound(old(Now()), id, 1) ==> Sound(Now(), id, 0)
    {
      hide Sound, Served, OneEcho;
      var count := sessions[id].refCount - 1;
      sessions := sessions[id := sessions[id].(refCount := count)];
      if count < 1 {
        sessions := sessions[id := sessions[id].(locked := true)];
        DisconnectSession(id);
      } else {
        sessions := sessions[id := sessions[id].(disconnectRequested := true)];
      }
      if Sound(old(Now()), id, 1) {
        GivenUpKeeps(old(Now()), id, 0);
      }
    }

    method DecrementRefCount(id: nat) returns (released: bool)
      requires id < |sessions| && !sessions[id].locked
      modifies this, networkEvents
      ensures Now() == Decremented(old(Now()), id)
      ensures released == ReleasesAtDecrement(old(sessions)[id])
      ensures Sound(old(Now()), id, 1) ==> Sound(Now(), id, 0)
    {
      hide Sound, Served, OneEcho, SlotSound, Released;
      if Sound(Now(), id, 1) {
        DecrementedKeeps(Now(), id, 0);
      }
      var count := sessions[id].refCount - 1;
      sessions := sessions[id := sessions[id].(refCount := count)];
      if sessions[id].disconnectRequested && count < 1 {
        sessions := sessions[id := sessions[id].(locked := true)];
        assert sessions == old(sessions)[id := old(sessions)[id].(refCount := count, locked := true)];
        DisconnectSession(id);
        return true;
      }
      return false;
    }

    method PostRecv(id: nat, posted: bool) returns (r: bool)
      requires id < |sessions| && !sessions[id].locked
      modifies this, networkEvents
      ensures Now() == Posted(old(Now()), false, id, posted)
      ensures forall held: nat :: Sound(old(Now()), id, held) ==> Sound(Now(), id, held)
      ensures r == (old(sessions)[id].active && posted)
    {
      hide Sound, Served, OneEcho;
      forall held: nat | Sound(Now(), id, held) ensures Sound(Posted(Now(), false, id, posted), id, held) {
        PostedKeeps(Now(), false, id, posted, held);
      }
      if !sessions[id].active {
        return false;
      }
      sessions := sessions[id := sessions[id].(refCount := sessions[id].refCount + 1)];
      if !posted {
        DecrementRefCountAndRelease(id);
        return false;
      }
      sessions := sessions[id := sessions[id].(recvs := sessions[id].recvs + 1)];
      return true;
    }

    method PostSend(id: nat, posted: bool) returns (r: bool)
      requires id < |sessions| && !sessions[id].locked
      modifies this, networkEvents
      ensures Now() == Posted(old(Now()), true, id, posted)
      ensures forall held: nat :: Sound(old(Now()), id, held) ==> Sound(Now(), id, held)
      ensures r == (old(sessions)[id].active && !old(sessions)[id].isSending && posted)
    {
      hide Sound, Served, OneEcho;
      forall held: nat | Sound(Now(), id, held) ensures Sound(Posted(Now(), true, id, posted), id, held) {
        PostedKeeps(Now(), true, id, posted, held);
      }
      if !sessions[id].active {
        return false;
      }
      if sessions[id].isSending {
        return false;
      }
      sessions := sessions[id := sessions[id].(refCount := sessions[id].refCount + 1, isSending := true)];
      if !posted {
        DecrementRefCountAndRelease(id);
        return false;
      }
      sessions := sessions[id := sessions[id].(sends := sessions[id].sends + 1)];
      return true;
    }

    method SendPacket(target: nat, ghost from: nat, ghost gen: nat, a: Answers)
      requires target < |sessions| && !sessions[target].locked
      modifies this, networkEvents
      ensures Now() == PacketSent(old(Now()), from, gen, target, a)
    {
      if !sessions[target].active {
        return;
      }
      if !a.room {
        sessions := sessions[target := sessions[target].(disconnectRequested := true)];
        return;
      }
      log := log + [Echo(from, gen, target, sessions[target].gen)];
      var _ := PostSend(target, a.posted);
    }

    method OnSend(id: nat, a: Answers)
      requires id < |sessions| && !sessions[id].locked
      modifies this, networkEvents
      ensures Now() == SendDone(old(Now()), id, a)
      ensures Sound(old(Now()), id, 1) ==> Sound(Now(), id, 0)
    {
      hide Sound, Served, OneEcho;
      if Sound(Now(), id, 1) {
        SendDoneKeeps(Now(), id, a);
      }
      var released := DecrementRefCount(id);
      if released {
        return;
      }
      if !sessions[id].active {
        return;
      }
      sessions := sessions[id := sessions[id].(isSending := false)];
      if a.queued {
        var _ := PostSend(id, a.posted);
      }
    }

    /** Lobby::ChatUnicast; the lobby is the manager's. */
    method ChatUnicast(userId: nat, ghost from: nat, ghost gen: nat, a: Answers)
      requires InTables(Now())
      requires forall i :: 0 <= i < |sessions| ==> !sessions[i].locked
      modifies this, networkEvents
      ensures Now() == Unicast(old(Now()), from, gen, userId, a)
      ensures userId !in old(networkEvents.users) ==> Now() == old(Now())
    {
      if userId !in networkEvents.users {
        return;
      }
      var sessionId := networkEvents.users[userId];
      var session := GetSessionPointer(sessionId);
      if session.None? {
        return;
      }
      SendPacket(session.value, from, gen, a);
    }

    /** ContentsProcess::OnEcho. */
    method OnEcho(sessionId: nat, ghost gen: nat, a: Answers)
      requires InTables(Now()) && sessionId < |sessions|
      requires forall i :: 0 <= i < |sessions| ==> !sessions[i].locked
      modifies this, networkEvents
      ensures !old(sessions)[sessionId].active ==> Now() == old(Now())
      ensures old(sessions)[sessionId].active ==>
                Now() == Unicast(old(Now()), sessionId, gen, old(sessions)[sessionId].userId, a)
      ensures Sound(old(Now()), sessionId, 1) ==>
                Sound(Now(), sessionId, 1) && OneEcho(old(Now()), Now(), sessionId, sessionId)
      ensures var x := old(sessions)[sessionId];
              Sound(old(Now()), sessionId, 1) && x.userId != 0 && a.room ==>
                log == old(log) + [Echo(sessionId, gen, sessionId, x.gen)]
    {
      hide Sound, Served;
      if Sound(Now(), sessionId, 1) {
        HolderIsActive(Now(), sessionId);
        UnicastKeeps(Now(), sessionId, gen, a, 1);
      }
      var session := GetSessionPointer(sessionId);
      if session.None? {
        return;
      }
      ChatUnicast(sessions[session.value].userId, sessionId, gen, a);
    }

    /** OnRecv: `arrived` says that MoveRear took bytes in, and there is one element of `answers` for each message the
        session then takes from its queue. */
    method OnRecv(id: nat, ghost gen: nat, arrived: bool, answers: seq<Answers>, posted: bool)
      requires InTables(Now()) && Unlocked(Now()) && id < |sessions|
      modifies this, networkEvents
      ensures Now() == if arrived then ReceiveDone(old(Now()), id, gen, answers, posted) else GivenUp(old(Now()), id)
      ensures Sound(old(Now()), id, 1) ==> Sound(Now(), id, 0) && EchoesOf(old(Now()), Now(), id, |answers|)
      ensures Sound(old(Now()), id, 1) && Served(old(Now())) && arrived ==>
                Served(Now()) && EchoesAdded(old(Now()), Now(), id, gen, answers)
    {
      hide Sound, Served, OneEcho, Unicast, SlotSound, EchoesAdded;
      ghost var was := Now();
      if Sound(was, id, 1) {
        GivenUpKeeps(was, id, 0);
        ReceiveDoneKeeps(was, id, gen, answers, posted);
      }
      if !arrived {
        DecrementRefCountAndRelease(id);
        return;
      }
      var i := 0;
      assert answers[i..] == answers;
      while i < |answers|
        invariant 0 <= i <= |answers| && id < |sessions| && InTables(Now()) && Unlocked(Now())
        invariant AllAnswered(Now(), id, gen, answers[i..]) == AllAnswered(was, id, gen, answers)
      {
        assert answers[i..][0] == answers[i] && answers[i..][1..] == answers[i + 1..];
        AnsweredInTables(Now(), id, gen, answers[i]);
        OnEcho(id, gen, answers[i]);
        i := i + 1;
      }
      assert answers[i..] == [];
      var released := DecrementRefCount(id);
      if released {
        return;
      }
      var _ := PostRecv(id, posted);
    }
  }

  class LanServer {
    const sessionManager: SessionManager
    const networkEvents: Lobby

    constructor (manager: SessionManager)
      ensures sessionManager == manager && networkEvents == manager.networkEvents
    {
      sessionManager, networkEvents := manager, manager.networkEvents;
    }

    method OnAccept(a: Answers)
      requires networkEvents == sessionManager.networkEvents && InTables(sessionManager.Now())
      requires forall i :: 0 <= i < |sessionManager.sessions| ==> !sessionManager.sessions[i].locked
      modifies sessionManager, networkEvents
      ensures sessionManager.Now() == Accepted(old(sessionManager.Now()), a)
      ensures var (was, now) := (old(sessionManager.Now()), sessionManager.Now());
              Sound(was, 0, 0) ==> Sound(now, 0, 0) && (Served(was) ==> Served(now))
    {
      hide Sound, Served, OneEcho;
      if Sound(sessionManager.Now(), 0, 0) {
        AcceptedKeeps(sessionManager.Now(), a, 0);
      }
      var session := sessionManager.CreateSession();
      if session.None? {
        return;
      }
      var id := session.value;
      if !a.associated {
        sessionManager.sessions := sessionManager.sessions[id := sessionManager.sessions[id].(locked := true)];
        sessionManager.DisconnectSession(id);
        return;
      }
      var recved := sessionManager.PostRecv(id, a.posted);
      if !recved {
        return;
      }
      var userId := networkEvents.OnConnect(id);
      sessionManager.sessions := sessionManager.sessions[id := sessionManager.sessions[id].(userId := userId)];
    }

    /** The loop of one worker while no other thread runs: each packet goes to the operation for its kind, up to the
        first stop packet. */
    method WorkerThread(completionPort: seq<Packet>) returns (rest: seq<Packet>)
      requires networkEvents == sessionManager.networkEvents
      requires InTables(sessionManager.Now()) && Unlocked(sessionManager.Now())
      requires AllDue(sessionManager.Now(), completionPort)
      modifies sessionManager, networkEvents
      ensures (sessionManager.Now(), rest) == AllCompleted(old(sessionManager.Now()), completionPort)
      ensures var (was, now) := (old(sessionManager.Now()), sessionManager.Now());
              Sound(was, 0, 0) ==>
                Sound(now, 0, 0) && (Served(was) ==> Served(now)) && (EchoesHome(was.log) ==> EchoesHome(now.log))
    {
      hide Sound, Served, EchoesHome, Completed;
      ghost var was := sessionManager.Now();
      if Sound(was, 0, 0) {
        AllCompletedKeeps(was, completionPort, 0);
      }
      rest := completionPort;
      while rest != []
        invariant networkEvents == sessionManager.networkEvents
        invariant InTables(sessionManager.Now()) && Unlocked(sessionManager.Now())
        invariant AllDue(sessionManager.Now(), rest)
        invariant AllCompleted(sessionManager.Now(), rest) == AllCompleted(was, completionPort)
        decreases |rest|
      {
        var packet := rest[0];
        if packet.Stop? {
          return rest[1..];
        }
        HandleCompletion(packet);
        rest := rest[1..];
      }
    }

    /** One round of that loop. */
    method HandleCompletion(packet: Packet)
      requires networkEvents == sessionManager.networkEvents
      requires InTables(sessionManager.Now()) && Unlocked(sessionManager.Now()) && Due(sessionManager.Now(), packet)
      modifies sessionManager, networkEvents
      ensures sessionManager.Now() == Completed(old(sessionManager.Now()), packet)
      ensures packet.zero && old(sessionManager.sessions)[packet.id].refCount <= 1 ==>
                && !sessionManager.sessions[packet.id].active
                && old(sessionManager.sessions)[packet.id].userId !in networkEvents.users
                && sessionManager.sessionIdStack == old(sessionManager.sessionIdStack) + [packet.id]
      ensures packet.zero && old(sessionManager.sessions)[packet.id].refCount > 1 ==>
                sessionManager.sessions[packet.id].disconnectRequested
    {
      hide Sound, GivenUp, SendDone, ReceiveDone;
      if packet.zero {
        ZeroEndsConnection(sessionManager.Now(), packet);
      }
      var id, x := packet.id, sessionManager.sessions[packet.id];
      sessionManager.sessions := sessionManager.sessions[
        id := if packet.send then x.(sends := x.sends - 1) else x.(recvs := x.recvs - 1)];
      if packet.zero {
        sessionManager.DecrementRefCountAndRelease(id);
        return;
      }
      if !packet.send {
        sessionManager.OnRecv(id, x.gen, packet.arrived, packet.answers, packet.last.posted);
      } else {
        sessionManager.OnSend(id, packet.last);
      }
    }
  }
}
