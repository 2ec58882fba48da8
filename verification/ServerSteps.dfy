/** The operations of the server as functions of its shared tables. Each is proved to be what the step machine of
    SessionMachine does when one thread takes the operation's steps with nobody in between. */
module ServerSteps {
  import opened SessionMachine
  import opened Wrappers

  /** The shared state, as a value. */
  datatype Tables = Tables(
    sessions: seq<Slot>, stack: seq<nat>, users: map<nat, nat>, userIdCount: nat, log: seq<Echo>)

  predicate InTables(t: Tables) {
    && (forall i :: 0 <= i < |t.stack| ==> t.stack[i] < |t.sessions|)
    && (forall u :: u in t.users ==> t.users[u] < |t.sessions|)
  }

  /** How the foreign calls made by one operation turn out: the association with the completion port, WSARecv or
      WSASend, room in the send queue, and whether bytes are left in it. */
  datatype Answers = Answers(associated: bool, posted: bool, room: bool, queued: bool)

  // ---------------------------------------------------------------- a thread by itself

  /** The state with one thread, at `pc`. */
  function Solo(t: Tables, pc: Pc): State { State(t.sessions, t.stack, t.users, t.userIdCount, [pc], t.log) }

  /** The choice the answers give at `pc`. A thread with nothing to do, or between two messages, is left there. */
  function Choose(pc: Pc, a: Answers): Choice {
    match pc
    case Inited(_) => Go(a.associated)
    case Posting(_, _, _, _) => Go(a.posted)
    case EchoSend(_, _, _) => Go(a.room)
    case Sent(_) => Go(a.queued)
    case Receiving(_, _) => Accept
    case _ => Go(true)
  }

  /** One step of the only thread; where it cannot take one, none. */
  function Step(st: State, a: Answers): (st': State)
    requires InRange(st) && |st.threads| == 1
    ensures InRange(st') && |st'.threads| == 1
  {
    var c := Choose(st.threads[0], a);
    if Plan(st, 0, c).Some? then
      StepStaysInRange(st, 0, c, ApplyPlan(st, 0, c));
      ApplyPlan(st, 0, c)
    else st
  }

  function Steps(st: State, a: Answers, n: nat): State
    requires InRange(st) && |st.threads| == 1
    decreases n
  {
    if n == 0 then st else Steps(Step(st, a), a, n - 1)
  }

  /** Taking its steps alone, a thread comes from `pc` to `pc'`, and the tables from t to t'. */
  ghost predicate Reaches(t: Tables, pc: Pc, a: Answers, t': Tables, pc': Pc) {
    && InRange(Solo(t, pc)) && InRange(Solo(t', pc'))
    && exists n: nat :: Steps(Solo(t, pc), a, n) == Solo(t', pc')
  }

  predicate Stopped(pc: Pc) { pc.Idle? || pc.Receiving? }

  lemma Once(t: Tables, pc: Pc, a: Answers, t': Tables, pc': Pc)
    requires InRange(Solo(t, pc)) && Step(Solo(t, pc), a) == Solo(t', pc')
    ensures Reaches(t, pc, a, t', pc')
  {
    assert Steps(Solo(t', pc'), a, 0) == Solo(t', pc');
    assert Steps(Solo(t, pc), a, 1) == Solo(t', pc');
  }

  lemma {:induction false} StepsAdd(st: State, a: Answers, n: nat, m: nat, mid: State)
    requires InRange(st) && |st.threads| == 1 && Steps(st, a, n) == mid && InRange(mid) && |mid.threads| == 1
    ensures Steps(st, a, n + m) == Steps(mid, a, m)
    decreases n
  {
    hide Step;
    if n > 0 {
      StepsAdd(Step(st, a), a, n - 1, m, mid);
    }
  }

  lemma Chain(t: Tables, p: Pc, a: Answers, t': Tables, p': Pc, t'': Tables, p'': Pc)
    requires Reaches(t, p, a, t', p') && Reaches(t', p', a, t'', p'')
    ensures Reaches(t, p, a, t'', p'')
  {
    var n: nat :| Steps(Solo(t, p), a, n) == Solo(t', p');
    var m: nat :| Steps(Solo(t', p'), a, m) == Solo(t'', p'');
    StepsAdd(Solo(t, p), a, n, m, Solo(t', p'));
    assert Steps(Solo(t, p), a, n + m) == Solo(t'', p'');
  }

  lemma {:induction false} StaysStopped(t: Tables, pc: Pc, a: Answers, n: nat)
    requires InRange(Solo(t, pc)) && Stopped(pc)
    ensures Steps(Solo(t, pc), a, n) == Solo(t, pc)
    decreases n
  {
    if n > 0 {
      assert Step(Solo(t, pc), a) == Solo(t, pc);
      StaysStopped(t, pc, a, n - 1);
    }
  }

  /** The answers determine the outcome: a thread by itself comes to rest in one state only. */
  lemma OutcomeIsUnique(t: Tables, pc: Pc, a: Answers, t': Tables, p': Pc, t'': Tables, p'': Pc)
    requires Reaches(t, pc, a, t', p') && Reaches(t, pc, a, t'', p'') && Stopped(p') && Stopped(p'')
    ensures t' == t'' && p' == p''
  {
    var st := Solo(t, pc);
    var n: nat :| Steps(st, a, n) == Solo(t', p');
    var m: nat :| Steps(st, a, m) == Solo(t'', p'');
    if n <= m {
      StepsAdd(st, a, n, m - n, Solo(t', p'));
      StaysStopped(t', p', a, m - n);
    } else {
      StepsAdd(st, a, m, n - m, Solo(t'', p''));
      StaysStopped(t'', p'', a, n - m);
    }
    assert Solo(t', p') == Solo(t'', p'');
    assert Solo(t', p').threads[0] == p' && Solo(t'', p'').threads[0] == p'';
  }

  // ---------------------------------------------------------------- releasing a session

  function SetSlot(t: Tables, id: nat, x: Slot): Tables
    requires id < |t.sessions|
  {
    t.(sessions := t.sessions[id := x])
  }

  /** DisconnectSession with the session's mutex held, to the return of the id. */
  function Released(t: Tables, id: nat): Tables
    requires id < |t.sessions|
  {
    var x := t.sessions[id];
    SetSlot(t, id, x.(active := false, locked := false)).(stack := t.stack + [id], users := t.users - {x.userId})
  }

  /** DecrementRefCountAndRelease. */
  function GivenUp(t: Tables, id: nat): Tables
    requires id < |t.sessions|
  {
    var x := t.sessions[id].(refCount := t.sessions[id].refCount - 1);
    if x.refCount < 1 then Released(SetSlot(t, id, x.(locked := true)), id)
    else SetSlot(t, id, x.(disconnectRequested := true))
  }

  predicate ReleasesAtDecrement(x: Slot) { x.disconnectRequested && x.refCount <= 1 }

  /** DecrementRefCount. */
  function Decremented(t: Tables, id: nat): Tables
    requires id < |t.sessions|
  {
    var x := t.sessions[id].(refCount := t.sessions[id].refCount - 1);
    if ReleasesAtDecrement(t.sessions[id]) then Released(SetSlot(t, id, x.(locked := true)), id) else SetSlot(t, id, x)
  }

  lemma ReleasedAlone(t: Tables, id: nat, next: Pc, a: Answers)
    requires InRange(Solo(t, RelRead(id, next))) && id < |t.sessions|
    ensures Reaches(t, RelRead(id, next), a, Released(t, id), next)
  {
    assert PcInRange(Solo(t, RelRead(id, next)).threads[0], |t.sessions|);
    var x := t.sessions[id];
    var p1, p2, p3 := RelDelete(id, x.userId, next), RelClear(id, next), RelFree(id, next);
    var t2 := t.(users := t.users - {x.userId});
    var t3 := SetSlot(t2, id, x.(active := false, locked := false));
    Once(t, RelRead(id, next), a, t, p1);
    Once(t, p1, a, t2, p2);
    Once(t2, p2, a, t3, p3);
    Once(t3, p3, a, Released(t, id), next);
    Chain(t, RelRead(id, next), a, t, p1, t2, p2);
    Chain(t, RelRead(id, next), a, t2, p2, t3, p3);
    Chain(t, RelRead(id, next), a, t3, p3, Released(t, id), next);
  }

  lemma GivenUpAlone(t: Tables, id: nat, next: Pc, a: Answers)
    requires InRange(Solo(t, DecRelease(id, next))) && id < |t.sessions| && !t.sessions[id].locked
    ensures Reaches(t, DecRelease(id, next), a, GivenUp(t, id), next)
  {
    assert PcInRange(Solo(t, DecRelease(id, next)).threads[0], |t.sessions|);
    var x := t.sessions[id].(refCount := t.sessions[id].refCount - 1);
    if x.refCount < 1 {
      var t1 := SetSlot(t, id, x.(locked := true));
      Once(t, DecRelease(id, next), a, t1, RelRead(id, next));
      ReleasedAlone(t1, id, next, a);
      Chain(t, DecRelease(id, next), a, t1, RelRead(id, next), GivenUp(t, id), next);
    } else {
      Once(t, DecRelease(id, next), a, GivenUp(t, id), next);
    }
  }

  lemma DecrementedAlone(t: Tables, id: nat, next: Pc, a: Answers)
    requires InRange(Solo(t, Decrement(id, next))) && id < |t.sessions| && !t.sessions[id].locked
    ensures Reaches(t, Decrement(id, next), a, Decremented(t, id),
                    if ReleasesAtDecrement(t.sessions[id]) then Idle else next)
  {
    assert PcInRange(Solo(t, Decrement(id, next)).threads[0], |t.sessions|);
    var x := t.sessions[id].(refCount := t.sessions[id].refCount - 1);
    if ReleasesAtDecrement(t.sessions[id]) {
      var t1 := SetSlot(t, id, x.(locked := true));
      Once(t, Decrement(id, next), a, t1, RelRead(id, Idle));
      ReleasedAlone(t1, id, Idle, a);
      Chain(t, Decrement(id, next), a, t1, RelRead(id, Idle), Decremented(t, id), Idle);
    } else {
      Once(t, Decrement(id, next), a, Decremented(t, id), next);
    }
  }

  // ---------------------------------------------------------------- posting and sending

  predicate Refused(x: Slot, send: bool) { !x.active || (send && x.isSending) }

  /** PostRecv and PostSend. */
  function Posted(t: Tables, send: bool, id: nat, posted: bool): Tables
    requires id < |t.sessions|
  {
    var x := t.sessions[id];
    if Refused(x, send) then t
    else
      var y := x.(refCount := x.refCount + 1, isSending := x.isSending || send);
      if !posted then GivenUp(SetSlot(t, id, y), id)
      else SetSlot(t, id, if send then y.(sends := y.sends + 1) else y.(recvs := y.recvs + 1))
  }

  lemma PostedAlone(t: Tables, send: bool, id: nat, ok: Pc, fail: Pc, a: Answers)
    requires InRange(Solo(t, Post(send, id, ok, fail))) && id < |t.sessions| && !t.sessions[id].locked
    ensures Reaches(t, Post(send, id, ok, fail), a, Posted(t, send, id, a.posted),
                    if !Refused(t.sessions[id], send) && a.posted then ok else fail)
  {
    var p, q := Post(send, id, ok, fail), Posting(send, id, ok, fail);
    assert PcInRange(Solo(t, p).threads[0], |t.sessions|);
    var x := t.sessions[id];
    if Refused(x, send) {
      assert t.sessions[id := x] == t.sessions;
      Once(t, p, a, t, fail);
    } else {
      var t1 := SetSlot(t, id, x.(refCount := x.refCount + 1, isSending := x.isSending || send));
      Once(t, p, a, t1, q);
      if a.posted {
        Once(t1, q, a, Posted(t, send, id, true), ok);
        Chain(t, p, a, t1, q, Posted(t, send, id, true), ok);
      } else {
        assert t1.sessions[id := t1.sessions[id]] == t1.sessions;
        Once(t1, q, a, t1, DecRelease(id, fail));
        GivenUpAlone(t1, id, fail, a);
        Chain(t1, q, a, t1, DecRelease(id, fail), Posted(t, send, id, false), fail);
        Chain(t, p, a, t1, q, Posted(t, send, id, false), fail);
      }
    }
  }

  /** SendPacket on `target`, for an echo that came in on incarnation `gen` of slot `from`. */
  function PacketSent(t: Tables, from: nat, gen: nat, target: nat, a: Answers): Tables
    requires target < |t.sessions|
  {
    var x := t.sessions[target];
    if !x.active then t
    else if !a.room then SetSlot(t, target, x.(disconnectRequested := true))
    else Posted(t.(log := t.log + [Echo(from, gen, target, x.gen)]), true, target, a.posted)
  }

  lemma PacketSentAlone(t: Tables, from: nat, gen: nat, target: nat, a: Answers)
    requires InRange(Solo(t, EchoSend(from, gen, target))) && from < |t.sessions| && target < |t.sessions|
    requires !t.sessions[target].locked
    ensures Reaches(t, EchoSend(from, gen, target), a, PacketSent(t, from, gen, target, a), Receiving(from, gen))
  {
    var p, r, x := EchoSend(from, gen, target), Receiving(from, gen), t.sessions[target];
    assert PcInRange(Solo(t, p).threads[0], |t.sessions|);
    assert t.sessions[target := x] == t.sessions;
    if !x.active || !a.room {
      Once(t, p, a, PacketSent(t, from, gen, target, a), r);
    } else {
      var t1 := t.(log := t.log + [Echo(from, gen, target, x.gen)]);
      Once(t, p, a, t1, Post(true, target, r, r));
      PostedAlone(t1, true, target, r, r, a);
      Chain(t, p, a, t1, Post(true, target, r, r), PacketSent(t, from, gen, target, a), r);
    }
  }

  /** ChatUnicast. */
  function Unicast(t: Tables, from: nat, gen: nat, userId: nat, a: Answers): Tables
    requires InTables(t)
  {
    if userId !in t.users || !t.sessions[t.users[userId]].active then t
    else PacketSent(t, from, gen, t.users[userId], a)
  }

  lemma UnicastAlone(t: Tables, from: nat, gen: nat, userId: nat, a: Answers)
    requires InTables(t) && from < |t.sessions|
    requires userId in t.users ==> !t.sessions[t.users[userId]].locked
    ensures Reaches(t, EchoLookup(from, gen, userId), a, Unicast(t, from, gen, userId, a), Receiving(from, gen))
  {
    var p, r := EchoLookup(from, gen, userId), Receiving(from, gen);
    assert t.sessions[from := t.sessions[from]] == t.sessions;
    if userId !in t.users {
      Once(t, p, a, t, r);
    } else {
      var target := t.users[userId];
      Once(t, p, a, t, EchoTarget(from, gen, target));
      if t.sessions[target].active {
        Once(t, EchoTarget(from, gen, target), a, t, EchoSend(from, gen, target));
        PacketSentAlone(t, from, gen, target, a);
        Chain(t, EchoTarget(from, gen, target), a, t, EchoSend(from, gen, target), Unicast(t, from, gen, userId, a), r);
      } else {
        Once(t, EchoTarget(from, gen, target), a, t, r);
      }
      Chain(t, p, a, t, EchoTarget(from, gen, target), Unicast(t, from, gen, userId, a), r);
    }
  }

  /** OnEcho on a slot that is active. */
  lemma EchoAlone(t: Tables, from: nat, gen: nat, a: Answers)
    requires InTables(t) && from < |t.sessions|
    requires forall i :: 0 <= i < |t.sessions| ==> !t.sessions[i].locked
    ensures Reaches(t, EchoUser(from, gen), a, Unicast(t, from, gen, t.sessions[from].userId, a), Receiving(from, gen))
  {
    var u := t.sessions[from].userId;
    assert t.sessions[from := t.sessions[from]] == t.sessions;
    Once(t, EchoUser(from, gen), a, t, EchoLookup(from, gen, u));
    UnicastAlone(t, from, gen, u, a);
    Chain(t, EchoUser(from, gen), a, t, EchoLookup(from, gen, u), Unicast(t, from, gen, u, a), Receiving(from, gen));
  }

  /** OnSend: after the decrement, the next send if bytes are left. */
  function SendDone(t: Tables, id: nat, a: Answers): Tables
    requires id < |t.sessions|
  {
    var d := Decremented(t, id);
    var x := d.sessions[id];
    if ReleasesAtDecrement(t.sessions[id]) || !x.active then d
    else
      var e := SetSlot(d, id, x.(isSending := false));
      if a.queued then Posted(e, true, id, a.posted) else e
  }

  lemma SendDoneAlone(t: Tables, id: nat, a: Answers)
    requires InTables(t) && id < |t.sessions| && !t.sessions[id].locked
    ensures Reaches(t, Decrement(id, Sent(id)), a, SendDone(t, id, a), Idle)
  {
    var p := Decrement(id, Sent(id));
    DecrementedAlone(t, id, Sent(id), a);
    if !ReleasesAtDecrement(t.sessions[id]) {
      var d := Decremented(t, id);
      var x := d.sessions[id];
      assert d.sessions[id := x] == d.sessions;
      if !x.active {
        Once(d, Sent(id), a, d, Idle);
      } else {
        var e := SetSlot(d, id, x.(isSending := false));
        if a.queued {
          Once(d, Sent(id), a, e, Post(true, id, Idle, Idle));
          PostedAlone(e, true, id, Idle, Idle, a);
          Chain(d, Sent(id), a, e, Post(true, id, Idle, Idle), SendDone(t, id, a), Idle);
        } else {
          Once(d, Sent(id), a, e, Idle);
        }
      }
      Chain(t, p, a, d, Sent(id), SendDone(t, id, a), Idle);
    }
  }

  /** When a send of an active session completes and the session is not released, the next send goes out if bytes are
      queued and the system takes it: again one is outstanding, with the flag up. Without bytes the flag goes down. */
  lemma NextSendGoesOut(t: Tables, id: nat, a: Answers)
    requires id < |t.sessions| && t.sessions[id].active && !ReleasesAtDecrement(t.sessions[id])
    ensures var x, r := t.sessions[id], SendDone(t, id, a);
            && |r.sessions| == |t.sessions|
            && (a.queued && a.posted ==> r.sessions[id] == x.(isSending := true, sends := x.sends + 1))
            && (!a.queued ==> r.sessions[id] == x.(isSending := false, refCount := x.refCount - 1))
  {
  }

  /** A packet for an active session is recorded in its queue or, without room, ends the connection; if no send is under
      way and the system takes it, the queue is sent. */
  lemma PacketGoesOut(t: Tables, from: nat, gen: nat, target: nat, a: Answers)
    requires target < |t.sessions|
    ensures var x, r := t.sessions[target], PacketSent(t, from, gen, target, a);
            && |r.sessions| == |t.sessions|
            && (!x.active ==> r == t)
            && (x.active && !a.room ==> r.sessions[target] == x.(disconnectRequested := true) && r.log == t.log)
            && (x.active && a.room ==> r.log == t.log + [Echo(from, gen, target, x.gen)])
            && (x.active && a.room && x.isSending ==> r.sessions == t.sessions)
            && (x.active && a.room && !x.isSending && a.posted ==>
                  r.sessions[target] == x.(isSending := true, sends := x.sends + 1, refCount := x.refCount + 1))
  {
  }

  // ---------------------------------------------------------------- a completed receive

  predicate Unlocked(t: Tables) { forall i :: 0 <= i < |t.sessions| ==> !t.sessions[i].locked }

  predicate Like(t: Tables, r: Tables) {
    InTables(r) && |r.sessions| == |t.sessions| && (Unlocked(t) ==> Unlocked(r))
  }

  /** One message of session `from`: its echo, if the session is still active. */
  function Answered(t: Tables, from: nat, gen: nat, a: Answers): Tables
    requires InTables(t) && from < |t.sessions|
  {
    if t.sessions[from].active then Unicast(t, from, gen, t.sessions[from].userId, a) else t
  }

  lemma PostedInTables(t: Tables, send: bool, id: nat, posted: bool)
    requires InTables(t) && id < |t.sessions|
    ensures Like(t, Posted(t, send, id, posted))
  {
  }

  lemma AnsweredInTables(t: Tables, from: nat, gen: nat, a: Answers)
    requires InTables(t) && from < |t.sessions|
    ensures Like(t, Answered(t, from, gen, a))
  {
    hide Posted;
    var u := t.sessions[from].userId;
    if u in t.users {
      var target := t.users[u];
      PostedInTables(t.(log := t.log + [Echo(from, gen, target, t.sessions[target].gen)]), true, target, a.posted);
    }
  }

  /** All messages of the receive, one after the other. */
  function AllAnswered(t: Tables, from: nat, gen: nat, answers: seq<Answers>): (r: Tables)
    requires InTables(t) && from < |t.sessions|
    ensures Like(t, r)
    decreases |answers|
  {
    if answers == [] then t
    else
      AnsweredInTables(t, from, gen, answers[0]);
      AllAnswered(Answered(t, from, gen, answers[0]), from, gen, answers[1..])
  }

  /** The end of OnRecv: the reference is given up and the next receive posted. */
  function Reposted(t: Tables, id: nat, posted: bool): Tables
    requires id < |t.sessions|
  {
    var d := Decremented(t, id);
    if ReleasesAtDecrement(t.sessions[id]) then d else Posted(d, false, id, posted)
  }

  /** OnRecv, with one element of `answers` for each message. */
  function ReceiveDone(t: Tables, id: nat, gen: nat, answers: seq<Answers>, posted: bool): Tables
    requires InTables(t) && id < |t.sessions|
  {
    Reposted(AllAnswered(t, id, gen, answers), id, posted)
  }

  /** When a receive of an active session completes and the session is not released, the next receive is posted. */
  lemma NextReceiveIsPosted(t: Tables, id: nat)
    requires id < |t.sessions| && t.sessions[id].active && !ReleasesAtDecrement(t.sessions[id])
    ensures var x, r := t.sessions[id], Reposted(t, id, true);
            |r.sessions| == |t.sessions| && r.sessions[id] == x.(recvs := x.recvs + 1)
  {
  }

  lemma RepostInRange(t: Tables, id: nat)
    requires InTables(t) && id < |t.sessions|
    ensures InRange(Solo(t, Decrement(id, Post(false, id, Idle, Idle))))
  {
    assert PcInRange(Post(false, id, Idle, Idle), |t.sessions|);
  }

  lemma RepostedAlone(t: Tables, id: nat, a: Answers)
    requires InTables(t) && id < |t.sessions| && !t.sessions[id].locked
    ensures Reaches(t, Decrement(id, Post(false, id, Idle, Idle)), a, Reposted(t, id, a.posted), Idle)
  {
    var p, q := Decrement(id, Post(false, id, Idle, Idle)), Post(false, id, Idle, Idle);
    RepostInRange(t, id);
    DecrementedAlone(t, id, q, a);
    if !ReleasesAtDecrement(t.sessions[id]) {
      var d := Decremented(t, id);
      PostedAlone(d, false, id, Idle, Idle, a);
      Chain(t, p, a, d, q, Reposted(t, id, a.posted), Idle);
    }
  }

  // ---------------------------------------------------------------- a worker by itself, from message to message

  /** What is to come for a worker: whether its receive queue takes the bytes in, how the foreign calls turn out for
      each message then found in it, for the message at hand, and after the last one. */
  datatype Script = Script(arrived: bool, answers: seq<Answers>, now: Answers, last: Answers)

  function NextChoice(pc: Pc, script: Script): Choice {
    if !pc.Receiving? then Choose(pc, script.now)
    else if !script.arrived then Go(false)
    else if script.answers != [] then Message
    else EndOfData
  }

  function NextScript(pc: Pc, script: Script): Script {
    if !pc.Receiving? || !script.arrived then script
    else if script.answers != [] then script.(answers := script.answers[1..], now := script.answers[0])
    else script.(now := script.last)
  }

  /** One step of the only thread, as the script has it; where it cannot take one, none. */
  function Act(st: State, script: Script): (r: (State, Script))
    requires InRange(st) && |st.threads| == 1
    ensures InRange(r.0) && |r.0.threads| == 1
  {
    var c := NextChoice(st.threads[0], script);
    if Plan(st, 0, c).Some? then
      StepStaysInRange(st, 0, c, ApplyPlan(st, 0, c));
      (ApplyPlan(st, 0, c), NextScript(st.threads[0], script))
    else (st, script)
  }

  function Acts(st: State, script: Script, n: nat): (State, Script)
    requires InRange(st) && |st.threads| == 1
    decreases n
  {
    if n == 0 then (st, script) else var (st', script') := Act(st, script); Acts(st', script', n - 1)
  }

  ghost predicate Plays(t: Tables, pc: Pc, script: Script, t': Tables, pc': Pc, script': Script) {
    && InRange(Solo(t, pc)) && InRange(Solo(t', pc'))
    && exists n: nat :: Acts(Solo(t, pc), script, n) == (Solo(t', pc'), script')
  }

  /** Following the script alone, a worker comes from `pc` to its end, and the tables from t to t'. */
  ghost predicate Ends(t: Tables, pc: Pc, script: Script, t': Tables) {
    InRange(Solo(t, pc)) && exists n: nat :: Acts(Solo(t, pc), script, n).0 == Solo(t', Idle)
  }

  lemma {:induction false} ActsAdd(st: State, script: Script, n: nat, m: nat, mid: State, left: Script)
    requires InRange(st) && |st.threads| == 1 && InRange(mid) && |mid.threads| == 1
    requires Acts(st, script, n) == (mid, left)
    ensures Acts(st, script, n + m) == Acts(mid, left, m)
    decreases n
  {
    hide Act;
    if n > 0 {
      ActsAdd(Act(st, script).0, Act(st, script).1, n - 1, m, mid, left);
    }
  }

  lemma PlayOn(t: Tables, p: Pc, s: Script, t': Tables, p': Pc, s': Script, t'': Tables, p'': Pc, s'': Script)
    requires Plays(t, p, s, t', p', s') && Plays(t', p', s', t'', p'', s'')
    ensures Plays(t, p, s, t'', p'', s'')
  {
    var n: nat :| Acts(Solo(t, p), s, n) == (Solo(t', p'), s');
    var m: nat :| Acts(Solo(t', p'), s', m) == (Solo(t'', p''), s'');
    ActsAdd(Solo(t, p), s, n, m, Solo(t', p'), s');
    assert Acts(Solo(t, p), s, n + m) == (Solo(t'', p''), s'');
  }

  lemma PlayOnce(t: Tables, p: Pc, s: Script, t': Tables, p': Pc, s': Script)
    requires InRange(Solo(t, p)) && InRange(Solo(t', p'))
    requires Act(Solo(t, p), s).0 == Solo(t', p') && Act(Solo(t, p), s).1 == s'
    ensures Plays(t, p, s, t', p', s')
  {
    assert Acts(Solo(t', p'), s', 0) == (Solo(t', p'), s');
    assert Acts(Solo(t, p), s, 1) == (Solo(t', p'), s');
  }

  lemma ActIsStep(st: State, s: Script)
    requires InRange(st) && |st.threads| == 1
    ensures if st.threads[0].Receiving? then Step(st, s.now) == st else Act(st, s) == (Step(st, s.now), s)
  {
  }

  lemma {:induction false} StepsArePlayed(st: State, s: Script, n: nat) returns (m: nat)
    requires InRange(st) && |st.threads| == 1
    ensures Acts(st, s, m) == (Steps(st, s.now, n), s)
    decreases n
  {
    hide Step, Act;
    m := 0;
    if n > 0 {
      ActIsStep(st, s);
      m := StepsArePlayed(Step(st, s.now), s, n - 1);
      if !st.threads[0].Receiving? {
        m := m + 1;
      }
    }
  }

  /** What a thread does under the same answers is part of the script. */
  lemma ReachesIsPlayed(t: Tables, pc: Pc, s: Script, t': Tables, pc': Pc)
    requires Reaches(t, pc, s.now, t', pc')
    ensures Plays(t, pc, s, t', pc', s)
  {
    var n: nat :| Steps(Solo(t, pc), s.now, n) == Solo(t', pc');
    var m := StepsArePlayed(Solo(t, pc), s, n);
  }

  lemma {:induction false} RestsAtEnd(t: Tables, s: Script, n: nat)
    requires InRange(Solo(t, Idle))
    ensures Acts(Solo(t, Idle), s, n) == (Solo(t, Idle), s)
    decreases n
  {
    if n > 0 {
      assert Act(Solo(t, Idle), s) == (Solo(t, Idle), s);
      RestsAtEnd(t, s, n - 1);
    }
  }

  /** The script determines the outcome. */
  lemma EndIsUnique(t: Tables, pc: Pc, s: Script, t': Tables, t'': Tables)
    requires Ends(t, pc, s, t') && Ends(t, pc, s, t'')
    ensures t' == t''
  {
    hide Act;
    var st := Solo(t, pc);
    var n: nat :| Acts(st, s, n).0 == Solo(t', Idle);
    var m: nat :| Acts(st, s, m).0 == Solo(t'', Idle);
    ActsInRange(st, s, n);
    ActsInRange(st, s, m);
    if n <= m {
      ActsAdd(st, s, n, m - n, Solo(t', Idle), Acts(st, s, n).1);
      RestsAtEnd(t', Acts(st, s, n).1, m - n);
    } else {
      ActsAdd(st, s, m, n - m, Solo(t'', Idle), Acts(st, s, m).1);
      RestsAtEnd(t'', Acts(st, s, m).1, n - m);
    }
    assert Solo(t', Idle) == Solo(t'', Idle);
  }

  lemma {:induction false} ActsInRange(st: State, s: Script, n: nat)
    requires InRange(st) && |st.threads| == 1
    ensures InRange(Acts(st, s, n).0) && |Acts(st, s, n).0.threads| == 1
    decreases n
  {
    hide Act;
    if n > 0 {
      ActsInRange(Act(st, s).0, Act(st, s).1, n - 1);
    }
  }

  /** One message. */
  lemma AnsweredAlone(t: Tables, id: nat, gen: nat, s: Script)
    requires InTables(t) && id < |t.sessions| && Unlocked(t) && s.arrived && s.answers != []
    ensures Plays(t, Receiving(id, gen), s, Answered(t, id, gen, s.answers[0]), Receiving(id, gen),
                  s.(answers := s.answers[1..], now := s.answers[0]))
  {
    var r, s', a := Receiving(id, gen), s.(answers := s.answers[1..], now := s.answers[0]), s.answers[0];
    assert t.sessions[id := t.sessions[id]] == t.sessions;
    if t.sessions[id].active {
      PlayOnce(t, r, s, t, EchoUser(id, gen), s');
      EchoAlone(t, id, gen, a);
      ReachesIsPlayed(t, EchoUser(id, gen), s', Answered(t, id, gen, a), r);
      PlayOn(t, r, s, t, EchoUser(id, gen), s', Answered(t, id, gen, a), r, s');
    } else {
      PlayOnce(t, r, s, t, r, s');
    }
  }

  /** The script behind its last message. */
  function Spent(s: Script): Script
    decreases |s.answers|
  {
    if s.answers == [] then s else Spent(s.(answers := s.answers[1..], now := s.answers[0]))
  }

  lemma {:induction false} AllAnsweredAlone(t: Tables, id: nat, gen: nat, s: Script)
    requires InTables(t) && id < |t.sessions| && Unlocked(t) && s.arrived
    ensures Plays(t, Receiving(id, gen), s, AllAnswered(t, id, gen, s.answers), Receiving(id, gen), Spent(s))
    decreases |s.answers|
  {
    var r := Receiving(id, gen);
    if s.answers == [] {
      assert Acts(Solo(t, r), s, 0) == (Solo(t, r), s);
    } else {
      var s', a := s.(answers := s.answers[1..], now := s.answers[0]), s.answers[0];
      AnsweredInTables(t, id, gen, a);
      AnsweredAlone(t, id, gen, s);
      AllAnsweredAlone(Answered(t, id, gen, a), id, gen, s');
      PlayOn(t, r, s, Answered(t, id, gen, a), r, s', AllAnswered(t, id, gen, s.answers), r, Spent(s));
    }
  }

  lemma {:induction false} SpentOf(s: Script)
    ensures Spent(s).answers == [] && Spent(s).arrived == s.arrived && Spent(s).last == s.last
    decreases |s.answers|
  {
    if s.answers != [] {
      SpentOf(s.(answers := s.answers[1..], now := s.answers[0]));
    }
  }

  lemma PlayedToEnd(t: Tables, pc: Pc, s: Script, t': Tables, s': Script)
    requires Plays(t, pc, s, t', Idle, s')
    ensures Ends(t, pc, s, t')
  {
    var n: nat :| Acts(Solo(t, pc), s, n) == (Solo(t', Idle), s');
    assert Acts(Solo(t, pc), s, n).0 == Solo(t', Idle);
  }

  /** OnRecv: as many messages as the script has answers, then the end. */
  lemma ReceiveDoneAlone(t: Tables, id: nat, gen: nat, s: Script)
    requires InTables(t) && id < |t.sessions| && Unlocked(t) && s.arrived
    ensures Ends(t, Receiving(id, gen), s, ReceiveDone(t, id, gen, s.answers, s.last.posted))
  {
    var r, e, d := Receiving(id, gen), AllAnswered(t, id, gen, s.answers), Decrement(id, Post(false, id, Idle, Idle));
    var spent, done := Spent(s), ReceiveDone(t, id, gen, s.answers, s.last.posted);
    SpentOf(s);
    AllAnsweredAlone(t, id, gen, s);
    assert e.sessions[id := e.sessions[id]] == e.sessions;
    RepostInRange(e, id);
    PlayOnce(e, r, spent, e, d, spent.(now := s.last));
    RepostedAlone(e, id, s.last);
    ReachesIsPlayed(e, d, spent.(now := s.last), done, Idle);
    PlayOn(t, r, s, e, r, spent, e, d, spent.(now := s.last));
    PlayOn(t, r, s, e, d, spent.(now := s.last), done, Idle, spent.(now := s.last));
    PlayedToEnd(t, r, s, done, spent.(now := s.last));
  }

  // ---------------------------------------------------------------- a worker's packets

  /** A packet in the completion queue: the stop packet of zeros, or the completion of a request of session `id`, with
      no bytes (`zero`) or some. `arrived` says that the receive queue takes the bytes in, `answers` has an element for
      each message then found in it, and `last` is for the foreign calls made after that. */
  datatype Packet =
    | Stop
    | Completion(id: nat, send: bool, zero: bool, arrived: bool, answers: seq<Answers>, last: Answers)

  /** A completion is one of a request that is outstanding. */
  predicate Due(t: Tables, p: Packet) {
    p.Completion? && p.id < |t.sessions| && 0 < if p.send then t.sessions[p.id].sends else t.sessions[p.id].recvs
  }

  function Dequeued(t: Tables, p: Packet): Tables
    requires Due(t, p)
  {
    var x := t.sessions[p.id];
    SetSlot(t, p.id, if p.send then x.(sends := x.sends - 1) else x.(recvs := x.recvs - 1))
  }

  lemma GivenUpInTables(t: Tables, id: nat)
    requires InTables(t) && id < |t.sessions|
    ensures Like(t, GivenUp(t, id)) && Like(t, Decremented(t, id))
  {
  }

  lemma SendDoneInTables(t: Tables, id: nat, a: Answers)
    requires InTables(t) && id < |t.sessions|
    ensures Like(t, SendDone(t, id, a))
  {
    GivenUpInTables(t, id);
    var d := Decremented(t, id);
    PostedInTables(SetSlot(d, id, d.sessions[id].(isSending := false)), true, id, a.posted);
  }

  lemma CompletedInTables(t: Tables, id: nat, gen: nat, answers: seq<Answers>, a: Answers)
    requires InTables(t) && id < |t.sessions|
    ensures Like(t, GivenUp(t, id)) && Like(t, SendDone(t, id, a))
    ensures Like(t, ReceiveDone(t, id, gen, answers, a.posted))
  {
    GivenUpInTables(t, id);
    SendDoneInTables(t, id, a);
    var e := AllAnswered(t, id, gen, answers);
    GivenUpInTables(e, id);
    PostedInTables(Decremented(e, id), false, id, a.posted);
  }

  /** What the worker does with it. */
  function Completed(t: Tables, p: Packet): (r: Tables)
    requires InTables(t) && Due(t, p)
    ensures Like(t, r)
  {
    var d := Dequeued(t, p);
    CompletedInTables(d, p.id, t.sessions[p.id].gen, p.answers, p.last);
    if p.zero then GivenUp(d, p.id)
    else if p.send then SendDone(d, p.id, p.last)
    else if p.arrived then ReceiveDone(d, p.id, t.sessions[p.id].gen, p.answers, p.last.posted)
    else GivenUp(d, p.id)
  }

  /** A worker beside an accept thread that does nothing. */
  function Beside(t: Tables, pc: Pc): State { State(t.sessions, t.stack, t.users, t.userIdCount, [Idle, pc], t.log) }

  function ScriptOf(p: Packet): Script
    requires p.Completion?
  {
    Script(p.arrived, p.answers, p.last, p.last)
  }

  /** The machine's worker dequeues the completion, and from where that takes it comes, by itself, to the end with the
      tables that Completed gives. */
  lemma CompletedAlone(t: Tables, p: Packet)
    requires InTables(t) && Unlocked(t) && Due(t, p)
    ensures var plan := Plan(Beside(t, Idle), 1, Dequeue(p.id, p.send, p.zero));
            && plan.Some?
            && ApplyPlan(Beside(t, Idle), 1, Dequeue(p.id, p.send, p.zero)) == Beside(Dequeued(t, p), plan.value.pc)
            && Ends(Dequeued(t, p), plan.value.pc, ScriptOf(p), Completed(t, p))
  {
    var c, d, s := Dequeue(p.id, p.send, p.zero), Dequeued(t, p), ScriptOf(p);
    var pc := Plan(Beside(t, Idle), 1, c).value.pc;
    assert ApplyPlan(Beside(t, Idle), 1, c) == Beside(d, pc);
    assert InTables(d) && Unlocked(d);
    if p.zero {
      GivenUpEnds(d, p.id, s);
    } else if p.send {
      SendDoneAlone(d, p.id, p.last);
      ReachesIsPlayed(d, pc, s, SendDone(d, p.id, p.last), Idle);
      PlayedToEnd(d, pc, s, SendDone(d, p.id, p.last), s);
    } else if p.arrived {
      ReceiveDoneAlone(d, p.id, t.sessions[p.id].gen, s);
    } else {
      NothingArrivedAlone(d, p.id, t.sessions[p.id].gen, s);
    }
  }

  lemma GivenUpEnds(t: Tables, id: nat, s: Script)
    requires InTables(t) && id < |t.sessions| && Unlocked(t)
    ensures Ends(t, DecRelease(id, Idle), s, GivenUp(t, id))
  {
    GivenUpAlone(t, id, Idle, s.now);
    ReachesIsPlayed(t, DecRelease(id, Idle), s, GivenUp(t, id), Idle);
    PlayedToEnd(t, DecRelease(id, Idle), s, GivenUp(t, id), s);
  }

  lemma NothingArrivedAlone(t: Tables, id: nat, gen: nat, s: Script)
    requires InTables(t) && id < |t.sessions| && Unlocked(t) && !s.arrived
    ensures Ends(t, Receiving(id, gen), s, GivenUp(t, id))
  {
    assert t.sessions[id := t.sessions[id]] == t.sessions;
    PlayOnce(t, Receiving(id, gen), s, t, DecRelease(id, Idle), s);
    GivenUpAlone(t, id, Idle, s.now);
    ReachesIsPlayed(t, DecRelease(id, Idle), s, GivenUp(t, id), Idle);
    PlayOn(t, Receiving(id, gen), s, t, DecRelease(id, Idle), s, GivenUp(t, id), Idle, s);
    PlayedToEnd(t, Receiving(id, gen), s, GivenUp(t, id), s);
  }

  /** A completion without bytes ends the connection: at the last reference the session is released at once, its user
      erased and its id the next to be given out; otherwise the disconnect is requested. */
  lemma ZeroEndsConnection(t: Tables, p: Packet)
    requires InTables(t) && Due(t, p) && p.zero
    ensures var x, r := t.sessions[p.id], Completed(t, p);
            if x.refCount <= 1 then
              !r.sessions[p.id].active && x.userId !in r.users && r.stack == t.stack + [p.id]
            else
              r.sessions[p.id].disconnectRequested && r.sessions[p.id].active == x.active
              && r.sessions[p.id].refCount == x.refCount - 1 && r.users == t.users && r.stack == t.stack
  {
  }

  /** Each packet before the first stop packet is due when its turn comes. */
  predicate AllDue(t: Tables, packets: seq<Packet>)
    requires InTables(t)
    decreases |packets|
  {
    packets == [] || packets[0].Stop? || (Due(t, packets[0]) && AllDue(Completed(t, packets[0]), packets[1..]))
  }

  /** All packets before the first stop packet taken one after the other, and the packets behind it. */
  function AllCompleted(t: Tables, packets: seq<Packet>): (Tables, seq<Packet>)
    requires InTables(t) && AllDue(t, packets)
    decreases |packets|
  {
    if packets == [] then (t, [])
    else if packets[0].Stop? then (t, packets[1..])
    else AllCompleted(Completed(t, packets[0]), packets[1..])
  }

  // ---------------------------------------------------------------- accepting a connection

  function Created(t: Tables): Tables
    requires InTables(t) && t.stack != []
  {
    var id := t.stack[|t.stack| - 1];
    SetSlot(t, id, InitSlot(t.sessions[id])).(stack := t.stack[..|t.stack| - 1])
  }

  /** OnConnect and SetUserId. */
  function Connected(t: Tables, id: nat): Tables
    requires id < |t.sessions|
  {
    SetSlot(t, id, t.sessions[id].(userId := t.userIdCount)).(
      users := Emplaced(t.users, t.userIdCount, id), userIdCount := t.userIdCount + 1)
  }

  /** OnAccept. */
  function Accepted(t: Tables, a: Answers): Tables
    requires InTables(t)
  {
    if t.stack == [] then t
    else
      var id, c := t.stack[|t.stack| - 1], Created(t);
      if !a.associated then Released(SetSlot(c, id, c.sessions[id].(locked := true)), id)
      else
        var r := Posted(c, false, id, a.posted);
        if a.posted then Connected(r, id) else r
  }

  /** From the pop of the id to the end of OnAccept. */
  lemma AcceptedAlone(t: Tables, a: Answers)
    requires InTables(t) && t.stack != [] && !t.sessions[t.stack[|t.stack| - 1]].locked
    ensures var id := t.stack[|t.stack| - 1];
            Reaches(t.(stack := t.stack[..|t.stack| - 1]), Claimed(id), a, Accepted(t, a), Idle)
  {
    var id, c, t0 := t.stack[|t.stack| - 1], Created(t), t.(stack := t.stack[..|t.stack| - 1]);
    Once(t0, Claimed(id), a, c, Inited(id));
    if !a.associated {
      var l := SetSlot(c, id, c.sessions[id].(locked := true));
      Once(c, Inited(id), a, l, RelRead(id, Idle));
      ReleasedAlone(l, id, Idle, a);
      Chain(c, Inited(id), a, l, RelRead(id, Idle), Accepted(t, a), Idle);
    } else {
      AssociatedAlone(c, id, a);
    }
    Chain(t0, Claimed(id), a, c, Inited(id), Accepted(t, a), Idle);
  }

  lemma AssociatedAlone(c: Tables, id: nat, a: Answers)
    requires InTables(c) && id < |c.sessions| && !c.sessions[id].locked && c.sessions[id].active && a.associated
    ensures var r := Posted(c, false, id, a.posted);
            Reaches(c, Inited(id), a, if a.posted then Connected(r, id) else r, Idle)
  {
    var p, r := Post(false, id, Connecting(id), Idle), Posted(c, false, id, a.posted);
    assert c.sessions[id := c.sessions[id]] == c.sessions;
    Once(c, Inited(id), a, c, p);
    PostedAlone(c, false, id, Connecting(id), Idle, a);
    if a.posted {
      var n := r.(users := Emplaced(r.users, r.userIdCount, id), userIdCount := r.userIdCount + 1);
      assert r.sessions[id := r.sessions[id]] == r.sessions;
      Once(r, Connecting(id), a, n, Naming(id, r.userIdCount));
      Once(n, Naming(id, r.userIdCount), a, Connected(r, id), Idle);
      Chain(r, Connecting(id), a, n, Naming(id, r.userIdCount), Connected(r, id), Idle);
      Chain(c, p, a, r, Connecting(id), Connected(r, id), Idle);
      Chain(c, Inited(id), a, c, p, Connected(r, id), Idle);
    } else {
      Chain(c, Inited(id), a, c, p, r, Idle);
    }
  }
}
