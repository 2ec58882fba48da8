/** The life of sessions and users as a step machine. One accept thread (thread 0) and any number of workers run
    interleaved; a block under one mutex is one step, and so is each unlocked read or write of shared state.
    A session is identified with its slot in the session table; the state of a thread says what it does next. */
module SessionMachine {

  import opened Wrappers

  /** A session object. `recvs` and `sends` are the requests posted on it whose completion has not been dequeued;
      `locked` says that a release holds its mutex across several steps. */
  datatype Slot = Slot(
    active: bool, userId: nat, refCount: int, disconnectRequested: bool, isSending: bool,
    gen: nat, genCount: nat, locked: bool, recvs: nat, sends: nat)

  const FRESH_SLOT := Slot(false, 0, 0, false, false, 0, 0, false, 0, 0)

  /** Session::Init; the reference count and the sending flag are left as they are. */
  function InitSlot(x: Slot): Slot {
    x.(active := true, userId := 0, disconnectRequested := false, gen := x.genCount, genCount := x.genCount + 1)
  }

  /** What a thread does next. */
  datatype Pc =
    | Idle
      // OnAccept, between its steps
    | Claimed(slot: nat)                              // GetIdLock has given an id; Session::Init follows
    | Inited(slot: nat)                               // association with the completion port follows
    | Connecting(slot: nat)                           // OnConnect's CreateUser follows
    | Naming(slot: nat, userId: nat)                  // the unlocked SetUserId follows
      // PostRecv and PostSend: the locked part, then the system call with a reference held
    | Post(send: bool, slot: nat, ok: Pc, fail: Pc)
    | Posting(send: bool, slot: nat, ok: Pc, fail: Pc)
      // giving up a reference
    | DecRelease(slot: nat, next: Pc)                 // DecrementRefCountAndRelease follows
    | Decrement(slot: nat, next: Pc)                  // DecrementRefCount follows
      // DisconnectSession; the first three with the session's mutex held
    | RelRead(slot: nat, next: Pc)
    | RelDelete(slot: nat, userId: nat, next: Pc)
    | RelClear(slot: nat, next: Pc)
    | RelFree(slot: nat, next: Pc)
      // OnRecv's message loop and, for each message, OnEcho; `gen` is the incarnation the message came in on
    | Receiving(slot: nat, gen: nat)
    | EchoUser(slot: nat, gen: nat)                   // the unlocked UserId() follows
    | EchoLookup(slot: nat, gen: nat, userId: nat)    // ChatUnicast's lookup follows
    | EchoTarget(slot: nat, gen: nat, target: nat)    // GetSessionPointer of the user's session follows
    | EchoSend(slot: nat, gen: nat, target: nat)      // SendPacket's locked part follows
      // OnSend after its decrement
    | Sent(slot: nat)

  /** A sent echo: the session and incarnation it was received on and those it was put in the send queue of. */
  datatype Echo = Echo(slot: nat, gen: nat, target: nat, targetGen: nat)

  datatype State = State(
    sessions: seq<Slot>, stack: seq<nat>, users: map<nat, nat>, userIdCount: nat, threads: seq<Pc>, log: seq<Echo>)

  /** What the environment decides: which event a thread takes up, and how a foreign call turns out. */
  datatype Choice = Accept | Dequeue(slot: nat, send: bool, zero: bool) | Message | EndOfData | Go(good: bool)

  // ---------------------------------------------------------------- ids in range

  predicate PcInRange(pc: Pc, n: nat) {
    match pc
    case Idle => true
    case Claimed(s) => s < n
    case Inited(s) => s < n
    case Connecting(s) => s < n
    case Naming(s, _) => s < n
    case Post(_, s, ok, fail) => s < n && PcInRange(ok, n) && PcInRange(fail, n)
    case Posting(_, s, ok, fail) => s < n && PcInRange(ok, n) && PcInRange(fail, n)
    case DecRelease(s, next) => s < n && PcInRange(next, n)
    case Decrement(s, next) => s < n && PcInRange(next, n)
    case RelRead(s, next) => s < n && PcInRange(next, n)
    case RelDelete(s, _, next) => s < n && PcInRange(next, n)
    case RelClear(s, next) => s < n && PcInRange(next, n)
    case RelFree(s, next) => s < n && PcInRange(next, n)
    case Receiving(s, _) => s < n
    case EchoUser(s, _) => s < n
    case EchoLookup(s, _, _) => s < n
    case EchoTarget(s, _, t) => s < n && t < n
    case EchoSend(s, _, t) => s < n && t < n
    case Sent(s) => s < n
  }

  /** Every id that is used, or will be used, to index the session table is in range. */
  predicate InRange(st: State) {
    && (forall i :: 0 <= i < |st.threads| ==> PcInRange(st.threads[i], |st.sessions|))
    && (forall i :: 0 <= i < |st.stack| ==> st.stack[i] < |st.sessions|)
    && (forall u :: u in st.users ==> st.users[u] < |st.sessions|)
  }

  // ---------------------------------------------------------------- the steps

  datatype UserChange = SameUsers | AddUser(slot: nat) | EraseUser(userId: nat)

  /** What one step changes: the thread goes on to `pc`, slot `slot` becomes `x`, an id is taken from or put on the
      free stack, the user directory changes, an echo is sent. */
  datatype Effect = Effect(pc: Pc, slot: nat, x: Slot, pop: bool, push: bool, change: UserChange, echo: Option<Echo>)

  function AllIds(n: nat): seq<nat> { seq(n, i => i) }

  function Init(maxSession: nat, workers: nat): State {
    State(seq(maxSession, _ => FRESH_SLOT), AllIds(maxSession), map[], 1, seq(workers + 1, _ => Idle), [])
  }

  function Turn(pc: Pc, s: nat, x: Slot): Effect {
    Effect(pc, s, x, false, false, SameUsers, None)
  }

  /** The step of thread i; None if it cannot be taken, for instance because a mutex is held. */
  function Plan(st: State, i: nat, c: Choice): Option<Effect>
    requires InRange(st) && i < |st.threads|
  {
    match st.threads[i]
    case Idle =>
      (match c
       case Accept =>
         if i != 0 || st.stack == [] then None
         else
           var s := st.stack[|st.stack| - 1];
           Some(Turn(Claimed(s), s, st.sessions[s]).(pop := true))
       case Dequeue(s, send, zero) =>
         if i == 0 || |st.sessions| <= s then None
         else
           var x := st.sessions[s];
           var next := if zero then DecRelease(s, Idle)
                       else if send then Decrement(s, Sent(s)) else Receiving(s, x.gen);
           if send && 0 < x.sends then Some(Turn(next, s, x.(sends := x.sends - 1)))
           else if !send && 0 < x.recvs then Some(Turn(next, s, x.(recvs := x.recvs - 1)))
           else None
       case _ => None)
    case Claimed(s) =>
      var x := st.sessions[s];
      if x.locked then None else Some(Turn(Inited(s), s, InitSlot(x)))
    case Inited(s) =>
      var x := st.sessions[s];
      if c == Go(true) then Some(Turn(Post(false, s, Connecting(s), Idle), s, x))
      else if c == Go(false) && !x.locked then Some(Turn(RelRead(s, Idle), s, x.(locked := true)))
      else None
    case Connecting(s) => Some(Turn(Naming(s, st.userIdCount), s, st.sessions[s]).(change := AddUser(s)))
    case Naming(s, u) => Some(Turn(Idle, s, st.sessions[s].(userId := u)))
    case Post(send, s, ok, fail) =>
      var x := st.sessions[s];
      if x.locked then None
      else if !x.active || (send && x.isSending) then Some(Turn(fail, s, x))
      else Some(Turn(Posting(send, s, ok, fail), s, x.(refCount := x.refCount + 1, isSending := x.isSending || send)))
    case Posting(send, s, ok, fail) =>
      var x := st.sessions[s];
      if c == Go(true) then Some(Turn(ok, s, if send then x.(sends := x.sends + 1) else x.(recvs := x.recvs + 1)))
      else if c == Go(false) then Some(Turn(DecRelease(s, fail), s, x))
      else None
    case DecRelease(s, next) =>
      var x := st.sessions[s].(refCount := st.sessions[s].refCount - 1);
      if x.locked then None
      else if x.refCount < 1 then Some(Turn(RelRead(s, next), s, x.(locked := true)))
      else Some(Turn(next, s, x.(disconnectRequested := true)))
    case Decrement(s, next) =>
      var x := st.sessions[s].(refCount := st.sessions[s].refCount - 1);
      if x.locked then None
      else if x.disconnectRequested && x.refCount < 1 then Some(Turn(RelRead(s, Idle), s, x.(locked := true)))
      else Some(Turn(next, s, x))
    case RelRead(s, next) => Some(Turn(RelDelete(s, st.sessions[s].userId, next), s, st.sessions[s]))
    case RelDelete(s, u, next) => Some(Turn(RelClear(s, next), s, st.sessions[s]).(change := EraseUser(u)))
    case RelClear(s, next) => Some(Turn(RelFree(s, next), s, st.sessions[s].(active := false, locked := false)))
    case RelFree(s, next) => Some(Turn(next, s, st.sessions[s]).(push := true))
    case Receiving(s, g) =>
      var x := st.sessions[s];
      if c == Message then Some(Turn(if x.active then EchoUser(s, g) else Receiving(s, g), s, x))
      else if c == EndOfData then Some(Turn(Decrement(s, Post(false, s, Idle, Idle)), s, x))
      else if c == Go(false) then Some(Turn(DecRelease(s, Idle), s, x))
      else None
    case EchoUser(s, g) => Some(Turn(EchoLookup(s, g, st.sessions[s].userId), s, st.sessions[s]))
    case EchoLookup(s, g, u) =>
      Some(Turn(if u in st.users then EchoTarget(s, g, st.users[u]) else Receiving(s, g), s, st.sessions[s]))
    case EchoTarget(s, g, t) =>
      Some(Turn(if st.sessions[t].active then EchoSend(s, g, t) else Receiving(s, g), s, st.sessions[s]))
    case EchoSend(s, g, t) =>
      var x := st.sessions[t];
      if x.locked then None
      else if !x.active then Some(Turn(Receiving(s, g), t, x))
      else if c == Go(false) then Some(Turn(Receiving(s, g), t, x.(disconnectRequested := true)))
      else Some(Turn(Post(true, t, Receiving(s, g), Receiving(s, g)), t, x).(echo := Some(Echo(s, g, t, x.gen))))
    case Sent(s) =>
      var x := st.sessions[s];
      if x.locked then None
      else if !x.active then Some(Turn(Idle, s, x))
      else Some(Turn(if c == Go(true) then Post(true, s, Idle, Idle) else Idle, s, x.(isSending := false)))
  }

  predicate EffectInRange(st: State, e: Effect) {
    && e.slot < |st.sessions| && PcInRange(e.pc, |st.sessions|)
    && (e.pop ==> st.stack != [] && !e.push)
    && (e.change.AddUser? ==> e.change.slot < |st.sessions|)
  }

  /** emplace: an id already in the directory keeps its record. */
  function Emplaced(users: map<nat, nat>, userId: nat, slot: nat): map<nat, nat> {
    if userId in users then users else users[userId := slot]
  }

  function UsersAfter(st: State, change: UserChange): map<nat, nat> {
    match change
    case SameUsers => st.users
    case AddUser(s) => Emplaced(st.users, st.userIdCount, s)
    case EraseUser(u) => st.users - {u}
  }

  function StackAfter(stack: seq<nat>, e: Effect): seq<nat> {
    if e.pop && stack != [] then stack[..|stack| - 1] else if e.push then stack + [e.slot] else stack
  }

  function Apply(st: State, i: nat, e: Effect): State
    requires i < |st.threads| && e.slot < |st.sessions|
  {
    State(
      st.sessions[e.slot := e.x],
      StackAfter(st.stack, e),
      UsersAfter(st, e.change),
      if e.change.AddUser? then st.userIdCount + 1 else st.userIdCount,
      st.threads[i := e.pc],
      if e.echo.Some? then st.log + [e.echo.value] else st.log)
  }

  /** One step of thread i. An accepted connection that finds no free id is turned away without any change. */
  predicate Next(st: State, i: nat, c: Choice, st': State) {
    && InRange(st) && i < |st.threads|
    && ((Plan(st, i, c).Some? && st' == ApplyPlan(st, i, c))
        || (i == 0 && st.threads[0].Idle? && c == Accept && st.stack == [] && st' == st))
  }

  function ApplyPlan(st: State, i: nat, c: Choice): State
    requires InRange(st) && i < |st.threads| && Plan(st, i, c).Some?
  {
    PlanInRange(st, i, c);
    Apply(st, i, Plan(st, i, c).value)
  }

  // The proofs about steps go by what the thread is engaged in.

  predicate InEcho(pc: Pc) {
    pc.Receiving? || pc.EchoUser? || pc.EchoLookup? || pc.EchoTarget? || pc.EchoSend? || pc.Sent? || pc.Idle?
  }

  predicate InRelease(pc: Pc) {
    pc.DecRelease? || pc.Decrement? || pc.RelRead? || pc.RelDelete? || pc.RelClear? || pc.RelFree?
  }

  lemma EchoPlanInRange(st: State, i: nat, c: Choice)
    requires InRange(st) && i < |st.threads| && Plan(st, i, c).Some? && InEcho(st.threads[i])
    ensures EffectInRange(st, Plan(st, i, c).value)
  {
    assert PcInRange(st.threads[i], |st.sessions|);
  }

  lemma OtherPlanInRange(st: State, i: nat, c: Choice)
    requires InRange(st) && i < |st.threads| && Plan(st, i, c).Some? && !InEcho(st.threads[i])
    ensures EffectInRange(st, Plan(st, i, c).value)
  {
    assert PcInRange(st.threads[i], |st.sessions|);
  }

  lemma PlanInRange(st: State, i: nat, c: Choice)
    requires InRange(st) && i < |st.threads| && Plan(st, i, c).Some?
    ensures EffectInRange(st, Plan(st, i, c).value)
  {
    if InEcho(st.threads[i]) {
      EchoPlanInRange(st, i, c);
    } else {
      OtherPlanInRange(st, i, c);
    }
  }

  lemma ApplyInRange(st: State, i: nat, e: Effect)
    requires InRange(st) && i < |st.threads| && EffectInRange(st, e)
    ensures InRange(Apply(st, i, e))
  {
  }

  /** No step puts an id out of range anywhere. */
  lemma StepStaysInRange(st: State, i: nat, c: Choice, st': State)
    requires Next(st, i, c, st')
    ensures InRange(st') && |st'.sessions| == |st.sessions| && |st'.threads| == |st.threads|
  {
    if Plan(st, i, c).Some? {
      PlanInRange(st, i, c);
      ApplyInRange(st, i, Plan(st, i, c).value);
    }
  }
}
