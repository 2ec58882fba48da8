/** How the server stops: stop packets posted behind whatever is in the completion queue, workers that exit on one,
    and the loop that joins them. The machine covers every interleaving; LanServer below has the loops themselves. */
module Shutdown {

  /** What a worker dequeues: a completion packet of zeros, or the completion of a request on some session. */
  datatype Packet = Stop | Io

  datatype Worker = Waiting | Handling | Exited

  /** The thread that calls Stop. */
  datatype Stopper = Serving | Posting(i: nat) | JoinAccept | Join(i: nat) | Done

  /** `sent` counts the stop packets that really were queued; `took` lists the workers that dequeued one. */
  datatype State = State(
    queue: seq<Packet>, workers: seq<Worker>, listening: bool, accepting: bool, stopper: Stopper,
    sent: nat, took: seq<nat>)

  /** The kernel completes a request; a worker dequeues or is done with a packet; the accept thread finds the
      listening socket closed; the stopping thread takes a step. The result of a post is not looked at. */
  datatype Event = Arrive | Dequeue(w: nat) | Finish(w: nat) | AcceptEnds | StopStep(posted: bool)

  function Started(n: nat): State { State([], seq(n, _ => Waiting), true, true, Serving, 0, []) }

  predicate Enabled(st: State, e: Event) {
    match e
    case Arrive => true
    case Dequeue(w) => w < |st.workers| && st.workers[w].Waiting? && st.queue != []
    case Finish(w) => w < |st.workers| && st.workers[w].Handling?
    case AcceptEnds => st.accepting && !st.listening
    case StopStep(_) =>
      match st.stopper
      case Serving => true
      case Posting(i) => true
      case JoinAccept => !st.accepting
      case Join(i) => i < |st.workers| ==> st.workers[i].Exited?
      case Done => false
  }

  function Stepped(st: State, posted: bool): State {
    match st.stopper
    case Serving => st.(listening := false, stopper := Posting(0))
    case Posting(i) =>
      if i < |st.workers| then
        var next := st.(stopper := Posting(i + 1));
        if posted then next.(queue := st.queue + [Stop], sent := st.sent + 1) else next
      else st.(stopper := JoinAccept)
    case JoinAccept => st.(stopper := Join(0))
    case Join(i) => st.(stopper := if i < |st.workers| then Join(i + 1) else Done)
    case Done => st
  }

  function Do(st: State, e: Event): State
    requires Enabled(st, e)
  {
    match e
    case Arrive => st.(queue := st.queue + [Io])
    case Dequeue(w) =>
      var rest := st.(queue := st.queue[1..]);
      if st.queue[0].Stop? then rest.(workers := st.workers[w := Exited], took := st.took + [w])
      else rest.(workers := st.workers[w := Handling])
    case Finish(w) => st.(workers := st.workers[w := Waiting])
    case AcceptEnds => st.(accepting := false)
    case StopStep(posted) => Stepped(st, posted)
  }

  /** st' is reached from st by the events es. */
  predicate Runs(st: State, es: seq<Event>, st': State)
    decreases |es|
  {
    if es == [] then st == st' else Enabled(st, es[0]) && Runs(Do(st, es[0]), es[1..], st')
  }

  // ---------------------------------------------------------------- the accounts

  function Stops(q: seq<Packet>): nat { multiset(q)[Stop] }

  /** Workers that have not exited. */
  function Live(workers: seq<Worker>): nat {
    if workers == [] then 0 else (if workers[0].Exited? then 0 else 1) + Live(workers[1..])
  }

  predicate PostsOver(s: Stopper) { s.JoinAccept? || s.Join? || s.Done? }

  function PostsMade(st: State): nat {
    match st.stopper case Serving => 0 case Posting(i) => i case _ => |st.workers|
  }

  predicate Accounts(st: State) {
    && PostsMade(st) <= |st.workers| && st.sent <= PostsMade(st)
    && Stops(st.queue) + |st.took| == st.sent
    && Live(st.workers) + |st.took| == |st.workers|
    && (forall k :: 0 <= k < |st.took| ==> st.took[k] < |st.workers| && st.workers[st.took[k]].Exited?)
    && (forall j, k :: 0 <= j < k < |st.took| ==> st.took[j] != st.took[k])
    && (st.stopper.Serving? <==> st.listening) && (st.listening ==> st.accepting)
    && (st.stopper.Join? || st.stopper.Done? ==> !st.accepting)
    && (st.stopper.Join? ==> st.stopper.i <= |st.workers|
                             && forall j :: 0 <= j < st.stopper.i ==> st.workers[j].Exited?)
    && (st.stopper.Done? ==> forall j :: 0 <= j < |st.workers| ==> st.workers[j].Exited?)
  }

  lemma {:induction false} LiveUpdated(ws: seq<Worker>, w: nat, x: Worker)
    requires w < |ws|
    ensures Live(ws[w := x]) == Live(ws) - (if ws[w].Exited? then 0 else 1) + (if x.Exited? then 0 else 1)
  {
    if w == 0 {
      assert ws[0 := x][1..] == ws[1..];
    } else {
      assert ws[w := x][1..] == ws[1..][w - 1 := x];
      LiveUpdated(ws[1..], w - 1, x);
    }
  }

  lemma {:induction false} NoneLive(ws: seq<Worker>)
    ensures Live(ws) == 0 <==> forall j :: 0 <= j < |ws| ==> ws[j].Exited?
    ensures Live(ws) <= |ws|
  {
    if ws != [] {
      var rest := ws[1..];
      NoneLive(rest);
      assert forall j :: 0 <= j < |rest| ==> rest[j] == ws[j + 1];
      assert forall j :: 0 < j < |ws| ==> ws[j] == rest[j - 1];
    }
  }

  lemma {:induction false} AllLive(n: nat)
    ensures Live(seq(n, _ => Waiting)) == n
  {
    if n > 0 {
      assert seq(n, _ => Waiting)[1..] == seq(n - 1, _ => Waiting);
      AllLive(n - 1);
    }
  }

  lemma DequeueKeepsAccounts(st: State, w: nat)
    requires Accounts(st) && Enabled(st, Dequeue(w))
    ensures Accounts(Do(st, Dequeue(w)))
  {
    assert st.queue == [st.queue[0]] + st.queue[1..];
    LiveUpdated(st.workers, w, if st.queue[0].Stop? then Exited else Handling);
  }

  lemma StopStepKeepsAccounts(st: State, posted: bool)
    requires Accounts(st) && Enabled(st, StopStep(posted))
    ensures Accounts(Do(st, StopStep(posted)))
  {
  }

  lemma StepKeepsAccounts(st: State, e: Event)
    requires Accounts(st) && Enabled(st, e)
    ensures Accounts(Do(st, e)) && |Do(st, e).workers| == |st.workers|
  {
    match e
    case Arrive =>
    case Dequeue(w) => DequeueKeepsAccounts(st, w);
    case Finish(w) => LiveUpdated(st.workers, w, Waiting);
    case AcceptEnds =>
    case StopStep(posted) => StopStepKeepsAccounts(st, posted);
  }

  lemma {:induction false} RunsKeepAccounts(st: State, es: seq<Event>, st': State)
    requires Accounts(st) && Runs(st, es, st')
    ensures Accounts(st') && |st'.workers| == |st.workers|
    decreases |es|
  {
    if es != [] {
      StepKeepsAccounts(st, es[0]);
      RunsKeepAccounts(Do(st, es[0]), es[1..], st');
    }
  }

  /** In every run: no worker exits before Stop is called, every worker takes at most one stop packet, the workers
      that are left are those no stop packet has been dequeued for, and once all are posted there are as many
      workers left as stop packets in the queue and lost. Stop returns only when every thread has ended. */
  lemma WorkersAndStopPackets(n: nat, es: seq<Event>, st: State)
    requires Runs(Started(n), es, st)
    ensures st.stopper.Serving? ==> forall j :: 0 <= j < n ==> j < |st.workers| && !st.workers[j].Exited?
    ensures forall j, k :: 0 <= j < k < |st.took| ==> st.took[j] != st.took[k]
    ensures Live(st.workers) == n - |st.took| && |st.took| + Stops(st.queue) == st.sent <= n
    ensures PostsOver(st.stopper) ==> Live(st.workers) == Stops(st.queue) + (n - st.sent)
    ensures st.stopper.Done? ==> Live(st.workers) == 0 && !st.accepting
  {
    AllLive(n);
    RunsKeepAccounts(Started(n), es, st);
    NoneLive(st.workers);
    if st.stopper.Serving? {
      EveryoneLives(st.workers);
    }
  }

  lemma {:induction false} EveryoneLives(ws: seq<Worker>)
    requires Live(ws) == |ws|
    ensures forall j :: 0 <= j < |ws| ==> !ws[j].Exited?
  {
    if ws != [] {
      NoneLive(ws[1..]);
      EveryoneLives(ws[1..]);
      forall j | 0 <= j < |ws| ensures !ws[j].Exited? {
        if j > 0 { assert ws[j] == ws[1..][j - 1]; }
      }
    }
  }

  // ---------------------------------------------------------------- the join loop ends

  /** How many packets have to be dequeued until no stop packet is left: the place of the last one, from 1. */
  function LastStop(q: seq<Packet>): (n: nat)
    ensures n <= |q| && (n == 0 <==> Stop !in q)
  {
    if q == [] then 0
    else if q[|q| - 1].Stop? then |q|
    else LastStop(q[..|q| - 1])
  }

  lemma {:induction false} LastStopOfRest(q: seq<Packet>)
    requires Stop in q
    ensures LastStop(q[1..]) == LastStop(q) - 1
  {
    if q[|q| - 1].Stop? {
      assert |q| > 1 ==> q[1..][|q| - 2] == q[|q| - 1];
    } else {
      var p := q[..|q| - 1];
      assert q == p + [q[|q| - 1]];
      LastStopOfRest(p);
      assert q[1..][..|q| - 2] == p[1..];
    }
  }

  function HandlingOf(workers: seq<Worker>): nat { multiset(workers)[Handling] }

  /** The work left once all stop packets are posted. */
  function Work(st: State): nat {
    2 * LastStop(st.queue) + HandlingOf(st.workers) + (if st.accepting then 1 else 0) +
    match st.stopper
    case Serving => 0
    case Posting(_) => 0
    case JoinAccept => |st.workers| + 2
    case Join(i) => if i <= |st.workers| then |st.workers| + 1 - i else 0
    case Done => 0
  }

  predicate AllPosted(st: State) { Accounts(st) && PostsOver(st.stopper) && st.sent == |st.workers| }

  lemma WorkOfDequeue(st: State, w: nat)
    requires AllPosted(st) && Enabled(st, Dequeue(w))
    ensures Work(Do(st, Dequeue(w))) < Work(st)
  {
    if Stop !in st.queue {
      NoneLive(st.workers);
      assert false;
    }
    LastStopOfRest(st.queue);
  }

  lemma StepTakesWork(st: State, e: Event)
    requires AllPosted(st) && Enabled(st, e)
    ensures AllPosted(Do(st, e))
    ensures if e.Arrive? then Work(Do(st, e)) == Work(st) else Work(Do(st, e)) < Work(st)
  {
    StepKeepsAccounts(st, e);
    hide Accounts;
    match e
    case Arrive => assert (st.queue + [Io])[..|st.queue|] == st.queue;
    case Dequeue(w) => WorkOfDequeue(st, w);
    case Finish(w) =>
    case AcceptEnds =>
    case StopStep(_) =>
  }

  /** Until Stop has returned, some thread can take a step. */
  lemma SomeoneCanStep(st: State) returns (e: Event)
    requires AllPosted(st) && !st.stopper.Done?
    ensures !e.Arrive? && Enabled(st, e)
  {
    if w: nat :| w < |st.workers| && st.workers[w].Handling? {
      e := Finish(w);
    } else if st.accepting {
      e := AcceptEnds;
    } else if st.stopper.Join? && st.stopper.i < |st.workers| && !st.workers[st.stopper.i].Exited? {
      NoneLive(st.workers);
      e := Dequeue(st.stopper.i);
    } else {
      e := StopStep(true);
    }
  }

  function Moves(es: seq<Event>): nat {
    if es == [] then 0 else (if es[0].Arrive? then 0 else 1) + Moves(es[1..])
  }

  /** Once all stop packets are queued, Stop cannot fail to end, whatever completions still arrive: the threads have
      a bounded number of steps left, known from the state, and as long as one of them is left it can be taken. */
  lemma {:induction false} StopEnds(st: State, es: seq<Event>, st': State)
    requires AllPosted(st) && Runs(st, es, st')
    ensures AllPosted(st') && Moves(es) + Work(st') <= Work(st)
    ensures (forall e: Event :: Enabled(st', e) ==> e.Arrive?) <==> st'.stopper.Done? && Live(st'.workers) == 0
    decreases |es|
  {
    if es == [] {
      if st.stopper.Done? {
        NoneLive(st.workers);
      } else {
        var e := SomeoneCanStep(st);
      }
    } else {
      StepTakesWork(st, es[0]);
      StopEnds(Do(st, es[0]), es[1..], st');
    }
  }

  function Dequeues(es: seq<Event>): nat {
    if es == [] then 0 else (if es[0].Dequeue? then 1 else 0) + Dequeues(es[1..])
  }

  lemma EventDequeues(st: State, e: Event)
    requires AllPosted(st) && Enabled(st, e)
    ensures LastStop(Do(st, e).queue) + (if e.Dequeue? then 1 else 0) == LastStop(st.queue)
  {
    match e
    case Arrive => assert (st.queue + [Io])[..|st.queue|] == st.queue;
    case Dequeue(w) =>
      if Stop !in st.queue {
        NoneLive(st.workers);
        assert false;
      }
      LastStopOfRest(st.queue);
    case _ =>
  }

  /** The bound on the packets: after every post succeeded, exactly the packets up to the last stop packet are
      dequeued, no more, and then no worker is left. */
  lemma {:induction false} PacketsUpToTheLastStop(st: State, es: seq<Event>, st': State)
    requires AllPosted(st) && Runs(st, es, st')
    ensures Dequeues(es) + LastStop(st'.queue) == LastStop(st.queue)
    ensures Dequeues(es) == LastStop(st.queue) <==> Live(st'.workers) == 0
    decreases |es|
  {
    if es == [] {
      assert LastStop(st.queue) == 0 <==> Stops(st.queue) == 0;
    } else {
      hide Accounts, Enabled, Do;
      EventDequeues(st, es[0]);
      StepTakesWork(st, es[0]);
      PacketsUpToTheLastStop(Do(st, es[0]), es[1..], st');
    }
  }

  /** A post that fails goes unnoticed, and then Stop never returns: a worker is left in every later state. */
  lemma LostPostNeverEnds(st: State, es: seq<Event>, st': State)
    requires Accounts(st) && PostsOver(st.stopper) && Runs(st, es, st')
    requires st.sent < |st.workers|
    ensures !st'.stopper.Done? && Live(st'.workers) >= |st.workers| - st.sent
  {
    RunsKeepAccounts(st, es, st');
    SentIsFinal(st, es, st');
    NoneLive(st'.workers);
  }

  lemma {:induction false} SentIsFinal(st: State, es: seq<Event>, st': State)
    requires Accounts(st) && PostsOver(st.stopper) && Runs(st, es, st')
    ensures st'.sent == st.sent && PostsOver(st'.stopper)
    decreases |es|
  {
    if es != [] {
      StepKeepsAccounts(st, es[0]);
      SentIsFinal(Do(st, es[0]), es[1..], st');
    }
  }

  // ---------------------------------------------------------------- the loops

  /** What is left of the queue after the n-th stop packet. */
  function AfterStops(q: seq<Packet>, n: nat): seq<Packet>
    requires n <= Stops(q)
  {
    if n == 0 then q
    else
      assert q == [q[0]] + q[1..];
      AfterStops(q[1..], if q[0].Stop? then n - 1 else n)
  }

  lemma {:induction false} AfterStopsAdd(q: seq<Packet>, n: nat, m: nat)
    requires n + m <= Stops(q)
    ensures Stops(AfterStops(q, n)) == Stops(q) - n
    ensures AfterStops(AfterStops(q, n), m) == AfterStops(q, n + m)
  {
    if n > 0 {
      assert q == [q[0]] + q[1..];
      AfterStopsAdd(q[1..], if q[0].Stop? then n - 1 else n, m);
    }
  }

  /** The stop packets behind a queue, where the i-th post turns out as results[i] says. */
  function PostedStops(results: seq<bool>): (q: seq<Packet>)
    ensures forall p :: p in q ==> p == Stop
  {
    if results == [] then []
    else PostedStops(results[..|results| - 1]) + if results[|results| - 1] then [Stop] else []
  }

  lemma {:induction false} PostStep(results: seq<bool>, i: nat)
    requires i < |results|
    ensures PostedStops(results[..i + 1]) == PostedStops(results[..i]) + if results[i] then [Stop] else []
  {
    assert results[..i + 1][..i] == results[..i];
  }

  /** `rest` is what stands behind the first stop packet of q, which is at place k. */
  predicate BehindFirstStop(q: seq<Packet>, k: nat, rest: seq<Packet>) {
    k < |q| && q[k].Stop? && rest == q[k + 1..] && forall j :: 0 <= j < k ==> q[j].Io?
  }

  lemma {:induction false} FirstStopIsFound(q: seq<Packet>) returns (k: nat)
    requires Stops(q) > 0
    ensures BehindFirstStop(q, k, AfterStops(q, 1))
  {
    assert q == [q[0]] + q[1..];
    if q[0].Stop? {
      k := 0;
    } else {
      k := FirstStopIsFound(q[1..]);
      k := k + 1;
    }
  }

  class LanServer {
    const numberOfWorkerThreads: nat
    var listening: bool
    var accepting: bool
    var completionPort: seq<Packet>
    var workerThreads: seq<Worker>

    /** The threads Start creates. */
    constructor (n: nat)
      ensures numberOfWorkerThreads == n && completionPort == Started(n).queue && workerThreads == Started(n).workers
      ensures listening && accepting
    {
      numberOfWorkerThreads, completionPort, workerThreads := n, [], [];
      listening, accepting := true, true;
      new;
      var i := 0;
      while i < n
        invariant 0 <= i <= n && completionPort == [] && workerThreads == seq(i, _ => Waiting)
        invariant listening && accepting
      {
        workerThreads := workerThreads + [Waiting];
        i := i + 1;
      }
    }

    method CloseWorkerThreads(results: seq<bool>)
      requires |results| == numberOfWorkerThreads
      modifies this`completionPort
      ensures completionPort == old(completionPort) + PostedStops(results)
    {
      var i := 0;
      while i < numberOfWorkerThreads
        invariant 0 <= i <= numberOfWorkerThreads
        invariant completionPort == old(completionPort) + PostedStops(results[..i])
      {
        PostStep(results, i);
        if results[i] {
          completionPort := completionPort + [Packet.Stop];
        }
        i := i + 1;
      }
      assert results[..i] == results;
    }

    method CloseAcceptThread()
      modifies this`listening
      ensures !listening
    {
      listening := false;
    }

    /** The accept thread's accept fails once the socket is closed, and it ends. */
    method AcceptThread()
      requires !listening
      modifies this`accepting
      ensures !accepting
    {
      accepting := false;
    }

    /** The loop of one worker, when no other takes packets and a stop packet is there. */
    method WorkerThread(w: nat)
      requires w < |workerThreads| && workerThreads[w].Waiting? && Stops(completionPort) > 0
      modifies this`completionPort, this`workerThreads
      ensures completionPort == AfterStops(old(completionPort), 1)
      ensures workerThreads == old(workerThreads)[w := Exited]
      ensures exists k: nat :: BehindFirstStop(old(completionPort), k, completionPort)
    {
      ghost var k := FirstStopIsFound(completionPort);
      while true
        invariant Stops(completionPort) > 0 && workerThreads == old(workerThreads)
        invariant AfterStops(completionPort, 1) == AfterStops(old(completionPort), 1)
        decreases |completionPort|
      {
        assert completionPort == [completionPort[0]] + completionPort[1..];
        var packet := completionPort[0];
        completionPort := completionPort[1..];
        if packet.Stop? {
          break;
        }
      }
      workerThreads := workerThreads[w := Exited];
    }

    /** Joining the accept thread, then the workers in turn, each running to its end before the next takes a packet. */
    method WaitingForMultiThreadEnd()
      requires !listening && |workerThreads| <= Stops(completionPort)
      requires forall j :: 0 <= j < |workerThreads| ==> workerThreads[j].Waiting?
      modifies this`accepting, this`completionPort, this`workerThreads
      ensures !accepting
      ensures completionPort == AfterStops(old(completionPort), |old(workerThreads)|)
      ensures workerThreads == seq(|old(workerThreads)|, _ => Exited)
    {
      AcceptThread();
      var i, n := 0, |workerThreads|;
      while i < n
        invariant 0 <= i <= n == |workerThreads| && !accepting
        invariant completionPort == AfterStops(old(completionPort), i)
        invariant forall j :: 0 <= j < n ==> workerThreads[j] == if j < i then Exited else Waiting
      {
        AfterStopsAdd(old(completionPort), i, 1);
        WorkerThread(i);
        i := i + 1;
      }
    }

    /** When every post succeeds, Stop ends with every thread ended and as many stop packets taken as there are
        workers. */
    method Stop(results: seq<bool>)
      requires |results| == numberOfWorkerThreads == |workerThreads|
      requires forall j :: 0 <= j < |results| ==> results[j] && workerThreads[j].Waiting?
      modifies this
      ensures !listening && !accepting && workerThreads == seq(numberOfWorkerThreads, _ => Exited)
      ensures Stops(completionPort) == Stops(old(completionPort))
    {
      CloseAcceptThread();
      CloseWorkerThreads(results);
      PostsCount(results);
      ghost var queue := completionPort;
      WaitingForMultiThreadEnd();
      AfterStopsAdd(queue, numberOfWorkerThreads, 0);
    }
  }

  /** As many stop packets as posts succeed. */
  lemma {:induction false} PostsCount(results: seq<bool>)
    ensures |PostedStops(results)| == Stops(PostedStops(results)) == multiset(results)[true]
    ensures (forall j :: 0 <= j < |results| ==> results[j]) ==> multiset(results)[true] == |results|
  {
    if results != [] {
      var before, last := results[..|results| - 1], results[|results| - 1];
      assert results == before + [last];
      PostsCount(before);
    }
  }
}
