/** Runs without faults: no timeout inside a transaction, no failing callback and no shutdown.
    Spurious wake-ups, workers, notifications from callbacks, the server's idle timeouts and clients
    that give up before they have started remain. */
module IpcFaultFree {
  import opened IpcProtocol
  import opened IpcInvariant
  import opened Wrappers

  predicate Faultless(s: State, a: Action) {
    match a
    case ActClient(i, c) =>
      && (c.Timeout? ==> i < |s.clients| && !MidTransaction(s.clients[i].pc))
      && (c.Produce? ==> c.ok)
      && (c.Consume? ==> c.rc >= 0)
    case ActServer(x) =>
      && (x.STimeout? ==> s.server.IdleWait?)
      && (x.Callback? ==> x.outcome == Accept)
    case ActOwn(c) => c.OwnNotify?
    case ActWorker(_) => true
    case ActBreaker(_) => false
  }

  function RunFaultless(s: State, acts: seq<Action>): Option<State> {
    RunUnder(Faultless, s, acts)
  }

  ghost predicate ReachableFaultless(s: State) {
    exists n: nat, m: nat, acts: seq<Action> :: RunFaultless(Init(n, m), acts) == Some(s)
  }

  predicate Live(s: State) {
    s.h.phase == ClientToServer || s.h.phase == ServerToClient
  }

  // ----- what holds in fault-free runs ----------------------------------------------------------

  predicate PhaseFitsServer(h: Header, pc: ServerPC) {
    match pc
    case Start => h.phase == Error
    case LoopTest => h.phase == Error || h.phase == Done
    case Dispatch => h.phase == ClientToServer
    case SConsuming(_) => h.phase == ClientToServer
    case SRecvWait(_, _) => h.phase == ClientToServer
    case SProducing(_) => h.phase == ServerToClient
    case SSendWait(_, _) => h.phase == ServerToClient
    case FinalWait(_) => h.phase == ServerToClient || h.phase == Done
    case SFailing(_) => false
    case Stop => false
    case Join => false
    case Exit => false
    case Finished => false
    case _ => h.phase == ClientToServer || (h.phase == Ready && !h.serverEvent)
  }

  ghost predicate Serving(s: State) {
    && s.breaker.BIdle?
    && (s.server.Start? || s.h.running)
    && PhaseFitsServer(s.h, s.server)
    && (forall i :: 0 <= i < |s.clients| ==> !s.clients[i].pc.Failing? && (MidTransaction(s.clients[i].pc) ==> Live(s)))
  }

  /** The server's part of `Serving`. */
  predicate Fits(s: State) {
    s.breaker.BIdle? && (s.server.Start? || s.h.running) && PhaseFitsServer(s.h, s.server)
  }

  /** Mid-transaction clients never stray from the live phases, whichever thread moved. */
  lemma MidClientsStayLive(s: State, t: State)
    requires Serving(s) && |t.clients| == |s.clients|
    requires Live(s) && !Live(t) ==> forall i :: 0 <= i < |t.clients| ==> !MidTransaction(t.clients[i].pc)
    requires forall i :: 0 <= i < |t.clients| ==>
      && (MidTransaction(t.clients[i].pc) ==> MidTransaction(s.clients[i].pc) || Live(t))
      && (t.clients[i].pc.Failing? ==> s.clients[i].pc.Failing?)
    requires Fits(t)
    ensures Serving(t)
  {
  }

  /** The part of `Serving` that a step of client `i` depends on. */
  predicate ClientFits(s: State, i: nat) {
    i < |s.clients| && Fits(s) && !s.clients[i].pc.Failing? && (MidTransaction(s.clients[i].pc) ==> Live(s))
  }

  lemma ClientEntersFitly(s: State, i: nat, a: ClientAct, t: State)
    requires ClientCore(s, i) && ClientFits(s, i) && ClientStep(s, i, a) == Some(t) && EntersTransaction(s, i)
    ensures ClientFits(t, i)
  {
  }

  lemma ClientProducesFitly(s: State, i: nat, a: ClientAct, t: State)
    requires ClientCore(s, i) && ClientFits(s, i) && ClientStep(s, i, a) == Some(t) && Faultless(s, ActClient(i, a))
    requires s.clients[i].pc.Producing?
    ensures ClientFits(t, i) && Live(t)
  {
  }

  lemma ClientConsumesFitly(s: State, i: nat, a: ClientAct, t: State)
    requires ClientCore(s, i) && ClientFits(s, i) && ClientStep(s, i, a) == Some(t) && Faultless(s, ActClient(i, a))
    requires s.clients[i].pc.Consuming?
    ensures ClientFits(t, i)
  {
  }

  lemma ClientWaitsFitly(s: State, i: nat, a: ClientAct, t: State)
    requires ClientFits(s, i) && ClientStep(s, i, a) == Some(t) && Faultless(s, ActClient(i, a))
    requires s.clients[i].pc.SendWait? || s.clients[i].pc.RecvWait?
    ensures ClientFits(t, i) && Live(t)
  {
  }

  lemma ClientStepsFitly(s: State, i: nat, a: ClientAct, t: State)
    requires ClientCore(s, i) && ClientFits(s, i) && ClientStep(s, i, a) == Some(t) && Faultless(s, ActClient(i, a))
    requires Inside(s.clients[i].pc) || EntersTransaction(s, i)
    ensures ClientFits(t, i)
  {
    match s.clients[i].pc {
      case TestReady => ClientEntersFitly(s, i, a, t);
      case Producing(_) => ClientProducesFitly(s, i, a, t);
      case Consuming(_) => ClientConsumesFitly(s, i, a, t);
      case SendWait(_, _) | RecvWait(_, _) => ClientWaitsFitly(s, i, a, t);
    }
  }

  lemma ClientKeepsServing(s: State, i: nat, a: ClientAct, t: State)
    requires Core(s) && Serving(s) && ClientStep(s, i, a) == Some(t) && Faultless(s, ActClient(i, a))
    ensures Serving(t)
  {
    if Inside(s.clients[i].pc) || EntersTransaction(s, i) {
      CoreIsEnough(s);
      ClientStepsFitly(s, i, a, t);
      ClientStepMove(s, i, a, t);
      OnlyOneInside(s, i);
      MidClientsStayLive(s, t);
    } else {
      ClientStepsOutside(s, i, a, t);
    }
  }

  lemma OnlyOneInside(s: State, i: nat)
    requires LocksMatch(s) && i < |s.clients| && ClientHoldsTransaction(s.clients[i].pc)
    ensures forall j :: 0 <= j < |s.clients| && j != i ==> !MidTransaction(s.clients[j].pc)
  {
    assert s.tr == ByClient(i);
  }

  lemma ServerIdleKeepsFit(s: State, a: ServerAct, t: State)
    requires Fits(s) && ServerStep(s, a) == Some(t) && Faultless(s, ActServer(a)) && ServerIdle(s.server)
    ensures Fits(t) && t.h == s.h
    ensures t.clients == s.clients || t.clients == NotifyClients(s.clients)
  {
  }

  lemma ServerWaitKeepsFit(s: State, a: ServerAct, t: State)
    requires Fits(s) && ServerStep(s, a) == Some(t) && Faultless(s, ActServer(a))
    requires s.server.SRecvWait? || s.server.SSendWait? || s.server.FinalWait? || s.server.Dispatch?
    ensures Fits(t) && t.h == s.h && t.clients == s.clients
  {
  }

  /** The server's phase and part checks pass. */
  lemma ServerCallsBack(s: State)
    requires ServerCore(s) && Fits(s) && (s.server.SConsuming? || s.server.SProducing?)
    requires s.tr.ByClient? && s.tr.i < |s.clients| ==> !s.clients[s.tr.i].pc.Failing?
    ensures InCallback(s)
  {
  }

  lemma ServerMessageKeepsFit(s: State, a: ServerAct, t: State)
    requires Fits(s) && ServerStep(s, a) == Some(t) && Faultless(s, ActServer(a))
    requires s.server.Start? || s.server.LoopTest? || (InCallback(s) && !s.server.Periodic?)
    ensures Fits(t) && (Live(s) ==> Live(t))
    ensures t.clients == s.clients || t.clients == WakeClients(s.clients)
  {
  }

  lemma ServerKeepsServing(s: State, a: ServerAct, t: State)
    requires Core(s) && Serving(s) && ServerStep(s, a) == Some(t) && Faultless(s, ActServer(a))
    ensures Serving(t)
  {
    if ServerIdle(s.server) {
      ServerIdleKeepsFit(s, a, t);
    } else if s.server.SRecvWait? || s.server.SSendWait? || s.server.FinalWait? || s.server.Dispatch? {
      ServerWaitKeepsFit(s, a, t);
    } else {
      CoreIsEnough(s);
      if s.server.SConsuming? || s.server.SProducing? {
        ServerCallsBack(s);
      }
      ServerMessageKeepsFit(s, a, t);
    }
    MidClientsStayLive(s, t);
  }

  lemma StepKeepsServing(s: State, a: Action, t: State)
    requires Inv(s) && Serving(s) && Step(s, a) == Some(t) && Faultless(s, a)
    ensures Serving(t)
  {
    match a {
      case ActClient(i, c) => ClientKeepsServing(s, i, c, t);
      case ActServer(x) => ServerKeepsServing(s, x, t);
      case ActOwn(_) => MidClientsStayLive(s, t);
      case ActWorker(j) => WorkerMoves(s, j, t); MidClientsStayLive(s, t);
    }
  }

  lemma {:induction false} RunKeepsServing(s: State, acts: seq<Action>)
    requires Inv(s) && Serving(s) && RunFaultless(s, acts).Some?
    ensures RunFaultless(s, acts) == Run(s, acts)
    ensures Inv(RunFaultless(s, acts).value) && Serving(RunFaultless(s, acts).value)
  {
    if acts != [] {
      var m := acts[..|acts| - 1];
      RunKeepsServing(s, m);
      StepKeeps(Run(s, m).value, acts[|acts| - 1], Run(s, acts).value);
      StepKeepsServing(Run(s, m).value, acts[|acts| - 1], Run(s, acts).value);
    }
  }

  lemma ReachableFaultlessServes(s: State)
    requires ReachableFaultless(s)
    ensures Inv(s) && Serving(s) && Reachable(s)
  {
    var n: nat, m: nat, acts: seq<Action> :| RunFaultless(Init(n, m), acts) == Some(s);
    InitSatisfiesInv(n, m);
    RunKeepsServing(Init(n, m), acts);
  }

  // ----- synchrony ------------------------------------------------------------------------------

  /** The synchrony checks never fire: wherever one side tests the phase or the part number before
      a callback, the test succeeds, so every "Got state" and "Got part" branch is dead. */
  lemma SynchronyChecksPass(s: State)
    requires ReachableFaultless(s)
    ensures s.server.Dispatch? ==> s.h.phase == ClientToServer
    ensures s.server.SConsuming? ==> s.h.phase == ClientToServer && s.h.part == s.server.part
    ensures s.server.SProducing? ==> s.h.phase == ServerToClient
    ensures forall i :: 0 <= i < |s.clients| ==>
      && (s.clients[i].pc.Producing? ==> s.h.phase == ClientToServer)
      && (s.clients[i].pc.Consuming? ==> s.h.phase == ServerToClient && s.h.part == s.clients[i].pc.part)
  {
    ReachableFaultlessServes(s);
    forall i | 0 <= i < |s.clients| && (s.clients[i].pc.Producing? || s.clients[i].pc.Consuming?)
      ensures s.tr == ByClient(i) && Live(s)
    {
    }
  }

  // ----- handover -------------------------------------------------------------------------------

  /** What the waiting client needs in order to go on. */
  predicate ClientMayGo(s: State) {
    s.h.clientEvent
  }

  /** What the server needs in order to go on, at each place where it does not hold the lock: in
      the final wait it looks at the phase, everywhere else at its event. */
  predicate ServerMayGo(s: State) {
    if s.server.FinalWait? then s.h.phase != ServerToClient else s.h.serverEvent
  }

  /** Handover: while a client is inside a transaction and nobody holds the operation lock, exactly
      one of the two sides may go on, that side is awake, and its step is possible.  This covers an
      event raised while the server had let go of the lock to deliver a deferred notification. */
  lemma ExactlyOneSideMayGo(s: State, i: nat)
    requires ReachableFaultless(s) && i < |s.clients| && MidTransaction(s.clients[i].pc) && s.op.Free?
    ensures s.clients[i].pc.SendWait? || s.clients[i].pc.RecvWait?
    ensures ClientMayGo(s) <==> !ServerMayGo(s)
    ensures ClientMayGo(s) ==>
      !s.clients[i].pc.asleep && ClientStep(s, i, Go).Some? && ClientStep(s, i, Go).value.op == ByClient(i)
    ensures ServerMayGo(s) ==> ServerStep(s, SGo).Some?
  {
    ReachableFaultlessServes(s);
    assert s.tr == ByClient(i) && ClientAsleepRightly(s.clients[i].pc, s.h);
  }

  // ----- cost -----------------------------------------------------------------------------------

  /** Message parts produced and consumed so far in the transaction. */
  function Work(x: Exchange): nat {
    |x.sent| + |x.recvd| + |x.replied| + |x.got|
  }

  /** The action is a producer or consumer call that handles a message part. */
  predicate HandlesPart(s: State, a: Action) {
    match a
    case ActClient(i, c) => i < |s.clients| && (s.clients[i].pc.Producing? || s.clients[i].pc.Consuming?)
    case ActServer(x) => s.server.SConsuming? || s.server.SProducing?
    case _ => false
  }

  function PartsHandled(s: State, acts: seq<Action>): nat
    requires RunFaultless(s, acts).Some?
  {
    if acts == [] then 0
    else
      var m := acts[..|acts| - 1];
      PartsHandled(s, m) + if HandlesPart(RunFaultless(s, m).value, acts[|acts| - 1]) then 1 else 0
  }

  lemma ClientStepWork(s: State, i: nat, a: ClientAct, t: State)
    requires Core(s) && Serving(s) && ClientStep(s, i, a) == Some(t) && Faultless(s, ActClient(i, a))
    ensures || (t.past == s.past && Work(t.cur) == Work(s.cur) + if HandlesPart(s, ActClient(i, a)) then 1 else 0)
            || (t.past == s.past + [s.cur] && Work(t.cur) == 0)
  {
    match s.clients[i].pc {
      case Producing(_) | Consuming(_) => ClientCallbackWork(s, i, a, t);
      case Outside | WantTransaction | WantOperation | ReadyWait(_) => ClientArrivesOutside(s, i, a, t);
      case SendWait(_, _) | RecvWait(_, _) | TestReady =>
      case _ => ClientDepartsOutside(s, i, a, t);
    }
  }

  lemma ClientCallbackWork(s: State, i: nat, a: ClientAct, t: State)
    requires Core(s) && Serving(s) && ClientStep(s, i, a) == Some(t) && Faultless(s, ActClient(i, a))
    requires s.clients[i].pc.Producing? || s.clients[i].pc.Consuming?
    ensures t.past == s.past && Work(t.cur) == Work(s.cur) + 1
  {
  }

  lemma ServerStepWork(s: State, a: ServerAct, t: State)
    requires Core(s) && Serving(s) && ServerStep(s, a) == Some(t) && Faultless(s, ActServer(a))
    ensures t.past == s.past && Work(t.cur) == Work(s.cur) + if HandlesPart(s, ActServer(a)) then 1 else 0
  {
    if ServerIdle(s.server) {
      ServerIdleWork(s, a, t);
    } else if s.server.SConsuming? || s.server.SProducing? {
      ServerCallbackWork(s, a, t);
    }
  }

  lemma ServerCallbackWork(s: State, a: ServerAct, t: State)
    requires Serving(s) && ServerStep(s, a) == Some(t) && Faultless(s, ActServer(a)) && InStep(s)
    requires s.server.SConsuming? || s.server.SProducing?
    ensures t.past == s.past && Work(t.cur) == Work(s.cur) + 1
  {
  }

  lemma ServerIdleWork(s: State, a: ServerAct, t: State)
    requires ServerIdle(s.server) && ServerStep(s, a) == Some(t)
    ensures t.past == s.past && t.cur == s.cur
  {
  }

  lemma StepWork(s: State, a: Action, t: State)
    requires Inv(s) && Serving(s) && Step(s, a) == Some(t) && Faultless(s, a)
    ensures || (t.past == s.past && Work(t.cur) == Work(s.cur) + if HandlesPart(s, a) then 1 else 0)
            || (t.past == s.past + [s.cur] && Work(t.cur) == 0)
  {
    match a {
      case ActClient(i, c) => ClientStepWork(s, i, c, t);
      case ActServer(x) => ServerStepWork(s, x, t);
      case ActOwn(_) =>
      case ActWorker(j) => WorkerMoves(s, j, t);
    }
  }

  lemma {:induction false} WorkCountsParts(s: State, acts: seq<Action>, t: State)
    requires Inv(s) && Serving(s) && RunFaultless(s, acts) == Some(t)
    ensures |t.past| >= |s.past|
    ensures |t.past| == |s.past| ==> Work(t.cur) == Work(s.cur) + PartsHandled(s, acts)
  {
    if acts != [] {
      var m := acts[..|acts| - 1];
      var u := RunFaultless(s, m).value;
      RunKeepsServing(s, m);
      WorkCountsParts(s, m, u);
      StepWork(u, acts[|acts| - 1], t);
    }
  }

  /** Exact cost: from the moment a transaction starts until its client has succeeded, every part
      of the query and of the reply is produced once and consumed once, and nothing else is. */
  lemma TransactionCost(s: State, acts: seq<Action>, t: State)
    requires ReachableFaultless(s) && Work(s.cur) == 0
    requires RunFaultless(s, acts) == Some(t) && |t.past| == |s.past| && t.cur.complete
    ensures PartsHandled(s, acts) == 2 * |t.cur.sent| + 2 * |t.cur.replied|
  {
    ReachableFaultlessServes(s);
    WorkCountsParts(s, acts, t);
    RunKeepsServing(s, acts);
  }
}
