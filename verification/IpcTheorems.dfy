/** What the message protocol promises, in every reachable state and whatever goes wrong:
    intact delivery, no lost notification, no lost wake-up and a clean shutdown. */
module IpcTheorems {
  import opened IpcProtocol
  import opened IpcInvariant
  import opened Wrappers

  // ----- delivery and recovery ------------------------------------------------------------------

  /** Every transaction ever started, the current one last. */
  function Exchanges(s: State): seq<Exchange> {
    s.past + [s.cur]
  }

  /** However often sides time out, fail or restart, a consumer only ever sees parts of the message
      the other side produced in the same transaction, each once and in order; the reply starts only
      after the whole query was consumed; and a transaction whose client took the last part delivered
      both messages whole. */
  lemma EveryExchangeIsIntact(s: State, x: Exchange)
    requires Reachable(s) && x in Exchanges(s)
    ensures x.recvd <= x.sent && x.got <= x.replied
    ensures x.replied != [] ==> x.recvd == x.sent
    ensures x.complete ==> x.recvd == x.sent != [] && x.got == x.replied != []
  {
    ReachableSatisfiesInv(s);
    var k :| 0 <= k < |Exchanges(s)| && Exchanges(s)[k] == x;
    assert Intact(x);
  }

  /** The server's consumer is called, for part `p`. */
  predicate ServerConsumerCalled(s: State, a: Action, p: nat) {
    && s.server == SConsuming(p) && a.ActServer? && a.s.Callback?
    && s.h.phase == ClientToServer && s.h.part == p
  }

  /** The client's consumer is called, for part `p`. */
  predicate ClientConsumerCalled(s: State, a: Action, p: nat) {
    && a.ActClient? && a.i < |s.clients| && s.clients[a.i].pc == Consuming(p) && a.c.Consume?
    && s.h.phase == ServerToClient && s.h.part == p
  }

  /** Recovery without cross-talk: when the server's consumer is called for part `p`, the buffer
      holds part `p` of what the client now inside the transaction produced, and the consumer has
      already had that client's parts 0 to p - 1 and nothing else. */
  lemma ServerConsumesOneClientsParts(s: State, a: Action, p: nat)
    requires Reachable(s) && ServerConsumerCalled(s, a, p)
    ensures s.tr == ByClient(s.cur.client)
    ensures |s.cur.recvd| == p < |s.cur.sent| && s.cur.recvd == s.cur.sent[..p] && s.h.payload == s.cur.sent[p]
  {
    ReachableSatisfiesInv(s);
    CoreIsEnough(s);
    QueryPartInBuffer(s, p);
  }

  lemma QueryPartInBuffer(s: State, p: nat)
    requires ServerCore(s) && s.server == SConsuming(p) && s.h.phase == ClientToServer && s.h.part == p
    ensures s.tr == ByClient(s.cur.client)
    ensures |s.cur.recvd| == p < |s.cur.sent| && s.cur.recvd == s.cur.sent[..p] && s.h.payload == s.cur.sent[p]
  {
  }

  /** The same for the client: it gets part `p` of the reply to its own query. */
  lemma ClientConsumesItsOwnReply(s: State, a: Action, p: nat)
    requires Reachable(s) && ClientConsumerCalled(s, a, p)
    ensures s.tr == ByClient(a.i) && s.cur.client == a.i && s.cur.recvd == s.cur.sent
    ensures |s.cur.got| == p < |s.cur.replied| && s.cur.got == s.cur.replied[..p] && s.h.payload == s.cur.replied[p]
  {
    ReachableSatisfiesInv(s);
    CoreIsEnough(s);
    ReplyPartInBuffer(s, a.i, p);
  }

  lemma ReplyPartInBuffer(s: State, i: nat, p: nat)
    requires ClientCore(s, i) && s.clients[i].pc == Consuming(p) && s.h.phase == ServerToClient && s.h.part == p
    ensures s.tr == ByClient(i) && s.cur.client == i && s.cur.recvd == s.cur.sent
    ensures |s.cur.got| == p < |s.cur.replied| && s.cur.got == s.cur.replied[..p] && s.h.payload == s.cur.replied[p]
  {
  }

  /** Whoever passes the phase check passes the part check too: even after faults the two part
      counters never disagree, so neither "Got part" error branch can be reached. */
  lemma PartCountersAgree(s: State)
    requires Reachable(s)
    ensures s.server.SConsuming? && s.h.phase == ClientToServer ==> s.h.part == s.server.part
    ensures forall i :: 0 <= i < |s.clients| && s.clients[i].pc.Consuming? && s.h.phase == ServerToClient ==>
                          s.h.part == s.clients[i].pc.part
  {
    ReachableSatisfiesInv(s);
  }

  /** A transaction starts only from the ready phase, when the server has let go of the previous
      one, and only a fresh iteration of a running main loop makes the phase ready. */
  lemma TransactionsStartFresh(s: State, a: Action, t: State)
    requires Reachable(s) && Step(s, a) == Some(t)
    ensures |t.past| > |s.past| ==> s.h.phase == Ready && ServerIdleUnlocked(s.server) && t.tr == ByClient(t.cur.client)
    ensures t.h.phase == Ready && s.h.phase != Ready ==> s.server.LoopTest? && s.h.running && s.op.ByServer?
  {
    ReachableSatisfiesInv(s);
    match a {
      case ActClient(i, c) => ClientStepStartsFresh(s, i, c, t);
      case ActServer(x) => ServerStepKeepsFlags(s, x, t);
      case ActOwn(_) =>
      case ActWorker(j) => WorkerMoves(s, j, t);
      case ActBreaker(timeout) => BreakerMoves(s, timeout, t);
    }
  }

  lemma ClientStepStartsFresh(s: State, i: nat, c: ClientAct, t: State)
    requires Inv(s) && ClientStep(s, i, c) == Some(t)
    ensures |t.past| > |s.past| ==> s.h.phase == Ready && ServerIdleUnlocked(s.server) && t.tr == ByClient(t.cur.client)
    ensures t.h.phase == Ready ==> s.h.phase == Ready
  {
    ClientStepMoves(s, i, c, t);
  }

  /** What the server's steps leave alone. */
  lemma ServerStepKeepsFlags(s: State, x: ServerAct, t: State)
    requires Inv(s) && ServerStep(s, x) == Some(t)
    ensures t.past == s.past
    ensures (s.server.Start? || t.h.running == s.h.running) && (s.h.running ==> t.h.running)
    ensures t.server.Start? ==> s.server.Start?
    ensures t.h.phase == Ready && s.h.phase != Ready ==> s.server.LoopTest? && s.h.running && s.op.ByServer?
  {
    if !s.server.Broadcast? && !s.server.ClearDeferred? {
      ServerStepMoves(s, x, t);
    }
  }

  /** A step leaves the past alone, or adds the last transaction to it. */
  lemma PastGrows(s: State, a: Action, t: State)
    requires Inv(s) && Step(s, a) == Some(t)
    ensures t.past == s.past || t.past == s.past + [s.cur]
  {
    match a {
      case ActClient(i, c) => ClientStepMoves(s, i, c, t);
      case ActServer(x) => ServerStepKeepsFlags(s, x, t);
      case ActOwn(_) =>
      case ActWorker(j) => WorkerMoves(s, j, t);
      case ActBreaker(timeout) => BreakerMoves(s, timeout, t);
    }
  }

  // ----- notifications --------------------------------------------------------------------------

  /** Reached by a run in which the main-loop thread itself notifies only in time: while everybody who would
      miss its broadcast is in the wait, or another notification is on its way anyway. */
  ghost predicate ReachableInTime(s: State) {
    exists n: nat, m: nat, acts: seq<Action> :: RunUnder(InTime, Init(n, m), acts) == Some(s)
  }

  lemma InTimeMissesNothing(s: State)
    requires ReachableInTime(s)
    ensures Inv(s) && NothingMissed(s) && Reachable(s)
  {
    var n: nat, m: nat, acts: seq<Action> :| RunUnder(InTime, Init(n, m), acts) == Some(s);
    InitSatisfiesInv(n, m);
    RunKeeps(InTime, Init(n, m), acts);
    RunKeepsNotifications(Init(n, m), acts);
    RuledRunIsRun(InTime, Init(n, m), acts);
  }

  /** No lost notification: a client that long-polls on a reply older than the model has a
      notification coming, although the server clears the deferred flag without taking its lock. */
  lemma NoLostNotification(s: State, i: nat)
    requires ReachableInTime(s) && i < |s.clients| && LongPolling(s.clients[i].pc)
    ensures s.clients[i].told < s.revision ==> NotificationPending(s)
  {
    InTimeMissesNothing(s);
  }

  /** So when all workers are done and the flag is clear, every long-polling client is up to date. */
  lemma QuiescentClientsAreUpToDate(s: State, i: nat)
    requires ReachableInTime(s) && i < |s.clients| && LongPolling(s.clients[i].pc)
    requires !s.deferred && forall j :: 0 <= j < |s.workers| ==> s.workers[j].WIdle?
    ensures s.revision <= s.clients[i].told
  {
    NoLostNotification(s, i);
  }

  /** A client has its reply, has let go of the operation lock, and is not waiting yet. */
  ghost predicate SomebodyBetween(s: State) {
    exists i :: 0 <= i < |s.clients| && s.clients[i].pc.BeforeNotification?
  }

  /** When the main-loop thread is in time: always while it handles a message of a client, never while it
      sends a reply, and in the periodic function exactly if no client is between reply and wait. */
  lemma InTimeIff(s: State)
    requires Reachable(s) && InCallback(s)
    ensures s.server.SConsuming? ==> Heard(s)
    ensures s.server.SProducing? ==> !Heard(s)
    ensures s.server.Periodic? ==> (Heard(s) <==> !SomebodyBetween(s))
  {
    ReachableSatisfiesInv(s);
    if s.server.SConsuming? {
      assert s.tr == ByClient(s.cur.client);
    }
  }

  /** Somebody long-polls, or is about to get a reply, that is older than the model, and nothing will tell. */
  ghost predicate SomethingLost(s: State) {
    && !NotificationPending(s)
    && (|| (s.h.phase == ServerToClient && s.cur.revision < s.revision)
        || exists i :: 0 <= i < |s.clients| && LongPolling(s.clients[i].pc) && s.clients[i].told < s.revision)
  }

  /** Exactly when the notification of the main-loop thread is lost. */
  lemma OwnNotificationLostIff(s: State, t: State)
    requires ReachableInTime(s) && OwnStep(s, OwnNotify) == Some(t)
    ensures SomethingLost(t) <==>
            !NotificationPending(s) && (s.server.SProducing? || (s.server.Periodic? && SomebodyBetween(s)))
  {
    InTimeMissesNothing(s);
    InTimeIff(s);
    assert NotificationPending(s) <==> NotificationPending(t);
    if Heard(s) || NotificationPending(s) {
      OwnNotifyInTime(s, t);
    } else if s.server.Periodic? {
      var i :| 0 <= i < |s.clients| && s.clients[i].pc.BeforeNotification?;
      assert LongPolling(t.clients[i].pc) && t.clients[i].told < t.revision;
    }
  }

  /** A broadcast made with the transaction lock held reaches every client that long-polls. */
  lemma LockedBroadcastReachesAll(s: State, a: Action, t: State, i: nat)
    requires Reachable(s) && Step(s, a) == Some(t) && i < |s.clients| && LongPolling(s.clients[i].pc)
    requires || (a.ActServer? && s.server.Broadcast?)
             || (a.ActWorker? && a.j < |s.workers| && s.workers[a.j].WBroadcast?)
    ensures s.clients[i].pc.NotificationWait? && t.clients[i].pc == NotificationWait(false)
  {
    ReachableSatisfiesInv(s);
  }

  // ----- delivery of a deferred notification ----------------------------------------------------

  predicate ServerGoesOn(s: State, a: Action) {
    a == GO
  }

  /** The server, going on from `s` with nobody else doing anything, comes to `u`. */
  ghost predicate ServerReaches(s: State, u: State) {
    exists acts: seq<Action> :: RunUnder(ServerGoesOn, s, acts) == Some(u)
  }

  lemma OneStepMore(rule: Rule, s: State, acts: seq<Action>, u: State, a: Action)
    requires RunUnder(rule, s, acts) == Some(u) && rule(u, a)
    ensures RunUnder(rule, s, acts + [a]) == Step(u, a)
  {
    assert (acts + [a])[..|acts|] == acts;
  }

  lemma ServerGoes(s: State, u: State, v: State)
    requires ServerReaches(s, u) && ServerStep(u, SGo) == Some(v)
    ensures ServerReaches(s, v)
  {
    var acts: seq<Action> :| RunUnder(ServerGoesOn, s, acts) == Some(u);
    OneStepMore(ServerGoesOn, s, acts, u, GO);
  }

  lemma ServerTriesTransaction(s: State) returns (t: State)
    requires LocksMatch(s) && s.deferred && s.server.PollLock? && s.df.Free?
    ensures ServerReaches(s, t) && t == s.(op := Free, server := TryTransaction)
  {
    assert RunUnder(ServerGoesOn, s, []) == Some(s);
    var u := s.(df := ByServer, server := PollRead);
    ServerGoes(s, s, u);
    var v := s.(server := ReleaseForNotify);
    ServerGoes(s, u, v);
    t := s.(op := Free, server := TryTransaction);
    ServerGoes(s, v, t);
  }

  lemma ServerDelivers(s: State, u: State) returns (t: State)
    requires ServerReaches(s, u) && u.server.TryTransaction? && u.tr.Free?
    ensures ServerReaches(s, t)
    ensures t == u.(clients := NotifyClients(u.clients), deferred := false, server := RelockOperation)
  {
    var v := u.(tr := ByServer, server := Broadcast);
    ServerGoes(s, u, v);
    var w := v.(clients := NotifyClients(u.clients), server := ClearDeferred);
    ServerGoes(s, v, w);
    var x := w.(deferred := false, server := UnlockTransaction);
    ServerGoes(s, w, x);
    t := x.(tr := Free, server := RelockOperation);
    ServerGoes(s, x, t);
  }

  /** The server on its own, with nobody else doing anything, delivers a deferred notification in the turn of its
      idle loop that starts now, if nobody holds the transaction lock: every client in the wait is woken, and the
      flag is cleared.  Otherwise the notification stays deferred. */
  lemma DeferredIsDelivered(s: State) returns (t: State)
    requires Reachable(s) && s.deferred && s.server.PollLock? && s.df.Free?
    ensures ServerReaches(s, t) && t.server.Periodic? && t.h == s.h && |t.clients| == |s.clients|
    ensures s.tr.Free? ==>
      !t.deferred && forall i :: 0 <= i < |s.clients| && s.clients[i].pc.NotificationWait? ==>
                                 t.clients[i].pc == NotificationWait(false)
    ensures !s.tr.Free? ==> t.deferred && t.clients == s.clients
  {
    ReachableSatisfiesInv(s);
    var u := ServerTriesTransaction(s);
    if s.tr.Free? {
      u := ServerDelivers(s, u);
    } else {
      ServerGoes(s, u, u.(server := RelockOperation));
      u := u.(server := RelockOperation);
    }
    t := u.(op := ByServer, server := Periodic);
    ServerGoes(s, u, t);
  }

  // ----- wake-ups -------------------------------------------------------------------------------

  /** No lost wake-up: a thread asleep on a condition variable waits for something that has not
      happened yet. */
  lemma SleepersWaitForSomething(s: State)
    requires Reachable(s)
    ensures forall i :: 0 <= i < |s.clients| ==>
                          var pc := s.clients[i].pc;
                          && (pc == ReadyWait(true) ==> s.h.phase != Ready)
                          && ((pc.SendWait? || pc.RecvWait?) && pc.asleep ==> !s.h.clientEvent)
    ensures (s.server.IdleWait? || s.server.SRecvWait? || s.server.SSendWait?) && s.server.asleep ==> !s.h.serverEvent
    ensures s.server == FinalWait(true) ==> s.h.phase == ServerToClient
  {
    ReachableSatisfiesInv(s);
  }

  /** An error is never kept quiet: the side that declares it raises the event of the other side and wakes it.
      The exception is an event that the idle server finds without a query. */
  lemma ErrorsAreTold(s: State, a: Action, t: State)
    requires Reachable(s) && Step(s, a) == Some(t) && t.h.phase == Error && s.h.phase != Error
    ensures a.ActClient? || a.ActServer?
    ensures a.ActClient? ==> t.h.serverEvent && t.server == WokenServer(t.server)
    ensures a.ActServer? && !s.server.Dispatch? ==>
      t.h.clientEvent && forall i :: 0 <= i < |t.clients| ==> t.clients[i] == WokenByClientEvent(t.clients[i])
  {
    match a {
      case ActClient(i, c) => ClientErrorIsTold(s, i, c, t);
      case ActServer(x) => ServerErrorIsTold(s, x, t);
      case ActOwn(_) =>
      case ActWorker(j) => WorkerMoves(s, j, t);
      case ActBreaker(timeout) => BreakerMoves(s, timeout, t);
    }
  }

  lemma ClientErrorIsTold(s: State, i: nat, c: ClientAct, t: State)
    requires ClientStep(s, i, c) == Some(t) && t.h.phase == Error && s.h.phase != Error
    ensures t.h.serverEvent && t.server == WokenServer(t.server)
  {
    if !Inside(s.clients[i].pc) && !EntersTransaction(s, i) {
      ClientStepsOutside(s, i, c, t);
    }
  }

  lemma ServerErrorIsTold(s: State, x: ServerAct, t: State)
    requires ServerStep(s, x) == Some(t) && t.h.phase == Error && s.h.phase != Error
    ensures s.server.SFailing? || s.server.Dispatch?
    ensures s.server.SFailing? ==>
      t.h.clientEvent && forall i :: 0 <= i < |t.clients| ==> t.clients[i] == WokenByClientEvent(t.clients[i])
  {
    if ServerIdle(s.server) {
      IdleServerLeavesPhase(s, x, t);
    } else if !s.server.SFailing? {
      ServerDeclaresNoError(s, x, t);
    }
  }

  lemma ServerDeclaresNoError(s: State, x: ServerAct, t: State)
    requires ServerStep(s, x) == Some(t) && !ServerIdle(s.server) && !s.server.SFailing?
    ensures t.h.phase == Error && s.h.phase != Error ==> s.server.Dispatch?
  {
    if s.server.SRecvWait? || s.server.SSendWait? || s.server.FinalWait? {
      ServerWaitLeavesHeader(s, x, t);
    }
  }

  lemma ServerWaitLeavesHeader(s: State, x: ServerAct, t: State)
    requires ServerStep(s, x) == Some(t) && (s.server.SRecvWait? || s.server.SSendWait? || s.server.FinalWait?)
    ensures t.h == s.h
  {
  }

  lemma IdleServerLeavesPhase(s: State, x: ServerAct, t: State)
    requires ServerStep(s, x) == Some(t) && ServerIdle(s.server)
    ensures t.h == s.h
  {
  }

  predicate WaitsOnClientEvent(pc: ClientPC) {
    pc.ReadyWait? || pc.SendWait? || pc.RecvWait?
  }

  /** Only one thread at a time waits on `client_event`, so signalling one waiter is enough. */
  lemma ClientEventHasOneWaiter(s: State, i: nat, j: nat)
    requires Reachable(s) && i < |s.clients| && j < |s.clients|
    requires WaitsOnClientEvent(s.clients[i].pc) && WaitsOnClientEvent(s.clients[j].pc)
    ensures i == j
  {
    ReachableSatisfiesInv(s);
    assert s.tr == ByClient(i) && s.tr == ByClient(j);
  }

  // ----- shutdown -------------------------------------------------------------------------------

  /** No reply is on its way, and no query is being consumed. */
  ghost predicate NothingServed(s: State) {
    && s.h.phase != ServerToClient
    && (s.h.phase == ClientToServer ==> ServerIdle(s.server) || s.server.Dispatch? || ServerLeaving(s.server))
  }

  lemma BreakByAnotherThread(s: State, timeout: bool, t: State)
    requires Inv(s) && BreakerStep(s, timeout) == Some(t) && s.h.running && !t.h.running
    ensures s.breaker.BSet? && t.cur == s.cur && t.past == s.past && t.h.phase == s.h.phase && NothingServed(t)
    ensures forall i :: 0 <= i < |s.clients| ==> !ClientHoldsTransaction(s.clients[i].pc)
  {
  }

  lemma BreakFromCallback(s: State, c: OwnCall, t: State)
    requires Inv(s) && OwnStep(s, c) == Some(t) && s.h.running && !t.h.running
    ensures c == OwnBreak && InCallback(s)
    ensures t == s.(h := s.h.(running := false)) && (NothingServed(t) <==> s.server.Periodic?)
  {
  }

  /** A break by another thread takes effect between transactions: at that step no client is inside one and no
      message is on its way.  The main-loop thread may break from a callback, and then only clears the flag. */
  lemma BreakHappensBetweenTransactions(s: State, a: Action, t: State)
    requires Reachable(s) && Step(s, a) == Some(t) && s.h.running && !t.h.running
    ensures (a.ActBreaker? && s.breaker.BSet?) || (a == ActOwn(OwnBreak) && InCallback(s))
    ensures t.cur == s.cur && t.past == s.past && t.h.phase == s.h.phase
    ensures a.ActBreaker? ==>
      NothingServed(t) && forall i :: 0 <= i < |s.clients| ==> !ClientHoldsTransaction(s.clients[i].pc)
    ensures a.ActOwn? ==> t == s.(h := s.h.(running := false)) && (NothingServed(t) <==> s.server.Periodic?)
  {
    ReachableSatisfiesInv(s);
    match a {
      case ActClient(i, c) => ClientStepMoves(s, i, c, t);
      case ActServer(x) => ServerStepKeepsFlags(s, x, t);
      case ActOwn(c) => BreakFromCallback(s, c, t);
      case ActWorker(j) => WorkerMoves(s, j, t);
      case ActBreaker(timeout) => BreakByAnotherThread(s, timeout, t);
    }
  }

  lemma IdleServerServesNothing(s: State, x: ServerAct, t: State)
    requires ServerStep(s, x) == Some(t) && NothingServed(s) && ServerIdle(s.server)
    ensures NothingServed(t)
  {
  }

  lemma ServerServesNothing(s: State, x: ServerAct, t: State)
    requires ServerStep(s, x) == Some(t) && !s.h.running && NothingServed(s)
    requires !ServerIdle(s.server) && !s.server.Start?
    ensures NothingServed(t)
  {
  }

  lemma ServerServesNothingMore(s: State, x: ServerAct, t: State)
    requires ServerStep(s, x) == Some(t) && !s.h.running && NothingServed(s) && !s.server.Start?
    ensures NothingServed(t)
  {
    if ServerIdle(s.server) {
      IdleServerServesNothing(s, x, t);
    } else {
      ServerServesNothing(s, x, t);
    }
  }

  lemma ClientServesNothing(s: State, i: nat, t: State)
    requires InStep(s) && ClientMove(s, t, i)
    ensures NothingServed(s) || s.h.phase == Ready ==> NothingServed(t)
  {
  }

  lemma StepStaysStopped(s: State, a: Action, t: State)
    requires Inv(s) && Step(s, a) == Some(t) && !s.h.running && !s.server.Start?
    ensures !t.h.running && !t.server.Start?
    ensures NothingServed(s) ==> NothingServed(t)
    ensures t.past == s.past || NothingServed(t)
  {
    match a {
      case ActClient(i, c) => ClientStepMoves(s, i, c, t); ClientServesNothing(s, i, t);
      case ActServer(x) => ServerStepKeepsFlags(s, x, t); if NothingServed(s) { ServerServesNothingMore(s, x, t); }
      case ActOwn(_) =>
      case ActWorker(j) => WorkerMoves(s, j, t);
      case ActBreaker(timeout) => BreakerMoves(s, timeout, t);
    }
  }

  lemma {:induction false} StaysStopped(s: State, acts: seq<Action>, t: State)
    requires Inv(s) && !s.h.running && !s.server.Start? && Run(s, acts) == Some(t)
    ensures Inv(t) && !t.h.running && !t.server.Start?
    ensures NothingServed(s) ==> NothingServed(t)
    ensures t.past == s.past || NothingServed(t)
  {
    if acts != [] {
      var m := acts[..|acts| - 1];
      var u := Run(s, m).value;
      StaysStopped(s, m, u);
      StepKeeps(u, acts[|acts| - 1], t);
      StepStaysStopped(u, acts[|acts| - 1], t);
    }
  }

  /** The consumer or the producer of the server is called, or may be. */
  ghost predicate ServerIsCalled(s: State) {
    InCallback(s) && !s.server.Periodic?
  }

  /** Once the main loop has been told to stop, in every continuation it stays told, and the consumer and the
      producer of the server are only called again for the transaction in which a callback told it. */
  lemma BreakIsFinal(s: State, acts: seq<Action>, t: State)
    requires Reachable(s) && !s.h.running && !s.server.Start? && Run(s, acts) == Some(t)
    ensures !t.h.running && !t.server.Start?
    ensures ServerIsCalled(t) ==> !NothingServed(s) && t.past == s.past
  {
    ReachableSatisfiesInv(s);
    StaysStopped(s, acts, t);
  }
}
