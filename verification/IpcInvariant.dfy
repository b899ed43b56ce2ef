/** What every reachable state of the message protocol satisfies, whatever the interleaving, the
    timeouts, the spurious wake-ups, the callback failures and the shutdown requests. */
module IpcInvariant {
  import opened IpcProtocol
  import opened Wrappers

  // ----- locks ----------------------------------------------------------------------------------

  predicate ClientHoldsTransaction(pc: ClientPC) {
    !pc.Outside? && !pc.WantTransaction? && !pc.NotificationWait?
  }

  predicate ClientHoldsOperation(pc: ClientPC) {
    pc.TestReady? || pc.Producing? || pc.Consuming? || pc.Failing? || pc.ReleaseOperation?
  }

  predicate ServerHoldsTransaction(pc: ServerPC) {
    pc.Broadcast? || pc.ClearDeferred? || pc.UnlockTransaction?
  }

  /** The points of the idle loop at which the server has let go of the operation lock. */
  predicate ServerIdleUnlocked(pc: ServerPC) {
    pc.TryTransaction? || ServerHoldsTransaction(pc) || pc.RelockOperation? || pc.IdleWait?
  }

  predicate ServerHoldsOperation(pc: ServerPC) {
    !pc.Start? && !ServerIdleUnlocked(pc) && !pc.SRecvWait? && !pc.SSendWait? && !pc.FinalWait? && !pc.Finished?
  }

  predicate WorkerHoldsTransaction(pc: WorkerPC) {
    pc.WBroadcast? || pc.WUnlock?
  }

  predicate BreakerHoldsTransaction(pc: BreakerPC) {
    !pc.BIdle? && !pc.BWantTransaction?
  }

  predicate BreakerHoldsOperation(pc: BreakerPC) {
    pc.BSet? || pc.BReleaseOperation?
  }

  /** Each lock is owned by a thread exactly when that thread's program counter says so. */
  ghost predicate LocksMatch(s: State) {
    && (s.tr.ByClient? ==> s.tr.i < |s.clients|)
    && (s.op.ByClient? ==> s.op.i < |s.clients|)
    && (s.tr.ByWorker? ==> s.tr.j < |s.workers|)
    && (s.df.ByWorker? ==> s.df.j < |s.workers|)
    && !s.op.ByWorker? && !s.df.ByClient? && !s.df.ByBreaker?
    && (forall i :: 0 <= i < |s.clients| ==>
          && (ClientHoldsTransaction(s.clients[i].pc) <==> s.tr == ByClient(i))
          && (ClientHoldsOperation(s.clients[i].pc) <==> s.op == ByClient(i)))
    && (ServerHoldsTransaction(s.server) <==> s.tr.ByServer?)
    && (ServerHoldsOperation(s.server) <==> s.op.ByServer?)
    && (s.server.PollRead? <==> s.df.ByServer?)
    && (forall j :: 0 <= j < |s.workers| ==>
          && (WorkerHoldsTransaction(s.workers[j]) <==> s.tr == ByWorker(j))
          && (s.workers[j].WSetFlag? <==> s.df == ByWorker(j)))
    && (BreakerHoldsTransaction(s.breaker) <==> s.tr.ByBreaker?)
    && (BreakerHoldsOperation(s.breaker) <==> s.op.ByBreaker?)
  }

  // ----- client and server in step --------------------------------------------------------------

  predicate ServerIdle(pc: ServerPC) {
    ServerIdleUnlocked(pc) || pc.PollLock? || pc.PollRead? || pc.ReleaseForNotify? || pc.Periodic? || pc.IdleTest?
  }

  /** The server has given up on the transaction (or is shutting down) and holds the operation lock. */
  predicate ServerLeaving(pc: ServerPC) {
    pc.LoopTest? || pc.SFailing? || pc.Stop?
  }

  /** The server is on its way to consume query part `k`, or about to. */
  predicate ServerAtQueryPart(pc: ServerPC, k: nat) {
    if k == 0 then ServerIdle(pc) || pc.Dispatch? || pc == SConsuming(0)
    else (pc.SRecvWait? && pc.part == k) || pc == SConsuming(k)
  }

  ghost predicate ServersTurn(s: State) {
    s.h.serverEvent && !s.h.clientEvent
  }

  ghost predicate ClientsTurn(s: State) {
    s.h.clientEvent && !s.h.serverEvent
  }

  ghost predicate HeaderHolds(h: Header, parts: seq<Bytes>, k: nat, more: bool) {
    k < |parts| && h.part == k && h.more == more && h.payload == parts[k]
  }

  /** The query is on its way: where the two sides stand relative to the parts sent so far. */
  ghost predicate QuerySync(s: State, pc: ClientPC) {
    var x := s.cur;
    && x.replied == [] && x.got == [] && !x.complete
    && match pc
       case Producing(p) =>
         |x.sent| == p && x.recvd == x.sent &&
         (if p == 0 then ServerIdle(s.server) else s.server.SRecvWait? && s.server.part == p)
       case SendWait(p, _) =>
         && p == |x.sent| && p > 0 && HeaderHolds(s.h, x.sent, p - 1, true)
         && (|| (ServersTurn(s) && ServerAtQueryPart(s.server, p - 1) && x.recvd == x.sent[..p - 1])
             || (ClientsTurn(s) && s.server.SRecvWait? && s.server.part == p && x.recvd == x.sent)
             || ServerLeaving(s.server))
       case RecvWait(q, _) =>
         var n := |x.sent|;
         && q == 0 && n > 0 && HeaderHolds(s.h, x.sent, n - 1, false)
         && (|| (ServersTurn(s) && ServerAtQueryPart(s.server, n - 1) && x.recvd == x.sent[..n - 1])
             || ServerLeaving(s.server))
       case Failing => true
       case _ => false
  }

  /** The reply is on its way. */
  ghost predicate ReplySync(s: State, pc: ClientPC) {
    var x := s.cur;
    var r := |x.replied|;
    && x.recvd == x.sent && x.sent != [] && !x.complete
    && match pc
       case RecvWait(p, _) =>
         || (s.server == SProducing(p) && r == p && x.got == x.replied)
         || (s.server.SSendWait? && ClientsTurn(s) && s.server.part == p + 1 && r == p + 1
             && HeaderHolds(s.h, x.replied, p, true) && x.got == x.replied[..p])
         || (s.server.SSendWait? && ServersTurn(s) && s.server.part == p && r == p && x.got == x.replied)
         || (s.server.FinalWait? && s.h.clientEvent && r == p + 1 && HeaderHolds(s.h, x.replied, p, false)
             && x.got == x.replied[..p])
         || ServerLeaving(s.server)
       case Consuming(p) =>
         && r == p + 1 && x.got == x.replied[..p]
         && (|| (s.server.SSendWait? && s.server.part == p + 1 && HeaderHolds(s.h, x.replied, p, true)
                 && ClientsTurn(s))
             || (s.server.FinalWait? && HeaderHolds(s.h, x.replied, p, false)))
       case Failing => true
       case _ => false
  }

  ghost predicate InStep(s: State) {
    match s.h.phase
    case Ready => ServerIdle(s.server) || s.server.Dispatch? || ServerLeaving(s.server)
    case ClientToServer => s.tr == ByClient(s.cur.client) && s.tr.i < |s.clients| && QuerySync(s, s.clients[s.tr.i].pc)
    case ServerToClient => s.tr == ByClient(s.cur.client) && s.tr.i < |s.clients| && ReplySync(s, s.clients[s.tr.i].pc)
    case _ => true
  }

  // ----- what was delivered ---------------------------------------------------------------------

  ghost predicate Prefix(a: seq<Bytes>, b: seq<Bytes>) {
    |a| <= |b| && a == b[..|a|]
  }

  lemma NextPart(parts: seq<Bytes>, k: nat)
    requires k < |parts|
    ensures parts[..k] + [parts[k]] == parts[..k + 1]
    ensures k + 1 == |parts| ==> parts[..k + 1] == parts
  {
  }

  lemma OnePartMore(parts: seq<Bytes>, part: Bytes)
    ensures (parts + [part])[..|parts|] == parts
  {
  }

  /** Both consumers saw a prefix of what the other side produced, in order and without loss,
      and all of it when the client took the last part. */
  ghost predicate Intact(x: Exchange) {
    && Prefix(x.recvd, x.sent)
    && Prefix(x.got, x.replied)
    && (x.replied != [] ==> x.recvd == x.sent)
    && (x.complete ==> x.recvd == x.sent && x.got == x.replied && x.sent != [] && x.replied != [])
  }

  ghost predicate AllIntact(s: State) {
    Intact(s.cur) && forall k :: 0 <= k < |s.past| ==> Intact(s.past[k])
  }

  // ----- wake-ups -------------------------------------------------------------------------------

  predicate ClientAsleepRightly(pc: ClientPC, h: Header) {
    && (pc.ReadyWait? && pc.asleep ==> h.phase != Ready)
    && ((pc.SendWait? || pc.RecvWait?) && pc.asleep ==> !h.clientEvent)
  }

  predicate ServerAsleepRightly(pc: ServerPC, h: Header) {
    && ((pc.IdleWait? || pc.SRecvWait? || pc.SSendWait?) && pc.asleep ==> !h.serverEvent)
    && (pc.FinalWait? && pc.asleep ==> h.phase == ServerToClient)
  }

  /** Nobody sleeps on a condition that already holds. */
  ghost predicate NobodyOversleeps(s: State) {
    && (forall i :: 0 <= i < |s.clients| ==> ClientAsleepRightly(s.clients[i].pc, s.h))
    && ServerAsleepRightly(s.server, s.h)
  }

  // ----- notifications --------------------------------------------------------------------------

  /** A notification is on its way: the flag is set, or some worker has yet to broadcast or set it. */
  predicate NotificationPending(s: State) {
    || s.deferred
    || exists j :: 0 <= j < |s.workers| && OnItsWay(s.workers[j])
  }

  predicate OnItsWay(w: WorkerPC) {
    w.WTry? || w.WWantFlag? || w.WSetFlag? || w.WBroadcast?
  }

  /** The client was asked to long-poll and has not been woken since. */
  predicate LongPolling(pc: ClientPC) {
    || (pc.ReleaseOperation? && pc.ret > 0)
    || pc.BeforeNotification?
    || (pc.NotificationWait? && pc.asleep)
  }

  ghost predicate NothingMissed(s: State) {
    && (s.h.phase == ServerToClient && s.cur.revision < s.revision ==> NotificationPending(s))
    && (forall i :: 0 <= i < |s.clients| && LongPolling(s.clients[i].pc) && s.clients[i].told < s.revision ==>
          NotificationPending(s))
    && (s.server.ClearDeferred? ==> forall i :: 0 <= i < |s.clients| ==> !LongPolling(s.clients[i].pc))
  }

  /** Nobody knows a revision that the model has not had. */
  ghost predicate FromThePast(s: State) {
    s.cur.revision <= s.revision && forall i :: 0 <= i < |s.clients| ==> s.clients[i].told <= s.revision
  }

  ghost predicate Inv(s: State) {
    && LocksMatch(s)
    && InStep(s)
    && AllIntact(s)
    && NobodyOversleeps(s)
    && FromThePast(s)
  }

  lemma InitSatisfiesInv(n: nat, m: nat)
    ensures Inv(Init(n, m)) && NothingMissed(Init(n, m))
  {
  }

  // ----- what a step of one thread may touch ----------------------------------------------------

  /** A lock of which `me` is the owner before and after, as told by its program counters. */
  predicate Passes(before: bool, after: bool, o: Owner, o': Owner, me: Owner) {
    if before == after then o' == o else if after then o.Free? && o' == me else o'.Free?
  }

  /** What a step of client `i` does to the state, up to where client and server stand (`InStep`). */
  ghost predicate ClientMove(s: State, t: State, i: nat) {
    && i < |s.clients| == |t.clients|
    && var c, c' := s.clients[i], t.clients[i];
    && t.clients == s.clients[i := c']
    && t.workers == s.workers && t.breaker == s.breaker && t.df == s.df
    && t.deferred == s.deferred && t.revision == s.revision && t.h.running == s.h.running
    && Passes(ClientHoldsTransaction(c.pc), ClientHoldsTransaction(c'.pc), s.tr, t.tr, ByClient(i))
    && Passes(ClientHoldsOperation(c.pc), ClientHoldsOperation(c'.pc), s.op, t.op, ByClient(i))
    && (t.server == WokenServer(s.server) || (t.server == s.server && ServerAsleepRightly(t.server, t.h)))
    && ClientAsleepRightly(c'.pc, t.h)
    && (t.h.clientEvent ==> s.h.clientEvent)
    && (t.h.phase == Ready ==> s.h.phase == Ready)
    && (t.h.phase == ClientToServer ==> s.h.phase == ClientToServer || s.h.phase == Ready)
    && (t.h.phase == ServerToClient ==> s.h.phase == ServerToClient && t.cur.revision == s.cur.revision)
    && (LongPolling(c'.pc) ==> || (LongPolling(c.pc) && c'.told == c.told)
                               || (ClientHoldsTransaction(c.pc) && s.h.phase == ServerToClient
                                   && c'.told == s.cur.revision))
    && (c'.told == c.told || c'.told == s.cur.revision)
    && (t.cur.revision == s.cur.revision || t.cur.revision == 0)
    && (t.past == s.past || (t.past == s.past + [s.cur] && c.pc.TestReady? && s.h.phase == Ready && t.cur.client == i))
  }

  /** Where client and server stand, and that what they got is intact. */
  ghost predicate Stays(s: State) {
    InStep(s) && Intact(s.cur)
  }

  lemma ClientMoveKeeps(s: State, t: State, i: nat)
    requires Inv(s) && ClientMove(s, t, i) && Stays(t)
    ensures Inv(t)
  {
    ClientMoveKeepsLocks(s, t, i);
  }

  lemma ClientMoveKeepsLocks(s: State, t: State, i: nat)
    requires LocksMatch(s) && ClientMove(s, t, i)
    ensures LocksMatch(t)
  {
  }

  lemma ClientMoveKeepsNotifications(s: State, t: State, i: nat)
    requires LocksMatch(s) && NothingMissed(s) && ClientMove(s, t, i)
    ensures NothingMissed(t)
  {
    assert NotificationPending(s) ==> NotificationPending(t);
  }

  ghost predicate ServerMove(s: State, t: State) {
    && (t.clients == s.clients || t.clients == WakeClients(s.clients))
    && t.workers == s.workers && t.breaker == s.breaker
    && t.deferred == s.deferred && t.revision == s.revision
    && Passes(ServerHoldsTransaction(s.server), ServerHoldsTransaction(t.server), s.tr, t.tr, ByServer)
    && Passes(ServerHoldsOperation(s.server), ServerHoldsOperation(t.server), s.op, t.op, ByServer)
    && Passes(s.server.PollRead?, t.server.PollRead?, s.df, t.df, ByServer)
    && ServerAsleepRightly(t.server, t.h)
    && (|| ((t.h.clientEvent ==> s.h.clientEvent) && (t.h.phase == Ready ==> s.h.phase == Ready))
        || t.clients == WakeClients(s.clients))
    && (t.h.phase == ServerToClient ==>
          (s.h.phase == ServerToClient && t.cur.revision == s.cur.revision) || t.cur.revision == s.revision)
    && (t.cur.revision == s.cur.revision || t.cur.revision == s.revision)
    && !t.server.ClearDeferred?
    && t.past == s.past
    && (s.server.Start? || t.h.running == s.h.running) && (s.h.running ==> t.h.running)
    && (t.server.Start? ==> s.server.Start?)
    && (t.h.phase == Ready && s.h.phase != Ready ==> s.server.LoopTest? && s.h.running)
  }

  lemma ServerMoveKeeps(s: State, t: State)
    requires Inv(s) && ServerMove(s, t) && Stays(t)
    ensures Inv(t)
  {
    ServerMoveKeepsLocks(s, t);
    ServerMoveKeepsSleep(s, t);
  }

  lemma ServerMoveKeepsSleep(s: State, t: State)
    requires NobodyOversleeps(s) && ServerMove(s, t)
    ensures NobodyOversleeps(t)
  {
  }

  lemma ServerMoveKeepsLocks(s: State, t: State)
    requires LocksMatch(s) && ServerMove(s, t)
    ensures LocksMatch(t)
  {
    assert forall i :: 0 <= i < |t.clients| ==>
      && ClientHoldsTransaction(t.clients[i].pc) == ClientHoldsTransaction(s.clients[i].pc)
      && ClientHoldsOperation(t.clients[i].pc) == ClientHoldsOperation(s.clients[i].pc);
  }

  lemma ServerMoveKeepsNotifications(s: State, t: State)
    requires NothingMissed(s) && ServerMove(s, t)
    ensures NothingMissed(t)
  {
    assert NotificationPending(s) ==> NotificationPending(t);
  }

  // ----- what a step needs to know --------------------------------------------------------------

  ghost predicate Core(s: State) {
    LocksMatch(s) && Stays(s) && ServerAsleepRightly(s.server, s.h)
  }

  predicate ClientLocks(s: State, i: nat) {
    && i < |s.clients|
    && (ClientHoldsTransaction(s.clients[i].pc) <==> s.tr == ByClient(i))
    && (ClientHoldsOperation(s.clients[i].pc) <==> s.op == ByClient(i))
  }

  predicate ServerLocks(s: State) {
    && (ServerHoldsTransaction(s.server) <==> s.tr.ByServer?)
    && (ServerHoldsOperation(s.server) <==> s.op.ByServer?)
  }

  /** The part of `Core` that a step of client `i` depends on. */
  ghost predicate ClientCore(s: State, i: nat) {
    ClientLocks(s, i) && ServerLocks(s) && Stays(s)
  }

  /** The part of `Core` that a step of the server depends on. */
  ghost predicate ServerCore(s: State) {
    ServerLocks(s) && Stays(s) && (s.tr.ByClient? ==> ClientLocks(s, s.tr.i))
  }

  lemma CoreIsEnough(s: State)
    requires LocksMatch(s) && Stays(s)
    ensures ServerCore(s) && forall i :: 0 <= i < |s.clients| ==> ClientCore(s, i)
  {
  }

  // ----- the client's steps ---------------------------------------------------------------------

  predicate MidTransaction(pc: ClientPC) {
    pc.Producing? || pc.SendWait? || pc.RecvWait? || pc.Consuming?
  }

  predicate Inside(pc: ClientPC) {
    MidTransaction(pc) || pc.Failing?
  }

  /** A step of a client that is outside any transaction and stays there: it touches locks, and of the
      clients only itself. */
  ghost predicate OutsideStep(s: State, i: nat, t: State) {
    && i < |s.clients| == |t.clients|
    && !Inside(s.clients[i].pc) && !Inside(t.clients[i].pc)
    && t == s.(tr := t.tr, op := t.op, clients := s.clients[i := t.clients[i]])
    && Passes(ClientHoldsTransaction(s.clients[i].pc), ClientHoldsTransaction(t.clients[i].pc), s.tr, t.tr, ByClient(i))
  }

  predicate EntersTransaction(s: State, i: nat)
    requires i < |s.clients|
  {
    s.clients[i].pc.TestReady? && s.h.phase == Ready
  }

  lemma ClientArrivesOutside(s: State, i: nat, a: ClientAct, t: State)
    requires ClientStep(s, i, a) == Some(t) && !EntersTransaction(s, i)
    requires var pc := s.clients[i].pc;
             pc.Outside? || pc.WantTransaction? || pc.WantOperation? || pc.TestReady? || pc.ReadyWait?
    ensures OutsideStep(s, i, t)
  {
  }

  lemma ClientDepartsOutside(s: State, i: nat, a: ClientAct, t: State)
    requires ClientStep(s, i, a) == Some(t)
    requires var pc := s.clients[i].pc;
             pc.ReleaseOperation? || pc.BeforeNotification? || pc.NotificationWait? || pc.ReleaseTransaction?
    ensures OutsideStep(s, i, t)
  {
  }

  lemma ClientStepsOutside(s: State, i: nat, a: ClientAct, t: State)
    requires ClientStep(s, i, a) == Some(t) && !Inside(s.clients[i].pc) && !EntersTransaction(s, i)
    ensures OutsideStep(s, i, t)
  {
    match s.clients[i].pc {
      case Outside | WantTransaction | WantOperation | TestReady | ReadyWait(_) => ClientArrivesOutside(s, i, a, t);
      case _ => ClientDepartsOutside(s, i, a, t);
    }
  }

  /** The client inside, if there is one, is another one, and keeps the transaction lock. */
  lemma OutsideStepStays(s: State, i: nat, t: State)
    requires ClientCore(s, i) && OutsideStep(s, i, t)
    ensures Stays(t)
  {
  }

  lemma ClientArrivesMove(s: State, i: nat, a: ClientAct, t: State)
    requires ServerAsleepRightly(s.server, s.h) && ClientStep(s, i, a) == Some(t)
    requires var pc := s.clients[i].pc; pc.Outside? || pc.WantTransaction? || pc.WantOperation?
    ensures ClientMove(s, t, i)
  {
  }

  lemma ClientTestsReadyMove(s: State, i: nat, a: ClientAct, t: State)
    requires ServerAsleepRightly(s.server, s.h) && ClientStep(s, i, a) == Some(t) && s.clients[i].pc.TestReady?
    ensures ClientMove(s, t, i)
  {
  }

  lemma ClientAwaitsReadyMove(s: State, i: nat, a: ClientAct, t: State)
    requires ServerAsleepRightly(s.server, s.h) && ClientStep(s, i, a) == Some(t) && s.clients[i].pc.ReadyWait?
    ensures ClientMove(s, t, i)
  {
  }

  lemma ClientDepartsMove(s: State, i: nat, a: ClientAct, t: State)
    requires ServerAsleepRightly(s.server, s.h) && ClientStep(s, i, a) == Some(t)
    requires var pc := s.clients[i].pc; pc.ReleaseOperation? || pc.BeforeNotification? || pc.ReleaseTransaction?
    ensures ClientMove(s, t, i)
  {
  }

  lemma ClientAwaitsNotificationMove(s: State, i: nat, a: ClientAct, t: State)
    requires ServerAsleepRightly(s.server, s.h) && ClientStep(s, i, a) == Some(t) && s.clients[i].pc.NotificationWait?
    ensures ClientMove(s, t, i)
  {
  }

  lemma ClientEnters(s: State, i: nat, a: ClientAct, t: State)
    requires ClientCore(s, i) && ClientStep(s, i, a) == Some(t) && EntersTransaction(s, i)
    ensures Stays(t)
  {
  }

  lemma ClientGivesUpProducing(s: State, i: nat, p: nat)
    requires ClientCore(s, i) && s.clients[i].pc == Producing(p)
    ensures Stays(AtPC(s, i, Failing))
  {
  }

  lemma ClientProducesPart(s: State, i: nat, p: nat, bytes: Bytes, more: bool)
    requires ClientCore(s, i) && s.clients[i].pc == Producing(p) && s.h.phase == ClientToServer
    ensures Stays(ClientProduces(s, i, p, true, bytes, more))
  {
    OnePartMore(s.cur.sent, bytes);
  }

  lemma ClientProducing(s: State, i: nat, p: nat, ok: bool, bytes: Bytes, more: bool)
    requires ClientCore(s, i) && s.clients[i].pc == Producing(p)
    ensures Stays(ClientProduces(s, i, p, ok, bytes, more))
  {
    if s.h.phase != ClientToServer || !ok {
      ClientGivesUpProducing(s, i, p);
    } else {
      ClientProducesPart(s, i, p, bytes, more);
    }
  }

  lemma ClientProducingMove(s: State, i: nat, p: nat, ok: bool, bytes: Bytes, more: bool)
    requires ServerAsleepRightly(s.server, s.h) && i < |s.clients| && s.clients[i].pc == Producing(p)
    requires s.op == ByClient(i)
    ensures ClientMove(s, ClientProduces(s, i, p, ok, bytes, more), i)
  {
  }

  /** A wait that goes on, or is given up; the operation lock is free or stays as it is. */
  lemma ClientWaitsOn(s: State, i: nat, pc: ClientPC, op: Owner)
    requires ClientCore(s, i) && (s.clients[i].pc.SendWait? || s.clients[i].pc.RecvWait?)
    requires pc == s.clients[i].pc.(asleep := false) || pc == s.clients[i].pc.(asleep := true) || pc.Failing?
    ensures Stays(AtPC(s.(op := op), i, pc))
  {
  }

  lemma ClientResumesSending(s: State, i: nat, p: nat)
    requires ClientCore(s, i) && s.clients[i].pc.SendWait? && s.clients[i].pc.part == p && s.h.clientEvent && s.op.Free?
    ensures Stays(AtPC(s.(op := ByClient(i)), i, Producing(p)))
  {
  }

  lemma ClientResumesReceiving(s: State, i: nat, p: nat)
    requires ClientCore(s, i) && s.clients[i].pc.RecvWait? && s.clients[i].pc.part == p && s.h.clientEvent && s.op.Free?
    ensures Stays(AtPC(s.(op := ByClient(i)), i, Consuming(p)))
  {
  }

  lemma ClientSending(s: State, i: nat, a: ClientAct, t: State)
    requires ClientCore(s, i) && ClientStep(s, i, a) == Some(t) && s.clients[i].pc.SendWait?
    ensures Stays(t)
  {
    if t.clients[i].pc.Producing? {
      assert t == AtPC(s.(op := ByClient(i)), i, Producing(s.clients[i].pc.part));
      ClientResumesSending(s, i, s.clients[i].pc.part);
    } else {
      assert t == AtPC(s.(op := t.op), i, t.clients[i].pc);
      ClientWaitsOn(s, i, t.clients[i].pc, t.op);
    }
  }

  lemma ClientReceiving(s: State, i: nat, a: ClientAct, t: State)
    requires ClientCore(s, i) && ClientStep(s, i, a) == Some(t) && s.clients[i].pc.RecvWait?
    ensures Stays(t)
  {
    if t.clients[i].pc.Consuming? {
      assert t == AtPC(s.(op := ByClient(i)), i, Consuming(s.clients[i].pc.part));
      ClientResumesReceiving(s, i, s.clients[i].pc.part);
    } else {
      assert t == AtPC(s.(op := t.op), i, t.clients[i].pc);
      ClientWaitsOn(s, i, t.clients[i].pc, t.op);
    }
  }

  lemma ClientSendingMove(s: State, i: nat, a: ClientAct, t: State)
    requires ServerAsleepRightly(s.server, s.h) && ClientStep(s, i, a) == Some(t) && s.clients[i].pc.SendWait?
    ensures ClientMove(s, t, i)
  {
  }

  lemma ClientReceivingMove(s: State, i: nat, a: ClientAct, t: State)
    requires ServerAsleepRightly(s.server, s.h) && ClientStep(s, i, a) == Some(t) && s.clients[i].pc.RecvWait?
    ensures ClientMove(s, t, i)
  {
  }

  lemma ClientRejects(s: State, i: nat, p: nat, rc: int)
    requires ClientCore(s, i) && s.clients[i].pc == Consuming(p)
    requires s.h.phase != ServerToClient || s.h.part != p || rc < 0
    ensures Stays(ClientConsumes(s, i, p, rc))
  {
  }

  lemma ClientConsumingPart(s: State, i: nat, p: nat, rc: int)
    requires ClientCore(s, i) && s.clients[i].pc == Consuming(p)
    requires s.h.phase == ServerToClient && s.h.part == p && rc >= 0 && s.h.more
    ensures Stays(ClientConsumes(s, i, p, rc))
  {
    NextPart(s.cur.replied, p);
  }

  lemma ClientConsumingLast(s: State, i: nat, p: nat, rc: int)
    requires ClientCore(s, i) && s.clients[i].pc == Consuming(p)
    requires s.h.phase == ServerToClient && s.h.part == p && rc >= 0 && !s.h.more
    ensures Stays(ClientConsumes(s, i, p, rc))
  {
    NextPart(s.cur.replied, p);
  }

  lemma ClientConsuming(s: State, i: nat, p: nat, rc: int)
    requires ClientCore(s, i) && s.clients[i].pc == Consuming(p)
    ensures Stays(ClientConsumes(s, i, p, rc))
  {
    if s.h.phase != ServerToClient || s.h.part != p || rc < 0 {
      ClientRejects(s, i, p, rc);
    } else if s.h.more {
      ClientConsumingPart(s, i, p, rc);
    } else {
      ClientConsumingLast(s, i, p, rc);
    }
  }

  lemma ClientConsumingPartMove(s: State, i: nat, p: nat, rc: int)
    requires ServerAsleepRightly(s.server, s.h) && i < |s.clients| && s.clients[i].pc == Consuming(p)
    requires s.op == ByClient(i) && s.h.more
    ensures ClientMove(s, ClientConsumes(s, i, p, rc), i)
  {
  }

  lemma ClientConsumingLastMove(s: State, i: nat, p: nat, rc: int)
    requires ServerAsleepRightly(s.server, s.h) && i < |s.clients| && s.clients[i].pc == Consuming(p)
    requires s.op == ByClient(i) && !s.h.more
    ensures ClientMove(s, ClientConsumes(s, i, p, rc), i)
  {
  }

  lemma ClientFailing(s: State, i: nat)
    requires ClientCore(s, i) && s.clients[i].pc.Failing?
    ensures Stays(ClientFails(s, i))
  {
  }

  lemma ClientFailingMove(s: State, i: nat)
    requires ServerAsleepRightly(s.server, s.h) && i < |s.clients| && s.clients[i].pc.Failing?
    ensures ClientMove(s, ClientFails(s, i), i)
  {
  }

  lemma ClientStepStays(s: State, i: nat, a: ClientAct, t: State)
    requires ClientCore(s, i) && ClientStep(s, i, a) == Some(t)
    ensures Stays(t)
  {
    match s.clients[i].pc {
      case Producing(p) => ClientProducing(s, i, p, a.ok, a.bytes, a.more);
      case SendWait(_, _) => ClientSending(s, i, a, t);
      case RecvWait(_, _) => ClientReceiving(s, i, a, t);
      case Consuming(p) => ClientConsuming(s, i, p, a.rc);
      case Failing => ClientFailing(s, i);
      case _ =>
        if EntersTransaction(s, i) {
          ClientEnters(s, i, a, t);
        } else {
          ClientStepsOutside(s, i, a, t);
          OutsideStepStays(s, i, t);
        }
    }
  }

  lemma ClientStepMove(s: State, i: nat, a: ClientAct, t: State)
    requires ServerAsleepRightly(s.server, s.h) && ClientLocks(s, i) && ClientStep(s, i, a) == Some(t)
    ensures ClientMove(s, t, i)
  {
    match s.clients[i].pc {
      case Outside | WantTransaction | WantOperation => ClientArrivesMove(s, i, a, t);
      case TestReady => ClientTestsReadyMove(s, i, a, t);
      case ReadyWait(_) => ClientAwaitsReadyMove(s, i, a, t);
      case Producing(p) => ClientProducingMove(s, i, p, a.ok, a.bytes, a.more);
      case SendWait(_, _) => ClientSendingMove(s, i, a, t);
      case RecvWait(_, _) => ClientReceivingMove(s, i, a, t);
      case Consuming(p) =>
        if s.h.more { ClientConsumingPartMove(s, i, p, a.rc); } else { ClientConsumingLastMove(s, i, p, a.rc); }
      case Failing => ClientFailingMove(s, i);
      case ReleaseOperation(_) | BeforeNotification | ReleaseTransaction(_) => ClientDepartsMove(s, i, a, t);
      case NotificationWait(_) => ClientAwaitsNotificationMove(s, i, a, t);
    }
  }

  // ----- the server's steps ---------------------------------------------------------------------

  /** A step inside the idle loop, or out of it to a shutdown, changes locks and the program counter only. */
  ghost predicate IdleStep(s: State, t: State) {
    && ServerIdle(s.server) && (ServerIdle(t.server) || ServerLeaving(t.server))
    && t == s.(server := t.server, tr := t.tr, op := t.op, df := t.df)
    && Passes(ServerHoldsTransaction(s.server), ServerHoldsTransaction(t.server), s.tr, t.tr, ByServer)
  }

  lemma IdleStepStays(s: State, t: State)
    requires ServerCore(s) && IdleStep(s, t) && (ServerLeaving(t.server) ==> s.op.ByServer?)
    ensures Stays(t)
  {
  }

  lemma ServerIdles(s: State, a: ServerAct, t: State)
    requires ServerStep(s, a) == Some(t) && ServerIdle(s.server) && !s.server.Broadcast? && !s.server.ClearDeferred?
    requires !t.server.Dispatch?
    ensures IdleStep(s, t) && (ServerLeaving(t.server) ==> s.server.Periodic?)
  {
  }

  lemma ServerLeavesIdling(s: State)
    requires ServerCore(s) && s.h.serverEvent && (s.server.IdleTest? || (s.server.IdleWait? && s.op.Free?))
    ensures Stays(s.(op := ByServer, server := Dispatch))
  {
  }

  lemma ServerPollsMove(s: State, a: ServerAct, t: State)
    requires ServerStep(s, a) == Some(t)
    requires s.server.PollLock? || s.server.PollRead? || s.server.ReleaseForNotify? || s.server.Periodic?
    ensures ServerMove(s, t)
  {
  }

  lemma ServerNotifiesMove(s: State, a: ServerAct, t: State)
    requires ServerStep(s, a) == Some(t)
    requires s.server.TryTransaction? || s.server.UnlockTransaction? || s.server.RelockOperation?
    ensures ServerMove(s, t)
  {
  }

  lemma ServerSleepsMove(s: State, a: ServerAct, t: State)
    requires ServerStep(s, a) == Some(t)
    requires s.server.IdleTest? || s.server.IdleWait? || s.server.Dispatch?
    ensures ServerMove(s, t)
  {
  }

  /** Wherever the server ends a transaction, or makes ready for the next one. */
  lemma ServerStartsOrStops(s: State, a: ServerAct, t: State)
    requires Stays(s) && ServerStep(s, a) == Some(t)
    requires || s.server.Start? || s.server.LoopTest? || s.server.SFailing?
             || s.server.Stop? || s.server.Join? || s.server.Exit?
    ensures Stays(t)
  {
    if s.server.Start? || s.server.Join? || s.server.Exit? || (s.server.LoopTest? && t.server.Stop?) {
      ServerPasses(s, t);
    }
  }

  lemma ServerPasses(s: State, t: State)
    requires Stays(s) && t == s.(server := t.server, op := t.op, h := s.h.(running := t.h.running))
    requires s.server.Start? || s.server.Join? || s.server.Exit? || (s.server.LoopTest? && t.server.Stop?)
    ensures Stays(t)
  {
  }

  lemma ServerStartsMove(s: State, a: ServerAct, t: State)
    requires ServerStep(s, a) == Some(t) && (s.server.Start? || s.server.LoopTest?)
    ensures ServerMove(s, t)
  {
  }

  lemma ServerStopsMove(s: State, a: ServerAct, t: State)
    requires ServerStep(s, a) == Some(t)
    requires s.server.SFailing? || s.server.Stop? || s.server.Join? || s.server.Exit?
    ensures ServerMove(s, t)
  {
  }

  lemma ServerDispatches(s: State, pc: ServerPC)
    requires ServerCore(s) && s.server.Dispatch?
    requires pc.LoopTest? || (pc == SConsuming(0) && s.h.phase == ClientToServer)
    ensures Stays(s.(server := pc))
  {
  }

  lemma ServerWaitsOn(s: State, pc: ServerPC)
    requires ServerCore(s) && (s.server.SRecvWait? || s.server.SSendWait? || s.server.FinalWait?)
    requires pc == s.server.(asleep := false) || pc == s.server.(asleep := true)
    ensures Stays(s.(server := pc))
  {
  }

  lemma ServerGivesUp(s: State)
    requires ServerCore(s) && (s.server.SRecvWait? || s.server.SSendWait? || s.server.FinalWait?) && s.op.Free?
    ensures Stays(s.(server := LoopTest, op := ByServer))
  {
  }

  lemma ServerResumesReceiving(s: State, p: nat)
    requires ServerCore(s) && s.server.SRecvWait? && s.server.part == p && s.h.serverEvent && s.op.Free?
    ensures Stays(s.(op := ByServer, server := SConsuming(p)))
  {
  }

  lemma ServerResumesSending(s: State, p: nat)
    requires ServerCore(s) && s.server.SSendWait? && s.server.part == p && s.h.serverEvent && s.op.Free?
    ensures Stays(s.(op := ByServer, server := SProducing(p)))
  {
  }

  lemma ServerWaiting(s: State, a: ServerAct, t: State)
    requires ServerCore(s) && ServerStep(s, a) == Some(t)
    requires s.server.SRecvWait? || s.server.SSendWait? || s.server.FinalWait?
    ensures Stays(t)
  {
    if t.server.SConsuming? {
      ServerResumesReceiving(s, s.server.part);
    } else if t.server.SProducing? {
      ServerResumesSending(s, s.server.part);
    } else if t.server.LoopTest? {
      ServerGivesUp(s);
    } else {
      ServerWaitsOn(s, t.server);
    }
  }

  lemma ServerWaitsMove(s: State, a: ServerAct, t: State)
    requires ServerStep(s, a) == Some(t)
    requires s.server.SRecvWait? || s.server.SSendWait?
    ensures ServerMove(s, t)
  {
  }

  lemma ServerWaitsForClientMove(s: State, a: ServerAct, t: State)
    requires ServerStep(s, a) == Some(t) && s.server.FinalWait?
    ensures ServerMove(s, t)
  {
  }

  lemma ServerRejects(s: State, fatal: bool)
    requires Stays(s) && s.server.SConsuming?
    ensures Stays(s.(server := SFailing(fatal)))
  {
  }

  lemma ServerConsumingPart(s: State, p: nat)
    requires ServerCore(s) && s.server == SConsuming(p) && InCallback(s) && s.h.more
    ensures Stays(ServerConsumes(s, p, Accept))
  {
    NextPart(s.cur.sent, p);
  }

  lemma ServerConsumingLast(s: State, p: nat)
    requires ServerCore(s) && s.server == SConsuming(p) && InCallback(s) && !s.h.more
    ensures Stays(ServerConsumes(s, p, Accept))
  {
    NextPart(s.cur.sent, p);
  }

  lemma ServerConsuming(s: State, p: nat, outcome: Outcome)
    requires ServerCore(s) && s.server == SConsuming(p)
    ensures Stays(ServerConsumes(s, p, outcome))
  {
    if !InCallback(s) {
      ServerRejects(s, false);
    } else if outcome != Accept {
      ServerRejects(s, outcome == Fatal && p == 0);
    } else if s.h.more {
      ServerConsumingPart(s, p);
    } else {
      ServerConsumingLast(s, p);
    }
  }

  lemma ServerConsumingMove(s: State, p: nat, outcome: Outcome)
    requires s.server == SConsuming(p)
    ensures ServerMove(s, ServerConsumes(s, p, outcome))
  {
  }

  lemma ServerProducing(s: State, p: nat, outcome: Outcome, bytes: Bytes, more: bool)
    requires ServerCore(s) && s.server == SProducing(p)
    ensures Stays(ServerProduces(s, p, outcome, bytes, more))
  {
    if s.h.phase == ServerToClient {
      OnePartMore(s.cur.replied, bytes);
    }
  }

  lemma ServerProducingMove(s: State, p: nat, outcome: Outcome, bytes: Bytes, more: bool)
    requires s.server == SProducing(p)
    ensures ServerMove(s, ServerProduces(s, p, outcome, bytes, more))
  {
  }

  lemma ServerIdleStepStays(s: State, a: ServerAct, t: State)
    requires ServerCore(s) && ServerStep(s, a) == Some(t)
    requires ServerIdle(s.server) && !s.server.Broadcast? && !s.server.ClearDeferred?
    ensures Stays(t)
  {
    if t.server.Dispatch? {
      ServerLeavesIdling(s);
    } else {
      ServerIdles(s, a, t);
      IdleStepStays(s, t);
    }
  }

  lemma ServerStepStays(s: State, a: ServerAct, t: State)
    requires ServerCore(s) && ServerStep(s, a) == Some(t) && !s.server.Broadcast? && !s.server.ClearDeferred?
    ensures Stays(t)
  {
    if ServerIdle(s.server) {
      ServerIdleStepStays(s, a, t);
      return;
    }
    match s.server {
      case Dispatch => ServerDispatches(s, t.server);
      case SConsuming(p) => ServerConsuming(s, p, a.outcome);
      case SProducing(p) => ServerProducing(s, p, a.outcome, a.bytes, a.more);
      case SRecvWait(_, _) | SSendWait(_, _) | FinalWait(_) => ServerWaiting(s, a, t);
      case Start | LoopTest | SFailing(_) | Stop | Join | Exit => ServerStartsOrStops(s, a, t);
    }
  }

  lemma ServerStepMove(s: State, a: ServerAct, t: State)
    requires ServerStep(s, a) == Some(t) && !s.server.Broadcast? && !s.server.ClearDeferred?
    ensures ServerMove(s, t)
  {
    match s.server {
      case PollLock | PollRead | ReleaseForNotify | Periodic => ServerPollsMove(s, a, t);
      case TryTransaction | UnlockTransaction | RelockOperation => ServerNotifiesMove(s, a, t);
      case IdleTest | IdleWait(_) | Dispatch => ServerSleepsMove(s, a, t);
      case Start | LoopTest => ServerStartsMove(s, a, t);
      case SConsuming(p) => ServerConsumingMove(s, p, a.outcome);
      case SRecvWait(_, _) | SSendWait(_, _) => ServerWaitsMove(s, a, t);
      case SProducing(p) => ServerProducingMove(s, p, a.outcome, a.bytes, a.more);
      case FinalWait(_) => ServerWaitsForClientMove(s, a, t);
      case SFailing(_) | Stop | Join | Exit => ServerStopsMove(s, a, t);
    }
  }

  /** The broadcast leaves nobody asleep, and nobody can fall asleep while the server holds the
      transaction lock, so clearing the flag after it loses nothing. */
  lemma ServerBroadcasts(s: State, a: ServerAct, t: State)
    requires Inv(s) && ServerStep(s, a) == Some(t) && s.server.Broadcast?
    ensures Inv(t) && (NothingMissed(s) ==> NothingMissed(t))
  {
    assert forall i :: 0 <= i < |t.clients| ==> !LongPolling(t.clients[i].pc);
  }

  lemma ServerClearsFlag(s: State, a: ServerAct, t: State)
    requires Inv(s) && ServerStep(s, a) == Some(t) && s.server.ClearDeferred?
    ensures Inv(t) && (NothingMissed(s) ==> NothingMissed(t))
  {
  }

  // ----- workers, the breaker and the main-loop thread's own calls -------------------------------

  ghost predicate WorkerMove(s: State, t: State, j: nat) {
    && j < |s.workers| == |t.workers|
    && t.workers == s.workers[j := t.workers[j]]
    && (t.clients == s.clients || t.clients == NotifyClients(s.clients))
    && t == s.(workers := t.workers, clients := t.clients, tr := t.tr, df := t.df,
               deferred := t.deferred, revision := t.revision)
    && s.revision <= t.revision
    && Passes(WorkerHoldsTransaction(s.workers[j]), WorkerHoldsTransaction(t.workers[j]), s.tr, t.tr, ByWorker(j))
    && Passes(s.workers[j].WSetFlag?, t.workers[j].WSetFlag?, s.df, t.df, ByWorker(j))
  }

  lemma WorkerMoves(s: State, j: nat, t: State)
    requires WorkerStep(s, j) == Some(t)
    ensures WorkerMove(s, t, j)
  {
  }

  lemma WorkerMoveKeepsLocks(s: State, j: nat, t: State)
    requires LocksMatch(s) && WorkerMove(s, t, j)
    ensures LocksMatch(t)
  {
  }

  lemma WorkerMoveKeepsStep(s: State, j: nat, t: State)
    requires LocksMatch(s) && InStep(s) && WorkerMove(s, t, j)
    ensures InStep(t)
  {
  }

  lemma WorkerMoveKeepsRest(s: State, j: nat, t: State)
    requires Inv(s) && WorkerMove(s, t, j)
    ensures AllIntact(t) && NobodyOversleeps(t) && FromThePast(t)
  {
  }

  lemma WorkerStepKeeps(s: State, j: nat, t: State)
    requires Inv(s) && WorkerStep(s, j) == Some(t)
    ensures Inv(t)
  {
    WorkerMoves(s, j, t);
    WorkerMoveKeepsLocks(s, j, t);
    WorkerMoveKeepsStep(s, j, t);
    WorkerMoveKeepsRest(s, j, t);
  }

  lemma WorkerKeepsPending(s: State, j: nat, t: State)
    requires WorkerStep(s, j) == Some(t) && !s.workers[j].WBroadcast?
    ensures NotificationPending(s) || s.workers[j].WIdle? ==> NotificationPending(t)
  {
    if s.workers[j].WIdle? || s.workers[j].WTry? || s.workers[j].WWantFlag? {
      assert OnItsWay(t.workers[j]);
    } else if k :| 0 <= k < |s.workers| && OnItsWay(s.workers[k]) {
      assert s.workers[j].WSetFlag? || OnItsWay(t.workers[k]);
    }
  }

  /** Holding the transaction lock, a worker wakes every client that could miss its notification. */
  lemma WorkerBroadcasts(s: State, j: nat, t: State)
    requires Inv(s) && WorkerStep(s, j) == Some(t) && s.workers[j].WBroadcast?
    ensures NothingMissed(t)
  {
    assert forall i :: 0 <= i < |t.clients| ==> !LongPolling(t.clients[i].pc);
  }

  /** At its other steps it leaves a notification pending. */
  lemma WorkerKeepsNotifications(s: State, j: nat, t: State)
    requires NothingMissed(s) && WorkerStep(s, j) == Some(t) && !s.workers[j].WBroadcast?
    ensures NothingMissed(t)
  {
    WorkerKeepsPending(s, j, t);
  }

  ghost predicate BreakerMove(s: State, t: State) {
    && t == s.(h := t.h, tr := t.tr, op := t.op, server := t.server, breaker := t.breaker)
    && (|| (t.h == s.h && t.server == s.server)
        || (s.breaker.BSet? && t.h == s.h.(running := false, serverEvent := true) && t.server == WokenServer(s.server)))
    && Passes(BreakerHoldsTransaction(s.breaker), BreakerHoldsTransaction(t.breaker), s.tr, t.tr, ByBreaker)
    && Passes(BreakerHoldsOperation(s.breaker), BreakerHoldsOperation(t.breaker), s.op, t.op, ByBreaker)
  }

  lemma BreakerMoves(s: State, timeout: bool, t: State)
    requires BreakerStep(s, timeout) == Some(t)
    ensures BreakerMove(s, t)
  {
  }

  lemma BreakerMoveKeepsLocks(s: State, t: State)
    requires LocksMatch(s) && BreakerMove(s, t)
    ensures LocksMatch(t)
  {
  }

  lemma BreakerMoveKeepsStep(s: State, t: State)
    requires LocksMatch(s) && InStep(s) && BreakerMove(s, t)
    ensures InStep(t)
  {
  }

  lemma BreakerMoveKeepsRest(s: State, t: State)
    requires Inv(s) && BreakerMove(s, t)
    ensures AllIntact(t) && NobodyOversleeps(t) && FromThePast(t)
  {
  }

  lemma BreakerStepKeeps(s: State, timeout: bool, t: State)
    requires Inv(s) && BreakerStep(s, timeout) == Some(t)
    ensures Inv(t)
  {
    BreakerMoves(s, timeout, t);
    BreakerMoveKeepsLocks(s, t);
    BreakerMoveKeepsStep(s, t);
    BreakerMoveKeepsRest(s, t);
  }

  lemma BreakerKeepsNotifications(s: State, t: State)
    requires NothingMissed(s) && BreakerMove(s, t)
    ensures NothingMissed(t)
  {
    assert NotificationPending(s) ==> NotificationPending(t);
  }

  lemma OwnStepKeepsLocks(s: State, c: OwnCall, t: State)
    requires LocksMatch(s) && OwnStep(s, c) == Some(t)
    ensures LocksMatch(t)
  {
  }

  lemma OwnStepKeeps(s: State, c: OwnCall, t: State)
    requires Inv(s) && OwnStep(s, c) == Some(t)
    ensures Inv(t)
  {
    OwnStepKeepsLocks(s, c, t);
  }

  // ----- all steps, all runs --------------------------------------------------------------------

  lemma ClientStepMoves(s: State, i: nat, a: ClientAct, t: State)
    requires Core(s) && ClientStep(s, i, a) == Some(t)
    ensures ClientMove(s, t, i) && Stays(t)
  {
    CoreIsEnough(s);
    ClientStepStays(s, i, a, t);
    ClientStepMove(s, i, a, t);
  }

  lemma ServerStepMoves(s: State, a: ServerAct, t: State)
    requires Core(s) && ServerStep(s, a) == Some(t) && !s.server.Broadcast? && !s.server.ClearDeferred?
    ensures ServerMove(s, t) && Stays(t)
  {
    CoreIsEnough(s);
    ServerStepStays(s, a, t);
    ServerStepMove(s, a, t);
  }

  lemma ServerStepKeeps(s: State, a: ServerAct, t: State)
    requires Inv(s) && ServerStep(s, a) == Some(t)
    ensures Inv(t) && (NothingMissed(s) ==> NothingMissed(t))
  {
    if s.server.Broadcast? {
      ServerBroadcasts(s, a, t);
    } else if s.server.ClearDeferred? {
      ServerClearsFlag(s, a, t);
    } else {
      ServerStepMoves(s, a, t);
      ServerMoveKeeps(s, t);
      if NothingMissed(s) {
        ServerMoveKeepsNotifications(s, t);
      }
    }
  }

  lemma StepKeeps(s: State, a: Action, t: State)
    requires Inv(s) && Step(s, a) == Some(t)
    ensures Inv(t)
  {
    match a {
      case ActClient(i, c) => ClientStepMoves(s, i, c, t); ClientMoveKeeps(s, t, i);
      case ActServer(x) => ServerStepKeeps(s, x, t);
      case ActOwn(c) => OwnStepKeeps(s, c, t);
      case ActWorker(j) => WorkerStepKeeps(s, j, t);
      case ActBreaker(timeout) => BreakerStepKeeps(s, timeout, t);
    }
  }

  /** The invariant holds along every run, of any number of clients and workers, under any rule. */
  lemma {:induction false} RunKeeps(rule: Rule, s: State, acts: seq<Action>)
    requires Inv(s) && RunUnder(rule, s, acts).Some?
    ensures Inv(RunUnder(rule, s, acts).value)
  {
    if acts != [] {
      var m := acts[..|acts| - 1];
      RunKeeps(rule, s, m);
      StepKeeps(RunUnder(rule, s, m).value, acts[|acts| - 1], RunUnder(rule, s, acts).value);
    }
  }

  /** A run that obeys a rule obeys every weaker one. */
  lemma {:induction false} WeakerRule(rule: Rule, weaker: Rule, s: State, acts: seq<Action>)
    requires forall u, a :: rule(u, a) ==> weaker(u, a)
    requires RunUnder(rule, s, acts).Some?
    ensures RunUnder(weaker, s, acts) == RunUnder(rule, s, acts)
  {
    if acts != [] {
      WeakerRule(rule, weaker, s, acts[..|acts| - 1]);
    }
  }

  lemma RuledRunIsRun(rule: Rule, s: State, acts: seq<Action>)
    requires RunUnder(rule, s, acts).Some?
    ensures Run(s, acts) == RunUnder(rule, s, acts)
  {
    WeakerRule(rule, AnyAction, s, acts);
  }

  lemma ReachableSatisfiesInv(s: State)
    requires Reachable(s)
    ensures Inv(s)
  {
    var n: nat, m: nat, acts: seq<Action> :| Run(Init(n, m), acts) == Some(s);
    InitSatisfiesInv(n, m);
    RunKeeps(AnyAction, Init(n, m), acts);
  }

  // ----- notifications that are in time ---------------------------------------------------------

  /** Everybody who would need a broadcast made now is in the wait: no reply is on its way, and no client has
      its reply but is not waiting yet. */
  predicate Heard(s: State) {
    s.h.phase != ServerToClient && forall i :: 0 <= i < |s.clients| ==> !s.clients[i].pc.BeforeNotification?
  }

  /** The rule that the main-loop thread notifies only then. */
  predicate InTime(s: State, a: Action) {
    a == ActOwn(OwnNotify) ==> Heard(s) || NotificationPending(s)
  }

  lemma OwnNotifyInTime(s: State, t: State)
    requires Inv(s) && NothingMissed(s) && OwnStep(s, OwnNotify) == Some(t) && (Heard(s) || NotificationPending(s))
    ensures NothingMissed(t)
  {
    if NotificationPending(s) {
      assert NotificationPending(t);
    } else {
      assert forall i :: 0 <= i < |t.clients| ==> !LongPolling(t.clients[i].pc);
    }
  }

  lemma OwnBreakKeepsNotifications(s: State, t: State)
    requires NothingMissed(s) && OwnStep(s, OwnBreak) == Some(t)
    ensures NothingMissed(t)
  {
    assert NotificationPending(s) ==> NotificationPending(t);
  }

  lemma StepKeepsNotifications(s: State, a: Action, t: State)
    requires Inv(s) && NothingMissed(s) && Step(s, a) == Some(t) && InTime(s, a)
    ensures NothingMissed(t)
  {
    match a {
      case ActClient(i, c) => ClientStepMoves(s, i, c, t); ClientMoveKeepsNotifications(s, t, i);
      case ActServer(x) => ServerStepKeeps(s, x, t);
      case ActOwn(c) => if c.OwnNotify? { OwnNotifyInTime(s, t); } else { OwnBreakKeepsNotifications(s, t); }
      case ActWorker(j) =>
        if s.workers[j].WBroadcast? { WorkerBroadcasts(s, j, t); } else { WorkerKeepsNotifications(s, j, t); }
      case ActBreaker(timeout) => BreakerMoves(s, timeout, t); BreakerKeepsNotifications(s, t);
    }
  }

  lemma {:induction false} RunKeepsNotifications(s: State, acts: seq<Action>)
    requires Inv(s) && NothingMissed(s) && RunUnder(InTime, s, acts).Some?
    ensures NothingMissed(RunUnder(InTime, s, acts).value)
  {
    if acts != [] {
      var m := acts[..|acts| - 1];
      RunKeepsNotifications(s, m);
      RunKeeps(InTime, s, m);
      StepKeepsNotifications(RunUnder(InTime, s, m).value, acts[|acts| - 1], RunUnder(InTime, s, acts).value);
    }
  }
}
