/** A run in which the main-loop thread notifies from its periodic function, and a client that has just got
    its reply, and is about to wait, never hears of it. */
module IpcLostNotification {
  import opened IpcProtocol
  import opened IpcInvariant
  import opened IpcTheorems
  import opened Wrappers

  const CLIENT_GO := ActClient(0, ClientAct.Go)

  /** What matters below: one client that asked to long-poll, no worker, no break. */
  ghost predicate Scene(s: State, h: Header, tr: Owner, op: Owner, pc: ClientPC, server: ServerPC, revision: nat) {
    && s.h == h && s.tr == tr && s.op == op && s.df.Free? && !s.deferred && s.revision == revision
    && |s.clients| == 1 && s.clients[0].pc == pc && s.clients[0].told == 0
    && (s.clients[0].longPoll || pc.Outside?)
    && (s.clients[0].waitFlag || !(pc.ReleaseOperation? || pc.BeforeNotification? || pc.NotificationWait?))
    && s.server == server && s.workers == [] && s.breaker.BIdle? && s.cur.revision == 0
  }

  function H(phase: Phase, serverEvent: bool, clientEvent: bool): Header {
    Header(phase, 0, false, [], serverEvent, clientEvent, true)
  }

  lemma ServerGetsReady(good: State -> bool, s0: State) returns (s: State)
    requires Closed(good) && good(s0)
    requires Scene(s0, Header(Error, 0, false, [], false, false, false), Free, Free, Outside, Start, 0)
    ensures good(s) && Scene(s, H(Ready, false, false), Free, Free, Outside, IdleWait(true), 0)
  {
    s := Step(s0, GO).value;
    s := Step(s, GO).value;
    s := Step(s, GO).value;
    s := Step(s, GO).value;
    s := Step(s, ACCEPTED).value;
    s := Step(s, GO).value;
  }

  lemma ClientTakesLocks(good: State -> bool, s0: State) returns (s: State)
    requires Closed(good) && good(s0) && Scene(s0, H(Ready, false, false), Free, Free, Outside, IdleWait(true), 0)
    ensures good(s) && Scene(s, H(Ready, false, false), ByClient(0), ByClient(0), TestReady, IdleWait(true), 0)
  {
    s := Step(s0, ActClient(0, Call(true))).value;
    s := Step(s, CLIENT_GO).value;
    s := Step(s, CLIENT_GO).value;
  }

  lemma ClientSendsQuery(good: State -> bool, s0: State) returns (s: State)
    requires Closed(good) && good(s0)
    requires Scene(s0, H(Ready, false, false), ByClient(0), ByClient(0), TestReady, IdleWait(true), 0)
    ensures good(s)
    ensures Scene(s, H(ClientToServer, true, false), ByClient(0), Free, RecvWait(0, true), IdleWait(false), 0)
  {
    s := Step(s0, CLIENT_GO).value;
    s := Step(s, ActClient(0, Produce(true, [], false))).value;
  }

  lemma ServerWakesUp(good: State -> bool, s0: State) returns (s: State)
    requires Closed(good) && good(s0)
    requires Scene(s0, H(ClientToServer, true, false), ByClient(0), Free, RecvWait(0, true), IdleWait(false), 0)
    ensures good(s)
    ensures Scene(s, H(ClientToServer, true, false), ByClient(0), ByServer, RecvWait(0, true), SConsuming(0), 0)
  {
    s := Step(s0, GO).value;
    s := Step(s, GO).value;
  }

  lemma ServerReplies(good: State -> bool, s0: State) returns (s: State)
    requires Closed(good) && good(s0)
    requires Scene(s0, H(ClientToServer, true, false), ByClient(0), ByServer, RecvWait(0, true), SConsuming(0), 0)
    ensures good(s)
    ensures Scene(s, H(ServerToClient, true, true), ByClient(0), Free, RecvWait(0, false), FinalWait(true), 0)
  {
    s := Step(s0, ACCEPTED).value;
    s := Step(s, ACCEPTED).value;
  }

  lemma ClientTakesReply(good: State -> bool, s0: State) returns (s: State)
    requires Closed(good) && good(s0)
    requires Scene(s0, H(ServerToClient, true, true), ByClient(0), Free, RecvWait(0, false), FinalWait(true), 0)
    ensures good(s)
    ensures Scene(s, H(ServerToClient, true, true), ByClient(0), ByClient(0), Consuming(0), FinalWait(true), 0)
  {
    s := Step(s0, CLIENT_GO).value;
  }

  /** The client's consumer answers 1, so the call is to go on when there is news. */
  lemma ClientHasReply(good: State -> bool, s0: State) returns (s: State)
    requires Closed(good) && good(s0)
    requires Scene(s0, H(ServerToClient, true, true), ByClient(0), ByClient(0), Consuming(0), FinalWait(true), 0)
    ensures good(s)
    ensures Scene(s, H(Done, true, true), ByClient(0), Free, BeforeNotification, FinalWait(false), 0)
  {
    s := Step(s0, ActClient(0, Consume(1))).value;
    s := Step(s, CLIENT_GO).value;
  }

  lemma ServerNotifiesTooEarly(good: State -> bool, s0: State) returns (s: State)
    requires Closed(good) && good(s0)
    requires Scene(s0, H(Done, true, true), ByClient(0), Free, BeforeNotification, FinalWait(false), 0)
    ensures good(s)
    ensures Scene(s, H(Ready, false, true), ByClient(0), ByServer, BeforeNotification, Periodic, 1)
  {
    s := Step(s0, GO).value;
    s := Step(s, GO).value;
    s := Step(s, GO).value;
    s := Step(s, GO).value;
    s := Step(s, ActOwn(OwnNotify)).value;
  }

  lemma ClientSleepsThroughIt(good: State -> bool, s0: State) returns (s: State)
    requires Closed(good) && good(s0)
    requires Scene(s0, H(Ready, false, true), ByClient(0), ByServer, BeforeNotification, Periodic, 1)
    ensures good(s)
    ensures Scene(s, H(Ready, false, true), Free, ByServer, NotificationWait(true), Periodic, 1)
  {
    s := Step(s0, CLIENT_GO).value;
  }

  lemma NotificationGetsLost(good: State -> bool, s0: State) returns (s: State)
    requires Closed(good) && good(s0)
    requires Scene(s0, Header(Error, 0, false, [], false, false, false), Free, Free, Outside, Start, 0)
    ensures good(s)
    ensures Scene(s, H(Ready, false, true), Free, ByServer, NotificationWait(true), Periodic, 1)
  {
    s := ServerGetsReady(good, s0);
    s := ClientTakesLocks(good, s);
    s := ClientSendsQuery(good, s);
    s := ServerWakesUp(good, s);
    s := ServerReplies(good, s);
    s := ClientTakesReply(good, s);
    s := ClientHasReply(good, s);
    s := ServerNotifiesTooEarly(good, s);
    s := ClientSleepsThroughIt(good, s);
  }

  /** The client now sleeps on a model that has moved on, and no notification is on its way. */
  lemma NotificationCanBeLost() returns (s: State)
    ensures Reachable(s) && |s.clients| == 1 && s.clients[0].pc == NotificationWait(true)
    ensures s.clients[0].told < s.revision && SomethingLost(s)
  {
    ReachableIsClosed(1, 0);
    s := NotificationGetsLost(Reachable, Init(1, 0));
    assert LongPolling(s.clients[0].pc);
  }
}
