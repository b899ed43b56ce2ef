/** What a call returns says what happened, in every reachable state and whatever goes wrong. */
module IpcAnswers {
  import opened IpcProtocol
  import opened IpcInvariant
  import opened IpcTheorems
  import opened IpcFaultFree
  import opened Wrappers

  /** The client's consumer asked, for some part, to wait for a notification. */
  predicate AsksToWait(x: Exchange) {
    exists k :: 0 <= k < |x.answers| && x.answers[k] > 0
  }

  /** The transaction that the call of the client is in or went through last. */
  function LastOf(s: State, c: ClientState): Option<Exchange> {
    if c.begun.Some? && c.begun.value <= |s.past| then Some(Exchanges(s)[c.begun.value]) else None
  }

  /** The whole reply was taken, and nothing was left to wait for. */
  predicate Satisfied(x: Exchange, longPoll: bool) {
    x.complete && !(longPoll && AsksToWait(x))
  }

  /** What a call may return: 0 exactly if its last transaction is satisfied, -1 if it has one that is not, and -1
      or -2 if it could not begin one. */
  predicate RightAnswer(last: Option<Exchange>, longPoll: bool, ret: int) {
    match last
    case None => ret == -1 || ret == -2
    case Some(x) => ret == if Satisfied(x, longPoll) then 0 else -1
  }

  /** What `ipc_msg_client_recv` hands back: -1 unless the reply is complete, and then whether to wait. */
  predicate RightHandover(last: Option<Exchange>, ret: int) {
    match last
    case None => ret == -1
    case Some(x) => ret == if !x.complete then -1 else if AsksToWait(x) then 1 else 0
  }

  // ----- the invariant --------------------------------------------------------------------------

  /** The client waits, or is about to, because its consumer asked it to and it was called to long-poll. */
  predicate WaitsForGoodReason(last: Option<Exchange>, longPoll: bool) {
    last.Some? && last.value.complete && longPoll && AsksToWait(last.value)
  }

  predicate HonestAt(s: State, c: ClientState) {
    match c.pc
    case Outside => c.result.Some? ==> RightAnswer(LastOf(s, c), c.longPoll, c.result.value)
    case ReleaseOperation(ret) => RightHandover(LastOf(s, c), ret)
    case BeforeNotification => WaitsForGoodReason(LastOf(s, c), c.longPoll)
    case NotificationWait(_) => WaitsForGoodReason(LastOf(s, c), c.longPoll)
    case ReleaseTransaction(ret) => RightAnswer(LastOf(s, c), c.longPoll, ret)
    case _ => if Inside(c.pc) then c.begun == Some(|s.past|) && !s.cur.complete else c.begun.None?
  }

  /** The client's last transaction is its own, and the flag that its receive loop keeps tells what was asked. */
  predicate Owns(s: State, i: nat, c: ClientState) {
    c.begun.Some? ==>
      && c.begun.value <= |s.past|
      && Exchanges(s)[c.begun.value].client == i
      && (c.waitFlag <==> AsksToWait(Exchanges(s)[c.begun.value]))
  }

  predicate Honest(s: State, i: nat)
    requires i < |s.clients|
  {
    var c := s.clients[i];
    Owns(s, i, c) && HonestAt(s, c) && (c.result.Some? ==> c.pc.Outside?)
  }

  /** Transaction `k` is client `i`'s, and it has begun none since. */
  predicate IsLastOf(s: State, i: nat, k: nat) {
    && k <= |s.past| && Exchanges(s)[k].client == i
    && forall j :: k < j <= |s.past| ==> Exchanges(s)[j].client != i
  }

  predicate KnowsLast(s: State, i: nat)
    requires i < |s.clients|
  {
    s.clients[i].begun.Some? ==> IsLastOf(s, i, s.clients[i].begun.value)
  }

  ghost predicate AllHonest(s: State) {
    forall i :: 0 <= i < |s.clients| ==> Honest(s, i) && KnowsLast(s, i)
  }

  // ----- steps of the client itself -------------------------------------------------------------

  lemma OneMoreAnswer(answers: seq<int>, rc: int, x: Exchange, y: Exchange)
    requires x.answers == answers && y.answers == answers + [rc]
    ensures AsksToWait(y) <==> AsksToWait(x) || rc > 0
  {
    if rc > 0 {
      assert y.answers[|answers|] > 0;
    }
    if AsksToWait(x) {
      var k :| 0 <= k < |x.answers| && x.answers[k] > 0;
      assert y.answers[k] > 0;
    }
    if AsksToWait(y) {
      var k :| 0 <= k < |y.answers| && y.answers[k] > 0;
      assert k == |answers| || x.answers[k] > 0;
    }
  }

  lemma ConsumerAnswersHonestly(s: State, i: nat, p: nat, rc: int)
    requires i < |s.clients| && Honest(s, i) && s.clients[i].pc == Consuming(p)
    ensures |ClientConsumes(s, i, p, rc).clients| == |s.clients| && Honest(ClientConsumes(s, i, p, rc), i)
  {
    var t := ClientConsumes(s, i, p, rc);
    if t.cur != s.cur {
      OneMoreAnswer(s.cur.answers, rc, s.cur, t.cur);
    }
  }

  lemma ProducerStaysHonest(s: State, i: nat, p: nat, ok: bool, bytes: Bytes, more: bool)
    requires i < |s.clients| && Honest(s, i) && s.clients[i].pc == Producing(p)
    ensures |ClientProduces(s, i, p, ok, bytes, more).clients| == |s.clients|
    ensures Honest(ClientProduces(s, i, p, ok, bytes, more), i)
  {
    assert AsksToWait(ClientProduces(s, i, p, ok, bytes, more).cur) <==> AsksToWait(s.cur);
  }

  lemma FailureIsAnswered(s: State, i: nat)
    requires i < |s.clients| && Honest(s, i) && s.clients[i].pc.Failing?
    ensures |ClientFails(s, i).clients| == |s.clients| && Honest(ClientFails(s, i), i)
  {
  }

  lemma EntersHonestly(s: State, i: nat, a: ClientAct, t: State)
    requires i < |s.clients| && Honest(s, i) && ClientStep(s, i, a) == Some(t) && EntersTransaction(s, i)
    ensures |t.clients| == |s.clients| && Honest(t, i)
  {
    assert Exchanges(t)[|s.past| + 1] == t.cur;
  }

  lemma ArrivesHonestly(s: State, i: nat, a: ClientAct, t: State)
    requires i < |s.clients| && Honest(s, i) && ClientStep(s, i, a) == Some(t) && !EntersTransaction(s, i)
    requires var pc := s.clients[i].pc;
             pc.Outside? || pc.WantTransaction? || pc.WantOperation? || pc.TestReady? || pc.ReadyWait?
    ensures |t.clients| == |s.clients| && Honest(t, i)
  {
    if s.clients[i].pc.TestReady? || s.clients[i].pc.ReadyWait? {
      AwaitsReadyHonestly(s, i, a, t);
    }
  }

  lemma AwaitsReadyHonestly(s: State, i: nat, a: ClientAct, t: State)
    requires i < |s.clients| && Honest(s, i) && ClientStep(s, i, a) == Some(t) && !EntersTransaction(s, i)
    requires s.clients[i].pc.TestReady? || s.clients[i].pc.ReadyWait?
    ensures |t.clients| == |s.clients| && Honest(t, i)
  {
  }

  lemma SendWaitsHonestly(s: State, i: nat, a: ClientAct, t: State)
    requires i < |s.clients| && Honest(s, i) && ClientStep(s, i, a) == Some(t) && s.clients[i].pc.SendWait?
    ensures |t.clients| == |s.clients| && Honest(t, i)
  {
  }

  lemma RecvWaitsHonestly(s: State, i: nat, a: ClientAct, t: State)
    requires i < |s.clients| && Honest(s, i) && ClientStep(s, i, a) == Some(t) && s.clients[i].pc.RecvWait?
    ensures |t.clients| == |s.clients| && Honest(t, i)
  {
  }

  lemma DepartsHonestly(s: State, i: nat, a: ClientAct, t: State)
    requires i < |s.clients| && Honest(s, i) && ClientStep(s, i, a) == Some(t)
    requires var pc := s.clients[i].pc;
             pc.ReleaseOperation? || pc.BeforeNotification? || pc.NotificationWait? || pc.ReleaseTransaction?
    ensures |t.clients| == |s.clients| && Honest(t, i)
  {
    assert t.past == s.past && t.cur == s.cur;
    if s.clients[i].pc.ReleaseOperation? {
      ReleasesHonestly(s, i, a, t);
    }
  }

  lemma ReleasesHonestly(s: State, i: nat, a: ClientAct, t: State)
    requires i < |s.clients| && Honest(s, i) && ClientStep(s, i, a) == Some(t) && s.clients[i].pc.ReleaseOperation?
    ensures |t.clients| == |s.clients| && Honest(t, i)
  {
    assert t.past == s.past && t.cur == s.cur;
  }

  lemma OwnStepHonest(s: State, i: nat, a: ClientAct, t: State)
    requires i < |s.clients| && Honest(s, i) && ClientStep(s, i, a) == Some(t)
    ensures |t.clients| == |s.clients| && Honest(t, i)
  {
    match s.clients[i].pc {
      case Producing(p) => ProducerStaysHonest(s, i, p, a.ok, a.bytes, a.more);
      case Consuming(p) => ConsumerAnswersHonestly(s, i, p, a.rc);
      case SendWait(_, _) => SendWaitsHonestly(s, i, a, t);
      case RecvWait(_, _) => RecvWaitsHonestly(s, i, a, t);
      case Failing => FailureIsAnswered(s, i);
      case ReleaseOperation(_) | BeforeNotification | NotificationWait(_) | ReleaseTransaction(_) =>
        DepartsHonestly(s, i, a, t);
      case _ => if EntersTransaction(s, i) { EntersHonestly(s, i, a, t); } else { ArrivesHonestly(s, i, a, t); }
    }
  }

  // ----- steps of anybody else ------------------------------------------------------------------

  predicate SameAnswers(x: Exchange, y: Exchange) {
    x.client == y.client && x.complete == y.complete && x.answers == y.answers
  }

  /** Client `i` is at most woken, and its transactions, the current one included, are answered as before. */
  predicate LeavesAlone(s: State, t: State, i: nat)
    requires i < |s.clients|
  {
    var c := s.clients[i];
    && |t.clients| == |s.clients|
    && (t.clients[i] == c || t.clients[i] == WokenByClientEvent(c) || t.clients[i] == WokenByNotification(c))
    && (|| (t.past == s.past && t.cur.client == s.cur.client && (SameAnswers(t.cur, s.cur) || s.cur.client != i))
        || (t.past == s.past + [s.cur] && t.cur.client != i && !Inside(c.pc)))
  }

  lemma LeftAloneStaysHonest(s: State, t: State, i: nat)
    requires i < |s.clients| && Honest(s, i) && LeavesAlone(s, t, i)
    ensures Honest(t, i)
  {
    var c := s.clients[i];
    if c.begun.Some? {
      var x, y := Exchanges(s)[c.begun.value], Exchanges(t)[c.begun.value];
      assert SameAnswers(x, y);
      assert AsksToWait(x) <==> AsksToWait(y);
    }
  }

  /** A client changes how a transaction is answered only if it is its own. */
  lemma ClientAnswersForItself(s: State, j: nat, a: ClientAct, t: State)
    requires ClientCore(s, j) && ClientStep(s, j, a) == Some(t) && !EntersTransaction(s, j)
    ensures t.past == s.past && t.cur.client == s.cur.client && (SameAnswers(t.cur, s.cur) || s.cur.client == j)
  {
    if !Inside(s.clients[j].pc) {
      ClientStepsOutside(s, j, a, t);
    } else if !s.clients[j].pc.Consuming? {
      OnlyConsumerAnswers(s, j, a, t);
    }
  }

  lemma OnlyConsumerAnswers(s: State, j: nat, a: ClientAct, t: State)
    requires ClientStep(s, j, a) == Some(t) && Inside(s.clients[j].pc) && !s.clients[j].pc.Consuming?
    ensures t.past == s.past && t.cur.client == s.cur.client && SameAnswers(t.cur, s.cur)
  {
  }

  lemma OtherClientLeavesAlone(s: State, j: nat, a: ClientAct, t: State, i: nat)
    requires Inv(s) && ClientStep(s, j, a) == Some(t) && i < |s.clients| && i != j
    ensures LeavesAlone(s, t, i)
  {
    CoreIsEnough(s);
    ClientStepMove(s, j, a, t);
    if EntersTransaction(s, j) {
      assert s.tr == ByClient(j);
    } else {
      ClientAnswersForItself(s, j, a, t);
    }
  }

  lemma ServerTouches(s: State, a: ServerAct, t: State)
    requires ServerStep(s, a) == Some(t)
    ensures t.past == s.past && SameAnswers(t.cur, s.cur)
    ensures t.clients == s.clients || t.clients == WakeClients(s.clients) || t.clients == NotifyClients(s.clients)
  {
    if !s.server.Broadcast? && !s.server.ClearDeferred? {
      ServerStepMove(s, a, t);
    }
    if ServerIdle(s.server) {
      IdleServerKeepsTransaction(s, a, t);
    } else {
      ServerKeepsAnswers(s, a, t);
    }
  }

  lemma IdleServerKeepsTransaction(s: State, a: ServerAct, t: State)
    requires ServerStep(s, a) == Some(t) && ServerIdle(s.server)
    ensures t.past == s.past && t.cur == s.cur
  {
  }

  lemma ServerKeepsAnswers(s: State, a: ServerAct, t: State)
    requires ServerStep(s, a) == Some(t) && !ServerIdle(s.server)
    ensures t.past == s.past && SameAnswers(t.cur, s.cur)
  {
    if !s.server.SConsuming? && !s.server.SProducing? {
      ServerBetweenCallbacks(s, a, t);
    }
  }

  lemma ServerBetweenCallbacks(s: State, a: ServerAct, t: State)
    requires ServerStep(s, a) == Some(t) && !ServerIdle(s.server) && !s.server.SConsuming? && !s.server.SProducing?
    ensures t.past == s.past && t.cur == s.cur
  {
  }

  lemma OtherStepLeavesAlone(s: State, a: Action, t: State, i: nat)
    requires Inv(s) && Step(s, a) == Some(t) && i < |s.clients|
    requires a.ActClient? ==> a.i != i
    ensures LeavesAlone(s, t, i)
  {
    match a {
      case ActClient(j, c) => OtherClientLeavesAlone(s, j, c, t, i);
      case ActServer(x) => ServerTouches(s, x, t);
      case ActOwn(_) =>
      case ActWorker(j) => WorkerMoves(s, j, t);
      case ActBreaker(timeout) => BreakerMoves(s, timeout, t);
    }
  }

  // ----- which transaction was the last ---------------------------------------------------------

  lemma LeftAloneKnowsLast(s: State, t: State, i: nat)
    requires i < |s.clients| && KnowsLast(s, i) && LeavesAlone(s, t, i)
    ensures KnowsLast(t, i)
  {
    if s.clients[i].begun.Some? {
      LastStaysLast(s, t, i, s.clients[i].begun.value);
    }
  }

  lemma LastStaysLast(s: State, t: State, i: nat, k: nat)
    requires IsLastOf(s, i, k)
    requires || (t.past == s.past && t.cur.client == s.cur.client)
             || (t.past == s.past + [s.cur] && t.cur.client != i)
    ensures IsLastOf(t, i, k)
  {
    forall j | k <= j <= |t.past| ensures Exchanges(t)[j].client != i || j == k {
      assert j <= |s.past| ==> Exchanges(t)[j].client == Exchanges(s)[j].client;
    }
  }

  lemma OwnStepKnowsLast(s: State, i: nat, a: ClientAct, t: State)
    requires ClientCore(s, i) && ServerAsleepRightly(s.server, s.h) && KnowsLast(s, i) && ClientStep(s, i, a) == Some(t)
    ensures |t.clients| == |s.clients| && KnowsLast(t, i)
  {
    ClientStepMove(s, i, a, t);
    if EntersTransaction(s, i) {
      assert t.clients[i].begun == Some(|t.past|) && t.cur.client == i;
    } else {
      ClientAnswersForItself(s, i, a, t);
      BegunStays(s, i, a, t);
      if t.clients[i].begun.Some? {
        LastStaysLast(s, t, i, t.clients[i].begun.value);
      }
    }
  }

  lemma BegunStays(s: State, i: nat, a: ClientAct, t: State)
    requires ClientStep(s, i, a) == Some(t) && |t.clients| == |s.clients| && !EntersTransaction(s, i)
    ensures t.clients[i].begun == s.clients[i].begun || t.clients[i].begun.None?
    ensures a.Call? || t.clients[i].longPoll == s.clients[i].longPoll
  {
    match s.clients[i].pc {
      case Producing(_) | SendWait(_, _) | RecvWait(_, _) => BegunStaysSending(s, i, a, t);
      case Consuming(_) | Failing | ReleaseOperation(_) | BeforeNotification | ReleaseTransaction(_) =>
        BegunStaysReceiving(s, i, a, t);
      case _ => BegunStaysOutside(s, i, a, t);
    }
  }

  lemma BegunStaysSending(s: State, i: nat, a: ClientAct, t: State)
    requires ClientStep(s, i, a) == Some(t) && |t.clients| == |s.clients|
    requires s.clients[i].pc.Producing? || s.clients[i].pc.SendWait? || s.clients[i].pc.RecvWait?
    ensures t.clients[i].begun == s.clients[i].begun && t.clients[i].longPoll == s.clients[i].longPoll
  {
  }

  lemma BegunStaysReceiving(s: State, i: nat, a: ClientAct, t: State)
    requires ClientStep(s, i, a) == Some(t) && |t.clients| == |s.clients|
    requires var pc := s.clients[i].pc;
             pc.Consuming? || pc.Failing? || pc.ReleaseOperation? || pc.BeforeNotification? || pc.ReleaseTransaction?
    ensures t.clients[i].begun == s.clients[i].begun && t.clients[i].longPoll == s.clients[i].longPoll
  {
  }

  lemma BegunStaysOutside(s: State, i: nat, a: ClientAct, t: State)
    requires ClientStep(s, i, a) == Some(t) && |t.clients| == |s.clients| && !EntersTransaction(s, i)
    requires var pc := s.clients[i].pc;
             || pc.Outside? || pc.WantTransaction? || pc.WantOperation? || pc.TestReady? || pc.ReadyWait?
             || pc.NotificationWait?
    ensures t.clients[i].begun == s.clients[i].begun || t.clients[i].begun.None?
    ensures a.Call? || t.clients[i].longPoll == s.clients[i].longPoll
  {
  }

  // ----- all runs -------------------------------------------------------------------------------

  lemma StepKeepsHonest(s: State, a: Action, t: State)
    requires Inv(s) && AllHonest(s) && Step(s, a) == Some(t)
    ensures AllHonest(t)
  {
    StepKeepsClients(s, a, t);
    forall i | 0 <= i < |t.clients| ensures Honest(t, i) && KnowsLast(t, i) {
      if a.ActClient? && a.i == i {
        CoreIsEnough(s);
        OwnStepHonest(s, i, a.c, t);
        OwnStepKnowsLast(s, i, a.c, t);
      } else {
        OtherStepLeavesAlone(s, a, t, i);
        LeftAloneStaysHonest(s, t, i);
        LeftAloneKnowsLast(s, t, i);
      }
    }
  }

  lemma StepKeepsClients(s: State, a: Action, t: State)
    requires Inv(s) && Step(s, a) == Some(t)
    ensures |t.clients| == |s.clients|
  {
    match a {
      case ActClient(i, c) => ClientStepMoves(s, i, c, t);
      case ActServer(x) => ServerTouches(s, x, t);
      case ActOwn(_) =>
      case ActWorker(j) => WorkerMoves(s, j, t);
      case ActBreaker(timeout) => BreakerMoves(s, timeout, t);
    }
  }

  lemma {:induction false} RunKeepsHonest(s: State, acts: seq<Action>, t: State)
    requires Inv(s) && AllHonest(s) && Run(s, acts) == Some(t)
    ensures Inv(t) && AllHonest(t)
  {
    if acts != [] {
      var m := acts[..|acts| - 1];
      var u := Run(s, m).value;
      RunKeepsHonest(s, m, u);
      StepKeeps(u, acts[|acts| - 1], t);
      StepKeepsHonest(u, acts[|acts| - 1], t);
    }
  }

  lemma ReachableIsHonest(s: State)
    requires Reachable(s)
    ensures Inv(s) && AllHonest(s)
  {
    var n: nat, m: nat, acts: seq<Action> :| Run(Init(n, m), acts) == Some(s);
    InitSatisfiesInv(n, m);
    RunKeepsHonest(Init(n, m), acts, s);
  }

  // ----- what a call returns --------------------------------------------------------------------

  /** A call that has returned: 0 if and only if it went through a transaction of its own whose whole reply it
      took and whose consumer, if the call long-polls, asked for no notification; -2 only if it could not begin
      one; and -1 otherwise. */
  lemma AnswerIff(s: State, i: nat)
    requires Reachable(s) && i < |s.clients| && s.clients[i].result.Some?
    ensures s.clients[i].pc.Outside?
    ensures s.clients[i].result.value == 0 <==>
            LastOf(s, s.clients[i]).Some? && Satisfied(LastOf(s, s.clients[i]).value, s.clients[i].longPoll)
    ensures s.clients[i].result.value != 0 ==>
            s.clients[i].result.value == -1 || (s.clients[i].result.value == -2 && s.clients[i].begun.None?)
    ensures s.clients[i].begun.Some? ==> IsLastOf(s, i, s.clients[i].begun.value)
  {
    ReachableIsHonest(s);
    assert Honest(s, i) && KnowsLast(s, i);
  }

  /** The same on the way out: what the receive loop hands back, who waits for a notification, and what the call
      is about to return. */
  lemma AnswerOnItsWay(s: State, i: nat)
    requires Reachable(s) && i < |s.clients|
    ensures var c := s.clients[i];
      match c.pc
      case ReleaseOperation(ret) =>
        && (ret >= 0 <==> LastOf(s, c).Some? && LastOf(s, c).value.complete)
        && (ret > 0 ==> AsksToWait(LastOf(s, c).value)) && (ret == 0 ==> !AsksToWait(LastOf(s, c).value))
      case BeforeNotification =>
        LastOf(s, c).Some? && LastOf(s, c).value.complete && AsksToWait(LastOf(s, c).value) && c.longPoll
      case NotificationWait(_) =>
        LastOf(s, c).Some? && LastOf(s, c).value.complete && AsksToWait(LastOf(s, c).value) && c.longPoll
      case ReleaseTransaction(ret) =>
        && ret <= 0
        && (ret == 0 <==> LastOf(s, c).Some? && Satisfied(LastOf(s, c).value, c.longPoll))
      case _ => true
  {
    ReachableIsHonest(s);
    assert Honest(s, i);
  }

  // ----- from the call to its answer ------------------------------------------------------------

  /** Runs in which client `i` does not call again. */
  function NotCalledAgain(i: nat): Rule {
    (s: State, a: Action) => !(a.ActClient? && a.i == i && a.c.Call?)
  }

  /** Client `i` is in or after the call that came when there were `n` transactions before the current one. */
  predicate SinceCall(s: State, i: nat, longPoll: bool, n: nat) {
    && i < |s.clients| && s.clients[i].longPoll == longPoll && n <= |s.past|
    && (s.clients[i].begun.Some? ==> s.clients[i].begun.value > n)
  }

  lemma OwnStepSinceCall(s: State, i: nat, a: ClientAct, t: State, longPoll: bool, n: nat)
    requires Inv(s) && SinceCall(s, i, longPoll, n) && ClientStep(s, i, a) == Some(t) && !a.Call?
    ensures SinceCall(t, i, longPoll, n)
  {
    CoreIsEnough(s);
    ClientStepMove(s, i, a, t);
    if !EntersTransaction(s, i) {
      BegunStays(s, i, a, t);
    }
  }

  lemma StepSinceCall(s: State, a: Action, t: State, i: nat, longPoll: bool, n: nat)
    requires Inv(s) && SinceCall(s, i, longPoll, n) && Step(s, a) == Some(t) && NotCalledAgain(i)(s, a)
    ensures SinceCall(t, i, longPoll, n)
  {
    if a.ActClient? && a.i == i {
      OwnStepSinceCall(s, i, a.c, t, longPoll, n);
    } else {
      OtherStepLeavesAlone(s, a, t, i);
    }
  }

  lemma {:induction false} RunSinceCall(s: State, acts: seq<Action>, t: State, i: nat, longPoll: bool, n: nat)
    requires Reachable(s) && SinceCall(s, i, longPoll, n) && RunUnder(NotCalledAgain(i), s, acts) == Some(t)
    ensures Reachable(t) && SinceCall(t, i, longPoll, n)
  {
    if acts != [] {
      var m := acts[..|acts| - 1];
      var u := RunUnder(NotCalledAgain(i), s, m).value;
      RunSinceCall(s, m, u, i, longPoll, n);
      ReachableSatisfiesInv(u);
      StepReaches(u, acts[|acts| - 1]);
      StepSinceCall(u, acts[|acts| - 1], t, i, longPoll, n);
    }
  }

  /** From the call to its answer, whatever happens in between: it returns 0 if and only if it went through a
      transaction that began after the call, whose whole reply it took, and, if it was called to long-poll, left
      nothing to wait for; and it waits for a notification only if it was called to long-poll. */
  lemma CallGetsItsAnswer(s: State, i: nat, longPoll: bool, u: State, acts: seq<Action>, t: State)
    requires Reachable(s) && Step(s, ActClient(i, Call(longPoll))) == Some(u)
    requires RunUnder(NotCalledAgain(i), u, acts) == Some(t)
    ensures i < |t.clients| && |s.past| <= |t.past|
    ensures t.clients[i].begun.Some? ==> |s.past| < t.clients[i].begun.value && IsLastOf(t, i, t.clients[i].begun.value)
    ensures t.clients[i].result.Some? ==>
      (t.clients[i].result.value == 0 <==>
       LastOf(t, t.clients[i]).Some? && Satisfied(LastOf(t, t.clients[i]).value, longPoll))
    ensures t.clients[i].pc.NotificationWait? ==> longPoll
  {
    StepReaches(s, ActClient(i, Call(longPoll)));
    RunSinceCall(u, acts, t, i, longPoll, |s.past|);
    ReachableIsHonest(t);
    assert Honest(t, i) && KnowsLast(t, i);
  }

  // ----- a call that nothing disturbs -----------------------------------------------------------

  /** Runs without faults in which, besides, client `i` never times out. */
  function Patient(i: nat): Rule {
    (s: State, a: Action) => Faultless(s, a) && (a.ActClient? && a.i == i ==> !a.c.Timeout?)
  }

  /** The client has not been told of a failure, and is not about to be. */
  predicate DoesWell(c: ClientState) {
    && (c.result.Some? ==> c.result.value == 0)
    && match c.pc
       case Failing => false
       case ReleaseOperation(ret) => ret >= 0
       case ReleaseTransaction(ret) => ret == 0
       case _ => true
  }

  lemma OutsideDoesWell(s: State, i: nat, a: ClientAct, t: State)
    requires i < |s.clients| && DoesWell(s.clients[i]) && ClientStep(s, i, a) == Some(t) && !a.Timeout?
    requires !Inside(s.clients[i].pc)
    ensures i < |t.clients| && DoesWell(t.clients[i])
  {
  }

  lemma InsideDoesWell(s: State, i: nat, a: ClientAct, t: State)
    requires i < |s.clients| && DoesWell(s.clients[i]) && ClientStep(s, i, a) == Some(t)
    requires Inside(s.clients[i].pc) && i < |t.clients| && !t.clients[i].pc.Failing?
    ensures DoesWell(t.clients[i])
  {
    if s.clients[i].pc.Producing? || s.clients[i].pc.Consuming? {
      CallbackDoesWell(s, i, a, t);
    }
  }

  lemma CallbackDoesWell(s: State, i: nat, a: ClientAct, t: State)
    requires i < |s.clients| && DoesWell(s.clients[i]) && ClientStep(s, i, a) == Some(t)
    requires s.clients[i].pc.Producing? || s.clients[i].pc.Consuming?
    requires i < |t.clients| && !t.clients[i].pc.Failing?
    ensures DoesWell(t.clients[i])
  {
  }

  lemma LeftAloneDoesWell(s: State, t: State, i: nat)
    requires i < |s.clients| && LeavesAlone(s, t, i) && DoesWell(s.clients[i])
    ensures DoesWell(t.clients[i])
  {
  }

  lemma OwnStepDoesWell(s: State, i: nat, a: ClientAct, t: State)
    requires i < |s.clients| == |t.clients| && DoesWell(s.clients[i]) && ClientStep(s, i, a) == Some(t)
    requires !a.Timeout? || MidTransaction(s.clients[i].pc)
    requires !t.clients[i].pc.Failing?
    ensures DoesWell(t.clients[i])
  {
    if Inside(s.clients[i].pc) {
      InsideDoesWell(s, i, a, t);
    } else {
      OutsideDoesWell(s, i, a, t);
    }
  }

  lemma StepDoesWell(s: State, a: Action, t: State, i: nat)
    requires Inv(s) && Serving(t) && i < |s.clients| == |t.clients| && DoesWell(s.clients[i])
    requires Step(s, a) == Some(t) && Patient(i)(s, a)
    ensures DoesWell(t.clients[i])
  {
    if a.ActClient? && a.i == i {
      OwnStepDoesWell(s, i, a.c, t);
    } else {
      OtherStepLeavesAlone(s, a, t, i);
      LeftAloneDoesWell(s, t, i);
    }
  }

  lemma {:induction false} RunDoesWell(s: State, acts: seq<Action>, t: State, i: nat)
    requires Inv(s) && Serving(s) && AllHonest(s) && i < |s.clients| && DoesWell(s.clients[i])
    requires RunUnder(Patient(i), s, acts) == Some(t)
    ensures Inv(t) && Serving(t) && AllHonest(t) && |t.clients| == |s.clients| && DoesWell(t.clients[i])
  {
    if acts != [] {
      var m := acts[..|acts| - 1];
      var a := acts[|acts| - 1];
      var u := RunUnder(Patient(i), s, m).value;
      RunDoesWell(s, m, u, i);
      StepKeeps(u, a, t);
      StepKeepsServing(u, a, t);
      StepKeepsHonest(u, a, t);
      StepKeepsClients(u, a, t);
      StepDoesWell(u, a, t, i);
    }
  }

  /** A call fails only if something has failed: in a run without faults every call of a client that does not
      itself time out returns 0, however often it is woken and asks again in between; so its last reply is
      complete and left nothing to wait for. */
  lemma PatientCallsSucceed(n: nat, m: nat, acts: seq<Action>, s: State, i: nat)
    requires i < n && RunUnder(Patient(i), Init(n, m), acts) == Some(s)
    ensures i < |s.clients|
    ensures var c := s.clients[i];
      c.result.Some? ==> c.result.value == 0 && LastOf(s, c).Some? && Satisfied(LastOf(s, c).value, c.longPoll)
  {
    InitSatisfiesInv(n, m);
    RunDoesWell(Init(n, m), acts, s, i);
    assert Honest(s, i);
  }
}
