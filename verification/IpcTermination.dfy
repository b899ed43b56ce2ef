/** A fault-free transaction ends: a measure on the message parts left and on whose turn it is
    falls with every step of the two sides, and as long as the transaction is under way one of
    them, or a worker that holds the flag lock for a moment, can take a step. */
module IpcTermination {
  import opened IpcProtocol
  import opened IpcInvariant
  import opened IpcFaultFree
  import opened IpcTheorems
  import opened Wrappers

  /** The client sends `n` parts and the server answers with `m`. */
  predicate FollowsPlan(s: State, a: Action, n: nat, m: nat) {
    match a
    case ActClient(i, c) =>
      c.Produce? && i < |s.clients| && s.clients[i].pc.Producing? ==> (c.more <==> s.clients[i].pc.part + 1 < n)
    case ActServer(x) =>
      x.Callback? && s.server.SProducing? ==> (x.more <==> s.server.part + 1 < m)
    case _ => true
  }

  predicate WithinPlan(s: State, n: nat, m: nat)
    requires s.tr.ByClient? && s.tr.i < |s.clients|
  {
    var pc := s.clients[s.tr.i].pc;
    n > 0 && m > 0 &&
    if s.h.phase == ClientToServer then
      && |s.cur.sent| <= n
      && (pc.Producing? || pc.SendWait? ==> pc.part < n)
      && (pc.RecvWait? ==> |s.cur.sent| == n)
    else
      && |s.cur.sent| == n && |s.cur.replied| <= m
      && (s.server.SProducing? || s.server.SSendWait? ==> s.server.part < m)
      && (s.server.FinalWait? ==> |s.cur.replied| == m)
  }

  /** A transaction is under way in a fault-free run, `n` query and `m` reply parts long. */
  ghost predicate UnderWay(s: State, n: nat, m: nat) {
    Core(s) && Serving(s) && Live(s) && WithinPlan(s, n, m)
  }

  /** The part of `UnderWay` that the steps of the two sides depend on. */
  ghost predicate OnTheWay(s: State, n: nat, m: nat) {
    ServerCore(s) && s.tr.ByClient? && ClientFits(s, s.tr.i) && Live(s) && WithinPlan(s, n, m)
  }

  lemma UnderWayIsOnTheWay(s: State, n: nat, m: nat)
    requires UnderWay(s, n, m)
    ensures OnTheWay(s, n, m) && !s.h.phase.Ready?
  {
    CoreIsEnough(s);
  }

  function ServerRank(pc: ServerPC): nat {
    match pc
    case PollLock => 13
    case PollRead => 12
    case ReleaseForNotify => 11
    case TryTransaction => 10
    case Broadcast => 9
    case ClearDeferred => 8
    case UnlockTransaction => 7
    case RelockOperation => 6
    case Periodic => 5
    case IdleTest => 4
    case IdleWait(_) => 3
    case Dispatch => 2
    case SRecvWait(_, _) => 1
    case SSendWait(_, _) => 1
    case _ => 0
  }

  function ClientRank(pc: ClientPC): nat {
    if pc.SendWait? || pc.RecvWait? then 1 else 0
  }

  function Rank(s: State, n: nat, m: nat): int {
    16 * (2 * n + 2 * m - Work(s.cur)) + ServerRank(s.server)
    + if s.tr.ByClient? && s.tr.i < |s.clients| then ClientRank(s.clients[s.tr.i].pc) else 0
  }

  /** A step of one of the two sides that is not just a wake-up for nothing. */
  predicate Advances(s: State, a: Action) {
    match a
    case ActClient(i, c) =>
      && s.tr == ByClient(i) && !c.Spurious?
      && (i < |s.clients| && (s.clients[i].pc.SendWait? || s.clients[i].pc.RecvWait?) ==> s.h.clientEvent)
    case ActServer(x) =>
      && !x.SSpurious? && !s.server.FinalWait?
      && (s.server.SRecvWait? || s.server.SSendWait? ==> s.h.serverEvent)
    case _ => false
  }

  /** The step keeps the transaction under way, without raising the measure and lowering it if it
      advances, or completes it. */
  ghost predicate Progresses(s: State, a: Action, t: State, n: nat, m: nat) {
    && t.past == s.past && t.cur.client == s.cur.client
    && if t.cur.complete then |t.cur.sent| == n && |t.cur.replied| == m
       else
         && Live(t) && t.tr == s.tr && s.tr.ByClient? && s.tr.i < |t.clients| && WithinPlan(t, n, m)
         && (if Advances(s, a) then Rank(t, n, m) < Rank(s, n, m) else Rank(t, n, m) == Rank(s, n, m))
  }

  lemma RankIsNatural(s: State, n: nat, m: nat)
    requires UnderWay(s, n, m)
    ensures Rank(s, n, m) >= 0
  {
  }

  lemma ProducerProgresses(s: State, i: nat, c: ClientAct, t: State, n: nat, m: nat)
    requires OnTheWay(s, n, m) && s.tr == ByClient(i) && ClientStep(s, i, c) == Some(t)
    requires Faultless(s, ActClient(i, c)) && FollowsPlan(s, ActClient(i, c), n, m)
    requires s.clients[i].pc.Producing?
    ensures Progresses(s, ActClient(i, c), t, n, m)
  {
  }

  lemma ConsumerProgresses(s: State, i: nat, c: ClientAct, t: State, n: nat, m: nat)
    requires OnTheWay(s, n, m) && s.tr == ByClient(i) && ClientStep(s, i, c) == Some(t)
    requires Faultless(s, ActClient(i, c))
    requires s.clients[i].pc.Consuming?
    ensures Progresses(s, ActClient(i, c), t, n, m)
  {
  }

  lemma SenderProgresses(s: State, i: nat, c: ClientAct, t: State, n: nat, m: nat)
    requires OnTheWay(s, n, m) && s.tr == ByClient(i) && ClientStep(s, i, c) == Some(t)
    requires Faultless(s, ActClient(i, c))
    requires s.clients[i].pc.SendWait?
    ensures Progresses(s, ActClient(i, c), t, n, m)
  {
  }

  lemma ReceiverProgresses(s: State, i: nat, c: ClientAct, t: State, n: nat, m: nat)
    requires OnTheWay(s, n, m) && s.tr == ByClient(i) && ClientStep(s, i, c) == Some(t)
    requires Faultless(s, ActClient(i, c))
    requires s.clients[i].pc.RecvWait? && c.Go? && s.h.clientEvent
    ensures Progresses(s, ActClient(i, c), t, n, m)
  {
  }

  lemma ReceiverSleepsOn(s: State, i: nat, asleep: bool, n: nat, m: nat)
    requires OnTheWay(s, n, m) && s.tr == ByClient(i) && s.clients[i].pc.RecvWait?
    ensures var t := AtPC(s, i, RecvWait(s.clients[i].pc.part, asleep));
            WithinPlan(t, n, m) && Rank(t, n, m) == Rank(s, n, m)
  {
  }

  lemma BystanderProgresses(s: State, i: nat, c: ClientAct, t: State, n: nat, m: nat)
    requires UnderWay(s, n, m) && ClientStep(s, i, c) == Some(t) && Faultless(s, ActClient(i, c))
    requires !MidTransaction(s.clients[i].pc)
    ensures Progresses(s, ActClient(i, c), t, n, m)
  {
  }

  /** The query has been announced, so the idle loop leads to the dispatch and not back to its top. */
  lemma ServerSeesEvent(s: State, x: ServerAct, t: State, n: nat, m: nat)
    requires OnTheWay(s, n, m) && ServerStep(s, x) == Some(t) && !x.SSpurious?
    requires s.server.IdleTest? || s.server.IdleWait?
    ensures s.h.serverEvent && t == s.(server := Dispatch, op := ByServer)
  {
  }

  lemma ServerIdleProgresses(s: State, x: ServerAct, t: State, n: nat, m: nat)
    requires OnTheWay(s, n, m) && ServerStep(s, x) == Some(t) && Faultless(s, ActServer(x))
    requires || s.server.PollLock? || s.server.PollRead? || s.server.ReleaseForNotify?
             || s.server.RelockOperation? || s.server.Periodic?
    ensures Progresses(s, ActServer(x), t, n, m)
  {
  }

  lemma ServerNotifyProgresses(s: State, x: ServerAct, t: State, n: nat, m: nat)
    requires OnTheWay(s, n, m) && ServerStep(s, x) == Some(t) && Faultless(s, ActServer(x))
    requires s.server.TryTransaction? || ServerHoldsTransaction(s.server)
    ensures Progresses(s, ActServer(x), t, n, m)
  {
  }

  lemma ServerReceiverProgresses(s: State, x: ServerAct, t: State, n: nat, m: nat)
    requires OnTheWay(s, n, m) && ServerStep(s, x) == Some(t) && Faultless(s, ActServer(x))
    requires s.server.SRecvWait?
    ensures Progresses(s, ActServer(x), t, n, m)
  {
  }

  lemma ServerSenderProgresses(s: State, x: ServerAct, t: State, n: nat, m: nat)
    requires OnTheWay(s, n, m) && ServerStep(s, x) == Some(t) && Faultless(s, ActServer(x))
    requires s.server.SSendWait?
    ensures Progresses(s, ActServer(x), t, n, m)
  {
  }

  lemma ServerLastWaitProgresses(s: State, x: ServerAct, t: State, n: nat, m: nat)
    requires OnTheWay(s, n, m) && ServerStep(s, x) == Some(t) && Faultless(s, ActServer(x))
    requires s.server.Dispatch? || s.server.FinalWait?
    ensures Progresses(s, ActServer(x), t, n, m)
  {
  }

  lemma ServerConsumerProgresses(s: State, x: ServerAct, t: State, n: nat, m: nat)
    requires OnTheWay(s, n, m) && ServerStep(s, x) == Some(t) && Faultless(s, ActServer(x))
    requires s.server.SConsuming?
    ensures Progresses(s, ActServer(x), t, n, m)
  {
  }

  lemma ServerProducerProgresses(s: State, x: ServerAct, t: State, n: nat, m: nat)
    requires OnTheWay(s, n, m) && ServerStep(s, x) == Some(t)
    requires Faultless(s, ActServer(x)) && FollowsPlan(s, ActServer(x), n, m)
    requires s.server.SProducing?
    ensures Progresses(s, ActServer(x), t, n, m)
  {
  }

  lemma ServerIdleLoopProgresses(s: State, x: ServerAct, t: State, n: nat, m: nat)
    requires OnTheWay(s, n, m) && ServerStep(s, x) == Some(t) && Faultless(s, ActServer(x)) && ServerIdle(s.server)
    ensures Progresses(s, ActServer(x), t, n, m)
  {
    match s.server {
      case PollLock | PollRead | ReleaseForNotify | RelockOperation | Periodic => ServerIdleProgresses(s, x, t, n, m);
      case TryTransaction | Broadcast | ClearDeferred | UnlockTransaction => ServerNotifyProgresses(s, x, t, n, m);
      case IdleTest => ServerSeesEvent(s, x, t, n, m);
      case IdleWait(_) => if !x.SSpurious? { ServerSeesEvent(s, x, t, n, m); }
    }
  }

  lemma ServerProgresses(s: State, x: ServerAct, t: State, n: nat, m: nat)
    requires OnTheWay(s, n, m) && ServerStep(s, x) == Some(t)
    requires Faultless(s, ActServer(x)) && FollowsPlan(s, ActServer(x), n, m)
    ensures Progresses(s, ActServer(x), t, n, m)
  {
    if ServerIdle(s.server) {
      ServerIdleLoopProgresses(s, x, t, n, m);
      return;
    }
    match s.server {
      case Dispatch | FinalWait(_) => ServerLastWaitProgresses(s, x, t, n, m);
      case SRecvWait(_, _) => ServerReceiverProgresses(s, x, t, n, m);
      case SSendWait(_, _) => ServerSenderProgresses(s, x, t, n, m);
      case SConsuming(_) => ServerConsumerProgresses(s, x, t, n, m);
      case SProducing(_) => ServerProducerProgresses(s, x, t, n, m);
    }
  }

  lemma ClientProgresses(s: State, i: nat, c: ClientAct, t: State, n: nat, m: nat)
    requires UnderWay(s, n, m) && ClientStep(s, i, c) == Some(t)
    requires Faultless(s, ActClient(i, c)) && FollowsPlan(s, ActClient(i, c), n, m)
    ensures Progresses(s, ActClient(i, c), t, n, m)
  {
    UnderWayIsOnTheWay(s, n, m);
    match s.clients[i].pc {
      case Producing(_) => ProducerProgresses(s, i, c, t, n, m);
      case Consuming(_) => ConsumerProgresses(s, i, c, t, n, m);
      case SendWait(_, _) => SenderProgresses(s, i, c, t, n, m);
      case RecvWait(_, _) =>
        if c.Go? && s.h.clientEvent {
          ReceiverProgresses(s, i, c, t, n, m);
        } else {
          ReceiverSleepsOn(s, i, t.clients[i].pc.asleep, n, m);
        }
      case _ => BystanderProgresses(s, i, c, t, n, m);
    }
  }

  /** Every fault-free step, of any thread, keeps the transaction going without losing ground, and
      every advance of client or server lowers the measure, until the client has its whole reply, of
      exactly `m` parts, to its query of exactly `n`. */
  lemma MeasureFalls(s: State, a: Action, t: State, n: nat, m: nat)
    requires UnderWay(s, n, m) && Step(s, a) == Some(t) && Faultless(s, a) && FollowsPlan(s, a, n, m)
    ensures Progresses(s, a, t, n, m) && Rank(s, n, m) >= 0
  {
    RankIsNatural(s, n, m);
    match a {
      case ActClient(i, c) => ClientProgresses(s, i, c, t, n, m);
      case ActServer(x) => UnderWayIsOnTheWay(s, n, m); ServerProgresses(s, x, t, n, m);
      case ActOwn(_) => UnderWayIsOnTheWay(s, n, m);
      case ActWorker(j) => WorkerMoves(s, j, t);
    }
  }

  // ----- every transaction ends -----------------------------------------------------------------

  /** Fault-free runs whose producers make `n` and `m` parts. */
  function Plan(n: nat, m: nat): Rule {
    (s: State, a: Action) => Faultless(s, a) && FollowsPlan(s, a, n, m)
  }

  /** How often one of the two sides advances in a run. */
  function AdvancesIn(rule: Rule, s: State, acts: seq<Action>): nat
    requires RunUnder(rule, s, acts).Some?
  {
    if acts == [] then 0
    else
      var m := acts[..|acts| - 1];
      AdvancesIn(rule, s, m) + if Advances(RunUnder(rule, s, m).value, acts[|acts| - 1]) then 1 else 0
  }

  /** The transaction of `s` is over, with `n` and `m` parts. */
  ghost predicate Ended(s: State, t: State, n: nat, m: nat) {
    t.past == s.past && t.cur.client == s.cur.client && t.cur.complete && |t.cur.sent| == n && |t.cur.replied| == m
  }

  ghost predicate EndsWithin(s: State, acts: seq<Action>, n: nat, m: nat) {
    exists k: nat :: k <= |acts| && RunUnder(Plan(n, m), s, acts[..k]).Some?
                     && Ended(s, RunUnder(Plan(n, m), s, acts[..k]).value, n, m)
  }

  /** Along a run from a point under way: the transaction has ended, or the advances so far are paid for
      by the measure. */
  lemma {:induction false} AdvancesArePaidFor(s: State, acts: seq<Action>, t: State, n: nat, m: nat)
    requires Inv(s) && UnderWay(s, n, m) && RunUnder(Plan(n, m), s, acts) == Some(t)
    ensures || EndsWithin(s, acts, n, m)
            || (Inv(t) && UnderWay(t, n, m) && t.past == s.past && t.cur.client == s.cur.client
                && Rank(t, n, m) + AdvancesIn(Plan(n, m), s, acts) <= Rank(s, n, m))
  {
    if acts != [] {
      var front, a := acts[..|acts| - 1], acts[|acts| - 1];
      var u := RunUnder(Plan(n, m), s, front).value;
      AdvancesArePaidFor(s, front, u, n, m);
      if EndsWithin(s, front, n, m) {
        EndsWithinLonger(s, acts, n, m);
      } else {
        MeasureFalls(u, a, t, n, m);
        if t.cur.complete {
          assert acts[..|acts|] == acts;
        } else {
          StepKeeps(u, a, t);
          StepKeepsServing(u, a, t);
        }
      }
    }
  }

  lemma EndsWithinLonger(s: State, acts: seq<Action>, n: nat, m: nat)
    requires acts != [] && EndsWithin(s, acts[..|acts| - 1], n, m)
    ensures EndsWithin(s, acts, n, m)
  {
    var front := acts[..|acts| - 1];
    var k: nat :| k <= |front| && RunUnder(Plan(n, m), s, front[..k]).Some?
                  && Ended(s, RunUnder(Plan(n, m), s, front[..k]).value, n, m);
    assert acts[..k] == front[..k];
  }

  /** A transaction that starts in a fault-free run is under way, for any numbers of parts. */
  lemma StartIsUnderWay(s: State, a: Action, t: State, n: nat, m: nat)
    requires ReachableFaultless(s) && Step(s, a) == Some(t) && |t.past| > |s.past|
    requires n > 0 && m > 0
    ensures Inv(t) && UnderWay(t, n, m) && Rank(t, n, m) <= 32 * (n + m) + 13
  {
    ReachableFaultlessServes(s);
    StartServes(s, a, t, n, m);
  }

  lemma StartServes(s: State, a: Action, t: State, n: nat, m: nat)
    requires Inv(s) && Serving(s) && Step(s, a) == Some(t) && |t.past| > |s.past|
    requires n > 0 && m > 0
    ensures Inv(t) && UnderWay(t, n, m) && Rank(t, n, m) <= 32 * (n + m) + 13
  {
    StartsByClient(s, a, t);
    StepKeeps(s, a, t);
    StepKeepsServing(s, a, t);
  }

  lemma StartsByClient(s: State, a: Action, t: State)
    requires Inv(s) && Step(s, a) == Some(t) && |t.past| > |s.past|
    ensures a.ActClient? && EntersTransaction(s, a.i) && a.c.Go?
  {
    match a {
      case ActClient(i, c) => ClientStepMoves(s, i, c, t);
      case ActServer(x) => ServerStepKeepsFlags(s, x, t);
      case ActOwn(_) =>
      case ActWorker(j) => WorkerMoves(s, j, t);
      case ActBreaker(timeout) => BreakerMoves(s, timeout, t);
    }
  }

  /** Every transaction ends: in every fault-free run, whatever all the other threads do in between, client
      and server have advanced at most 32 * (n + m) + 13 times when the client has its reply. */
  lemma EveryTransactionEnds(s: State, a: Action, u: State, acts: seq<Action>, n: nat, m: nat)
    requires ReachableFaultless(s) && Step(s, a) == Some(u) && |u.past| > |s.past| && n > 0 && m > 0
    requires RunUnder(Plan(n, m), u, acts).Some? && AdvancesIn(Plan(n, m), u, acts) > 32 * (n + m) + 13
    ensures EndsWithin(u, acts, n, m)
  {
    StartIsUnderWay(s, a, u, n, m);
    var t := RunUnder(Plan(n, m), u, acts).value;
    AdvancesArePaidFor(u, acts, t, n, m);
    if !EndsWithin(u, acts, n, m) {
      RankIsNatural(t, n, m);
    }
  }

  // ----- nobody gets stuck ----------------------------------------------------------------------

  /** The step that takes a transaction forward: whoever holds the operation lock goes on, or
      whoever may take it; only a worker setting the deferred flag can be in the server's way. */
  function NextAction(s: State, n: nat, m: nat): Action
    requires s.tr.ByClient? && s.tr.i < |s.clients|
  {
    var pc := s.clients[s.tr.i].pc;
    if s.op.ByClient? then
      (if pc.Producing? then ActClient(s.tr.i, Produce(true, [], pc.part + 1 < n)) else ActClient(s.tr.i, Consume(0)))
    else if s.op.Free? && s.h.clientEvent then ActClient(s.tr.i, Go)
    else if s.server.PollLock? && s.df.ByWorker? then ActWorker(s.df.j)
    else if s.server.Periodic? || s.server.SConsuming? then ActServer(Callback(Accept, [], false))
    else if s.server.SProducing? then ActServer(Callback(Accept, [], s.server.part + 1 < m))
    else ActServer(SGo)
  }

  lemma ClientCanAct(s: State, n: nat, m: nat)
    requires UnderWay(s, n, m) && (s.op.ByClient? || (s.op.Free? && s.h.clientEvent))
    requires NobodyOversleeps(s)
    ensures var a := NextAction(s, n, m);
            Step(s, a).Some? && Faultless(s, a) && FollowsPlan(s, a, n, m) && Advances(s, a)
  {
    assert ClientAsleepRightly(s.clients[s.tr.i].pc, s.h);
  }

  lemma ServerCanAct(s: State, n: nat, m: nat)
    requires UnderWay(s, n, m) && !(s.op.ByClient? || (s.op.Free? && s.h.clientEvent))
    requires !(s.server.PollLock? && s.df.ByWorker?)
    ensures var a := NextAction(s, n, m);
            Step(s, a).Some? && Faultless(s, a) && FollowsPlan(s, a, n, m) && Advances(s, a)
  {
  }

  lemma WorkerCanAct(s: State, n: nat, m: nat)
    requires UnderWay(s, n, m) && s.op.ByServer? && s.server.PollLock? && s.df.ByWorker?
    ensures var a := NextAction(s, n, m);
            Step(s, a).Some? && Faultless(s, a) && FollowsPlan(s, a, n, m) && Step(s, a).value.df.Free?
  {
  }

  lemma SomebodyCanAct(s: State, n: nat, m: nat)
    requires Inv(s) && UnderWay(s, n, m)
    ensures var a := NextAction(s, n, m);
      && Step(s, a).Some? && Faultless(s, a) && FollowsPlan(s, a, n, m)
      && (Advances(s, a) || (s.df.ByWorker? && Step(s, a).value.df.Free?))
  {
    if s.op.ByClient? || (s.op.Free? && s.h.clientEvent) {
      ClientCanAct(s, n, m);
    } else if s.server.PollLock? && s.df.ByWorker? {
      WorkerCanAct(s, n, m);
    } else {
      ServerCanAct(s, n, m);
    }
  }

  /** One step forward: the transaction is complete, or still under way and closer to its end. */
  lemma GoForward(s: State, n: nat, m: nat) returns (a: Action, u: State)
    requires Inv(s) && UnderWay(s, n, m)
    ensures Faultless(s, a) && Step(s, a) == Some(u) && 0 <= Rank(s, n, m)
    ensures u.past == s.past && u.cur.client == s.cur.client
    ensures u.cur.complete ==> |u.cur.sent| == n && |u.cur.replied| == m
    ensures !u.cur.complete ==>
      && Inv(u) && UnderWay(u, n, m)
      && (|| 0 <= Rank(u, n, m) < Rank(s, n, m)
          || (0 <= Rank(u, n, m) == Rank(s, n, m) && s.df.ByWorker? && u.df.Free?))
  {
    SomebodyCanAct(s, n, m);
    a := NextAction(s, n, m);
    u := Step(s, a).value;
    MeasureFalls(s, a, u, n, m);
    if !u.cur.complete {
      StepKeeps(s, a, u);
      StepKeepsServing(s, a, u);
      RankIsNatural(u, n, m);
    }
  }

  /** A fault-free transaction can always be finished, from any point of it, without any new call,
      timeout or spurious wake-up. */
  lemma {:induction false} CanAlwaysFinish(s: State, n: nat, m: nat) returns (acts: seq<Action>, t: State)
    requires Inv(s) && UnderWay(s, n, m)
    ensures RunFaultless(s, acts) == Some(t) && Ended(s, t, n, m)
    decreases Rank(s, n, m), if s.df.ByWorker? then 1 else 0
  {
    var a, u := GoForward(s, n, m);
    if u.cur.complete {
      acts, t := [a], u;
      assert RunFaultless(s, acts[..0]) == Some(s);
    } else {
      var rest;
      rest, t := CanAlwaysFinish(u, n, m);
      acts := [a] + rest;
      RunFromStep(s, a, u, rest);
    }
  }

  lemma {:induction false} RunFromStep(s: State, a: Action, u: State, rest: seq<Action>)
    requires Faultless(s, a) && Step(s, a) == Some(u)
    ensures RunFaultless(s, [a] + rest) == RunFaultless(u, rest)
  {
    var acts := [a] + rest;
    if rest == [] {
      assert acts[..0] == [] && acts[|acts| - 1] == a;
      assert RunFaultless(s, acts[..0]) == Some(s);
    } else {
      assert acts[..|acts| - 1] == [a] + rest[..|rest| - 1];
      RunFromStep(s, a, u, rest[..|rest| - 1]);
    }
  }
}
