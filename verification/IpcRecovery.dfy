/** Recovery: as long as the main loop runs, whatever went wrong before, every client can be served again; and
    once it has ended, or is about to, nobody can. */
module IpcRecovery {
  import opened IpcProtocol
  import opened IpcInvariant
  import opened IpcTheorems
  import opened IpcFaultFree
  import opened IpcTermination
  import opened Wrappers

  /** The server has left the main loop, or is bound to. */
  predicate Ended(pc: ServerPC) {
    pc == SFailing(true) || pc.Stop? || pc.Join? || pc.Exit? || pc.Finished?
  }

  /** The main loop runs, and the signal thread is not just about to end it. */
  predicate MainLoopRuns(s: State) {
    s.h.running && !s.server.Start? && !Ended(s.server) && !s.breaker.BSet?
  }

  // ----- the phase in the idle loop -------------------------------------------------------------

  /** Before an event comes, the idle loop sees the phase it has set itself, or that of a client on its way. */
  predicate IdlePhase(s: State) {
    ServerIdle(s.server) && !s.h.serverEvent ==> s.h.phase == Ready || s.h.phase == ClientToServer
  }

  /** What a client makes of the header, the server hears of, but for the start of a transaction. */
  predicate TellsServer(s: State, t: State) {
    && (t.h.serverEvent || (!s.h.serverEvent && (t.h.phase == s.h.phase || t.h.phase == ClientToServer)))
    && (t.server == s.server || t.server == WokenServer(s.server))
  }

  lemma ClientCallbackTells(s: State, i: nat, a: ClientAct, t: State)
    requires ClientStep(s, i, a) == Some(t)
    requires s.clients[i].pc.Producing? || s.clients[i].pc.Consuming? || s.clients[i].pc.Failing?
    ensures TellsServer(s, t)
  {
  }

  lemma ClientWaitTells(s: State, i: nat, a: ClientAct, t: State)
    requires ClientStep(s, i, a) == Some(t)
    requires s.clients[i].pc.SendWait? || s.clients[i].pc.RecvWait? || EntersTransaction(s, i)
    ensures TellsServer(s, t)
  {
  }

  lemma ClientStepTells(s: State, i: nat, a: ClientAct, t: State)
    requires ClientStep(s, i, a) == Some(t)
    ensures TellsServer(s, t)
  {
    match s.clients[i].pc {
      case Producing(_) | Consuming(_) | Failing => ClientCallbackTells(s, i, a, t);
      case SendWait(_, _) | RecvWait(_, _) => ClientWaitTells(s, i, a, t);
      case _ => if EntersTransaction(s, i) { ClientWaitTells(s, i, a, t); } else { ClientStepsOutside(s, i, a, t); }
    }
  }

  lemma IdleServerKeepsHeader(s: State, a: ServerAct, t: State)
    requires ServerIdle(s.server) && ServerStep(s, a) == Some(t)
    ensures t.h == s.h
  {
  }

  lemma WaitingServerIsNotIdle(s: State, a: ServerAct, t: State)
    requires s.server.SRecvWait? || s.server.SSendWait? || s.server.FinalWait?
    requires ServerStep(s, a) == Some(t)
    ensures !ServerIdle(t.server)
  {
  }

  lemma ServingServerIsNotIdle(s: State, a: ServerAct, t: State)
    requires s.server.SConsuming? || s.server.SProducing?
    requires ServerStep(s, a) == Some(t)
    ensures !ServerIdle(t.server)
  {
    match s.server {
      case SConsuming(p) => assert t == ServerConsumes(s, p, a.outcome);
      case SProducing(p) => assert t == ServerProduces(s, p, a.outcome, a.bytes, a.more);
    }
  }

  lemma ServerBecomesIdle(s: State, a: ServerAct, t: State)
    requires !ServerIdle(s.server) && ServerStep(s, a) == Some(t) && ServerIdle(t.server)
    ensures t.h.phase == Ready
  {
    match s.server {
      case SRecvWait(_, _) | SSendWait(_, _) | FinalWait(_) => WaitingServerIsNotIdle(s, a, t);
      case SConsuming(_) | SProducing(_) => ServingServerIsNotIdle(s, a, t);
      case _ =>
    }
  }

  lemma ServerStepKeepsIdlePhase(s: State, a: ServerAct, t: State)
    requires IdlePhase(s) && ServerStep(s, a) == Some(t)
    ensures IdlePhase(t)
  {
    if ServerIdle(t.server) {
      if ServerIdle(s.server) {
        IdleServerKeepsHeader(s, a, t);
      } else {
        ServerBecomesIdle(s, a, t);
      }
    }
  }

  lemma StepKeepsIdlePhase(s: State, a: Action, t: State)
    requires IdlePhase(s) && Step(s, a) == Some(t)
    ensures IdlePhase(t)
  {
    match a {
      case ActClient(i, c) => ClientStepTells(s, i, c, t);
      case ActServer(x) => ServerStepKeepsIdlePhase(s, x, t);
      case ActOwn(_) =>
      case ActWorker(j) => WorkerMoves(s, j, t);
      case ActBreaker(timeout) => BreakerMoves(s, timeout, t);
    }
  }

  lemma {:induction false} RunKeepsIdlePhase(s: State, acts: seq<Action>)
    requires IdlePhase(s) && Run(s, acts).Some?
    ensures IdlePhase(Run(s, acts).value)
  {
    if acts != [] {
      var m := acts[..|acts| - 1];
      RunKeepsIdlePhase(s, m);
      StepKeepsIdlePhase(Run(s, m).value, acts[|acts| - 1], Run(s, acts).value);
    }
  }

  lemma ReachableIdlePhase(s: State)
    requires Reachable(s)
    ensures IdlePhase(s)
  {
    var n: nat, m: nat, acts: seq<Action> :| Run(Init(n, m), acts) == Some(s);
    RunKeepsIdlePhase(Init(n, m), acts);
  }

  // ----- the server on its own ------------------------------------------------------------------

  /** A property of states that every step keeps, and that the invariant goes with. */
  ghost predicate Sustained(good: State -> bool) {
    Closed(good) && forall u {:trigger good(u)} :: good(u) ==> Inv(u) && IdlePhase(u)
  }

  /** The main loop runs, and neither signal thread nor workers are in the way. */
  predicate Quiet(s: State) {
    MainLoopRuns(s) && s.breaker.BIdle? && !s.df.ByWorker? && !s.tr.ByWorker?
  }

  predicate ServerMayRun(s: State) {
    Quiet(s) && (s.op.Free? || s.op.ByServer?)
  }

  /** What takes the server to sleep in its idle loop: callbacks that are under way fail, waits time out. */
  function SettleAct(pc: ServerPC): ServerAct {
    match pc
    case Periodic => Callback(Accept, [], false)
    case SConsuming(_) => Callback(Reject, [], false)
    case SProducing(_) => Callback(Reject, [], false)
    case SRecvWait(_, _) => STimeout
    case SSendWait(_, _) => STimeout
    case FinalWait(_) => STimeout
    case _ => SGo
  }

  /** How far that is. */
  function SettleRank(s: State): nat {
    match s.server
    case LoopTest => 13
    case SFailing(_) => 14
    case SRecvWait(_, _) => 14
    case SSendWait(_, _) => 14
    case FinalWait(_) => 14
    case SConsuming(_) => 15
    case SProducing(_) => 15
    case Dispatch => 16
    case _ => IdleRank(s.server) + if s.h.serverEvent then 20 else 0
  }

  function IdleRank(pc: ServerPC): nat {
    match pc
    case IdleWait(asleep) => if asleep then 0 else 12
    case PollLock => 11
    case PollRead => 10
    case ReleaseForNotify => 9
    case TryTransaction => 8
    case Broadcast => 7
    case ClearDeferred => 6
    case UnlockTransaction => 5
    case RelockOperation => 4
    case Periodic => 3
    case IdleTest => 2
    case _ => 0
  }

  ghost predicate Settles(s: State, t: State) {
    && ServerMayRun(t) && SettleRank(t) < SettleRank(s)
    && |t.clients| == |s.clients| && (t.tr.ByClient? ==> s.tr.ByClient?)
  }

  /** The locks as a step of the server finds them. */
  predicate ServerKnows(s: State) {
    ServerLocks(s) && (s.server.PollRead? <==> s.df.ByServer?) && !s.df.ByClient? && !s.df.ByBreaker?
  }

  lemma PollingSettles(s: State)
    requires ServerMayRun(s) && ServerKnows(s)
    requires s.server.PollLock? || s.server.PollRead? || s.server.ReleaseForNotify? || s.server.Periodic?
    ensures var u := ServerStep(s, SettleAct(s.server)); u.Some? && Settles(s, u.value)
  {
  }

  lemma NotifyingSettles(s: State)
    requires ServerMayRun(s) && ServerKnows(s)
    requires s.server.TryTransaction? || ServerHoldsTransaction(s.server) || s.server.RelockOperation?
    ensures var u := ServerStep(s, SettleAct(s.server)); u.Some? && Settles(s, u.value)
  {
  }

  lemma SleepingSettles(s: State)
    requires ServerMayRun(s) && ServerKnows(s) && (s.server.IdleTest? || s.server == IdleWait(false))
    ensures var u := ServerStep(s, SettleAct(s.server)); u.Some? && Settles(s, u.value)
  {
  }

  lemma ServingSettles(s: State)
    requires ServerMayRun(s) && ServerKnows(s) && (s.server.SConsuming? || s.server.SProducing? || s.server.Dispatch?)
    ensures var u := ServerStep(s, SettleAct(s.server)); u.Some? && Settles(s, u.value)
  {
  }

  lemma WaitingSettles(s: State)
    requires ServerMayRun(s) && ServerKnows(s) && (s.server.SRecvWait? || s.server.SSendWait? || s.server.FinalWait?)
    ensures var u := ServerStep(s, SettleAct(s.server)); u.Some? && Settles(s, u.value)
  {
  }

  lemma FailingSettles(s: State)
    requires ServerMayRun(s) && ServerKnows(s) && (s.server.LoopTest? || s.server.SFailing?)
    ensures var u := ServerStep(s, SettleAct(s.server)); u.Some? && Settles(s, u.value)
  {
  }

  lemma SettleStep(s: State)
    requires ServerMayRun(s) && ServerKnows(s) && s.server != IdleWait(true)
    ensures var u := ServerStep(s, SettleAct(s.server)); u.Some? && Settles(s, u.value)
  {
    match s.server {
      case PollLock | PollRead | ReleaseForNotify | Periodic => PollingSettles(s);
      case TryTransaction | Broadcast | ClearDeferred | UnlockTransaction | RelockOperation => NotifyingSettles(s);
      case IdleTest | IdleWait(_) => SleepingSettles(s);
      case SConsuming(_) | SProducing(_) | Dispatch => ServingSettles(s);
      case SRecvWait(_, _) | SSendWait(_, _) | FinalWait(_) => WaitingSettles(s);
      case LoopTest | SFailing(_) => FailingSettles(s);
    }
  }

  /** On its own the server falls asleep in its idle loop. */
  lemma {:induction false} ServerSettles(good: State -> bool, s: State) returns (t: State)
    requires Sustained(good) && good(s) && ServerMayRun(s)
    ensures good(t) && ServerMayRun(t) && t.server == IdleWait(true)
    ensures |t.clients| == |s.clients| && (t.tr.ByClient? ==> s.tr.ByClient?)
    decreases SettleRank(s)
  {
    if s.server == IdleWait(true) {
      t := s;
    } else {
      SettleStep(s);
      t := ServerSettles(good, Step(s, ActServer(SettleAct(s.server))).value);
    }
  }

  // ----- a client on its way out ----------------------------------------------------------------

  /** What takes client `i` out of its call: callbacks that are under way fail, waits time out. */
  function LeaveAct(pc: ClientPC): ClientAct {
    match pc
    case WantOperation => ClientAct.Timeout
    case ReadyWait(_) => ClientAct.Timeout
    case SendWait(_, _) => ClientAct.Timeout
    case RecvWait(_, _) => ClientAct.Timeout
    case Producing(_) => Produce(false, [], false)
    case Consuming(_) => Consume(-1)
    case _ => ClientAct.Go
  }

  function LeaveRank(pc: ClientPC): nat {
    match pc
    case TestReady => 6
    case Producing(_) => 5
    case SendWait(_, _) => 5
    case RecvWait(_, _) => 5
    case Consuming(_) => 5
    case ReadyWait(_) => 4
    case Failing => 4
    case ReleaseOperation(_) => 3
    case WantOperation => 3
    case BeforeNotification => 2
    case ReleaseTransaction(_) => 2
    case _ => 0
  }

  /** Client `i` is inside and has the operation lock, or can have it. */
  predicate MayLeave(s: State, i: nat) {
    Quiet(s) && i < |s.clients| && s.tr == ByClient(i) && (s.op.Free? || s.op == ByClient(i))
  }

  /** It is a step nearer to being outside, or there. */
  ghost predicate Leaves(s: State, t: State, i: nat) {
    && |t.clients| == |s.clients| && i < |s.clients| && Quiet(t)
    && if t.tr.Free? then t.op.Free? else MayLeave(t, i) && LeaveRank(t.clients[i].pc) < LeaveRank(s.clients[i].pc)
  }

  lemma CallbackLeaves(s: State, i: nat)
    requires MayLeave(s, i) && ClientLocks(s, i)
    requires s.clients[i].pc.TestReady? || s.clients[i].pc.Producing? || s.clients[i].pc.Consuming?
    ensures var u := ClientStep(s, i, LeaveAct(s.clients[i].pc)); u.Some? && Leaves(s, u.value, i)
  {
  }

  lemma WaitLeaves(s: State, i: nat)
    requires MayLeave(s, i) && ClientLocks(s, i)
    requires var pc := s.clients[i].pc; pc.SendWait? || pc.RecvWait? || pc.ReadyWait? || pc.WantOperation?
    ensures var u := ClientStep(s, i, LeaveAct(s.clients[i].pc)); u.Some? && Leaves(s, u.value, i)
  {
  }

  lemma ReleaseLeaves(s: State, i: nat)
    requires MayLeave(s, i) && ClientLocks(s, i)
    requires var pc := s.clients[i].pc;
             pc.Failing? || pc.ReleaseOperation? || pc.BeforeNotification? || pc.ReleaseTransaction?
    ensures var u := ClientStep(s, i, LeaveAct(s.clients[i].pc)); u.Some? && Leaves(s, u.value, i)
  {
  }

  lemma LeaveStep(s: State, i: nat)
    requires MayLeave(s, i) && ClientLocks(s, i)
    ensures var u := ClientStep(s, i, LeaveAct(s.clients[i].pc)); u.Some? && Leaves(s, u.value, i)
  {
    match s.clients[i].pc {
      case TestReady | Producing(_) | Consuming(_) => CallbackLeaves(s, i);
      case SendWait(_, _) | RecvWait(_, _) | ReadyWait(_) | WantOperation => WaitLeaves(s, i);
      case _ => ReleaseLeaves(s, i);
    }
  }

  /** The client inside leaves. */
  lemma {:induction false} ClientLeaves(good: State -> bool, s: State, i: nat) returns (t: State)
    requires Sustained(good) && good(s) && MayLeave(s, i)
    ensures good(t) && Quiet(t) && t.tr.Free? && t.op.Free? && |t.clients| == |s.clients|
    decreases LeaveRank(s.clients[i].pc)
  {
    LeaveStep(s, i);
    t := Step(s, ActClient(i, LeaveAct(s.clients[i].pc))).value;
    if !t.tr.Free? {
      t := ClientLeaves(good, t, i);
    }
  }

  // ----- everybody else out of the way ----------------------------------------------------------

  function BreakerRank(pc: BreakerPC): nat {
    match pc
    case BIdle => 0
    case BReleaseTransaction => 1
    case BWantTransaction => 1
    case _ => 2
  }

  /** The signal thread gives up, if it is not just about to end the main loop. */
  lemma {:induction false} BreakerCalms(good: State -> bool, s: State) returns (t: State)
    requires Sustained(good) && good(s) && MainLoopRuns(s)
    ensures good(t) && MainLoopRuns(t) && t.breaker.BIdle? && |t.clients| == |s.clients|
    decreases BreakerRank(s.breaker)
  {
    if s.breaker.BIdle? {
      t := s;
    } else {
      var giveUp := s.breaker.BWantTransaction? || s.breaker.BWantOperation?;
      t := BreakerCalms(good, Step(s, ActBreaker(giveUp)).value);
    }
  }

  lemma FlagWorkerCalms(good: State -> bool, s: State) returns (t: State)
    requires Sustained(good) && good(s) && MainLoopRuns(s) && s.breaker.BIdle?
    ensures good(t) && MainLoopRuns(t) && t.breaker.BIdle? && !t.df.ByWorker? && |t.clients| == |s.clients|
  {
    t := s;
    if s.df.ByWorker? {
      assert s.workers[s.df.j].WSetFlag?;
      t := Step(s, ActWorker(s.df.j)).value;
    }
  }

  lemma {:induction false} WorkerCalms(good: State -> bool, s: State) returns (t: State)
    requires Sustained(good) && good(s) && MainLoopRuns(s) && s.breaker.BIdle? && !s.df.ByWorker?
    ensures good(t) && Quiet(t) && |t.clients| == |s.clients|
    decreases if !s.tr.ByWorker? then 0 else if s.tr.j < |s.workers| && s.workers[s.tr.j].WUnlock? then 1 else 2
  {
    t := s;
    if s.tr.ByWorker? {
      assert WorkerHoldsTransaction(s.workers[s.tr.j]);
      t := WorkerCalms(good, Step(s, ActWorker(s.tr.j)).value);
    }
  }

  lemma OthersCalm(good: State -> bool, s: State) returns (t: State)
    requires Sustained(good) && good(s) && MainLoopRuns(s)
    ensures good(t) && Quiet(t) && |t.clients| == |s.clients|
  {
    t := BreakerCalms(good, s);
    t := FlagWorkerCalms(good, t);
    t := WorkerCalms(good, t);
  }

  /** Nobody is inside, and the server sleeps in its idle loop, ready. */
  predicate Resting(s: State) {
    Quiet(s) && s.server == IdleWait(true) && s.tr.Free? && s.op.Free?
  }

  lemma ClientsLeave(good: State -> bool, s: State) returns (t: State)
    requires Sustained(good) && good(s) && Quiet(s)
    ensures good(t) && ServerMayRun(t) && |t.clients| == |s.clients|
  {
    t := s;
    if s.op.ByClient? {
      assert ClientHoldsOperation(s.clients[s.op.i].pc);
      t := ClientLeaves(good, s, s.op.i);
    }
  }

  lemma Rests(good: State -> bool, s: State) returns (t: State)
    requires Sustained(good) && good(s) && MainLoopRuns(s)
    ensures good(t) && Resting(t) && |t.clients| == |s.clients|
  {
    t := OthersCalm(good, s);
    t := ClientsLeave(good, t);
    t := ServerSettles(good, t);
    if t.tr.ByClient? {
      t := ClientLeaves(good, t, t.tr.i);
      t := ServerSettles(good, t);
    }
  }

  // ----- and a new transaction ------------------------------------------------------------------

  lemma ClientWants(good: State -> bool, s: State, i: nat) returns (t: State)
    requires Sustained(good) && good(s) && Resting(s) && i < |s.clients|
    ensures good(t) && Resting(t) && t.h == s.h && i < |t.clients|
    ensures t.clients[i].pc.WantTransaction? || t.clients[i].pc == NotificationWait(false)
  {
    assert !ClientHoldsTransaction(s.clients[i].pc);
    t := s;
    if s.clients[i].pc.Outside? {
      t := Step(s, ActClient(i, Call(false))).value;
    } else if s.clients[i].pc.NotificationWait? {
      t := Step(s, ActClient(i, ClientAct.Spurious)).value;
    }
  }

  lemma ClientArrives(good: State -> bool, s: State, i: nat) returns (t: State)
    requires Sustained(good) && good(s) && Resting(s) && i < |s.clients|
    ensures good(t) && Quiet(t) && t.server == IdleWait(true) && t.h == s.h
    ensures i < |t.clients| && t.clients[i].pc.TestReady? && t.tr == ByClient(i)
  {
    t := ClientWants(good, s, i);
    t := Step(t, ActClient(i, ClientAct.Go)).value;
    t := Step(t, ActClient(i, ClientAct.Go)).value;
  }

  lemma RestingIsReady(s: State)
    requires Inv(s) && IdlePhase(s) && Resting(s)
    ensures s.h.phase == Ready && !s.h.serverEvent
  {
  }

  lemma ArrivedServes(s: State, i: nat)
    requires LocksMatch(s) && Quiet(s) && s.server == IdleWait(true) && s.h.phase == Ready && !s.h.serverEvent
    requires i < |s.clients| && s.clients[i].pc.TestReady? && s.tr == ByClient(i)
    ensures Serving(s)
  {
    assert forall j :: 0 <= j < |s.clients| && ClientHoldsTransaction(s.clients[j].pc) ==> j == i;
  }

  lemma {:induction false} GoodAlong(good: State -> bool, s: State, acts: seq<Action>)
    requires Closed(good) && good(s) && Run(s, acts).Some?
    ensures good(Run(s, acts).value)
  {
    if acts != [] {
      GoodAlong(good, s, acts[..|acts| - 1]);
    }
  }

  /** From a state of rest client `i` can be served, with any numbers of parts. */
  lemma RestServes(good: State -> bool, s: State, i: nat, n: nat, m: nat) returns (a: State, t: State)
    requires Sustained(good) && good(s) && Resting(s) && i < |s.clients| && n > 0 && m > 0
    ensures good(a) && good(t) && t.past == a.past + [a.cur]
    ensures t.cur.client == i && t.cur.complete && |t.cur.sent| == n && |t.cur.replied| == m
  {
    RestingIsReady(s);
    a := ClientArrives(good, s, i);
    ArrivedServes(a, i);
    var u := Step(a, ActClient(i, ClientAct.Go)).value;
    StartServes(a, ActClient(i, ClientAct.Go), u, n, m);
    var acts;
    acts, t := CanAlwaysFinish(u, n, m);
    RuledRunIsRun(Faultless, u, acts);
    GoodAlong(good, u, acts);
  }

  /** `u` continues `s`. */
  ghost predicate Continues(s: State, u: State) {
    LeadsTo(s, u) && Inv(u) && IdlePhase(u) && |s.past| <= |u.past|
  }

  lemma ContinuesOn(s: State, u: State, a: Action)
    requires Continues(s, u) && Step(u, a).Some?
    ensures Continues(s, Step(u, a).value)
  {
    var t := Step(u, a).value;
    StepLeadsOn(s, u, a);
    StepKeeps(u, a, t);
    StepKeepsIdlePhase(u, a, t);
    PastGrows(u, a, t);
  }

  /** Client `i` can still complete a new transaction, with `n` and `m` parts. */
  ghost predicate CanServe(s: State, i: nat, n: nat, m: nat) {
    exists t :: LeadsTo(s, t) && Served(s, t, i, n, m)
  }

  ghost predicate Served(s: State, t: State, i: nat, n: nat, m: nat) {
    && |s.past| < |t.past| && t.cur.client == i && t.cur.complete
    && |t.cur.sent| == n && |t.cur.replied| == m
  }

  lemma RunningServes(s: State, i: nat, n: nat, m: nat)
    requires Reachable(s) && MainLoopRuns(s) && i < |s.clients| && n > 0 && m > 0
    ensures CanServe(s, i, n, m)
  {
    ReachableSatisfiesInv(s);
    ReachableIdlePhase(s);
    LeadsToItself(s);
    var good := (u: State) => Continues(s, u);
    forall u, a {:trigger Step(u, a)} | good(u) && Step(u, a).Some?
      ensures good(Step(u, a).value)
    {
      ContinuesOn(s, u, a);
    }
    var r := Rests(good, s);
    var a, t := RestServes(good, r, i, n, m);
    assert LeadsTo(s, t) && Served(s, t, i, n, m);
  }

  // ----- no service after the end ---------------------------------------------------------------

  predicate Doomed(s: State) {
    !s.server.Start? && !MainLoopRuns(s)
  }

  lemma ServerStepStaysDoomed(s: State, a: ServerAct, t: State)
    requires ServerStep(s, a) == Some(t) && Ended(s.server)
    ensures Ended(t.server)
  {
  }

  lemma StepStaysDoomed(s: State, a: Action, t: State)
    requires Inv(s) && Doomed(s) && Step(s, a) == Some(t)
    ensures Doomed(t)
  {
    if !s.h.running {
      StepStaysStopped(s, a, t);
    } else {
      match a {
        case ActClient(i, c) => ClientStepMoves(s, i, c, t);
        case ActServer(x) =>
          ServerStepKeepsFlags(s, x, t);
          if Ended(s.server) { ServerStepStaysDoomed(s, x, t); } else { ServerKeepsBreaker(s, x, t); }
        case ActOwn(_) =>
        case ActWorker(j) => WorkerMoves(s, j, t);
        case ActBreaker(timeout) => BreakerMoves(s, timeout, t);
      }
    }
  }

  lemma ServerKeepsBreaker(s: State, x: ServerAct, t: State)
    requires ServerStep(s, x) == Some(t)
    ensures t.breaker == s.breaker
  {
    if !s.server.Broadcast? && !s.server.ClearDeferred? {
      ServerStepMove(s, x, t);
    }
  }

  lemma CompletesFromReply(s: State, a: Action, t: State)
    requires Inv(s) && Step(s, a) == Some(t) && t.past == s.past && s.h.phase != ServerToClient
    ensures t.cur.complete ==> s.cur.complete
  {
    match a {
      case ActClient(i, c) => ClientCompletes(s, i, c, t);
      case ActServer(x) => ServerCompletesNothing(s, x, t);
      case ActOwn(_) =>
      case ActWorker(j) => WorkerMoves(s, j, t);
      case ActBreaker(timeout) => BreakerMoves(s, timeout, t);
    }
  }

  lemma ClientCompletes(s: State, i: nat, c: ClientAct, t: State)
    requires ClientStep(s, i, c) == Some(t) && s.h.phase != ServerToClient
    ensures t.cur.complete ==> s.cur.complete
  {
  }

  lemma IdleServerCompletesNothing(s: State, x: ServerAct, t: State)
    requires ServerStep(s, x) == Some(t) && ServerIdle(s.server)
    ensures t.cur == s.cur
  {
  }

  lemma ServingServerCompletesNothing(s: State, x: ServerAct, t: State)
    requires ServerStep(s, x) == Some(t) && (s.server.SConsuming? || s.server.SProducing?)
    ensures t.cur.complete == s.cur.complete
  {
  }

  lemma OtherServerCompletesNothing(s: State, x: ServerAct, t: State)
    requires ServerStep(s, x) == Some(t) && !ServerIdle(s.server) && !s.server.SConsuming? && !s.server.SProducing?
    ensures t.cur == s.cur
  {
  }

  lemma ServerCompletesNothing(s: State, x: ServerAct, t: State)
    requires ServerStep(s, x) == Some(t)
    ensures t.cur.complete == s.cur.complete
  {
    if ServerIdle(s.server) {
      IdleServerCompletesNothing(s, x, t);
    } else if s.server.SConsuming? || s.server.SProducing? {
      ServingServerCompletesNothing(s, x, t);
    } else {
      OtherServerCompletesNothing(s, x, t);
    }
  }

  /** The transaction of `s` still, or one that will not be served. */
  ghost predicate Unserved(s: State, t: State) {
    t.past == s.past || (!t.h.running && NothingServed(t) && !t.cur.complete)
  }

  lemma StepStaysUnserved(s: State, u: State, a: Action, t: State)
    requires Inv(u) && Doomed(u) && Unserved(s, u) && Step(u, a) == Some(t)
    ensures Unserved(s, t)
  {
    PastGrows(u, a, t);
    if t.past != u.past {
      StartsByClient(u, a, t);
      NotStartedIfEnded(u, a.i);
      ClientStepMoves(u, a.i, a.c, t);
      ClientServesNothing(u, a.i, t);
    } else if u.past != s.past {
      StepStaysStopped(u, a, t);
      CompletesFromReply(u, a, t);
    }
  }

  lemma NotStartedIfEnded(s: State, i: nat)
    requires Inv(s) && Doomed(s) && i < |s.clients| && EntersTransaction(s, i)
    ensures !s.h.running
  {
    assert s.op == ByClient(i) && s.tr == ByClient(i);
  }

  lemma {:induction false} DoomedServesNobody(s: State, acts: seq<Action>, t: State)
    requires Inv(s) && Doomed(s) && Run(s, acts) == Some(t)
    ensures Inv(t) && Doomed(t) && Unserved(s, t)
  {
    if acts != [] {
      var m := acts[..|acts| - 1];
      var u := Run(s, m).value;
      DoomedServesNobody(s, m, u);
      StepStaysUnserved(s, u, acts[|acts| - 1], t);
      StepStaysDoomed(u, acts[|acts| - 1], t);
      StepKeeps(u, acts[|acts| - 1], t);
    }
  }

  /** Recovery: in every reachable state after the start of the main loop, whatever timeouts, failures and breaks
      came before, every client can still complete a new transaction, of any size, if and only if the main loop
      runs. */
  lemma RecoversIff(s: State, i: nat, n: nat, m: nat)
    requires Reachable(s) && !s.server.Start? && i < |s.clients| && n > 0 && m > 0
    ensures CanServe(s, i, n, m) <==> MainLoopRuns(s)
  {
    if MainLoopRuns(s) {
      RunningServes(s, i, n, m);
    } else if CanServe(s, i, n, m) {
      ReachableSatisfiesInv(s);
      var t :| LeadsTo(s, t) && Served(s, t, i, n, m);
      var acts: seq<Action> :| Run(s, acts) == Some(t);
      DoomedServesNobody(s, acts, t);
    }
  }

  // ----- how the main loop ends -----------------------------------------------------------------

  /** The periodic function fails in any way, or a handler that is called for the first part of a message fatally. */
  predicate FailsFatally(s: State, x: ServerAct) {
    x.Callback? &&
    match s.server
    case Periodic => x.outcome != Accept
    case SConsuming(p) => InCallback(s) && p == 0 && x.outcome == Fatal
    case SProducing(p) => p == 0 && x.outcome == Fatal
    case _ => false
  }

  lemma IdleServerEndsIff(s: State, x: ServerAct, t: State)
    requires ServerStep(s, x) == Some(t) && ServerIdle(s.server)
    ensures Ended(t.server) <==> FailsFatally(s, x)
  {
  }

  lemma CalledServerEndsIff(s: State, x: ServerAct, t: State)
    requires ServerStep(s, x) == Some(t) && (s.server.SConsuming? || s.server.SProducing?)
    ensures Ended(t.server) <==> FailsFatally(s, x)
  {
  }

  lemma OtherServerEndsNot(s: State, x: ServerAct, t: State)
    requires ServerStep(s, x) == Some(t) && s.h.running && !Ended(s.server) && !s.server.Start?
    requires !ServerIdle(s.server) && !s.server.SConsuming? && !s.server.SProducing?
    ensures !Ended(t.server)
  {
  }

  lemma ServerEndsIff(s: State, x: ServerAct, t: State)
    requires ServerStep(s, x) == Some(t) && s.h.running && !Ended(s.server) && !s.server.Start?
    ensures Ended(t.server) <==> FailsFatally(s, x)
  {
    if ServerIdle(s.server) {
      IdleServerEndsIff(s, x, t);
    } else if s.server.SConsuming? || s.server.SProducing? {
      CalledServerEndsIff(s, x, t);
    } else {
      OtherServerEndsNot(s, x, t);
    }
  }

  lemma ClientsKeepItRunning(s: State, t: State, i: nat)
    requires ClientMove(s, t, i) && MainLoopRuns(s)
    ensures MainLoopRuns(t)
  {
  }

  lemma BreakerEndsIff(s: State, timeout: bool, t: State)
    requires BreakerStep(s, timeout) == Some(t) && MainLoopRuns(s)
    ensures !MainLoopRuns(t) <==> !timeout && s.breaker.BWantOperation?
  {
  }

  lemma OwnEndsIff(s: State, c: OwnCall, t: State)
    requires OwnStep(s, c) == Some(t) && MainLoopRuns(s)
    ensures !MainLoopRuns(t) <==> c == OwnBreak
  {
  }

  lemma WorkersKeepItRunning(s: State, j: nat, t: State)
    requires WorkerStep(s, j) == Some(t) && MainLoopRuns(s)
    ensures MainLoopRuns(t)
  {
  }

  lemma ServerRunsOnIff(s: State, x: ServerAct, t: State)
    requires Inv(s) && ServerStep(s, x) == Some(t) && MainLoopRuns(s)
    ensures MainLoopRuns(t) <==> !FailsFatally(s, x)
  {
    ServerEndsIff(s, x, t);
    ServerKeepsBreaker(s, x, t);
    ServerStepKeepsFlags(s, x, t);
  }

  /** The main loop ends only by a break, of another thread or from a callback, or by a failure that it cannot
      outlive; and by these it does. */
  lemma MainLoopEndsIff(s: State, a: Action, t: State)
    requires Reachable(s) && MainLoopRuns(s) && Step(s, a) == Some(t)
    ensures !MainLoopRuns(t) <==>
            || (a == ActBreaker(false) && s.breaker.BWantOperation?)
            || a == ActOwn(OwnBreak)
            || (a.ActServer? && FailsFatally(s, a.s))
  {
    ReachableSatisfiesInv(s);
    match a {
      case ActClient(i, c) => ClientStepMoves(s, i, c, t); ClientsKeepItRunning(s, t, i);
      case ActServer(x) => ServerRunsOnIff(s, x, t);
      case ActOwn(c) => OwnEndsIff(s, c, t);
      case ActWorker(j) => WorkersKeepItRunning(s, j, t);
      case ActBreaker(timeout) => BreakerEndsIff(s, timeout, t);
    }
  }
}
