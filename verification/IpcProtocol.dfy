/** The shared-memory message protocol between web-server workers (clients) and a job (server).

    One step of the model is the code between two lock operations, condition waits or callbacks.
    The shared header is only ever touched by the thread that holds the operation lock, so nothing
    another thread can observe happens inside a step.  A condition wait is "release the lock and
    fall asleep", then a wake-up (a signal, or a spurious one, or the timeout), then the lock again. */
module IpcProtocol {
  import opened Wrappers

  type Bytes = seq<bv8>

  // ----- the shared header ----------------------------------------------------------------------

  datatype Phase = Ready | ClientToServer | ServerToClient | Done | Error

  datatype Header = Header(
    phase: Phase,
    part: nat,
    more: bool,
    payload: Bytes,
    serverEvent: bool,
    clientEvent: bool,
    running: bool)

  /** A thread, as the owner of a lock. */
  datatype Owner = Free | ByClient(i: nat) | ByServer | ByWorker(j: nat) | ByBreaker

  // ----- program counters -----------------------------------------------------------------------

  /** A client inside `tinia_ipc_msg_client_sendrecv`.  `asleep` marks a condition wait that has not
      been woken yet. */
  datatype ClientPC =
    | Outside
    | WantTransaction
    | WantOperation
    | TestReady
    | ReadyWait(asleep: bool)
    | Producing(part: nat)
    | SendWait(part: nat, asleep: bool)
    | RecvWait(part: nat, asleep: bool)
    | Consuming(part: nat)
    | Failing
    | ReleaseOperation(ret: int)
    | BeforeNotification
    | NotificationWait(asleep: bool)
    | ReleaseTransaction(ret: int)

  /** `told` is the model revision that the last consumed reply was computed from.  `begun` is the place, among
      all transactions ever started, of the one that the call is in or went through last, if it has begun one since
      it entered or was woken from a long poll; `result` is what the last call returned, once it has. */
  datatype ClientState = ClientState(
    pc: ClientPC,
    longPoll: bool,
    waitFlag: bool,
    told: nat,
    begun: Option<nat>,
    result: Option<int>)

  /** The thread that runs `ipc_msg_server_mainloop`. */
  datatype ServerPC =
    | Start
    | LoopTest
    | PollLock
    | PollRead
    | ReleaseForNotify
    | TryTransaction
    | Broadcast
    | ClearDeferred
    | UnlockTransaction
    | RelockOperation
    | Periodic
    | IdleTest
    | IdleWait(asleep: bool)
    | Dispatch
    | SConsuming(part: nat)
    | SRecvWait(part: nat, asleep: bool)
    | SProducing(part: nat)
    | SSendWait(part: nat, asleep: bool)
    | FinalWait(asleep: bool)
    | SFailing(fatal: bool)
    | Stop
    | Join
    | Exit
    | Finished

  /** A worker thread that changes the model and then calls `ipc_msg_server_notify`. */
  datatype WorkerPC = WIdle | WTry | WWantFlag | WSetFlag | WBroadcast | WUnlock

  /** The signal thread that calls `ipc_msg_server_mainloop_break`. */
  datatype BreakerPC = BIdle | BWantTransaction | BWantOperation | BSet | BReleaseOperation | BReleaseTransaction

  // ----- what passed between one client and the server in one transaction ----------------------

  /** The parts the client's producer made, those handed to the server's consumer, those the
      server's producer made, and those handed to the client's consumer; `answers` is what the client's
      consumer answered for the parts it took, and `revision` the model revision at the moment the reply
      was computed. */
  datatype Exchange = Exchange(
    client: nat,
    sent: seq<Bytes>,
    recvd: seq<Bytes>,
    replied: seq<Bytes>,
    got: seq<Bytes>,
    answers: seq<int>,
    revision: nat,
    complete: bool)

  datatype State = State(
    h: Header,
    tr: Owner,
    op: Owner,
    df: Owner,
    deferred: bool,
    revision: nat,
    clients: seq<ClientState>,
    server: ServerPC,
    workers: seq<WorkerPC>,
    breaker: BreakerPC,
    cur: Exchange,
    past: seq<Exchange>)

  function Init(clients: nat, workers: nat): State {
    State(Header(Error, 0, false, [], false, false, false), Free, Free, Free, false, 0,
          seq(clients, _ => ClientState(Outside, false, false, 0, None, None)), Start,
          seq(workers, _ => WIdle), BIdle, Exchange(0, [], [], [], [], [], 0, false), [])
  }

  // ----- condition variables --------------------------------------------------------------------

  /** The client stops sleeping if it waits on `client_event`. */
  function WokenByClientEvent(c: ClientState): ClientState {
    match c.pc
    case ReadyWait(_) => c.(pc := ReadyWait(false))
    case SendWait(p, _) => c.(pc := SendWait(p, false))
    case RecvWait(p, _) => c.(pc := RecvWait(p, false))
    case _ => c
  }

  /** The client stops sleeping if it waits on `notification_event`. */
  function WokenByNotification(c: ClientState): ClientState {
    if c.pc.NotificationWait? then c.(pc := NotificationWait(false)) else c
  }

  function WokenServer(pc: ServerPC): ServerPC {
    match pc
    case IdleWait(_) => IdleWait(false)
    case SRecvWait(p, _) => SRecvWait(p, false)
    case SSendWait(p, _) => SSendWait(p, false)
    case FinalWait(_) => FinalWait(false)
    case _ => pc
  }

  /** Signalling `client_event`.  At most one thread ever waits on it (`ClientEventHasOneWaiter`),
      so waking one and waking all are the same. */
  function WakeClients(cs: seq<ClientState>): (r: seq<ClientState>)
    ensures |r| == |cs| && forall i :: 0 <= i < |cs| ==> r[i] == WokenByClientEvent(cs[i])
  {
    seq(|cs|, i requires 0 <= i < |cs| => WokenByClientEvent(cs[i]))
  }

  /** Broadcasting `notification_event`. */
  function NotifyClients(cs: seq<ClientState>): (r: seq<ClientState>)
    ensures |r| == |cs| && forall i :: 0 <= i < |cs| ==> r[i] == WokenByNotification(cs[i])
  {
    seq(|cs|, i requires 0 <= i < |cs| => WokenByNotification(cs[i]))
  }

  function SignalServer(s: State): State {
    s.(h := s.h.(serverEvent := true), server := WokenServer(s.server))
  }

  function SignalClient(s: State): State {
    s.(h := s.h.(clientEvent := true), clients := WakeClients(s.clients))
  }

  // ----- the client -----------------------------------------------------------------------------

  datatype ClientAct =
    | Call(longPoll: bool)
    | Go
    | Timeout
    | Spurious
    | Produce(ok: bool, bytes: Bytes, more: bool)
    | Consume(rc: int)

  function AtPC(s: State, i: nat, pc: ClientPC): State
    requires i < |s.clients|
  {
    s.(clients := s.clients[i := s.clients[i].(pc := pc)])
  }

  /** The call is over, and returns `ret`. */
  function ClientReturns(s: State, i: nat, ret: int): State
    requires i < |s.clients|
  {
    s.(clients := s.clients[i := s.clients[i].(pc := Outside, result := Some(ret))])
  }

  /** The common error exit of a client, which holds the operation lock. */
  function ClientFails(s: State, i: nat): State
    requires i < |s.clients|
  {
    AtPC(SignalServer(s.(h := s.h.(phase := Error))), i, ReleaseOperation(-1))
  }

  /** `ipc_msg_client_send`: one turn of the part loop, up to the next wait. */
  function ClientProduces(s: State, i: nat, p: nat, ok: bool, bytes: Bytes, more: bool): State
    requires i < |s.clients|
  {
    if s.h.phase != ClientToServer || !ok then AtPC(s, i, Failing)
    else
      var s1 := SignalServer(s.(h := s.h.(part := p, more := more, payload := bytes),
                                cur := s.cur.(sent := s.cur.sent + [bytes])));
      AtPC(s1.(op := Free, h := s1.h.(clientEvent := false)), i,
           if more then SendWait(p + 1, true) else RecvWait(0, true))
  }

  /** `ipc_msg_client_recv`: one turn of the part loop, after the wait. */
  function ClientConsumes(s: State, i: nat, p: nat, rc: int): State
    requires i < |s.clients|
  {
    if s.h.phase != ServerToClient || s.h.part != p || rc < 0 then AtPC(s, i, Failing)
    else
      var c := s.clients[i].(waitFlag := s.clients[i].waitFlag || rc > 0);
      var x := s.cur.(got := s.cur.got + [s.h.payload], answers := s.cur.answers + [rc]);
      if s.h.more then
        var s1 := SignalServer(s.(cur := x, clients := s.clients[i := c]));
        AtPC(s1.(op := Free, h := s1.h.(clientEvent := false)), i, RecvWait(p + 1, true))
      else
        var c' := c.(told := x.revision, pc := ReleaseOperation(if c.waitFlag then 1 else 0));
        SignalServer(s.(h := s.h.(phase := Done), cur := x.(complete := true), clients := s.clients[i := c']))
  }

  function ClientStep(s: State, i: nat, a: ClientAct): Option<State> {
    if i >= |s.clients| then None else
    var c := s.clients[i];
    match c.pc
    case Outside =>
      if a.Call? then
        var entered := c.(pc := WantTransaction, longPoll := a.longPoll, begun := None, result := None);
        Some(s.(clients := s.clients[i := entered]))
      else None
    case WantTransaction =>
      if a.Timeout? then Some(ClientReturns(s, i, -2))
      else if a.Go? && s.tr.Free? then Some(AtPC(s.(tr := ByClient(i)), i, WantOperation))
      else None
    case WantOperation =>
      if a.Timeout? then Some(AtPC(s, i, ReleaseTransaction(-2)))
      else if a.Go? && s.op.Free? then Some(AtPC(s.(op := ByClient(i)), i, TestReady))
      else None
    case TestReady =>
      if !a.Go? then None
      else if s.h.phase == Ready then
        Some(s.(h := s.h.(phase := ClientToServer),
                clients := s.clients[i := c.(pc := Producing(0), waitFlag := false, begun := Some(|s.past| + 1))],
                cur := Exchange(i, [], [], [], [], [], 0, false),
                past := s.past + [s.cur]))
      else Some(AtPC(s.(op := Free), i, ReadyWait(true)))
    case ReadyWait(asleep) =>
      if a.Spurious? then Some(AtPC(s, i, ReadyWait(false)))
      else if !s.op.Free? then None
      else if a.Timeout? then Some(AtPC(s.(op := ByClient(i)), i, ReleaseOperation(-1)))
      else if a.Go? && !asleep then Some(AtPC(s.(op := ByClient(i)), i, TestReady))
      else None
    case Producing(p) =>
      if a.Produce? then Some(ClientProduces(s, i, p, a.ok, a.bytes, a.more)) else None
    case SendWait(p, asleep) =>
      if a.Spurious? then Some(AtPC(s, i, SendWait(p, false)))
      else if !s.op.Free? then None
      else if a.Timeout? then Some(AtPC(s.(op := ByClient(i)), i, Failing))
      else if a.Go? && !asleep then
        if s.h.clientEvent then Some(AtPC(s.(op := ByClient(i)), i, Producing(p)))
        else Some(AtPC(s, i, SendWait(p, true)))
      else None
    case RecvWait(p, asleep) =>
      if a.Spurious? then Some(AtPC(s, i, RecvWait(p, false)))
      else if !s.op.Free? then None
      else if a.Timeout? then Some(AtPC(s.(op := ByClient(i)), i, Failing))
      else if a.Go? && !asleep then
        if s.h.clientEvent then Some(AtPC(s.(op := ByClient(i)), i, Consuming(p)))
        else Some(AtPC(s, i, RecvWait(p, true)))
      else None
    case Consuming(p) =>
      if a.Consume? then Some(ClientConsumes(s, i, p, a.rc)) else None
    case Failing =>
      if a.Go? then Some(ClientFails(s, i)) else None
    case ReleaseOperation(ret) =>
      if !a.Go? then None
      else if ret > 0 && c.longPoll then Some(AtPC(s.(op := Free), i, BeforeNotification))
      else Some(AtPC(s.(op := Free), i, ReleaseTransaction(if ret > 0 then 0 else ret)))
    case BeforeNotification =>
      if a.Go? then Some(AtPC(s.(tr := Free), i, NotificationWait(true))) else None
    case NotificationWait(asleep) =>
      if a.Spurious? then Some(AtPC(s, i, NotificationWait(false)))
      else if !s.tr.Free? then None
      else if a.Timeout? then Some(AtPC(s.(tr := ByClient(i)), i, ReleaseTransaction(-1)))
      else if a.Go? && !asleep then
        Some(s.(tr := ByClient(i), clients := s.clients[i := c.(pc := WantOperation, begun := None)]))
      else None
    case ReleaseTransaction(ret) =>
      if a.Go? then Some(ClientReturns(s.(tr := Free), i, ret)) else None
  }

  // ----- the server -----------------------------------------------------------------------------

  /** What a server callback (handler, consumer, producer or periodic function) answers: success,
      a failure that ends the iteration, or one that ends the main loop. */
  datatype Outcome = Accept | Reject | Fatal

  datatype ServerAct =
    | SGo
    | STimeout
    | SSpurious
    | Callback(outcome: Outcome, bytes: Bytes, more: bool)

  /** The common error exit of `ipc_msg_server_recv` and `ipc_msg_server_send`. */
  function ServerFails(s: State, fatal: bool): State {
    SignalClient(s.(h := s.h.(phase := Error), server := if fatal then Stop else LoopTest))
  }

  /** `ipc_msg_server_recv`: one turn of the part loop, up to the next wait.  The consumer of the
      last part computes the reply, from the model as it is then. */
  function ServerConsumes(s: State, p: nat, outcome: Outcome): State {
    if s.h.phase != ClientToServer || s.h.part != p then s.(server := SFailing(false))
    else if outcome != Accept then s.(server := SFailing(outcome == Fatal && p == 0))
    else
      var x := s.cur.(recvd := s.cur.recvd + [s.h.payload]);
      if s.h.more then
        var s1 := SignalClient(s.(cur := x));
        s1.(h := s1.h.(serverEvent := false), op := Free, server := SRecvWait(p + 1, true))
      else
        s.(h := s.h.(phase := ServerToClient), cur := x.(revision := s.revision), server := SProducing(0))
  }

  /** `ipc_msg_server_send`: one turn of the part loop, up to the next wait. */
  function ServerProduces(s: State, p: nat, outcome: Outcome, bytes: Bytes, more: bool): State {
    if s.h.phase != ServerToClient || outcome != Accept then s.(server := SFailing(outcome == Fatal && p == 0))
    else
      var s1 := SignalClient(s.(h := s.h.(part := p, more := more, payload := bytes),
                                cur := s.cur.(replied := s.cur.replied + [bytes])));
      if more then s1.(h := s1.h.(serverEvent := false), op := Free, server := SSendWait(p + 1, true))
      else s1.(op := Free, server := FinalWait(true))
  }

  /** `ipc_msg_server_mainloop_iteration` and the loop around it. */
  function ServerStep(s: State, a: ServerAct): Option<State> {
    match s.server
    case Start =>
      if a.STimeout? then Some(s.(server := Finished))
      else if a.SGo? && s.op.Free? then Some(s.(op := ByServer, h := s.h.(running := true), server := LoopTest))
      else None
    case LoopTest =>
      if !a.SGo? then None
      else if s.h.running then
        Some(s.(h := s.h.(phase := Ready, serverEvent := false), clients := WakeClients(s.clients), server := PollLock))
      else Some(s.(server := Stop))
    case PollLock =>
      if a.SGo? && s.df.Free? then Some(s.(df := ByServer, server := PollRead)) else None
    case PollRead =>
      if a.SGo? then Some(s.(df := Free, server := if s.deferred then ReleaseForNotify else Periodic)) else None
    case ReleaseForNotify =>
      if a.SGo? then Some(s.(op := Free, server := TryTransaction)) else None
    case TryTransaction =>
      if !a.SGo? then None
      else if s.tr.Free? then Some(s.(tr := ByServer, server := Broadcast))
      else Some(s.(server := RelockOperation))
    case Broadcast =>
      if a.SGo? then Some(s.(clients := NotifyClients(s.clients), server := ClearDeferred)) else None
    case ClearDeferred =>
      if a.SGo? then Some(s.(deferred := false, server := UnlockTransaction)) else None
    case UnlockTransaction =>
      if a.SGo? then Some(s.(tr := Free, server := RelockOperation)) else None
    case RelockOperation =>
      if a.SGo? && s.op.Free? then Some(s.(op := ByServer, server := Periodic)) else None
    case Periodic =>
      if a.Callback? then Some(s.(server := if a.outcome == Accept then IdleTest else Stop)) else None
    case IdleTest =>
      if !a.SGo? then None
      else if s.h.serverEvent then Some(s.(server := Dispatch))
      else Some(s.(op := Free, server := IdleWait(true)))
    case IdleWait(asleep) =>
      if a.SSpurious? then Some(s.(server := IdleWait(false)))
      else if s.op.Free? && (a.STimeout? || (a.SGo? && !asleep)) then
        Some(s.(op := ByServer, server := if s.h.serverEvent then Dispatch else PollLock))
      else None
    case Dispatch =>
      if !a.SGo? then None
      else if !s.h.running then Some(s.(server := LoopTest))
      else if s.h.phase != ClientToServer then Some(s.(h := s.h.(phase := Error), server := LoopTest))
      else Some(s.(server := SConsuming(0)))
    case SConsuming(p) =>
      if a.Callback? then Some(ServerConsumes(s, p, a.outcome)) else None
    case SRecvWait(p, asleep) =>
      if a.SSpurious? then Some(s.(server := SRecvWait(p, false)))
      else if !s.op.Free? then None
      else if a.STimeout? then Some(s.(op := ByServer, server := LoopTest))
      else if a.SGo? && !asleep then
        if s.h.serverEvent then Some(s.(op := ByServer, server := SConsuming(p)))
        else Some(s.(server := SRecvWait(p, true)))
      else None
    case SProducing(p) =>
      if a.Callback? then Some(ServerProduces(s, p, a.outcome, a.bytes, a.more)) else None
    case SSendWait(p, asleep) =>
      if a.SSpurious? then Some(s.(server := SSendWait(p, false)))
      else if !s.op.Free? then None
      else if a.STimeout? then Some(s.(op := ByServer, server := LoopTest))
      else if a.SGo? && !asleep then
        if s.h.serverEvent then Some(s.(op := ByServer, server := SProducing(p)))
        else Some(s.(server := SSendWait(p, true)))
      else None
    case FinalWait(asleep) =>
      if a.SSpurious? then Some(s.(server := FinalWait(false)))
      else if !s.op.Free? then None
      else if a.STimeout? then Some(s.(op := ByServer, server := LoopTest))
      else if a.SGo? && !asleep then
        if s.h.phase != ServerToClient then Some(s.(op := ByServer, server := LoopTest))
        else Some(s.(server := FinalWait(true)))
      else None
    case SFailing(fatal) =>
      if a.SGo? then Some(ServerFails(s, fatal)) else None
    case Stop =>
      if a.SGo? then Some(s.(h := s.h.(phase := Done), server := Join)) else None
    case Join =>
      if a.SGo? && s.breaker.BIdle? then Some(s.(server := Exit)) else None
    case Exit =>
      if a.SGo? then Some(s.(op := Free, server := Finished)) else None
    case Finished => None
  }

  // ----- workers and the breaker ----------------------------------------------------------------

  /** A worker changes the model, then notifies. */
  function WorkerStep(s: State, j: nat): Option<State> {
    if j >= |s.workers| then None else
    match s.workers[j]
    case WIdle => Some(s.(revision := s.revision + 1, workers := s.workers[j := WTry]))
    case WTry =>
      if s.tr.Free? then Some(s.(tr := ByWorker(j), workers := s.workers[j := WBroadcast]))
      else Some(s.(workers := s.workers[j := WWantFlag]))
    case WWantFlag =>
      if s.df.Free? then Some(s.(df := ByWorker(j), workers := s.workers[j := WSetFlag])) else None
    case WSetFlag => Some(s.(deferred := true, df := Free, workers := s.workers[j := WIdle]))
    case WBroadcast => Some(s.(clients := NotifyClients(s.clients), workers := s.workers[j := WUnlock]))
    case WUnlock => Some(s.(tr := Free, workers := s.workers[j := WIdle]))
  }

  /** The signal thread exists between its creation in the main loop and its join. */
  predicate BreakerAlive(pc: ServerPC) {
    !pc.Start? && !pc.Exit? && !pc.Finished?
  }

  function BreakerStep(s: State, timeout: bool): Option<State> {
    match s.breaker
    case BIdle =>
      if !timeout && BreakerAlive(s.server) && !s.server.Join? then Some(s.(breaker := BWantTransaction)) else None
    case BWantTransaction =>
      if timeout then Some(s.(breaker := BIdle))
      else if s.tr.Free? then Some(s.(tr := ByBreaker, breaker := BWantOperation))
      else None
    case BWantOperation =>
      if timeout then Some(s.(breaker := BReleaseTransaction))
      else if s.op.Free? then Some(s.(op := ByBreaker, breaker := BSet))
      else None
    case BSet =>
      if timeout then None
      else Some(SignalServer(s.(h := s.h.(running := false), breaker := BReleaseOperation)))
    case BReleaseOperation => if timeout then None else Some(s.(op := Free, breaker := BReleaseTransaction))
    case BReleaseTransaction => if timeout then None else Some(s.(tr := Free, breaker := BIdle))
  }

  // ----- the main-loop thread calling itself ----------------------------------------------------

  /** What the application may ask for inside a callback, on the thread of the main loop. */
  datatype OwnCall = OwnNotify | OwnBreak

  /** The main-loop thread is in a callback: the periodic function, or, once phase and part have been
      checked, the consumer or producer of the server. */
  predicate InCallback(s: State) {
    match s.server
    case Periodic => true
    case SConsuming(p) => s.h.phase == ClientToServer && s.h.part == p
    case SProducing(_) => s.h.phase == ServerToClient
    case _ => false
  }

  /** From a callback `ipc_msg_server_notify`, after a change of the model, broadcasts at once, without the
      transaction lock, and `ipc_msg_server_mainloop_break` only clears the flag. */
  function OwnStep(s: State, c: OwnCall): Option<State> {
    if !InCallback(s) then None
    else match c
    case OwnNotify => Some(s.(revision := s.revision + 1, clients := NotifyClients(s.clients)))
    case OwnBreak => Some(s.(h := s.h.(running := false)))
  }

  // ----- the whole system -----------------------------------------------------------------------

  datatype Action =
    | ActClient(i: nat, c: ClientAct)
    | ActServer(s: ServerAct)
    | ActOwn(own: OwnCall)
    | ActWorker(j: nat)
    | ActBreaker(timeout: bool)

  function Step(s: State, a: Action): Option<State> {
    match a
    case ActClient(i, c) => ClientStep(s, i, c)
    case ActServer(x) => ServerStep(s, x)
    case ActOwn(c) => OwnStep(s, c)
    case ActWorker(j) => WorkerStep(s, j)
    case ActBreaker(t) => BreakerStep(s, t)
  }

  /** The state after the actions, if each was possible when its turn came. */
  function Run(s: State, acts: seq<Action>): Option<State> {
    RunUnder(AnyAction, s, acts)
  }

  /** The same for runs in which every action also obeys a rule. */
  function RunUnder(rule: Rule, s: State, acts: seq<Action>): Option<State> {
    if acts == [] then Some(s)
    else
      match RunUnder(rule, s, acts[..|acts| - 1])
      case None => None
      case Some(m) => if rule(m, acts[|acts| - 1]) then Step(m, acts[|acts| - 1]) else None
  }

  /** What may be said about an action in the state in which it is taken. */
  type Rule = (State, Action) -> bool

  predicate AnyAction(s: State, a: Action) {
    true
  }

  ghost predicate Reachable(s: State) {
    exists n: nat, m: nat, acts: seq<Action> :: Run(Init(n, m), acts) == Some(s)
  }

  /** Two actions of the server that the runs below often take. */
  const GO := ActServer(SGo)
  const ACCEPTED := ActServer(Callback(Accept, [], false))

  /** Whatever holds at first and after every possible step of a state in which it holds. */
  ghost predicate Closed(good: State -> bool) {
    forall s, a {:trigger Step(s, a)} :: good(s) && Step(s, a).Some? ==> good(Step(s, a).value)
  }

  lemma ReachableIsClosed(n: nat, m: nat)
    ensures Closed(Reachable) && Reachable(Init(n, m))
  {
    assert Run(Init(n, m), []) == Some(Init(n, m));
    forall s, a | Reachable(s) && Step(s, a).Some? ensures Reachable(Step(s, a).value) {
      StepReaches(s, a);
    }
  }

  lemma StepReaches(s: State, a: Action)
    requires Reachable(s) && Step(s, a).Some?
    ensures Reachable(Step(s, a).value)
  {
    var n: nat, m: nat, acts: seq<Action> :| Run(Init(n, m), acts) == Some(s);
    assert (acts + [a])[..|acts|] == acts;
    assert Run(Init(n, m), acts + [a]) == Step(s, a);
  }

  /** Some continuation of `s` ends in `u`. */
  ghost predicate LeadsTo(s: State, u: State) {
    exists acts: seq<Action> :: Run(s, acts) == Some(u)
  }

  lemma StepLeadsOn(s: State, u: State, a: Action)
    requires LeadsTo(s, u) && Step(u, a).Some?
    ensures LeadsTo(s, Step(u, a).value)
  {
    var acts: seq<Action> :| Run(s, acts) == Some(u);
    assert (acts + [a])[..|acts|] == acts;
    assert Run(s, acts + [a]) == Step(u, a);
  }

  lemma LeadsToItself(s: State)
    ensures LeadsTo(s, s)
  {
    assert Run(s, []) == Some(s);
  }
}
