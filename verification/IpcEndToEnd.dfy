/** The protocol and the buffered calls together: a query and a reply, cut into parts by the producers on the
    two sides, in every run that may follow. */
module IpcEndToEnd {
  import opened IpcProtocol
  import opened IpcInvariant
  import opened IpcTheorems
  import opened IpcFaultFree
  import opened IpcTermination
  import opened IpcMessages
  import opened IpcAnswers
  import opened Wrappers

  /** What the callbacks do: a producer that succeeds, asked for part `p`, makes part `p` of its message and
      says that there is more exactly if there is (`BufferedCall.Produce`).  It may always fail, and nothing is
      said about the consumers. */
  predicate Cuts(s: State, a: Action, q: seq<Bytes>, r: seq<Bytes>) {
    match a
    case ActClient(i, c) =>
      i < |s.clients| && s.clients[i].pc.Producing? && c.Produce? && c.ok ==>
        var p := s.clients[i].pc.part;
        (p < |q| ==> c.bytes == q[p]) && (c.more <==> p + 1 < |q|)
    case ActServer(x) =>
      s.server.SProducing? && x.Callback? && x.outcome == Accept ==>
        var p := s.server.part;
        (p < |r| ==> x.bytes == r[p]) && (x.more <==> p + 1 < |r|)
    case _ => true
  }

  /** Runs in which the callbacks do so, and anything else may happen. */
  function Cutting(q: seq<Bytes>, r: seq<Bytes>): Rule {
    (s: State, a: Action) => Cuts(s, a, q, r)
  }

  /** The same without faults. */
  function CuttingFaultlessly(q: seq<Bytes>, r: seq<Bytes>): Rule {
    (s: State, a: Action) => Faultless(s, a) && Cuts(s, a, q, r)
  }

  // ----- what has been produced so far ----------------------------------------------------------

  predicate QueryAlong(s: State, pc: ClientPC, q: seq<Bytes>) {
    && (pc.Producing? || pc.SendWait? ==> pc.part < |q|)
    && (pc.RecvWait? ==> |s.cur.sent| == |q|)
  }

  predicate ReplyAlong(s: State, r: seq<Bytes>) {
    && (s.server.SProducing? || s.server.SSendWait? ==> s.server.part < |r|)
    && (s.server.FinalWait? ==> |s.cur.replied| == |r|)
  }

  /** Both sides have made the first parts of their messages; who has gone on has made all of them. */
  ghost predicate Along(s: State, q: seq<Bytes>, r: seq<Bytes>) {
    && q != [] && r != []
    && s.cur.sent <= q && s.cur.replied <= r
    && (s.h.phase == ClientToServer && s.tr.ByClient? && s.tr.i < |s.clients| ==>
          QueryAlong(s, s.clients[s.tr.i].pc, q))
    && (s.h.phase == ServerToClient ==> s.cur.sent == q && ReplyAlong(s, r))
    && (s.cur.complete ==> s.cur.sent == q && s.cur.replied == r)
  }

  lemma PrefixGrows(parts: seq<Bytes>, q: seq<Bytes>)
    requires parts <= q && |parts| < |q|
    ensures parts + [q[|parts|]] <= q
  {
  }

  lemma ProducerGoesAlong(s: State, i: nat, c: ClientAct, t: State, q: seq<Bytes>, r: seq<Bytes>)
    requires ClientCore(s, i) && Along(s, q, r) && Cuts(s, ActClient(i, c), q, r)
    requires s.clients[i].pc.Producing? && ClientStep(s, i, c) == Some(t)
    ensures Along(t, q, r)
  {
    if s.h.phase == ClientToServer && c.ok {
      PrefixGrows(s.cur.sent, q);
    }
  }

  lemma ConsumerGoesAlong(s: State, i: nat, c: ClientAct, t: State, q: seq<Bytes>, r: seq<Bytes>)
    requires ClientCore(s, i) && Along(s, q, r) && s.clients[i].pc.Consuming? && ClientStep(s, i, c) == Some(t)
    ensures Along(t, q, r)
  {
  }

  lemma WaiterGoesAlong(s: State, i: nat, c: ClientAct, t: State, q: seq<Bytes>, r: seq<Bytes>)
    requires ClientCore(s, i) && Along(s, q, r) && ClientStep(s, i, c) == Some(t)
    requires s.clients[i].pc.SendWait? || s.clients[i].pc.RecvWait? || s.clients[i].pc.Failing?
    ensures Along(t, q, r)
  {
  }

  lemma BystanderGoesAlong(s: State, i: nat, t: State, q: seq<Bytes>, r: seq<Bytes>)
    requires ClientCore(s, i) && Along(s, q, r) && OutsideStep(s, i, t)
    ensures Along(t, q, r)
  {
  }

  lemma ClientGoesAlong(s: State, i: nat, c: ClientAct, t: State, q: seq<Bytes>, r: seq<Bytes>)
    requires ClientCore(s, i) && Along(s, q, r) && Cuts(s, ActClient(i, c), q, r)
    requires ClientStep(s, i, c) == Some(t) && !EntersTransaction(s, i)
    ensures Along(t, q, r)
  {
    match s.clients[i].pc {
      case Producing(_) => ProducerGoesAlong(s, i, c, t, q, r);
      case Consuming(_) => ConsumerGoesAlong(s, i, c, t, q, r);
      case SendWait(_, _) | RecvWait(_, _) | Failing => WaiterGoesAlong(s, i, c, t, q, r);
      case _ => ClientStepsOutside(s, i, c, t); BystanderGoesAlong(s, i, t, q, r);
    }
  }

  lemma ServerConsumerGoesAlong(s: State, x: ServerAct, t: State, q: seq<Bytes>, r: seq<Bytes>)
    requires ServerCore(s) && Along(s, q, r) && s.server.SConsuming? && ServerStep(s, x) == Some(t)
    ensures Along(t, q, r)
  {
  }

  lemma ServerProducerGoesAlong(s: State, x: ServerAct, t: State, q: seq<Bytes>, r: seq<Bytes>)
    requires ServerCore(s) && Along(s, q, r) && Cuts(s, ActServer(x), q, r)
    requires s.server.SProducing? && ServerStep(s, x) == Some(t)
    ensures Along(t, q, r)
  {
    if s.h.phase == ServerToClient && x.outcome == Accept {
      PrefixGrows(s.cur.replied, r);
    }
  }

  lemma IdleServerGoesAlong(s: State, x: ServerAct, t: State, q: seq<Bytes>, r: seq<Bytes>)
    requires ServerCore(s) && Along(s, q, r) && ServerIdle(s.server) && ServerStep(s, x) == Some(t)
    ensures Along(t, q, r)
  {
    IdleServerTouches(s, x, t);
  }

  lemma IdleServerTouches(s: State, x: ServerAct, t: State)
    requires ServerIdle(s.server) && ServerStep(s, x) == Some(t)
    ensures t.h == s.h && t.cur == s.cur && (s.tr.ByClient? && !ServerHoldsTransaction(s.server) ==> t.tr == s.tr)
    ensures t.clients == s.clients || t.clients == NotifyClients(s.clients)
    ensures ServerIdle(t.server) || t.server.Dispatch? || t.server.Stop?
  {
  }

  lemma WaitingServerGoesAlong(s: State, x: ServerAct, t: State, q: seq<Bytes>, r: seq<Bytes>)
    requires ServerCore(s) && Along(s, q, r) && ServerStep(s, x) == Some(t)
    requires s.server.Dispatch? || s.server.SRecvWait? || s.server.SSendWait? || s.server.FinalWait?
    ensures Along(t, q, r)
  {
  }

  lemma StoppingServerGoesAlong(s: State, x: ServerAct, t: State, q: seq<Bytes>, r: seq<Bytes>)
    requires Along(s, q, r) && ServerStep(s, x) == Some(t)
    requires || s.server.Start? || s.server.LoopTest? || s.server.SFailing?
             || s.server.Stop? || s.server.Join? || s.server.Exit?
    ensures Along(t, q, r)
  {
  }

  lemma ServerGoesAlong(s: State, x: ServerAct, t: State, q: seq<Bytes>, r: seq<Bytes>)
    requires ServerCore(s) && Along(s, q, r) && Cuts(s, ActServer(x), q, r) && ServerStep(s, x) == Some(t)
    ensures Along(t, q, r)
  {
    if ServerIdle(s.server) {
      IdleServerGoesAlong(s, x, t, q, r);
      return;
    }
    match s.server {
      case SConsuming(_) => ServerConsumerGoesAlong(s, x, t, q, r);
      case SProducing(_) => ServerProducerGoesAlong(s, x, t, q, r);
      case Dispatch | SRecvWait(_, _) | SSendWait(_, _) | FinalWait(_) => WaitingServerGoesAlong(s, x, t, q, r);
      case Start | LoopTest | SFailing(_) | Stop | Join | Exit => StoppingServerGoesAlong(s, x, t, q, r);
    }
  }

  lemma StepGoesAlong(s: State, a: Action, t: State, q: seq<Bytes>, r: seq<Bytes>)
    requires Inv(s) && Along(s, q, r) && Cuts(s, a, q, r) && Step(s, a) == Some(t) && t.past == s.past
    ensures Along(t, q, r)
  {
    CoreIsEnough(s);
    match a {
      case ActClient(i, c) => ClientGoesAlong(s, i, c, t, q, r);
      case ActServer(x) => ServerGoesAlong(s, x, t, q, r);
      case ActOwn(_) =>
      case ActWorker(j) => WorkerMoves(s, j, t);
      case ActBreaker(timeout) => BreakerMoves(s, timeout, t);
    }
  }

  lemma {:induction false} RunGoesAlong(s: State, acts: seq<Action>, t: State, q: seq<Bytes>, r: seq<Bytes>)
    requires Inv(s) && Along(s, q, r) && RunUnder(Cutting(q, r), s, acts) == Some(t)
    ensures Inv(t) && |s.past| <= |t.past|
    ensures |t.past| == |s.past| ==> t.past == s.past && Along(t, q, r)
  {
    if acts != [] {
      var m := acts[..|acts| - 1];
      var u := RunUnder(Cutting(q, r), s, m).value;
      var a := acts[|acts| - 1];
      RunGoesAlong(s, m, u, q, r);
      StepKeeps(u, a, t);
      PastGrows(u, a, t);
      if |t.past| == |s.past| {
        StepGoesAlong(u, a, t, q, r);
      }
    }
  }

  /** A transaction has begun, and nothing has been sent yet. */
  predicate Begins(s: State) {
    s.h.phase == ClientToServer && s.cur.sent == []
  }

  lemma BeginsAlong(s: State, q: seq<Bytes>, r: seq<Bytes>)
    requires Inv(s) && Begins(s) && q != [] && r != []
    ensures Along(s, q, r) && Work(s.cur) == 0
  {
  }

  // ----- delivery -------------------------------------------------------------------------------

  /** In any run after its beginning, with any timeouts, failures, breaks and doings of other threads, a
      transaction whose producers cut a query and a reply into parts of `size` bytes, and whose client
      has taken the last part, has given exactly the query to the server and exactly the reply to the client. */
  lemma CompletedCallDelivers(s: State, acts: seq<Action>, t: State, query: Bytes, reply: Bytes, size: nat)
    requires Reachable(s) && Begins(s) && size > 0
    requires RunUnder(Cutting(Chunks(query, size), Chunks(reply, size)), s, acts) == Some(t)
    requires |t.past| == |s.past| && t.cur.complete
    ensures t.past == s.past && Flatten(t.cur.recvd) == query && Flatten(t.cur.got) == reply
    ensures |t.cur.sent| == PartCount(|query|, size) && |t.cur.replied| == PartCount(|reply|, size)
  {
    var q, r := Chunks(query, size), Chunks(reply, size);
    ReachableSatisfiesInv(s);
    ChunksRebuild(query, size);
    ChunksRebuild(reply, size);
    BeginsAlong(s, q, r);
    RunGoesAlong(s, acts, t, q, r);
    assert Intact(t.cur);
  }

  /** Whatever became of the transaction that was the last one when nothing had been sent yet: if it is complete,
      both messages were made whole and taken whole. */
  ghost predicate Remembered(t: State, k: nat, q: seq<Bytes>, r: seq<Bytes>) {
    && k <= |t.past|
    && (k == |t.past| ==> Along(t, q, r))
    && (k < |t.past| && t.past[k].complete ==> t.past[k].sent == q && t.past[k].replied == r)
  }

  lemma {:induction false} RunRemembers(s: State, acts: seq<Action>, t: State, q: seq<Bytes>, r: seq<Bytes>)
    requires Reachable(s) && Along(s, q, r) && RunUnder(Cutting(q, r), s, acts) == Some(t)
    ensures Reachable(t) && Remembered(t, |s.past|, q, r)
  {
    if acts != [] {
      var m := acts[..|acts| - 1];
      var u := RunUnder(Cutting(q, r), s, m).value;
      var a := acts[|acts| - 1];
      RunRemembers(s, m, u, q, r);
      ReachableSatisfiesInv(u);
      StepReaches(u, a);
      PastGrows(u, a, t);
      if t.past == u.past && |u.past| == |s.past| {
        StepGoesAlong(u, a, t, q, r);
      }
    }
  }

  /** What the caller of the buffered call relies on: if its call, whose last transaction is the one that began in
      `s`, has returned 0, then in that transaction the server got exactly the query and the client exactly the
      reply, whatever happened in between and whatever has happened since. */
  lemma AnsweredCallDelivers(s: State, acts: seq<Action>, t: State, i: nat, query: Bytes, reply: Bytes, size: nat)
    requires Reachable(s) && Begins(s) && size > 0
    requires RunUnder(Cutting(Chunks(query, size), Chunks(reply, size)), s, acts) == Some(t)
    requires i < |t.clients| && t.clients[i].result == Some(0) && t.clients[i].begun == Some(|s.past|)
    ensures |s.past| <= |t.past| && Exchanges(t)[|s.past|].client == i
    ensures Flatten(Exchanges(t)[|s.past|].recvd) == query && Flatten(Exchanges(t)[|s.past|].got) == reply
  {
    var q, r := Chunks(query, size), Chunks(reply, size);
    ReachableSatisfiesInv(s);
    ChunksRebuild(query, size);
    ChunksRebuild(reply, size);
    BeginsAlong(s, q, r);
    RunRemembers(s, acts, t, q, r);
    AnswerIff(t, i);
    var x := Exchanges(t)[|s.past|];
    assert LastOf(t, t.clients[i]) == Some(x);
    assert x in Exchanges(t);
    EveryExchangeIsIntact(t, x);
  }

  /** In a fault-free run such a call costs exactly two callbacks for each buffer that query and reply fill. */
  lemma CallCost(s: State, acts: seq<Action>, t: State, query: Bytes, reply: Bytes, size: nat)
    requires ReachableFaultless(s) && Begins(s) && size > 0
    requires RunUnder(CuttingFaultlessly(Chunks(query, size), Chunks(reply, size)), s, acts) == Some(t)
    requires |t.past| == |s.past| && t.cur.complete
    ensures RunFaultless(s, acts) == Some(t)
    ensures PartsHandled(s, acts) == 2 * PartCount(|query|, size) + 2 * PartCount(|reply|, size)
  {
    var q, r := Chunks(query, size), Chunks(reply, size);
    WeakerRule(CuttingFaultlessly(q, r), Cutting(q, r), s, acts);
    WeakerRule(CuttingFaultlessly(q, r), Faultless, s, acts);
    ReachableFaultlessServes(s);
    CompletedCallDelivers(s, acts, t, query, reply, size);
    BeginsAlong(s, q, r);
    TransactionCost(s, acts, t);
  }

  // ----- every such call ends -------------------------------------------------------------------

  /** The rule by which the producers cut their messages is a plan for their numbers of parts. */
  lemma {:induction false} CuttingFollowsPlan(s: State, acts: seq<Action>, q: seq<Bytes>, r: seq<Bytes>)
    requires RunUnder(CuttingFaultlessly(q, r), s, acts).Some?
    ensures RunUnder(Plan(|q|, |r|), s, acts) == RunUnder(CuttingFaultlessly(q, r), s, acts)
    ensures AdvancesIn(Plan(|q|, |r|), s, acts) == AdvancesIn(CuttingFaultlessly(q, r), s, acts)
  {
    if acts != [] {
      CuttingFollowsPlan(s, acts[..|acts| - 1], q, r);
    }
  }

  /** The call that began in `s` is over in `t`: everything is delivered, at the exact cost. */
  ghost predicate Delivered(s: State, acts: seq<Action>, t: State, query: Bytes, reply: Bytes, size: nat)
    requires size > 0
  {
    && t.past == s.past && t.cur.complete && Flatten(t.cur.recvd) == query && Flatten(t.cur.got) == reply
    && RunFaultless(s, acts) == Some(t)
    && PartsHandled(s, acts) == 2 * PartCount(|query|, size) + 2 * PartCount(|reply|, size)
  }

  /** Every call ends: from the step that begins it, in every fault-free run, and whatever other threads do in
      between, query and reply are delivered before client and server have advanced more often than
      32 times the number of parts, and 13. */
  lemma EveryCallDelivers(s: State, a: Action, u: State, acts: seq<Action>, query: Bytes, reply: Bytes, size: nat)
    returns (k: nat)
    requires size > 0 && ReachableFaultless(s) && Faultless(s, a) && Step(s, a) == Some(u) && |u.past| > |s.past|
    requires var rule := CuttingFaultlessly(Chunks(query, size), Chunks(reply, size));
             && RunUnder(rule, u, acts).Some?
             && AdvancesIn(rule, u, acts) > 32 * (PartCount(|query|, size) + PartCount(|reply|, size)) + 13
    ensures k <= |acts| && RunFaultless(u, acts[..k]).Some?
    ensures Delivered(u, acts[..k], RunFaultless(u, acts[..k]).value, query, reply, size)
  {
    var q, r := Chunks(query, size), Chunks(reply, size);
    ChunksRebuild(query, size);
    ChunksRebuild(reply, size);
    CuttingFollowsPlan(u, acts, q, r);
    EveryTransactionEnds(s, a, u, acts, |q|, |r|);
    k :| k <= |acts| && RunUnder(Plan(|q|, |r|), u, acts[..k]).Some?
         && Ended(u, RunUnder(Plan(|q|, |r|), u, acts[..k]).value, |q|, |r|);
    RunPrefix(CuttingFaultlessly(q, r), u, acts, k);
    CuttingFollowsPlan(u, acts[..k], q, r);
    StartIsReachable(s, a, u);
    var t := RunUnder(Plan(|q|, |r|), u, acts[..k]).value;
    WeakerRule(CuttingFaultlessly(q, r), Cutting(q, r), u, acts[..k]);
    ReachableFaultlessServes(u);
    CompletedCallDelivers(u, acts[..k], t, query, reply, size);
    CallCost(u, acts[..k], t, query, reply, size);
  }

  lemma {:induction false} RunPrefix(rule: Rule, s: State, acts: seq<Action>, k: nat)
    requires RunUnder(rule, s, acts).Some? && k <= |acts|
    ensures RunUnder(rule, s, acts[..k]).Some?
  {
    if k == |acts| {
      assert acts[..k] == acts;
    } else {
      assert acts[..|acts| - 1][..k] == acts[..k];
      RunPrefix(rule, s, acts[..|acts| - 1], k);
    }
  }

  lemma StartIsReachable(s: State, a: Action, u: State)
    requires ReachableFaultless(s) && Faultless(s, a) && Step(s, a) == Some(u) && |u.past| > |s.past|
    ensures ReachableFaultless(u) && Begins(u)
  {
    var n: nat, m: nat, acts: seq<Action> :| RunFaultless(Init(n, m), acts) == Some(s);
    assert (acts + [a])[..|acts|] == acts;
    assert RunFaultless(Init(n, m), acts + [a]) == Some(u);
    ReachableFaultlessServes(s);
    StartsByClient(s, a, u);
  }
}
