/** Lock order: who can wait for whom.  The only cycle of waiting threads is the one closed by the
    main loop joining its signal thread while it still holds the operation lock, and the timed lock
    calls of the signal thread open it again. */
module IpcDeadlock {
  import opened IpcProtocol
  import opened IpcInvariant
  import opened Wrappers

  /** The thread that owns the lock `t` is blocked on (or the thread `t` joins); `Free` if `t` is
      not blocked.  A thread asleep on a condition is waiting for an event, not for a lock. */
  function WaitsFor(s: State, t: Owner): Owner {
    match t
    case Free => Free
    case ByClient(i) =>
      if i >= |s.clients| then Free else
      (match s.clients[i].pc
       case WantTransaction => s.tr
       case WantOperation => s.op
       case ReadyWait(asleep) => if asleep then Free else s.op
       case SendWait(_, asleep) => if asleep then Free else s.op
       case RecvWait(_, asleep) => if asleep then Free else s.op
       case NotificationWait(asleep) => if asleep then Free else s.tr
       case _ => Free)
    case ByServer =>
      (match s.server
       case Start => s.op
       case RelockOperation => s.op
       case IdleWait(asleep) => if asleep then Free else s.op
       case SRecvWait(_, asleep) => if asleep then Free else s.op
       case SSendWait(_, asleep) => if asleep then Free else s.op
       case FinalWait(asleep) => if asleep then Free else s.op
       case PollLock => s.df
       case Join => if s.breaker.BIdle? then Free else ByBreaker
       case _ => Free)
    case ByWorker(j) =>
      if j < |s.workers| && s.workers[j].WWantFlag? then s.df else Free
    case ByBreaker =>
      if s.breaker.BWantTransaction? then s.tr else if s.breaker.BWantOperation? then s.op else Free
  }

  function Follow(s: State, t: Owner, k: nat): Owner
    decreases k
  {
    if k == 0 then t else Follow(s, WaitsFor(s, t), k - 1)
  }

  ghost predicate WaitCycle(s: State) {
    exists t: Owner, k: nat :: !t.Free? && k > 0 && Follow(s, t, k) == t
  }

  /** The client has yet to get the operation lock: for the first time, or back after a wake-up. */
  predicate WantsOperationLock(pc: ClientPC) {
    pc.WantOperation? || ((pc.ReadyWait? || pc.SendWait? || pc.RecvWait?) && !pc.asleep)
  }

  /** The main loop is over and waits, operation lock in hand, for a signal thread that a second signal sent
      into another break: it wants that lock itself, or the transaction lock of a client that wants it. */
  predicate JoinMeetsBreak(s: State) {
    s.server.Join? &&
    (|| s.breaker.BWantOperation?
     || (s.breaker.BWantTransaction? && s.tr.ByClient? && s.tr.i < |s.clients|
         && WantsOperationLock(s.clients[s.tr.i].pc)))
  }

  // ----- the lock order -------------------------------------------------------------------------

  /** The lock rules stated with the shared header: a client holds the operation lock only inside
      the transaction lock, the server never holds both, and it never waits for the transaction
      lock at all; a thread outside its calls holds nothing. */
  lemma LockRules(s: State)
    requires Reachable(s)
    ensures forall i :: s.op == ByClient(i) ==> s.tr == ByClient(i)
    ensures !(s.op.ByServer? && s.tr.ByServer?)
    ensures s.op.ByBreaker? ==> s.tr.ByBreaker?
    ensures forall i :: 0 <= i < |s.clients| && s.clients[i].pc.Outside? ==> s.tr != ByClient(i) && s.op != ByClient(i)
    ensures s.breaker.BIdle? ==> !s.tr.ByBreaker? && !s.op.ByBreaker?
    ensures forall j :: 0 <= j < |s.workers| && s.workers[j].WIdle? ==> s.tr != ByWorker(j) && s.df != ByWorker(j)
    ensures s.server.Finished? ==> !s.tr.ByServer? && !s.op.ByServer? && !s.df.ByServer?
  {
    ReachableSatisfiesInv(s);
    if s.op.ByClient? {
      assert ClientHoldsOperation(s.clients[s.op.i].pc);
    }
  }

  /** The owner of the flag lock runs, and the owner of the operation lock waits at most for it. */
  lemma InnerOwnersMove(s: State)
    requires LocksMatch(s)
    ensures WaitsFor(s, s.df) == Free
    ensures !s.server.Join? ==> WaitsFor(s, s.op) == Free || WaitsFor(s, s.op) == s.df
    ensures WaitsFor(s, s.tr) == Free || WaitsFor(s, s.tr) == s.op
    ensures s.op.ByServer? ==>
      (WaitsFor(s, s.tr) == ByServer <==> s.tr.ByClient? && WantsOperationLock(s.clients[s.tr.i].pc)) || s.tr.ByBreaker?
  {
  }

  lemma {:induction false} FollowAdds(s: State, t: Owner, k: nat, m: nat)
    ensures Follow(s, t, k + m) == Follow(s, Follow(s, t, k), m)
    decreases k
  {
    if k > 0 {
      FollowAdds(s, WaitsFor(s, t), k - 1, m);
    }
  }

  lemma {:induction false} FollowFree(s: State, k: nat)
    ensures Follow(s, Free, k) == Free
  {
    if k > 0 {
      FollowFree(s, k - 1);
    }
  }

  /** Off the one exception every chain of waiting threads ends within five. */
  lemma ChainsAreShort(s: State, t: Owner)
    requires LocksMatch(s) && !JoinMeetsBreak(s)
    ensures Follow(s, t, 5) == Free
  {
    InnerOwnersMove(s);
    var t1 := WaitsFor(s, t);
    var t2 := WaitsFor(s, t1);
    var t3 := WaitsFor(s, t2);
    var t4 := WaitsFor(s, t3);
    assert Follow(s, t, 5) == Follow(s, t1, 4) == Follow(s, t2, 3) == Follow(s, t3, 2);
    assert Follow(s, t3, 2) == Follow(s, t4, 1) == Follow(s, WaitsFor(s, t4), 0);
    WaitTargets(s, t);
    WaitTargets(s, t1);
    WaitTargets(s, t2);
  }

  /** What a blocked thread can be blocked on. */
  lemma WaitTargets(s: State, t: Owner)
    requires LocksMatch(s)
    ensures var u := WaitsFor(s, t);
            u == Free || u == s.tr || u == s.op || u == s.df || (t.ByServer? && s.server.Join? && u == ByBreaker)
  {
  }

  lemma {:induction false} CycleRepeats(s: State, t: Owner, k: nat, m: nat) returns (n: nat)
    requires k > 0 && Follow(s, t, k) == t
    ensures n >= m && Follow(s, t, n) == t
  {
    if m == 0 {
      n := 0;
    } else {
      n := CycleRepeats(s, t, k, m - 1);
      FollowAdds(s, t, n, k);
      n := n + k;
    }
  }

  lemma JoinMeetingBreakIsCycle(s: State)
    requires LocksMatch(s) && JoinMeetsBreak(s)
    ensures WaitCycle(s)
  {
    InnerOwnersMove(s);
    if s.breaker.BWantOperation? {
      assert Follow(s, ByServer, 2) == Follow(s, WaitsFor(s, ByBreaker), 0) == ByServer;
    } else {
      assert Follow(s, ByServer, 3) == Follow(s, WaitsFor(s, ByBreaker), 1) == WaitsFor(s, s.tr);
    }
  }

  lemma CycleIsNowhereElse(s: State, t: Owner, k: nat)
    requires LocksMatch(s) && !JoinMeetsBreak(s) && !t.Free? && k > 0
    ensures Follow(s, t, k) != t
  {
    if Follow(s, t, k) == t {
      var n := CycleRepeats(s, t, k, 5);
      ChainsAreShort(s, t);
      FollowAdds(s, t, 5, n - 5);
      FollowFree(s, n - 5);
      assert false;
    }
  }

  /** Threads wait in a circle exactly when the join meets a break. */
  lemma WaitCycleIffJoinMeetsBreak(s: State)
    requires Reachable(s)
    ensures WaitCycle(s) <==> JoinMeetsBreak(s)
  {
    ReachableSatisfiesInv(s);
    if JoinMeetsBreak(s) {
      JoinMeetingBreakIsCycle(s);
    } else if WaitCycle(s) {
      var t: Owner, k: nat :| !t.Free? && k > 0 && Follow(s, t, k) == t;
      CycleIsNowhereElse(s, t, k);
    }
  }

  /** While the main loop serves clients nobody waits in a circle. */
  lemma NoDeadlockWhileServing(s: State)
    requires Reachable(s) && !s.server.Join?
    ensures !WaitCycle(s)
  {
    WaitCycleIffJoinMeetsBreak(s);
  }

  /** The signal thread takes its locks with a timeout, and that timeout ends the circle. */
  lemma TimeoutEndsTheCycle(s: State)
    requires Reachable(s) && WaitCycle(s)
    ensures BreakerStep(s, true).Some?
    ensures !WaitCycle(BreakerStep(s, true).value)
  {
    WaitCycleIffJoinMeetsBreak(s);
    StepReaches(s, ActBreaker(true));
    WaitCycleIffJoinMeetsBreak(BreakerStep(s, true).value);
  }

  // ----- the exception is real ------------------------------------------------------------------

  /** The fields that matter in the run below, which needs no client and no worker. */
  ghost predicate At(s: State, op: Owner, running: bool, serverEvent: bool, server: ServerPC, breaker: BreakerPC) {
    && s.op == op && s.df.Free? && !s.deferred && s.h.running == running && s.h.serverEvent == serverEvent
    && s.server == server && s.breaker == breaker
    && s.tr == if BreakerHoldsTransaction(breaker) then ByBreaker else Free
  }

  const BREAK := ActBreaker(false)

  lemma MainLoopStarts(good: State -> bool, s0: State) returns (s: State)
    requires Closed(good) && good(s0) && At(s0, Free, false, false, Start, BIdle)
    ensures good(s) && At(s, ByServer, true, false, LoopTest, BIdle)
  {
    s := Step(s0, GO).value;
  }

  lemma MainLoopIterates(good: State -> bool, s0: State) returns (s: State)
    requires Closed(good) && good(s0) && At(s0, ByServer, true, false, LoopTest, BIdle)
    ensures good(s) && At(s, ByServer, true, false, Periodic, BIdle)
  {
    s := Step(s0, GO).value;
    s := Step(s, GO).value;
    s := Step(s, GO).value;
  }

  lemma MainLoopFallsAsleep(good: State -> bool, s0: State) returns (s: State)
    requires Closed(good) && good(s0) && At(s0, ByServer, true, false, Periodic, BIdle)
    ensures good(s) && At(s, Free, true, false, IdleWait(true), BIdle)
  {
    s := Step(s0, ACCEPTED).value;
    s := Step(s, GO).value;
  }

  lemma SignalThreadTakesLocks(good: State -> bool, s0: State) returns (s: State)
    requires Closed(good) && good(s0) && At(s0, Free, true, false, IdleWait(true), BIdle)
    ensures good(s) && At(s, Free, true, false, IdleWait(true), BWantOperation)
  {
    s := Step(s0, BREAK).value;
    s := Step(s, BREAK).value;
  }

  lemma SignalThreadBreaks(good: State -> bool, s0: State) returns (s: State)
    requires Closed(good) && good(s0) && At(s0, Free, true, false, IdleWait(true), BWantOperation)
    ensures good(s) && At(s, Free, false, true, IdleWait(false), BIdle)
  {
    s := Step(s0, BREAK).value;
    s := Step(s, BREAK).value;
    s := Step(s, BREAK).value;
    s := Step(s, BREAK).value;
  }

  lemma MainLoopEnds(good: State -> bool, s0: State) returns (s: State)
    requires Closed(good) && good(s0) && At(s0, Free, false, true, IdleWait(false), BIdle)
    ensures good(s) && At(s, ByServer, false, true, Stop, BIdle)
  {
    s := Step(s0, GO).value;
    s := Step(s, GO).value;
    s := Step(s, GO).value;
  }

  lemma JoinMeetsSecondBreak(good: State -> bool, s0: State) returns (s: State)
    requires Closed(good) && good(s0) && At(s0, ByServer, false, true, Stop, BIdle)
    ensures good(s) && At(s, ByServer, false, true, Join, BWantOperation)
  {
    s := Step(s0, BREAK).value;
    s := Step(s, BREAK).value;
    s := Step(s, GO).value;
  }

  lemma JoinWillMeetBreak(good: State -> bool, s0: State) returns (s: State)
    requires Closed(good) && good(s0) && At(s0, Free, false, false, Start, BIdle)
    ensures good(s) && At(s, ByServer, false, true, Join, BWantOperation)
  {
    s := MainLoopStarts(good, s0);
    s := MainLoopIterates(good, s);
    s := MainLoopFallsAsleep(good, s);
    s := SignalThreadTakesLocks(good, s);
    s := SignalThreadBreaks(good, s);
    s := MainLoopEnds(good, s);
    s := JoinMeetsSecondBreak(good, s);
  }

  /** A first signal ends the main loop; a second one, before the main loop has reached its join,
      sends the signal thread into another break: now each waits for the other. */
  lemma JoinCanMeetBreak() returns (s: State)
    ensures Reachable(s) && WaitCycle(s)
  {
    ReachableIsClosed(0, 0);
    s := JoinWillMeetBreak(Reachable, Init(0, 0));
    WaitCycleIffJoinMeetsBreak(s);
  }
}
