/** The pool at the granularity of the source's text (src/db_mysql.c:80-258): the two
    stores of a publication apart, and the coordinator's unlocked broadcast free to fall
    between a borrower's look at `reconnecting` and his wait.  What the pool guarantees
    then fails in some runs; here is exactly in which. */
module PoolSplit {
  import opened Options
  import opened Counting
  import opened MysqlPool
  import opened PoolProtocol

  /** The property holds at every moment of the run. */
  ghost predicate Always(s: State, steps: seq<Step>, p: State -> bool)
    requires Run(s, steps, true)
    decreases |steps|
  {
    p(s) && (steps == [] || Always(Apply(s, steps[0], true), steps[1..], p))
  }

  /** No step of the run is of the given kind. */
  ghost predicate Never(s: State, steps: seq<Step>, bad: (State, Step) -> bool)
    requires Run(s, steps, true)
    decreases |steps|
  {
    steps == [] || (!bad(s, steps[0]) && Never(Apply(s, steps[0], true), steps[1..], bad))
  }

  // ---------------------------------------------------------------- exclusive lease

  /** A second store that finds its slot taken releases it under its borrower's feet. */
  lemma ClobberBreaksLease(s: State, step: Step)
    requires LeaseInv(s) && Enabled(s, step, true) && Clobbers(s, step)
    ensures !ExclusiveLease(Apply(s, step, true))
  {
    var k := s.threads[step.t].next;
    var u: nat :| Holds(s.threads, u, k);
    var s' := Apply(s, step, true);
    assert s'.threads[u] == s.threads[u] && !s'.slots[k].inUse;
  }

  lemma {:induction false} LeaseAlwaysIff(s: State, steps: seq<Step>)
    requires LeaseInv(s) && Run(s, steps, true)
    ensures Always(s, steps, ExclusiveLease) <==> Never(s, steps, Clobbers)
    decreases |steps|
  {
    if steps != [] {
      if Clobbers(s, steps[0]) {
        ClobberBreaksLease(s, steps[0]);
      } else {
        LeaseStep(s, steps[0], true);
        LeaseAlwaysIff(Apply(s, steps[0], true), steps[1..]);
      }
    }
  }

  /** With the publication in two stores, the lease is exclusive at every moment of a run
      exactly when no second store finds its slot already taken. */
  lemma SplitLeaseIff(s: State, steps: seq<Step>)
    requires Initial(s) && Run(s, steps, true)
    ensures Always(s, steps, ExclusiveLease) <==> Never(s, steps, Clobbers)
  {
    LeaseAlwaysIff(s, steps);
  }

  // ----------------------------------------------------------------------- wake-ups

  /** A borrower goes to sleep outside a reconnect, beside a free slot that no woken
      borrower is due to take. */
  predicate SleepsBesideFree(s: State, step: Step) {
    step.Sleep? && !s.reconnecting && Count(s.slots, IsFree) > Count(s.threads, IsWoken)
  }

  /** A woken borrower leaves without the scan that was owed to somebody else asleep. */
  predicate GivesUpOwing(s: State, step: Step) {
    && step.GiveUp? && !s.reconnecting && Count(s.threads, IsAsleep) > 0
    && Count(s.slots, IsFree) >= Count(s.threads, IsWoken)
  }

  predicate LosesWakeup(s: State, step: Step) { SleepsBesideFree(s, step) || GivesUpOwing(s, step) }

  lemma ReconnectingWhile(s: State, t: nat)
    requires OneCoordinator(s) && t < |s.threads| && IsCoordinator(s.threads[t])
    ensures s.reconnecting
  {
    CountWitness(s.threads, t, IsCoordinator);
  }

  /** Whatever slot the handle finds, at most one more is free afterwards. */
  lemma ReturnFreesOne(slots: seq<Slot>, h: Option<Handle>)
    ensures Count(AfterReturn(slots, h), IsFree) <= Count(slots, IsFree) + 1
  {
    match FirstIndex(slots, HasHandle(h))
    case None =>
    case Some(i) => SlotMoves(slots, i, slots[i].(inUse := false));
  }

  lemma WakeReturn(s: State, t: nat, wake: Option<nat>)
    requires OneCoordinator(s) && NoLostWakeup(s) && Enabled(s, Return(t, wake), true)
    ensures OneCoordinator(Apply(s, Return(t, wake), true)) && NoLostWakeup(Apply(s, Return(t, wake), true))
  {
    ReturnFreesOne(s.slots, s.threads[t].handle);
    ThreadMoves(s.threads, t, Outside);
    match wake {
      case None => CountNone(s.threads[t := Outside], IsAsleep);
      case Some(u) =>
        CountWitness(s.threads, u, IsAsleep);
        ThreadMoves(s.threads[t := Outside], u, Woken);
    }
  }

  lemma WakeScan(s: State, t: nat)
    requires OneCoordinator(s) && NoLostWakeup(s) && Enabled(s, Scan(t), true)
    ensures OneCoordinator(Apply(s, Scan(t), true)) && NoLostWakeup(Apply(s, Scan(t), true))
  {
    ThreadMoves(s.threads, t, Apply(s, Scan(t), true).threads[t]);
    match FirstIndex(s.slots, IsFree)
    case None => CountNone(s.slots, IsFree);
    case Some(i) => SlotMoves(s.slots, i, s.slots[i].(inUse := true));
  }

  lemma WakeCoordinator(s: State, step: Step)
    requires OneCoordinator(s) && Enabled(s, step, true)
    requires step.Connect? || step.StoreConnected? || step.StoreInUse?
    ensures OneCoordinator(Apply(s, step, true)) && NoLostWakeup(Apply(s, step, true))
  {
    ReconnectingWhile(s, step.t);
    ThreadMoves(s.threads, step.t, Apply(s, step, true).threads[step.t]);
  }

  lemma WakeFinish(s: State, t: nat)
    requires OneCoordinator(s) && Enabled(s, Finish(t), true)
    ensures OneCoordinator(Apply(s, Finish(t), true)) && NoLostWakeup(Apply(s, Finish(t), true))
  {
    ReconnectingWhile(s, t);
    ThreadMoves(s.threads, t, Scanning);
    BroadcastCounts(s.threads[t := Scanning]);
  }

  /** Steps that change only the thread that takes them. */
  lemma WakeAlone(s: State, step: Step)
    requires OneCoordinator(s) && NoLostWakeup(s) && Enabled(s, step, true)
    requires step.Enter? || step.Spurious? || step.Timeout? || step.Claim?
    ensures OneCoordinator(Apply(s, step, true)) && NoLostWakeup(Apply(s, step, true))
  {
    ThreadMoves(s.threads, step.t, Apply(s, step, true).threads[step.t]);
  }

  lemma WakeOrNot(s: State, step: Step)
    requires OneCoordinator(s) && NoLostWakeup(s) && Enabled(s, step, true)
    requires step.Doze? || step.Sleep? || step.GiveUp?
    ensures OneCoordinator(Apply(s, step, true))
    ensures NoLostWakeup(Apply(s, step, true)) <==> !LosesWakeup(s, step)
  {
    if step.Doze? { CountNone(s.slots, IsFree); }
    ThreadMoves(s.threads, step.t, Apply(s, step, true).threads[step.t]);
  }

  /** One step keeps the wake-up guarantee, unless it is of such a kind; then it breaks it. */
  lemma WakeStepIff(s: State, step: Step)
    requires OneCoordinator(s) && NoLostWakeup(s) && Enabled(s, step, true)
    ensures OneCoordinator(Apply(s, step, true))
    ensures NoLostWakeup(Apply(s, step, true)) <==> !LosesWakeup(s, step)
  {
    if step.Scan? {
      WakeScan(s, step.t);
    } else if step.Return? {
      WakeReturn(s, step.t, step.wake);
    } else if step.Finish? {
      WakeFinish(s, step.t);
    } else if step.Connect? || step.StoreConnected? || step.StoreInUse? {
      WakeCoordinator(s, step);
    } else if step.Doze? || step.Sleep? || step.GiveUp? {
      WakeOrNot(s, step);
    } else {
      WakeAlone(s, step);
    }
  }

  lemma {:induction false} WakefulAlwaysIff(s: State, steps: seq<Step>)
    requires OneCoordinator(s) && NoLostWakeup(s) && Run(s, steps, true)
    ensures Always(s, steps, NoLostWakeup) <==> Never(s, steps, LosesWakeup)
    decreases |steps|
  {
    if steps != [] {
      WakeStepIff(s, steps[0]);
      if !LosesWakeup(s, steps[0]) {
        WakefulAlwaysIff(Apply(s, steps[0], true), steps[1..]);
      }
    }
  }

  /** With the broadcast outside the lock, no wake-up is lost at any moment of a run
      exactly when, outside a reconnect, nobody goes to sleep beside more free slots than
      there are woken borrowers, and nobody woken gives up while others sleep and there
      are as many free slots as woken borrowers. */
  lemma SplitWakefulIff(s: State, steps: seq<Step>)
    requires Initial(s) && Run(s, steps, true)
    ensures Always(s, steps, NoLostWakeup) <==> Never(s, steps, LosesWakeup)
  {
    InvInitial(s);
    WakefulAlwaysIff(s, steps);
  }

  /** Nothing that the source's text allows between its locked regions is ruled out. */
  lemma SplitMoves(s: State, t: nat, h: Handle)
    requires t < |s.threads|
    ensures match s.threads[t]
            case Woken => LockFree(s.threads) ==> Enabled(s, GiveUp(t), true) && Enabled(s, Scan(t), true)
            case Dozing => Enabled(s, Sleep(t), true)
            case Publishing(next, _) => next < |s.slots| ==> Enabled(s, StoreInUse(t), true)
            case Coordinating(next, _) =>
              next < |s.slots| && !s.slots[next].connected && Unused(s.slots, next, h) ==>
                Enabled(s, StoreConnected(t, h), true) && Enabled(s, Connect(t, Connects(h)), true)
            case Scanning => true
            case Asleep => Enabled(s, Timeout(t), true) && Enabled(s, Spurious(t), true)
            case Outside => true
            case Trying => true
            case Holding(_, _) => true
    ensures (&& (s.threads[t].Scanning? || s.threads[t].Woken?) && LockFree(s.threads)
             && (forall i :: 0 <= i < |s.slots| ==> s.slots[i].inUse || !s.slots[i].connected)
             && (s.reconnecting || s.active >= |s.slots|))
            ==> Enabled(s, Doze(t), true)
  {
  }

  // -------------------------------------------------------- broadcast under the lock

  /** The coordinator finishes while a borrower is between his scan and his wait. */
  predicate FinishesOverLock(s: State, step: Step) {
    step.Finish? && exists u :: 0 <= u < |s.threads| && s.threads[u].Dozing?
  }

  /** Whoever is about to wait has a reconnect to wait for, or nothing is free. */
  ghost predicate WaitsForCause(s: State) {
    LockFree(s.threads) || s.reconnecting || Count(s.slots, IsFree) == 0
  }

  lemma CauseStep(s: State, step: Step)
    requires OneCoordinator(s) && WaitsForCause(s) && Enabled(s, step, true) && !FinishesOverLock(s, step)
    ensures WaitsForCause(Apply(s, step, true)) && !SleepsBesideFree(s, step)
  {
    if step.Doze? {
      CountNone(s.slots, IsFree);
    } else if step.Connect? || step.StoreConnected? || step.StoreInUse? {
      ReconnectingWhile(s, step.t);
    }
  }

  lemma {:induction false} LockedBroadcast(s: State, steps: seq<Step>)
    requires OneCoordinator(s) && NoLostWakeup(s) && WaitsForCause(s) && Run(s, steps, true)
    requires Never(s, steps, FinishesOverLock) && Never(s, steps, GivesUpOwing)
    ensures Never(s, steps, LosesWakeup)
    decreases |steps|
  {
    if steps != [] {
      CauseStep(s, steps[0]);
      WakeStepIff(s, steps[0]);
      LockedBroadcast(Apply(s, steps[0], true), steps[1..]);
    }
  }

  /** Taking the lock around the broadcast is enough for those who go to sleep: when no
      coordinator finishes while a borrower is about to wait, and nobody gives up a scan
      he owes, no wake-up is ever lost. */
  lemma LockedBroadcastSuffices(s: State, steps: seq<Step>)
    requires Initial(s) && Run(s, steps, true)
    requires Never(s, steps, FinishesOverLock) && Never(s, steps, GivesUpOwing)
    ensures Always(s, steps, NoLostWakeup)
  {
    InvInitial(s);
    LockedBroadcast(s, steps);
    SplitWakefulIff(s, steps);
  }

  // ------------------------------------------------------------------ failing runs

  ghost predicate Link(s: State, step: Step, s': State) {
    Enabled(s, step, true) && Apply(s, step, true) == s'
  }

  /** A chain of states linked by steps is a run. */
  lemma {:induction false} RunAlong(states: seq<State>, steps: seq<Step>)
    requires |states| == |steps| + 1
    requires forall i :: 0 <= i < |steps| ==> Link(states[i], steps[i], states[i + 1])
    ensures Run(states[0], steps, true) && Final(states[0], steps, true) == states[|steps|]
    decreases |steps|
  {
    if steps != [] {
      assert Link(states[0], steps[0], states[1]);
      RunAlong(states[1..], steps[1..]);
    }
  }

  /** A run that goes on from where another ends. */
  lemma {:induction false} RunThen(s: State, first: seq<Step>, second: seq<Step>)
    requires Run(s, first, true) && Run(Final(s, first, true), second, true)
    ensures Run(s, first + second, true)
    ensures Final(s, first + second, true) == Final(Final(s, first, true), second, true)
    decreases |first|
  {
    if first == [] {
      assert [] + second == second;
    } else {
      assert (first + second)[0] == first[0] && (first + second)[1..] == first[1..] + second;
      RunThen(Apply(s, first[0], true), first[1..], second);
    }
  }

  const DOWN := Slot(None, false, false)
  const UP := Slot(Some(7), false, true)
  const LENT := Slot(Some(7), true, true)

  /** One slot that is down, the first of two borrowers has become coordinator. */
  function Claimed(): State { State([DOWN], true, 1, 1, 0, [Coordinating(0, 0), Scanning]) }

  lemma SplitClaim() returns (s: State, steps: seq<Step>)
    ensures Initial(s) && Run(s, steps, true) && Final(s, steps, true) == Claimed()
  {
    assert FirstIndex([DOWN], IsFree) == None;
    assert Count([DOWN], IsConnected) == 0;
    s := State([DOWN], false, 0, 1, 0, [Outside, Outside]);
    var states := [s, s.(threads := [Scanning, Outside]), s.(threads := [Scanning, Scanning]),
                   s.(threads := [Trying, Scanning]), Claimed()];
    steps := [Enter(0), Enter(1), Scan(0), Claim(0, 1)];
    RunAlong(states, steps);
  }

  lemma BroadcastOf(a: Thread, b: Thread)
    ensures Broadcast([a, b]) == [Wake(a), Wake(b)]
  {
  }

  /** The second borrower takes the slot between the coordinator's two stores. */
  lemma TakenBetween() returns (steps: seq<Step>)
    ensures Run(Claimed(), steps, true)
    ensures Final(Claimed(), steps, true) == State([LENT], true, 1, 1, 0, [Publishing(0, 0), Holding(0, Some(7))])
  {
    var s := Claimed();
    assert FirstIndex([UP], IsFree) == Some(0);
    var states := [s, s.(slots := [UP], threads := [Publishing(0, 0), Scanning]),
                   s.(slots := [LENT], threads := [Publishing(0, 0), Holding(0, Some(7))])];
    steps := [StoreConnected(0, 7), Scan(1)];
    RunAlong(states, steps);
  }

  /** The second store frees the slot again under his feet, and the coordinator takes it. */
  lemma TakenAgain() returns (steps: seq<Step>)
    ensures var s := State([LENT], true, 1, 1, 0, [Publishing(0, 0), Holding(0, Some(7))]);
            Run(s, steps, true) && !ExclusiveLease(Final(s, steps, true))
  {
    var held := Holding(0, Some(7));
    var s := State([LENT], true, 1, 1, 0, [Publishing(0, 0), held]);
    assert FirstIndex([UP], IsFree) == Some(0);
    BroadcastOf(Scanning, held);
    var freed := State([UP], false, 1, 1, 1, [Scanning, held]);
    var states := [s, s.(slots := [UP], threads := [Coordinating(1, 1), held]), freed,
                   freed.(slots := [LENT], threads := [held, held])];
    steps := [StoreInUse(0), Finish(0), Scan(0)];
    RunAlong(states, steps);
    assert states[3].threads[0] == states[3].threads[1] == held;
  }

  lemma SplitStores() returns (steps: seq<Step>)
    ensures Run(Claimed(), steps, true) && !ExclusiveLease(Final(Claimed(), steps, true))
  {
    var first := TakenBetween();
    var second := TakenAgain();
    steps := first + second;
    RunThen(Claimed(), first, second);
  }

  /** Such runs exist: two threads and one slot suffice for a handle to be lent twice. */
  lemma SplitPublicationLendsTwice() returns (s: State, steps: seq<Step>)
    ensures Initial(s) && Run(s, steps, true)
    ensures !ExclusiveLease(Final(s, steps, true))
  {
    var start, first := SplitClaim();
    var second := SplitStores();
    s, steps := start, first + second;
    RunThen(s, first, second);
  }

  /** The second borrower sees `reconnecting` set and makes for his wait; the coordinator
      finishes and broadcasts; then he waits. */
  lemma SleepThrough() returns (steps: seq<Step>)
    ensures Run(Claimed(), steps, true)
    ensures Final(Claimed(), steps, true) == State([UP], false, 1, 1, 1, [Scanning, Asleep])
  {
    assert FirstIndex([DOWN], IsFree) == None;
    BroadcastOf(Scanning, Dozing);
    var c, f := Claimed(), State([UP], false, 1, 1, 1, [Scanning, Asleep]);
    var states := [c, c.(threads := [Coordinating(0, 0), Dozing]),
                   c.(slots := [UP], threads := [Coordinating(1, 1), Dozing]),
                   f.(threads := [Scanning, Dozing]), f];
    steps := [Doze(1), Connect(0, Connects(7)), Finish(0), Sleep(1)];
    RunAlong(states, steps);
  }

  lemma WakeupLost(f: State)
    requires f == State([UP], false, 1, 1, 1, [Scanning, Asleep])
    ensures ExclusiveLease(f) && CoordinatorInv(f) && NoLeak(f) && !NoLostWakeup(f)
  {
    CountWitness(f.threads, 1, IsAsleep);
    CountWitness(f.slots, 0, IsFree);
    CountNone(f.threads, IsWoken);
    CountNone(f.threads, IsCoordinator);
    CountNone(f.threads, IsHolding);
    CountNone(f.slots, IsInUse);
    assert Count(f.slots, IsConnected) == 1;
  }

  /** Such runs exist too: a broadcast falls between a borrower's look at `reconnecting`
      and his wait, and he sleeps on beside a free slot. */
  lemma LateBroadcastIsLost() returns (s: State, steps: seq<Step>)
    ensures Initial(s) && Run(s, steps, true)
    ensures var f := Final(s, steps, true); ExclusiveLease(f) && CoordinatorInv(f) && NoLeak(f) && !NoLostWakeup(f)
  {
    var start, first := SplitClaim();
    var second := SleepThrough();
    s, steps := start, first + second;
    RunThen(s, first, second);
    WakeupLost(Final(s, steps, true));
  }

  lemma OneHolds() returns (s: State, steps: seq<Step>)
    ensures Initial(s) && Run(s, steps, true)
    ensures Final(s, steps, true) == State([LENT], false, 0, 1, 1, [Holding(0, Some(7)), Outside, Outside])
  {
    assert FirstIndex([UP], IsFree) == Some(0) && Count([UP], IsConnected) == 1;
    s := State([UP], false, 0, 1, 1, [Outside, Outside, Outside]);
    var states := [s, s.(threads := [Scanning, Outside, Outside]),
                   State([LENT], false, 0, 1, 1, [Holding(0, Some(7)), Outside, Outside])];
    steps := [Enter(0), Scan(0)];
    RunAlong(states, steps);
  }

  lemma TwoFallAsleep() returns (steps: seq<Step>)
    ensures var s := State([LENT], false, 0, 1, 1, [Holding(0, Some(7)), Outside, Outside]);
            && Run(s, steps, true)
            && Final(s, steps, true) == State([LENT], false, 0, 1, 1, [Holding(0, Some(7)), Asleep, Asleep])
  {
    var held := Holding(0, Some(7));
    assert FirstIndex([LENT], IsFree) == None;
    var s := State([LENT], false, 0, 1, 1, [held, Outside, Outside]);
    var states := [s, s.(threads := [held, Scanning, Outside]), s.(threads := [held, Asleep, Outside]),
                   s.(threads := [held, Asleep, Scanning]), s.(threads := [held, Asleep, Asleep])];
    steps := [Enter(1), Scan(1), Enter(2), Scan(2)];
    RunAlong(states, steps);
  }

  lemma SignalWasted() returns (steps: seq<Step>)
    ensures var s := State([LENT], false, 0, 1, 1, [Holding(0, Some(7)), Asleep, Asleep]);
            Run(s, steps, true) && Final(s, steps, true) == State([UP], false, 0, 1, 1, [Outside, Outside, Asleep])
  {
    var s := State([LENT], false, 0, 1, 1, [Holding(0, Some(7)), Asleep, Asleep]);
    assert FirstIndex([LENT], HasHandle(Some(7))) == Some(0);
    var freed := s.(slots := [UP]);
    var states := [s, freed.(threads := [Outside, Woken, Asleep]), freed.(threads := [Outside, Outside, Asleep])];
    steps := [Return(0, Some(1)), GiveUp(1)];
    RunAlong(states, steps);
  }

  /** And so do these: the borrower who was signalled finds that his time is up, and the
      other sleeps on beside the slot that was returned. */
  lemma LateTimeoutIsLost() returns (s: State, steps: seq<Step>)
    ensures Initial(s) && Run(s, steps, true) && !NoLostWakeup(Final(s, steps, true))
  {
    var start, first := OneHolds();
    var second := TwoFallAsleep();
    var third := SignalWasted();
    RunThen(start, first, second);
    RunThen(start, first + second, third);
    s, steps := start, first + second + third;
    var f := Final(s, steps, true);
    CountWitness(f.threads, 2, IsAsleep);
    CountWitness(f.slots, 0, IsFree);
    CountNone(f.threads, IsWoken);
  }
}
