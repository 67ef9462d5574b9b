/** Time in the MySQL pool (src/db_mysql.c:149-243): how far apart reconnect attempts are,
    and when a borrower gets to the timed wait. */
module PoolTiming {
  import opened Options
  import opened Counting
  import opened MysqlPool
  import opened PoolProtocol

  // ----------------------------------------------------------- reconnect storm bound

  predicate Admits(s: State, step: Step) {
    step.Claim? && GateOpen(s.reconnecting, s.last, s.backoff, step.now)
  }

  /** The clock readings of the reconnect attempts that were admitted in a run. */
  ghost function Attempts(s: State, steps: seq<Step>): seq<int>
    requires Run(s, steps, false)
    decreases |steps|
  {
    if steps == [] then []
    else
      var rest := Attempts(Apply(s, steps[0], false), steps[1..]);
      if Admits(s, steps[0]) then [steps[0].now] + rest
      else rest
  }

  /** Nobody is ever stuck, and nothing that the clock, the server or the kernel may do is
      ruled out: every thread can take the step that its state calls for. */
  lemma EveryoneCanMove(s: State, t: nat, now: int, o: ConnectOutcome)
    requires t < |s.threads| && !s.threads[t].Publishing? && !s.threads[t].Dozing?
    ensures match s.threads[t]
            case Outside => Enabled(s, Enter(t), false)
            case Scanning => Enabled(s, Scan(t), false)
            case Woken => Enabled(s, Scan(t), false)
            case Asleep => Enabled(s, Timeout(t), false) && Enabled(s, Spurious(t), false)
            case Trying => Enabled(s, Claim(t, now), false)
            case Coordinating(next, _) =>
              && (next == |s.slots| ==> Enabled(s, Finish(t), false))
              && (next < |s.slots| && (o.Connects? ==> Unused(s.slots, next, o.handle)) ==>
                    Enabled(s, Connect(t, o), false))
            case Holding(_, _) =>
              if exists u: nat :: u < |s.threads| && s.threads[u].Asleep?
              then exists u: nat :: u < |s.threads| && s.threads[u].Asleep? && Enabled(s, Return(t, Some(u)), false)
              else Enabled(s, Return(t, None), false)
            case Dozing => true
            case Publishing(_, _) => true
  {
    if s.threads[t].Holding? && exists u: nat :: u < |s.threads| && s.threads[u].Asleep? {
      var u: nat :| u < |s.threads| && s.threads[u].Asleep?;
      assert Enabled(s, Return(t, Some(u)), false);
    }
  }

  /** Where a thread is after each way of leaving a wait or the pool. */
  lemma WhereTheyGo(s: State, step: Step)
    requires Enabled(s, step, false)
    ensures var th := Apply(s, step, false).threads[step.t];
            && (step.Enter? ==> th.Scanning?)
            && (step.Timeout? ==> th.Outside? && Apply(s, step, false).slots == s.slots)
            && (step.Spurious? ==> th.Woken? && Apply(s, step, false).slots == s.slots)
            && (step.Return? ==> th.Outside?)
            && (step.Return? && step.wake.Some? ==> Apply(s, step, false).threads[step.wake.value].Woken?)
            && (step.Connect? ==> th.Coordinating? && th.next == s.threads[step.t].next + 1)
  {
  }

  /** An attempt that is due is admitted and one that is not is refused, to the second. */
  lemma AdmittedIff(s: State, t: nat, now: int)
    requires Enabled(s, Claim(t, now), false)
    ensures var s' := Apply(s, Claim(t, now), false);
            && (s'.threads[t].Coordinating? <==> !s.reconnecting && now - s.last >= s.backoff)
            && (s'.threads[t].Coordinating? ==> s'.reconnecting && s'.last == now)
            && (!s'.threads[t].Coordinating? ==> s' == s.(threads := s.threads[t := Scanning]))
  {
  }

  /** What an attempt leaves behind: the number of slots that are up, everybody awake who
      slept, and one second of backoff when all slots are up, else twice the last, up to
      thirty. */
  lemma FinishOutcome(s: State, t: nat)
    requires Inv(s) && Enabled(s, Finish(t), false)
    ensures var s' := Apply(s, Finish(t), false);
            && s'.active == Count(s.slots, IsConnected) && !s'.reconnecting && s'.threads[t].Scanning?
            && (forall u :: 0 <= u < |s.threads| && u != t ==>
                  s'.threads[u] == if s.threads[u].Asleep? then Woken else s.threads[u])
            && ((forall i :: 0 <= i < |s.slots| ==> s.slots[i].connected) ==> s'.backoff == 1)
            && ((exists i :: 0 <= i < |s.slots| && !s.slots[i].connected) ==>
                  s'.backoff == if s.backoff > 15 then 30 else 2 * s.backoff)
  {
    assert s.slots[..|s.slots|] == s.slots;
    SoleCoordinator(s, t);
    if Count(s.slots, IsConnected) == |s.slots| {
      CountFull(s.slots, IsConnected);
    } else {
      var gap := CountGap(s.slots, IsConnected);
      assert !s.slots[gap].connected;
    }
  }

  /** No attempt of the run brought every slot up. */
  ghost predicate NeverComplete(s: State, steps: seq<Step>)
    requires Run(s, steps, false)
    decreases |steps|
  {
    steps == [] ||
    ((steps[0].Finish? ==> s.threads[steps[0].t].ok != |s.slots|)
     && NeverComplete(Apply(s, steps[0], false), steps[1..]))
  }

  /** Total length of n waits, the first of g seconds and each next one doubled up to the cap. */
  function Waits(g: int, n: nat): int
    decreases n
  {
    if n == 0 then 0 else g + Waits(NextBackoff(g, false), n - 1)
  }

  /** The wait that the next attempt will have to respect. */
  function PendingWait(s: State): int {
    if s.reconnecting then NextBackoff(s.backoff, false) else s.backoff
  }

  /** An admitted attempt has waited long enough and starts the next wait; nothing else
      but a complete attempt touches wait or clock. */
  lemma WaitStep(s: State, step: Step)
    requires Inv(s) && Enabled(s, step, false)
    requires step.Finish? ==> s.threads[step.t].ok != |s.slots|
    ensures var s' := Apply(s, step, false);
            if Admits(s, step) then
              && !s.reconnecting && step.now - s.last >= PendingWait(s) == s.backoff
              && s'.last == step.now && PendingWait(s') == NextBackoff(s.backoff, false)
            else s'.last == s.last && PendingWait(s') == PendingWait(s)
  {
    if step.Finish? {
      SoleCoordinator(s, step.t);
    }
  }

  lemma LastAfter(t: int, rest: seq<int>)
    ensures var ts := [t] + rest;
            |ts| == |rest| + 1 && ts[0] == t && ts[|ts| - 1] == if rest == [] then t else rest[|rest| - 1]
  {
  }

  lemma AttemptsNext(s: State, steps: seq<Step>, rest: seq<int>)
    requires Run(s, steps, false) && steps != [] && rest == Attempts(Apply(s, steps[0], false), steps[1..])
    ensures var ts := Attempts(s, steps);
            if Admits(s, steps[0]) then
              && |ts| == |rest| + 1 && ts[0] == steps[0].now
              && ts[|ts| - 1] == if rest == [] then steps[0].now else rest[|rest| - 1]
            else ts == rest
  {
    if steps[0].Claim? { LastAfter(steps[0].now, rest); }
  }

  lemma {:induction false} AttemptsAreSpaced(s: State, steps: seq<Step>)
    requires Inv(s) && Run(s, steps, false) && NeverComplete(s, steps)
    ensures var ts := Attempts(s, steps);
            ts != [] ==> ts[|ts| - 1] - s.last >= Waits(PendingWait(s), |ts|)
    decreases |steps|
  {
    if steps != [] {
      InvStep(s, steps[0]);
      WaitStep(s, steps[0]);
      AttemptsNext(s, steps, Attempts(Apply(s, steps[0], false), steps[1..]));
      AttemptsAreSpaced(Apply(s, steps[0], false), steps[1..]);
    }
  }

  lemma {:induction false} SpanFromFirst(s: State, steps: seq<Step>)
    requires Inv(s) && Run(s, steps, false) && NeverComplete(s, steps)
    ensures var ts := Attempts(s, steps);
            ts != [] ==> ts[|ts| - 1] - ts[0] >= Waits(NextBackoff(PendingWait(s), false), |ts| - 1)
    decreases |steps|
  {
    if steps != [] {
      var s' := Apply(s, steps[0], false);
      InvStep(s, steps[0]);
      WaitStep(s, steps[0]);
      AttemptsNext(s, steps, Attempts(Apply(s, steps[0], false), steps[1..]));
      if Admits(s, steps[0]) {
        AttemptsAreSpaced(s', steps[1..]);
      } else {
        SpanFromFirst(s', steps[1..]);
      }
    }
  }

  function Power2(n: nat): nat { if n == 0 then 1 else 2 * Power2(n - 1) }

  lemma {:induction false} WaitsAtCap(n: nat)
    ensures Waits(30, n) == 30 * n
  {
    if n > 0 { WaitsAtCap(n - 1); }
  }

  lemma WaitsFromTwo(n: nat)
    requires n >= 1
    ensures n <= 5 ==> Waits(2, n - 1) == Power2(n) - 2
    ensures n >= 5 ==> Waits(2, n - 1) == 30 * (n - 4)
  {
    assert Power2(1) == 2 && Power2(2) == 4 && Power2(3) == 8 && Power2(4) == 16 && Power2(5) == 32;
    if n >= 5 {
      WaitsAtCap(n - 5);
      assert Waits(16, n - 4) == 16 + Waits(30, n - 5);
      assert Waits(8, n - 3) == 8 + Waits(16, n - 4);
      assert Waits(4, n - 2) == 4 + Waits(8, n - 3);
    } else {
      assert Waits(16, 0) == 0 && Waits(8, 1) == 8 && Waits(4, 2) == 12 && Waits(2, 3) == 14;
    }
  }

  /** n admitted, incomplete attempts that start at backoff 1 span at least 2^n - 2
      seconds up to five of them and 30(n-4) seconds from five on, whatever the other
      threads ask in between and whatever their clocks read. */
  lemma ReconnectStormBound(s: State, steps: seq<Step>)
    requires Inv(s) && Run(s, steps, false) && NeverComplete(s, steps)
    requires !s.reconnecting && s.backoff == RECONNECT_BASE_SEC
    ensures var ts := Attempts(s, steps); var n := |ts|;
            && (1 <= n <= 5 ==> ts[n - 1] - ts[0] >= Power2(n) - 2)
            && (n >= 5 ==> ts[n - 1] - ts[0] >= 30 * (n - 4))
  {
    var ts := Attempts(s, steps);
    if ts != [] {
      SpanFromFirst(s, steps);
      WaitsFromTwo(|ts|);
    }
  }

  // ------------------------------------------------------------------ borrow timeout

  /** A lone borrower in front of a pool that is partly down and has nothing to lend. */
  ghost predicate Stranded(s: State, t: nat) {
    && Inv(s) && t < |s.threads| && FirstIndex(s.slots, IsFree) == None
    && Count(s.slots, IsConnected) < |s.slots|
    && (s.threads[t].Scanning? || s.threads[t].Trying? || s.threads[t].Coordinating?)
    && (s.reconnecting <==> s.threads[t].Coordinating?)
  }

  ghost predicate LoneFailing(steps: seq<Step>, t: nat) {
    forall i :: 0 <= i < |steps| ==> steps[i].t == t && (steps[i].Connect? ==> !steps[i].outcome.Connects?)
  }

  lemma StrandedConnect(s: State, t: nat, o: ConnectOutcome)
    requires Stranded(s, t) && Enabled(s, Connect(t, o), false) && !o.Connects?
    ensures Stranded(Apply(s, Connect(t, o), false), t)
  {
    InvStep(s, Connect(t, o));
    var s' := Apply(s, Connect(t, o), false);
    var k := s.threads[t].next;
    assert SlotsSound(s.slots);
    SlotMoves(s.slots, k, s'.slots[k]);
    assert s'.slots[k].connected == s.slots[k].connected && !IsFree(s'.slots[k]);
  }

  lemma StrandedStep(s: State, t: nat, step: Step)
    requires Stranded(s, t) && Enabled(s, step, false) && step.t == t
    requires step.Connect? ==> !step.outcome.Connects?
    ensures Stranded(Apply(s, step, false), t)
  {
    if step.Connect? {
      StrandedConnect(s, t, step.outcome);
    } else {
      InvStep(s, step);
      assert Apply(s, step, false).slots == s.slots;
    }
  }

  /** The timeout of db_mysql_pool_borrow is not unconditional: as long as the server
      stays down, a borrower that no other thread disturbs never reaches the timed
      wait, however long it runs and however far the clock has moved. */
  lemma {:induction false} StrandedBorrowerNeverTimesOut(s: State, t: nat, steps: seq<Step>)
    requires Stranded(s, t) && Run(s, steps, false) && LoneFailing(steps, t)
    ensures var f := Final(s, steps, false);
            Stranded(f, t) && !Enabled(f, Timeout(t), false)
    decreases |steps|
  {
    if steps != [] {
      StrandedStep(s, t, steps[0]);
      StrandedBorrowerNeverTimesOut(Apply(s, steps[0], false), t, steps[1..]);
    }
  }

  /** A scan lends or sleeps exactly when a slot is free, all are connected, or somebody is
      already reconnecting; otherwise it goes for a reconnect of its own. */
  lemma ScanLendsOrSleepsIff(s: State, t: nat)
    requires Inv(s) && Enabled(s, Scan(t), false)
    ensures var th := Apply(s, Scan(t), false).threads[t];
            (th.Holding? || th.Asleep?)
            <==> (Count(s.slots, IsFree) > 0 || Count(s.slots, IsConnected) == |s.slots| || s.reconnecting)
  {
    match FirstIndex(s.slots, IsFree)
    case None => CountNone(s.slots, IsFree);
    case Some(i) => CountWitness(s.slots, i, IsFree);
  }

  /** Stranded borrowers exist: one slot that would not connect and one thread. */
  lemma StrandedIsReachable() returns (s: State, steps: seq<Step>)
    ensures Initial(s) && Run(s, steps, false) && Stranded(Final(s, steps, false), 0)
  {
    var down := Slot(None, false, false);
    assert FirstIndex([down], IsFree) == None;
    assert Count([down], IsConnected) == 0;
    s, steps := State([down], false, 0, 1, 0, [Outside]), [Enter(0)];
    InvInitial(s);
    InvStep(s, Enter(0));
    assert steps[1..] == [];
    assert Final(s, steps, false) == Apply(s, Enter(0), false);
  }
}
