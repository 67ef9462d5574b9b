/** The departments' wait queues over whole runs (lua/route.lua:180-214, 399-506): first
    come first served, and nobody is lost or overtaken. */
module WaitQueue {
  import opened Options
  import opened Departments
  import opened Routing
  import opened RoutingSafety

  ghost predicate Sorted(q: seq<Waiting>) {
    forall i, j :: 0 <= i < j < |q| ==> q[i].arrival <= q[j].arrival
  }

  /** The clean-up keeps exactly those who have waited no longer than the limit. */
  lemma {:induction false} UnexpiredIff(q: seq<Waiting>, now: int, timeout: int, w: Waiting)
    ensures w in Unexpired(q, now, timeout) <==> w in q && now - w.arrival <= timeout
  {
    if q != [] {
      UnexpiredIff(q[..|q| - 1], now, timeout, w);
      assert q == q[..|q| - 1] + [q[|q| - 1]];
    }
  }

  lemma {:induction false} AllExpire(q: seq<Waiting>, now: int, timeout: int)
    requires forall i :: 0 <= i < |q| ==> Expired(q[i], now, timeout)
    ensures Unexpired(q, now, timeout) == []
  {
    if q != [] { AllExpire(q[..|q| - 1], now, timeout); }
  }

  lemma SuffixPush(q: seq<Waiting>, m: nat)
    requires q != [] && m < |q|
    ensures q[m..] == q[..|q| - 1][m..] + [q[|q| - 1]]
  {
  }

  /** In a queue ordered by arrival the clean-up removes just the front. */
  lemma {:induction false} CleanPrefix(q: seq<Waiting>, now: int, timeout: int)
    requires Sorted(q)
    ensures var k := |q| - |Unexpired(q, now, timeout)|;
            && 0 <= k <= |q| && Unexpired(q, now, timeout) == q[k..]
            && forall i :: 0 <= i < |q| ==> (i < k <==> q[i].arrival + timeout < now)
  {
    if q != [] {
      var n := |q| - 1;
      if Expired(q[n], now, timeout) {
        AllExpire(q, now, timeout);
      } else {
        CleanPrefix(q[..n], now, timeout);
        SuffixPush(q, n - |Unexpired(q[..n], now, timeout)|);
      }
    }
  }

  // ---------------------------------------------------------------------- one step

  /** The step runs queue_cleanup. */
  predicate Cleans(e: Event) {
    || e.CheckStatus?
    || (e.IvrRoute? && IvrDept(e.digits).Some?)
    || (e.RouteCall? && IsExternal(e.env, e.caller) && e.env.workTime && IvrDept(e.digits).Some?)
  }

  /** The department whose queue the step may lengthen. */
  function AskedFor(e: Event): Option<DeptId> {
    if e.OverflowRoute? then Some(e.dept)
    else if (e.IvrRoute? || e.RouteCall?) && IvrDept(e.digits).Some? then IvrDept(e.digits)
    else None
  }

  /** Who joins the queue of d, judged by the answer given. */
  ghost function Joiners(s: State, e: Event, d: DeptId): seq<Waiting> {
    if AskedFor(e) == Some(d) && Joined(Step(s, e).reply) then [Waiting(e.caller, e.env.now)] else []
  }

  /** How a step takes callers off a queue. */
  datatype Departure = Nobody | FrontCaller | TooLong(now: int)

  function DepartureOf(e: Event, d: DeptId): Departure {
    if Cleans(e) then TooLong(e.env.now) else if e.PopQueue? && e.dept == d then FrontCaller else Nobody
  }

  function KeptOf(q: seq<Waiting>, how: Departure, timeout: int): seq<Waiting> {
    match how
    case TooLong(now) => Unexpired(q, now, timeout)
    case FrontCaller => if q != [] then q[1..] else q
    case Nobody => q
  }

  /** What is left of the queue of d before anyone joins. */
  function Kept(s: State, e: Event, d: DeptId): seq<Waiting> {
    KeptOf(QueueOf(s.queues, d), DepartureOf(e, d), s.config.queueTimeout)
  }

  lemma CleanQueues(s: State, now: int, d: DeptId)
    ensures QueueOf(WithClean(s, now).queues, d) == Unexpired(QueueOf(s.queues, d), now, s.config.queueTimeout)
  {
  }

  lemma IvrQueue(s: State, env: Env, caller: string, key: string, d: DeptId)
    ensures var o := Ivr(s, env, caller, key);
            var kept := if IvrDept(key).Some? then QueueOf(WithClean(s, env.now).queues, d) else QueueOf(s.queues, d);
            && (Joined(o.reply) ==> IvrDept(key).Some?)
            && QueueOf(o.state.queues, d)
               == kept + (if IvrDept(key) == Some(d) && Joined(o.reply) then [Waiting(caller, env.now)] else [])
            && (IvrDept(key) == Some(d) && Joined(o.reply) ==> |kept| < s.config.maxQueue)
  {
    if IvrDept(key).Some? {
      KeyQueues(s, env, caller, key, IvrDept(key).value, d);
    } else {
      NoKeyCase(s, env, caller, key);
    }
  }

  lemma RouteQueue(s: State, env: Env, caller: string, digits: string, d: DeptId)
    requires !(IsExternal(env, caller) && env.workTime)
    ensures var o := Route(s, env, caller, digits); o.state == s && !Joined(o.reply)
  {
    if IsExternal(env, caller) { NightCase(s, env, caller, digits); } else { InternalCase(s, env, caller, digits); }
  }

  lemma PopQueueOf(s: State, x: DeptId, d: DeptId)
    ensures QueueOf(WithPop(s, x).queues, d)
         == if x == d && QueueOf(s.queues, d) != [] then QueueOf(s.queues, d)[1..] else QueueOf(s.queues, d)
  {
  }

  /** The step keeps what it must of the queue of d and appends at most the caller that it
      answers, when there is room. */
  ghost predicate QueueMoves(s: State, e: Event, d: DeptId) {
    && QueueOf(Step(s, e).state.queues, d) == Kept(s, e, d) + Joiners(s, e, d)
    && (Joiners(s, e, d) != [] ==> |Kept(s, e, d)| < s.config.maxQueue)
  }

  lemma IvrMoves(s: State, e: Event, d: DeptId)
    requires e.IvrRoute?
    ensures QueueMoves(s, e, d)
  {
    IvrQueue(s, e.env, e.caller, e.digits, d);
    CleanQueues(s, e.env.now, d);
  }

  /** An outside caller's call in working hours moves the queues as his key press does. */
  lemma MenuMoves(s: State, e: Event, d: DeptId)
    requires e.RouteCall? && IsExternal(e.env, e.caller) && e.env.workTime
    ensures QueueMoves(s, e, d)
  {
    var press := IvrRoute(e.env, e.caller, e.digits);
    WorkCase(s, e.env, e.caller, e.digits);
    IvrMoves(s, press, d);
    SamePress(e, press, d);
  }

  lemma SamePress(e: Event, press: Event, d: DeptId)
    requires e.RouteCall? && IsExternal(e.env, e.caller) && e.env.workTime
    requires press == IvrRoute(e.env, e.caller, e.digits)
    ensures DepartureOf(e, d) == DepartureOf(press, d) && AskedFor(e) == AskedFor(press)
  {
  }

  lemma NoMenuMoves(s: State, e: Event, d: DeptId)
    requires e.RouteCall? && !(IsExternal(e.env, e.caller) && e.env.workTime)
    ensures QueueMoves(s, e, d)
  {
    RouteQueue(s, e.env, e.caller, e.digits, d);
  }

  lemma OverflowMoves(s: State, e: Event, d: DeptId)
    requires e.OverflowRoute?
    ensures QueueMoves(s, e, d)
  {
    OverflowQueues(s, e.env, e.dept, e.caller, d);
  }

  lemma TableMoves(s: State, e: Event, d: DeptId)
    requires e.CheckStatus? || e.PopQueue?
    ensures QueueMoves(s, e, d)
  {
    if e.CheckStatus? { CleanQueues(s, e.env.now, d); } else { PopQueueOf(s, e.dept, d); }
  }

  lemma CounterMoves(s: State, e: Event, d: DeptId)
    requires !e.RouteCall? && !e.IvrRoute? && !e.OverflowRoute? && !e.CheckStatus? && !e.PopQueue?
    ensures QueueMoves(s, e, d)
  {
  }

  lemma StepQueue(s: State, e: Event, d: DeptId)
    ensures QueueOf(Step(s, e).state.queues, d) == Kept(s, e, d) + Joiners(s, e, d)
    ensures Joiners(s, e, d) != [] ==> |Kept(s, e, d)| < s.config.maxQueue
  {
    if e.RouteCall? && !(IsExternal(e.env, e.caller) && e.env.workTime) {
      NoMenuMoves(s, e, d);
    } else if e.RouteCall? {
      MenuMoves(s, e, d);
    } else if e.IvrRoute? {
      IvrMoves(s, e, d);
    } else if e.OverflowRoute? {
      OverflowMoves(s, e, d);
    } else if e.CheckStatus? || e.PopQueue? {
      TableMoves(s, e, d);
    } else {
      CounterMoves(s, e, d);
    }
  }

  // ------------------------------------------------------------------------- a run

  /** A caller who is no longer waiting. */
  datatype Left = Served(w: Waiting) | GaveUp(w: Waiting, now: int, timeout: int)

  function Who(left: seq<Left>): seq<Waiting> { seq(|left|, i requires 0 <= i < |left| => left[i].w) }

  /** The first k callers of a queue, leaving because they waited too long or not. */
  function Front(q: seq<Waiting>, k: nat, tooLong: bool, now: int, timeout: int): (r: seq<Left>)
    requires k <= |q|
    ensures |r| == k
  {
    seq(k, i requires 0 <= i < k => if tooLong then GaveUp(q[i], now, timeout) else Served(q[i]))
  }

  function LeaversOf(q: seq<Waiting>, how: Departure, timeout: int): seq<Left> {
    var k := |q| - |KeptOf(q, how, timeout)|;
    if k < 0 then [] else if how.TooLong? then Front(q, k, true, how.now, timeout) else Front(q, k, false, 0, 0)
  }

  /** The callers that a step takes off the queue of d. */
  function Leavers(s: State, e: Event, d: DeptId): seq<Left> {
    LeaversOf(QueueOf(s.queues, d), DepartureOf(e, d), s.config.queueTimeout)
  }

  ghost function JoinedSoFar(s: State, events: seq<Event>, d: DeptId): seq<Waiting> {
    if events == [] then []
    else
      var n := |events| - 1;
      JoinedSoFar(s, events[..n], d) + Joiners(StateAt(s, events[..n]), events[n], d)
  }

  ghost function LeftSoFar(s: State, events: seq<Event>, d: DeptId): seq<Left> {
    if events == [] then []
    else
      var n := |events| - 1;
      LeftSoFar(s, events[..n], d) + Leavers(StateAt(s, events[..n]), events[n], d)
  }

  /** The clock that the steps read never goes back, and stands at `now` or before it. */
  ghost predicate ClockRuns(events: seq<Event>, now: int) {
    && (forall i, j :: 0 <= i < j < |events| && HasEnv(events[i]) && HasEnv(events[j]) ==>
          events[i].env.now <= events[j].env.now)
    && forall i :: 0 <= i < |events| && HasEnv(events[i]) ==> events[i].env.now <= now
  }

  ghost predicate QueueInv(q: seq<Waiting>, joined: seq<Waiting>, left: seq<Left>, now: int) {
    && Sorted(q) && (forall i :: 0 <= i < |q| ==> q[i].arrival <= now)
    && joined == Who(left) + q && Patient(left)
  }

  lemma WhoFront(q: seq<Waiting>, k: nat, tooLong: bool, now: int, timeout: int)
    requires k <= |q| && (tooLong ==> forall i :: 0 <= i < k ==> Expired(q[i], now, timeout))
    ensures var r := Front(q, k, tooLong, now, timeout);
            Who(r) == q[..k] && Patient(r)
  {
  }

  /** Whoever gave up had waited for longer than the limit in force. */
  ghost predicate Patient(left: seq<Left>) {
    forall i :: 0 <= i < |left| && left[i].GaveUp? ==> left[i].now - left[i].w.arrival > left[i].timeout
  }

  lemma SuffixLength(q: seq<Waiting>, kept: seq<Waiting>, k: nat)
    requires k <= |q| && kept == q[k..]
    ensures |q| - |kept| == k
  {
  }

  /** Whoever leaves was at the front. */
  lemma KeptIsSuffix(q: seq<Waiting>, how: Departure, timeout: int) returns (k: nat)
    requires Sorted(q)
    ensures k <= |q| && KeptOf(q, how, timeout) == q[k..] && Who(LeaversOf(q, how, timeout)) == q[..k]
    ensures Patient(LeaversOf(q, how, timeout))
  {
    if how.TooLong? {
      CleanPrefix(q, how.now, timeout);
      k := |q| - |Unexpired(q, how.now, timeout)|;
    } else {
      k := if how.FrontCaller? && q != [] then 1 else 0;
    }
    SuffixLength(q, KeptOf(q, how, timeout), k);
    if how.TooLong? {
      WhoFront(q, k, true, how.now, timeout);
    } else {
      WhoFront(q, k, false, 0, 0);
    }
  }

  lemma WhoAppend(a: seq<Left>, b: seq<Left>)
    ensures Who(a + b) == Who(a) + Who(b)
  {
  }

  lemma Requeue(a: seq<Waiting>, out: seq<Waiting>, kept: seq<Waiting>, more: seq<Waiting>)
    ensures (a + (out + kept)) + more == (a + out) + (kept + more)
  {
  }

  /** Some leave from the front and at most one newcomer joins at the end. */
  lemma QueueInvNext(q: seq<Waiting>, k: nat, more: seq<Waiting>, joined: seq<Waiting>,
                     left: seq<Left>, out: seq<Left>, now: int, later: int)
    requires QueueInv(q, joined, left, now) && now <= later && k <= |q| && Who(out) == q[..k]
    requires Patient(out)
    requires |more| <= 1 && forall w :: w in more ==> now <= w.arrival <= later
    ensures QueueInv(q[k..] + more, joined + more, left + out, later)
  {
    WhoAppend(left, out);
    assert q == q[..k] + q[k..];
    Requeue(Who(left), Who(out), q[k..], more);
    assert forall w :: w in q[k..] ==> w in q;
  }

  lemma JoinersNow(s: State, e: Event, d: DeptId)
    ensures var more := Joiners(s, e, d);
            |more| <= 1 && (more != [] ==> HasEnv(e)) && forall w :: w in more ==> w.arrival == e.env.now
  {
  }

  /** A step splits the queue into those who leave, those who stay, and who joins. */
  lemma StepSplits(s: State, e: Event, d: DeptId, after: seq<Waiting>) returns (k: nat)
    requires Sorted(QueueOf(s.queues, d)) && after == QueueOf(Step(s, e).state.queues, d)
    ensures var q := QueueOf(s.queues, d);
            && k <= |q| && after == q[k..] + Joiners(s, e, d)
            && Who(Leavers(s, e, d)) == q[..k] && Patient(Leavers(s, e, d))
  {
    StepQueue(s, e, d);
    k := KeptIsSuffix(QueueOf(s.queues, d), DepartureOf(e, d), s.config.queueTimeout);
  }

  lemma QueueInvStep(s: State, e: Event, d: DeptId, joined: seq<Waiting>, left: seq<Left>, now: int, later: int,
                     after: seq<Waiting>)
    requires QueueInv(QueueOf(s.queues, d), joined, left, now) && now <= later
    requires HasEnv(e) ==> now <= e.env.now <= later
    requires after == QueueOf(Step(s, e).state.queues, d)
    ensures QueueInv(after, joined + Joiners(s, e, d), left + Leavers(s, e, d), later)
  {
    var k := StepSplits(s, e, d, after);
    JoinersNow(s, e, d);
    QueueInvNext(QueueOf(s.queues, d), k, Joiners(s, e, d), joined, left, Leavers(s, e, d), now, later);
  }

  /** After a step that cleans up, nobody waits who has waited for longer than the limit,
      whoever came just now aside. */
  ghost predicate NoneOverdue(s: State, e: Event, d: DeptId, after: seq<Waiting>) {
    Cleans(e) ==>
      forall w :: w in after ==> e.env.now - w.arrival <= s.config.queueTimeout || w.arrival == e.env.now
  }

  lemma CleanedInTime(s: State, e: Event, d: DeptId, after: seq<Waiting>)
    requires after == QueueOf(Step(s, e).state.queues, d)
    ensures NoneOverdue(s, e, d, after)
  {
    StepQueue(s, e, d);
    JoinersNow(s, e, d);
    if Cleans(e) {
      forall w | w in after
        ensures e.env.now - w.arrival <= s.config.queueTimeout || w.arrival == e.env.now
      {
        UnexpiredIff(QueueOf(s.queues, d), e.env.now, s.config.queueTimeout, w);
      }
    }
  }

  lemma ClockBefore(events: seq<Event>, now: int)
    requires ClockRuns(events, now) && events != []
    ensures var n := |events| - 1;
            ClockRuns(events[..n], if HasEnv(events[n]) then events[n].env.now else now)
  {
  }

  /** At every moment of every run that starts with empty queues and whose clock does not
      go back: the callers ever queued for a department are, in the order in which they
      came, those who left and then those who wait; the waiting are ordered by arrival;
      whoever left without being served had waited longer than the limit then in force;
      and after a clean-up nobody is left who has waited longer than that. */
  lemma {:induction false} WaitQueueHistory(s: State, events: seq<Event>, d: DeptId, now: int)
    requires s.queues == map[] && ClockRuns(events, now)
    ensures QueueInv(QueueOf(StateAt(s, events).queues, d), JoinedSoFar(s, events, d), LeftSoFar(s, events, d), now)
    ensures events != [] ==> NoneOverdue(StateAt(s, events[..|events| - 1]), events[|events| - 1], d,
                                         QueueOf(StateAt(s, events).queues, d))
  {
    if events != [] {
      var n := |events| - 1;
      var e := events[n];
      var before := if HasEnv(e) then e.env.now else now;
      ClockBefore(events, now);
      WaitQueueHistory(s, events[..n], d, before);
      var joined, left := JoinedSoFar(s, events[..n], d), LeftSoFar(s, events[..n], d);
      QueueInvStep(StateAt(s, events[..n]), e, d, joined, left, before, now, QueueOf(StateAt(s, events).queues, d));
      CleanedInTime(StateAt(s, events[..n]), e, d, QueueOf(StateAt(s, events).queues, d));
    }
  }

  lemma KeptShorter(q: seq<Waiting>, how: Departure, timeout: int)
    ensures |KeptOf(q, how, timeout)| <= |q|
  {
    if how.TooLong? { UnexpiredShorter(q, how.now, timeout); }
  }

  lemma LimitStep(s: State, e: Event, d: DeptId, limit: nat, after: seq<Waiting>)
    requires s.config.maxQueue <= limit && |QueueOf(s.queues, d)| <= limit
    requires after == QueueOf(Step(s, e).state.queues, d)
    ensures |after| <= limit
  {
    StepQueue(s, e, d);
    JoinersNow(s, e, d);
    KeptShorter(QueueOf(s.queues, d), DepartureOf(e, d), s.config.queueTimeout);
  }

  /** While the configured limit stays at or below `limit`, no queue is longer. */
  lemma {:induction false} QueueWithinLimit(s: State, events: seq<Event>, d: DeptId, limit: nat)
    requires s.queues == map[] && s.config.maxQueue <= limit
    requires forall i :: 0 <= i < |events| && events[i].Configure? ==> events[i].config.maxQueue <= limit
    ensures StateAt(s, events).config.maxQueue <= limit && |QueueOf(StateAt(s, events).queues, d)| <= limit
  {
    if events != [] {
      var n := |events| - 1;
      var t := StateAt(s, events[..n]);
      QueueWithinLimit(s, events[..n], d, limit);
      StepFrame(t, events[n]);
      LimitStep(t, events[n], d, limit, QueueOf(StateAt(s, events).queues, d));
    }
  }
}
