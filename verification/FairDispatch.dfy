/** Fair dispatch (lua/route.lua:146-172): how long an idle agent can be passed over when
    agents are chosen by the time of their last change of state. */
module FairDispatch {
  import opened Options
  import opened Departments
  import opened Routing
  import opened RoutingSafety

  /** The step puts a caller through to the idle agent x of department d.  An internal
      caller names the extension himself, so his calls are not dispatched. */
  ghost predicate HandsOut(s: State, e: Event, d: DeptId, x: string) {
    && HasEnv(e) && (e.RouteCall? ==> IsExternal(e.env, e.caller)) && !e.CheckStatus?
    && var r := Step(s, e).reply;
       && r.Reply? && r.code in {0, 4, 6} && r.department == Some(d) && r.target == x
       && x in Members(d) && IsIdle(s.agents, x)
  }

  lemma IvrHandsLongestIdle(s: State, env: Env, caller: string, key: string, d: DeptId, x: string)
    requires ValidPicks(s.agents, env.pick) && x in Members(d) && IsIdle(s.agents, x)
    requires var r := Ivr(s, env, caller, key).reply;
             r.Reply? && r.code in {0, 4, 6} && r.department == Some(d) && r.target == x
    ensures IsLongestIdle(s.agents, d, x)
  {
    if IvrDept(key).Some? {
      KeyAnswered(s, env, caller, key, IvrDept(key).value);
      KeyTakenBy(s, env, caller, key, IvrDept(key).value);
    } else {
      NoKeyTakenBy(s, env, caller, key);
    }
  }

  /** Whoever is dispatched has been idle longest. */
  lemma HandsOutLongestIdle(s: State, e: Event, d: DeptId, x: string)
    requires Allowed(s, e) && HandsOut(s, e, d, x)
    ensures IsLongestIdle(s.agents, d, x)
  {
    if e.RouteCall? {
      if e.env.workTime {
        WorkCase(s, e.env, e.caller, e.digits);
        IvrHandsLongestIdle(s, e.env, e.caller, e.digits, d, x);
      } else {
        NightCase(s, e.env, e.caller, e.digits);
        NightTakenBy(s, e.env);
      }
    } else if e.IvrRoute? {
      IvrHandsLongestIdle(s, e.env, e.caller, e.digits, d, x);
    } else if e.OverflowRoute? {
      OverflowHands(s, e.env, e.dept, e.caller);
      OverflowTakenBy(s, e.env, e.dept, e.caller);
    } else {
      assert IsPick(s.agents, Support, e.env.pick(Support));
    }
  }

  /** An outside caller who presses the key of a department with someone idle in working
      hours is always put through to one of them. */
  lemma KeyDispatches(s: State, env: Env, caller: string, key: string, d: DeptId)
    requires ValidPicks(s.agents, env.pick) && IsExternal(env, caller) && env.workTime
    requires IvrDept(key) == Some(d) && HasIdle(s.agents, d)
    ensures Dispatches(s, RouteCall(env, caller, key), d)
  {
    WorkCase(s, env, caller, key);
    KeyCase(s, env, caller, key, d);
    assert IsPick(s.agents, d, env.pick(d));
    assert HandsOut(s, RouteCall(env, caller, key), d, env.pick(d).value);
  }

  lemma OverflowHands(s: State, env: Env, d: DeptId, caller: string)
    ensures var r := Overflow(s, env, d, caller).reply; r.Reply? && r.code in {0, 4, 6} ==> r.code == 4
  {
  }

  // --------------------------------------------------------------------------- runs

  ghost predicate Stamps(e: Event, x: string) { e.SetAgentState? && e.ext == x }

  /** Each change of an agent's state is later than the last changes of all agents. */
  ghost predicate FreshStamps(s: State, events: seq<Event>) {
    forall i :: 0 <= i < |events| && events[i].SetAgentState? ==> Newer(StateAt(s, events[..i]), events[i].now)
  }

  ghost predicate Newer(s: State, now: int) { forall y :: y in s.agents ==> s.agents[y].lastActive < now }

  /** A clock whose readings strictly increase from when the script was loaded gives
      fresh stamps. */
  ghost predicate StrictClock(start: int, events: seq<Event>) {
    && (forall i :: 0 <= i < |events| && events[i].SetAgentState? ==> start < events[i].now)
    && forall i, j :: 0 <= i < j < |events| && events[i].SetAgentState? && events[j].SetAgentState? ==>
         events[i].now < events[j].now
  }

  lemma {:induction false} StampsBelow(c: Config, start: int, events: seq<Event>, now: int)
    requires start < now
    requires forall i :: 0 <= i < |events| && events[i].SetAgentState? ==> events[i].now < now
    ensures Newer(StateAt(Loaded(c, start), events), now)
  {
    LoadedAgents(c, start);
    if events != [] {
      var n := |events| - 1;
      StampsBelow(c, start, events[..n], now);
      StepFrame(StateAt(Loaded(c, start), events[..n]), events[n]);
    }
  }

  lemma StrictClockIsFresh(c: Config, start: int, events: seq<Event>)
    requires StrictClock(start, events)
    ensures FreshStamps(Loaded(c, start), events)
  {
    forall i | 0 <= i < |events| && events[i].SetAgentState?
      ensures Newer(StateAt(Loaded(c, start), events[..i]), events[i].now)
    {
      StampsBelow(c, start, events[..i], events[i].now);
    }
  }

  lemma {:induction false} AgentsStay(s: State, events: seq<Event>)
    ensures StateAt(s, events).agents.Keys == s.agents.Keys
  {
    if events != [] {
      AgentsStay(s, events[..|events| - 1]);
      StepFrame(StateAt(s, events[..|events| - 1]), events[|events| - 1]);
    }
  }

  ghost predicate Behind(agents: Agents, c: string, x: string) {
    c in agents && x in agents && agents[c].lastActive < agents[x].lastActive
  }

  function Touched(agents: Agents, e: Event): Agents {
    if e.SetAgentState? then WithState(agents, e.ext, e.activity, e.now) else agents
  }

  /** The agents before each step of a run and after the last. */
  ghost function Trace(s: State, events: seq<Event>): (t: seq<Agents>)
    ensures |t| == |events| + 1
  {
    seq(|events| + 1, i requires 0 <= i <= |events| => StateAt(s, events[..i]).agents)
  }

  lemma TraceStep(s: State, events: seq<Event>)
    ensures forall m :: 0 <= m < |events| ==> Trace(s, events)[m + 1] == Touched(Trace(s, events)[m], events[m])
  {
    forall m | 0 <= m < |events|
      ensures Trace(s, events)[m + 1] == Touched(Trace(s, events)[m], events[m])
    {
      assert events[..m + 1][..m] == events[..m];
      StepFrame(StateAt(s, events[..m]), events[m]);
    }
  }

  lemma BehindStep(agents: Agents, e: Event, c: string, x: string)
    requires c in agents && x in agents && c != x && !Stamps(e, c)
    requires e.SetAgentState? ==> forall z :: z in agents ==> agents[z].lastActive < e.now
    requires Stamps(e, x) || Behind(agents, c, x)
    ensures Behind(Touched(agents, e), c, x)
  {
  }

  /** Once x has been stamped, c stays behind him until c is stamped. */
  lemma {:induction false} StaysBehind(t: seq<Agents>, events: seq<Event>, k: nat, n: nat, c: string, x: string)
    requires |t| == |events| + 1 && k < n <= |events| && c != x
    requires forall m :: 0 <= m < |events| ==> t[m + 1] == Touched(t[m], events[m])
    requires forall m :: 0 <= m < |events| && events[m].SetAgentState? ==>
               forall z :: z in t[m] ==> t[m][z].lastActive < events[m].now
    requires Stamps(events[k], x) && c in t[k] && x in t[k]
    requires forall i :: k < i < n ==> !Stamps(events[i], c)
    ensures Behind(t[n], c, x)
  {
    if k < n - 1 {
      StaysBehind(t, events, k, n - 1, c, x);
    }
    assert t[n - 1 + 1] == Touched(t[n - 1], events[n - 1]);
    BehindStep(t[n - 1], events[n - 1], c, x);
  }

  lemma FreshTrace(s: State, events: seq<Event>)
    requires FreshStamps(s, events)
    ensures forall m :: 0 <= m < |events| && events[m].SetAgentState? ==>
              forall z :: z in Trace(s, events)[m] ==> Trace(s, events)[m][z].lastActive < events[m].now
  {
    forall m | 0 <= m < |events| && events[m].SetAgentState?
      ensures forall z :: z in Trace(s, events)[m] ==> Trace(s, events)[m][z].lastActive < events[m].now
    {
      assert Newer(StateAt(s, events[..m]), events[m].now);
    }
  }

  /** No agent is dispatched after a stamp of his while a colleague is idle who has not
      been stamped since. */
  lemma NotBeforeColleague(s: State, events: seq<Event>, k: nat, j: nat, d: DeptId, c: string, x: string)
    requires ValidRun(s, events) && FreshStamps(s, events) && k < j < |events| && c != x
    requires Stamps(events[k], x) && c in StateAt(s, events[..k]).agents && x in StateAt(s, events[..k]).agents
    requires forall i :: k < i < j ==> !Stamps(events[i], c)
    requires c in Members(d) && IsIdle(StateAt(s, events[..j]).agents, c)
    ensures !HandsOut(StateAt(s, events[..j]), events[j], d, x)
  {
    TraceStep(s, events);
    FreshTrace(s, events);
    StaysBehind(Trace(s, events), events, k, j, c, x);
    if HandsOut(StateAt(s, events[..j]), events[j], d, x) {
      HandsOutLongestIdle(StateAt(s, events[..j]), events[j], d, x);
    }
  }

  // ------------------------------------------------------------------- bounded waiting

  /** The step dispatches an agent of d. */
  ghost predicate Dispatches(s: State, e: Event, d: DeptId) { exists x :: HandsOut(s, e, d, x) }

  /** Those dispatched from d, in order. */
  ghost function Dispatched(s: State, events: seq<Event>, d: DeptId): seq<string> {
    if events == [] then []
    else
      var n := |events| - 1;
      var before := StateAt(s, events[..n]);
      Dispatched(s, events[..n], d)
      + if Dispatches(before, events[n], d) then [Step(before, events[n]).reply.target] else []
  }

  /** Each dispatched agent's state is updated before the department's next dispatch. */
  ghost predicate Disciplined(s: State, events: seq<Event>, d: DeptId) {
    forall i, j, x :: 0 <= i < j < |events| && HandsOut(StateAt(s, events[..i]), events[i], d, x)
                      && Dispatches(StateAt(s, events[..j]), events[j], d)
                      ==> StampedBetween(events, i, j, x)
  }

  ghost predicate StampedBetween(events: seq<Event>, i: int, j: int, x: string)
    requires 0 <= i < j < |events|
  {
    exists k :: i < k < j && Stamps(events[k], x)
  }

  /** Agent c of d is idle throughout, his state is never updated and he is never dispatched. */
  ghost predicate Overlooked(s: State, events: seq<Event>, d: DeptId, c: string) {
    && c in Members(d)
    && forall i :: 0 <= i < |events| ==>
         && IsIdle(StateAt(s, events[..i]).agents, c) && !Stamps(events[i], c)
         && !HandsOut(StateAt(s, events[..i]), events[i], d, c)
  }

  ghost predicate Distinct(xs: seq<string>) { forall i, j :: 0 <= i < j < |xs| ==> xs[i] != xs[j] }

  ghost predicate DispatchedBefore(s: State, events: seq<Event>, n: nat, d: DeptId, x: string)
    requires n <= |events|
  {
    exists i :: 0 <= i < n && HandsOut(StateAt(s, events[..i]), events[i], d, x)
  }

  lemma NotTwice(s: State, events: seq<Event>, n: nat, d: DeptId, c: string, x: string)
    requires ValidRun(s, events) && FreshStamps(s, events) && Disciplined(s, events, d) && Overlooked(s, events, d, c)
    requires n < |events| && DispatchedBefore(s, events, n, d, x)
    ensures !HandsOut(StateAt(s, events[..n]), events[n], d, x)
  {
    var i :| 0 <= i < n && HandsOut(StateAt(s, events[..i]), events[i], d, x);
    if HandsOut(StateAt(s, events[..n]), events[n], d, x) {
      assert StampedBetween(events, i, n, x);
      var k :| i < k < n && Stamps(events[k], x);
      AgentsStay(s, events[..k]);
      AgentsStay(s, events[..i]);
      assert IsIdle(StateAt(s, events[..k]).agents, c);
      assert !HandsOut(StateAt(s, events[..i]), events[i], d, c);
      NotBeforeColleague(s, events, k, n, d, c, x);
    }
  }

  lemma DispatchedNext(s: State, events: seq<Event>, m: nat, d: DeptId)
    requires m < |events|
    ensures var before, xs := StateAt(s, events[..m]), Dispatched(s, events[..m], d);
            if Dispatches(before, events[m], d) then
              exists x :: HandsOut(before, events[m], d, x) && Dispatched(s, events[..m + 1], d) == xs + [x]
            else Dispatched(s, events[..m + 1], d) == xs
  {
    assert events[..m + 1][..m] == events[..m];
  }

  /** The dispatched are agents of d other than c, each dispatched at some step before n. */
  ghost predicate Colleagues(s: State, events: seq<Event>, n: nat, d: DeptId, c: string, xs: seq<string>)
    requires n <= |events|
  {
    Distinct(xs) && forall x :: x in xs ==> x != c && x in Members(d) && DispatchedBefore(s, events, n, d, x)
  }

  lemma OneStepLater(s: State, events: seq<Event>, m: nat, d: DeptId, c: string, xs: seq<string>)
    requires m < |events| && Colleagues(s, events, m, d, c, xs)
    ensures Colleagues(s, events, m + 1, d, c, xs)
  {
    forall x | x in xs
      ensures DispatchedBefore(s, events, m + 1, d, x)
    {
      var i :| 0 <= i < m && HandsOut(StateAt(s, events[..i]), events[i], d, x);
    }
  }

  lemma OneMore(s: State, events: seq<Event>, n: nat, d: DeptId, c: string, xs: seq<string>, x: string)
    requires n <= |events| && Colleagues(s, events, n, d, c, xs)
    requires x !in xs && x != c && x in Members(d) && DispatchedBefore(s, events, n, d, x)
    ensures Colleagues(s, events, n, d, c, xs + [x])
  {
  }

  /** A dispatched agent is a colleague of c who was not dispatched before. */
  lemma NewColleague(s: State, events: seq<Event>, m: nat, d: DeptId, c: string, xs: seq<string>, x: string)
    requires ValidRun(s, events) && FreshStamps(s, events) && Disciplined(s, events, d) && Overlooked(s, events, d, c)
    requires m < |events| && Colleagues(s, events, m, d, c, xs) && HandsOut(StateAt(s, events[..m]), events[m], d, x)
    ensures Colleagues(s, events, m + 1, d, c, xs + [x])
  {
    OneStepLater(s, events, m, d, c, xs);
    if DispatchedBefore(s, events, m, d, x) { NotTwice(s, events, m, d, c, x); }
    assert DispatchedBefore(s, events, m + 1, d, x);
    OneMore(s, events, m + 1, d, c, xs, x);
  }

  lemma {:induction false} DispatchedDistinct(s: State, events: seq<Event>, n: nat, d: DeptId, c: string)
    requires ValidRun(s, events) && FreshStamps(s, events) && Disciplined(s, events, d) && Overlooked(s, events, d, c)
    requires n <= |events|
    ensures Colleagues(s, events, n, d, c, Dispatched(s, events[..n], d))
  {
    if n > 0 {
      var m := n - 1;
      var before, xs := StateAt(s, events[..m]), Dispatched(s, events[..m], d);
      DispatchedDistinct(s, events, m, d, c);
      DispatchedNext(s, events, m, d);
      if Dispatches(before, events[m], d) {
        var x :| HandsOut(before, events[m], d, x) && Dispatched(s, events[..n], d) == xs + [x];
        NewColleague(s, events, m, d, c, xs, x);
      } else {
        OneStepLater(s, events, m, d, c, xs);
      }
    }
  }

  lemma {:induction false} DistinctFit(xs: seq<string>, s: set<string>)
    requires Distinct(xs) && forall x :: x in xs ==> x in s
    ensures |xs| <= |s|
  {
    if xs != [] {
      var n := |xs| - 1;
      DistinctFit(xs[..n], s - {xs[n]});
    }
  }

  lemma {:induction false} AtMostLength(xs: seq<string>)
    ensures |set x | x in xs| <= |xs|
  {
    if xs != [] {
      var n := |xs| - 1;
      AtMostLength(xs[..n]);
      assert (set x | x in xs) == (set x | x in xs[..n]) + {xs[n]};
    }
  }

  /** While an idle agent waits, his department dispatches fewer callers than it has
      agents: each colleague gets at most one call before him. */
  lemma WaitIsBounded(s: State, events: seq<Event>, d: DeptId, c: string)
    requires ValidRun(s, events) && FreshStamps(s, events) && Disciplined(s, events, d) && Overlooked(s, events, d, c)
    ensures Distinct(Dispatched(s, events, d)) && |Dispatched(s, events, d)| < |Members(d)|
  {
    assert events[..|events|] == events;
    DispatchedDistinct(s, events, |events|, d, c);
    var all := set x | x in Members(d);
    DistinctFit(Dispatched(s, events, d), all - {c});
    AtMostLength(Members(d));
  }

  lemma {:induction false} UntouchedTrace(t: seq<Agents>, events: seq<Event>, i: nat, j: nat)
    requires |t| == |events| + 1 && i <= j <= |events|
    requires forall m :: 0 <= m < |events| ==> t[m + 1] == Touched(t[m], events[m])
    requires forall m :: i <= m < j ==> !events[m].SetAgentState?
    ensures t[i] == t[j]
  {
    if i < j {
      UntouchedTrace(t, events, i, j - 1);
      assert t[j - 1 + 1] == Touched(t[j - 1], events[j - 1]);
    }
  }

  /** The rotation lives by the updates alone: with none between two dispatches of a
      department, both go to agents with the very same time of last change, and the agent
      dispatched first is a permitted choice again. */
  lemma NoRotationWithoutStamps(s: State, events: seq<Event>, i: nat, j: nat, d: DeptId, x: string, y: string)
    requires ValidRun(s, events) && i < j < |events|
    requires HandsOut(StateAt(s, events[..i]), events[i], d, x) && HandsOut(StateAt(s, events[..j]), events[j], d, y)
    requires forall m :: i <= m < j ==> !events[m].SetAgentState?
    ensures var agents := StateAt(s, events[..j]).agents;
            && x in agents && y in agents && agents[x].lastActive == agents[y].lastActive
            && IsLongestIdle(agents, d, x)
  {
    TraceStep(s, events);
    UntouchedTrace(Trace(s, events), events, i, j);
    HandsOutLongestIdle(StateAt(s, events[..i]), events[i], d, x);
    HandsOutLongestIdle(StateAt(s, events[..j]), events[j], d, y);
  }
}
