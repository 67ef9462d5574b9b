/** External isolation of the routing script, with its exact condition on the hot
    configuration (lua/route.lua:308-734). */
module Isolation {
  import opened Options
  import opened CText
  import opened Departments
  import opened Routing
  import opened RoutingSafety

  /** A state that the script can get into while its configuration stays c. */
  ghost predicate Reachable(c: Config, s: State) {
    exists now, events :: ReachedBy(c, now, events, s)
  }

  ghost predicate ReachedBy(c: Config, now: int, events: seq<Event>, s: State) {
    && ValidRun(Loaded(c, now), events) && StateAt(Loaded(c, now), events) == s
    && forall i :: 0 <= i < |events| ==> !events[i].Configure?
  }

  /** Some outside caller is put through, in some reachable state, to a number that is
      not open to him. */
  ghost predicate Leaks(c: Config) {
    exists s, env, caller, digits :: LeaksAt(c, s, env, caller, digits)
  }

  ghost predicate LeaksAt(c: Config, s: State, env: Env, caller: string, digits: string) {
    && Reachable(c, s) && ValidPicks(s.agents, env.pick) && IsExternal(env, caller)
    && !OpenNumber(Target(Route(s, env, caller, digits).reply))
  }

  lemma {:induction false} RunKeepsConfig(s: State, events: seq<Event>)
    requires forall i :: 0 <= i < |events| ==> !events[i].Configure?
    ensures StateAt(s, events).config == s.config
  {
    if events != [] {
      RunKeepsConfig(s, events[..|events| - 1]);
      StepFrame(StateAt(s, events[..|events| - 1]), events[|events| - 1]);
    }
  }

  lemma ReachedAtLoad(c: Config, now: int)
    ensures Reachable(c, Loaded(c, now))
  {
    assert ReachedBy(c, now, [], Loaded(c, now));
  }

  lemma ReachedNext(c: Config, s: State, e: Event)
    requires Reachable(c, s) && Allowed(s, e) && !e.Configure?
    ensures Reachable(c, Step(s, e).state)
  {
    var now, events :| ReachedBy(c, now, events, s);
    StateAtNext(Loaded(c, now), events, e);
    assert ReachedBy(c, now, events + [e], Step(s, e).state);
  }

  lemma SetOne(c: Config, s: State, e: string, a: Activity) returns (t: State)
    requires Reachable(c, s)
    ensures Reachable(c, t) && t.config == s.config && t.agents.Keys == s.agents.Keys
    ensures forall x :: x in s.agents ==> t.agents[x].activity == if x == e then a else s.agents[x].activity
  {
    var event := SetAgentState(e, a, 0);
    ReachedNext(c, s, event);
    StepFrame(s, event);
    t := Step(s, event).state;
  }

  /** The agents listed go to the given state, one set_agent_state call each. */
  lemma {:induction false} SetAll(c: Config, s: State, es: seq<string>, a: Activity) returns (t: State)
    requires Reachable(c, s)
    ensures Reachable(c, t) && t.config == s.config && t.agents.Keys == s.agents.Keys
    ensures forall e :: e in s.agents ==> t.agents[e].activity == if e in es then a else s.agents[e].activity
  {
    if es == [] {
      return s;
    }
    var n := |es| - 1;
    var u := SetAll(c, s, es[..n], a);
    t := SetOne(c, u, es[n], a);
    assert es == es[..n] + [es[n]];
  }

  function CallAt(s: State, workTime: bool): Env { Env(0, workTime, FirstChoice(s.agents), (_: string) => None) }

  lemma MemberLoaded(c: Config, d: DeptId, e: string)
    requires e in Members(d)
    ensures e in Loaded(c, 0).agents && Loaded(c, 0).agents[e].activity == Idle
  {
    LoadedAgents(c, 0);
  }

  lemma FallbackLeak(c: Config)
    requires !OpenNumber(c.fallback)
    ensures Leaks(c)
  {
    ReachedAtLoad(c, 0);
    var s := SetAll(c, Loaded(c, 0), Members(Sales), Offline);
    var env := CallAt(s, true);
    FirstChoiceValid(s.agents);
    forall e
      ensures !(e in Members(Sales) && IsOnline(s.agents, e))
    {
      if e in Members(Sales) { MemberLoaded(c, Sales, e); }
    }
    KeyCase(s, env, "", "1", Sales);
    WorkCase(s, env, "", "1");
    assert LeaksAt(c, s, env, "", "1");
  }

  lemma FirstMember(d: DeptId)
    requires Department(d).Some?
    ensures Members(d) != [] && Members(d)[0] in Members(d)
  {
  }

  lemma LoadedAllIdle(c: Config, d: DeptId)
    requires Department(d).Some?
    ensures HasIdle(Loaded(c, 0).agents, d) && HasDuty(Loaded(c, 0).agents, d)
  {
    FirstMember(d);
    var e := Members(d)[0];
    MemberLoaded(c, d, e);
    assert IsIdle(Loaded(c, 0).agents, e) && OnDuty(Loaded(c, 0).agents, e);
  }

  /** Whoever is picked from a closed department has no open number. */
  lemma ClosedPick(agents: Agents, d: DeptId, pick: Option<string>)
    requires HasIdle(agents, d) && IsPick(agents, d, pick) && !OpenDept(d)
    ensures pick.Some? && !OpenNumber(pick.value)
  {
    ClosedMember(d, pick.value);
  }

  lemma NightLeak(c: Config)
    requires !OpenDept(c.nightDuty)
    ensures Leaks(c)
  {
    ReachedAtLoad(c, 0);
    var s := Loaded(c, 0);
    var env := CallAt(s, false);
    FirstChoiceValid(s.agents);
    LoadedAllIdle(c, c.nightDuty);
    ClosedPick(s.agents, c.nightDuty, env.pick(c.nightDuty));
    NightCase(s, env, "", "");
    assert LeaksAt(c, s, env, "", "");
  }

  /** A state in which just the departments closed to outside callers have agents idle. */
  lemma OnlyInternalIdle(c: Config) returns (s: State)
    ensures Reachable(c, s) && s.config == c
    ensures forall d :: Department(d).Some? ==>
              HasOnline(s.agents, d) && (HasIdle(s.agents, d) <==> !Department(d).value.external)
  {
    ReachedAtLoad(c, 0);
    var open := Members(Sales) + (Members(Service) + (Members(Market) + Members(Support)));
    s := SetAll(c, Loaded(c, 0), open, Talking);
    forall d | Department(d).Some?
      ensures HasOnline(s.agents, d) && (HasIdle(s.agents, d) <==> !Department(d).value.external)
    {
      forall e | e in Members(d)
        ensures e in s.agents && s.agents[e].activity == if Department(d).value.external then Talking else Idle
      {
        MemberLoaded(c, d, e);
        OpenMember(d, e);
      }
      FirstMember(d);
      var e := Members(d)[0];
      assert IsOnline(s.agents, e);
      assert !Department(d).value.external ==> IsIdle(s.agents, e);
    }
  }

  lemma OpenMember(d: DeptId, e: string)
    requires e in Members(d)
    ensures e in Members(Sales) + (Members(Service) + (Members(Market) + Members(Support)))
       <==> Department(d).value.external
  {
    if e in Members(Sales) { MemberOfOne(d, Sales, e); }
    if e in Members(Service) { MemberOfOne(d, Service, e); }
    if e in Members(Market) { MemberOfOne(d, Market, e); }
    if e in Members(Support) { MemberOfOne(d, Support, e); }
  }

  /** The answer to the sales key when nobody of sales or support is idle but a listed
      department is. */
  lemma SalesOverflow(s: State, env: Env, o: DeptId)
    requires env.workTime && ValidPicks(s.agents, env.pick)
    requires HasOnline(s.agents, Sales) && !HasIdle(s.agents, Sales) && !HasIdle(s.agents, Support)
    requires FirstIdleDept(s.agents, s.config.overflow, Sales) == Some(o) && env.pick(o).Some?
    ensures Target(Route(s, env, "", "1").reply) == env.pick(o).value
  {
    KeyCase(s, env, "", "1", Sales);
    WorkCase(s, env, "", "1");
  }

  lemma OverflowLeak(c: Config, d: DeptId)
    requires d in c.overflow && !OpenDept(d)
    ensures Leaks(c)
  {
    var s := OnlyInternalIdle(c);
    var env := CallAt(s, true);
    FirstChoiceValid(s.agents);
    FirstIdleDeptSpec(s.agents, c.overflow, Sales);
    var o := FirstIdleDept(s.agents, c.overflow, Sales).value;
    ClosedPick(s.agents, o, env.pick(o));
    SalesOverflow(s, env, o);
    assert LeaksAt(c, s, env, "", "1");
  }

  /** Outside callers are kept to open numbers in every reachable state exactly when the
      fallback number, the night department and the priority list are themselves open. */
  lemma IsolationIff(c: Config)
    ensures Leaks(c) <==> !OpenConfig(c)
  {
    if Leaks(c) {
      var s, env, caller, digits :| LeaksAt(c, s, env, caller, digits);
      var now, events :| ReachedBy(c, now, events, s);
      RunKeepsConfig(Loaded(c, now), events);
      if OpenConfig(c) { OpenConfigIsolates(s, env, caller, digits); }
    }
    if !OpenConfig(c) {
      if !OpenNumber(c.fallback) {
        FallbackLeak(c);
      } else if !OpenDept(c.nightDuty) {
        NightLeak(c);
      } else {
        var d :| d in c.overflow && !OpenDept(d);
        OverflowLeak(c, d);
      }
    }
  }

  lemma FallbackPrinted()
    ensures PrintNat(9000) == "9000"
  {
    assert PrintNat(9) == "9";
    assert PrintNat(90) == "90";
    assert PrintNat(900) == "900";
  }

  lemma DefaultLists()
    ensures forall d :: d in DefaultConfig().overflow ==> OpenDept(d)
  {
    var list := DefaultConfig().overflow;
    assert list[0] == Support && list[1] == Sales && list[2] == Service && list[3] == Market;
  }

  /** The configuration that the script ships with is an open one. */
  lemma DefaultIsOpen()
    ensures OpenConfig(DefaultConfig()) && !Leaks(DefaultConfig())
  {
    FallbackPrinted();
    assert NumberOf(Support, 9000);
    DefaultLists();
    IsolationIff(DefaultConfig());
  }
}
