/** The routing script's tables and decisions (lua/route.lua:119-736), as a specification:
    each routine that may change a table yields its reply and the tables afterwards.
    The script's clock, its working-hours test, the choice that its sort makes among
    agents idle for equally long, and Lua's tonumber come with the call, in Env. */
module Routing {
  import opened Options
  import opened Departments

  datatype Activity = Idle | Talking | Offline | Busy | OtherState(name: string)

  datatype Agent = Agent(activity: Activity, calls: int, lastActive: int)

  type Agents = map<string, Agent>

  datatype Waiting = Waiting(caller: string, arrival: int)

  datatype Config = Config(fallback: string, maxInvalid: int, maxQueue: int, queueTimeout: int,
                           nightDuty: DeptId, overflow: seq<DeptId>)

  datatype State = State(agents: Agents, queues: map<DeptId, seq<Waiting>>,
                         invalid: map<string, int>, timeouts: map<string, int>, config: Config)

  datatype Env = Env(now: int, workTime: bool, pick: DeptId -> Option<string>, number: string -> Option<real>)

  /** A routing answer; the department column is the display name, None when empty.
      Raised is a Lua error, NoReply is for steps that answer nobody. */
  datatype Reply = Reply(code: int, target: string, department: Option<DeptId>) | Raised | NoReply

  datatype Outcome = Outcome(reply: Reply, state: State)

  function DefaultConfig(): Config {
    Config("9000", 3, 10, 60, Support, [Support, Sales, Service, Market])
  }

  // ------------------------------------------------------------------------- agents

  predicate IsIdle(agents: Agents, e: string) { e in agents && agents[e].activity == Idle }

  predicate IsOnline(agents: Agents, e: string) {
    e in agents && (agents[e].activity == Idle || agents[e].activity == Talking || agents[e].activity == Busy)
  }

  predicate OnDuty(agents: Agents, e: string) {
    e in agents && (agents[e].activity == Idle || agents[e].activity == Talking)
  }

  ghost predicate HasIdle(agents: Agents, d: DeptId) { exists e :: e in Members(d) && IsIdle(agents, e) }

  ghost predicate HasOnline(agents: Agents, d: DeptId) { exists e :: e in Members(d) && IsOnline(agents, e) }

  ghost predicate HasDuty(agents: Agents, d: DeptId) { exists e :: e in Members(d) && OnDuty(agents, e) }

  /** An idle member that no idle member has been idle for longer than. */
  ghost predicate IsLongestIdle(agents: Agents, d: DeptId, e: string) {
    && e in Members(d) && IsIdle(agents, e)
    && forall c :: c in Members(d) && IsIdle(agents, c) ==> agents[e].lastActive <= agents[c].lastActive
  }

  ghost predicate IsPick(agents: Agents, d: DeptId, r: Option<string>) {
    match r
    case None => !HasIdle(agents, d)
    case Some(e) => IsLongestIdle(agents, d, e)
  }

  ghost predicate ValidPicks(agents: Agents, pick: DeptId -> Option<string>) {
    forall d :: IsPick(agents, d, pick(d))
  }

  /** set_agent_state; an unknown extension is ignored. */
  function WithState(agents: Agents, e: string, activity: Activity, now: int): Agents {
    if e !in agents then agents
    else
      var a := agents[e];
      var calls := if activity == Talking then a.calls + 1
                   else if activity == Idle then (if a.calls - 1 > 0 then a.calls - 1 else 0) else a.calls;
      agents[e := Agent(activity, calls, now)]
  }

  // ------------------------------------------------------------------------- queues

  function QueueOf(queues: map<DeptId, seq<Waiting>>, d: DeptId): seq<Waiting> {
    if d in queues then queues[d] else []
  }

  predicate Expired(w: Waiting, now: int, timeout: int) { now - w.arrival > timeout }

  function Unexpired(q: seq<Waiting>, now: int, timeout: int): seq<Waiting> {
    if q == [] then []
    else
      var n := |q| - 1;
      Unexpired(q[..n], now, timeout) + if Expired(q[n], now, timeout) then [] else [q[n]]
  }

  function Cleaned(queues: map<DeptId, seq<Waiting>>, now: int, timeout: int): map<DeptId, seq<Waiting>> {
    map d | d in queues :: Unexpired(queues[d], now, timeout)
  }

  function WithClean(s: State, now: int): State {
    s.(queues := Cleaned(s.queues, now, s.config.queueTimeout))
  }

  predicate HasRoom(s: State, d: DeptId) { |QueueOf(s.queues, d)| < s.config.maxQueue }

  /** queue_push; a full queue is left as it is. */
  function WithPush(s: State, d: DeptId, caller: string, now: int): State {
    var q := QueueOf(s.queues, d);
    s.(queues := s.queues[d := if HasRoom(s, d) then q + [Waiting(caller, now)] else q])
  }

  /** queue_pop. */
  function WithPop(s: State, d: DeptId): State {
    if QueueOf(s.queues, d) == [] then s else s.(queues := s.queues[d := s.queues[d][1..]])
  }

  // ---------------------------------------------------------------- the interfaces

  function ValueOr(r: Option<string>, default: string): string {
    match r case Some(e) => e case None => default
  }

  function CountOf(counts: map<string, int>, caller: string): int {
    if caller in counts then counts[caller] else 0
  }

  /** No routing call touches an agent's state or the configuration. */
  predicate SameAgents(s: State, t: State) { t.agents == s.agents && t.config == s.config }

  /** invalid_key_fallback. */
  function InvalidKey(s: State, env: Env, caller: string): (r: Outcome)
    ensures SameAgents(s, r.state)
  {
    var n := CountOf(s.invalid, caller) + 1;
    if n >= s.config.maxInvalid then
      Outcome(Reply(4, ValueOr(env.pick(Support), s.config.fallback), Some(Support)),
              s.(invalid := s.invalid[caller := 0]))
    else Outcome(Reply(9, "", None), s.(invalid := s.invalid[caller := n]))
  }

  /** timeout_fallback. */
  function TimedOut(s: State, env: Env, caller: string): (r: Outcome)
    ensures SameAgents(s, r.state)
  {
    var n := CountOf(s.timeouts, caller) + 1;
    if n >= 2 then
      Outcome(Reply(4, ValueOr(env.pick(Support), s.config.fallback), Some(Support)),
              s.(timeouts := s.timeouts[caller := 0]))
    else Outcome(Reply(8, "", None), s.(timeouts := s.timeouts[caller := n]))
  }

  /** check_agent_status. */
  ghost function CheckAgents(s: State, now: int, d: DeptId): (r: Outcome)
    ensures SameAgents(s, r.state)
  {
    var t := WithClean(s, now);
    match Department(d)
    case None => Outcome(Reply(99, "", None), t)
    case Some(dept) =>
      Outcome(Reply(if !HasOnline(s.agents, d) then 3 else if !HasIdle(s.agents, d) then 2 else 0,
                    Short(dept), Some(d)), t)
  }

  /** find_overflow_dept, over the rest of the priority list. */
  ghost function FirstIdleDept(agents: Agents, list: seq<DeptId>, exclude: DeptId): (r: Option<DeptId>)
    ensures r.Some? ==> Department(r.value).Some?
  {
    if list == [] then None
    else if list[0] != exclude && HasIdle(agents, list[0]) then Some(list[0])
    else FirstIdleDept(agents, list[1..], exclude)
  }

  /** overflow_route: support, then the priority list, then the queue, then voicemail.
      For a department that does not exist the reply fails once the caller is queued. */
  ghost function Overflow(s: State, env: Env, d: DeptId, caller: string): (r: Outcome)
    ensures SameAgents(s, r.state)
  {
    if HasIdle(s.agents, Support) then
      Outcome(Reply(4, ValueOr(env.pick(Support), s.config.fallback), Some(Support)), s)
    else
      match FirstIdleDept(s.agents, s.config.overflow, d)
      case Some(o) =>
        Outcome(Reply(4, ValueOr(env.pick(o), Short(Department(o).value)), Some(o)), s)
      case None =>
        Outcome(if !HasRoom(s, d) then Reply(7, "", Some(d))
                else if Department(d).Some? then Reply(5, Short(Department(d).value), Some(d)) else Raised,
                WithPush(s, d, caller, env.now))
  }

  /** get_ivr_route. */
  ghost function Ivr(s: State, env: Env, phone: string, key: string): (r: Outcome)
    ensures SameAgents(s, r.state)
  {
    if key == "" then TimedOut(s, env, phone)
    else
      match IvrDept(key)
      case None => InvalidKey(s, env, phone)
      case Some(d) =>
        var c := CheckAgents(s, env.now, d);
        if c.reply.code == 2 then Overflow(c.state, env, d, phone)
        else if c.reply.code == 3 then Outcome(Reply(3, s.config.fallback, Some(Support)), c.state)
        else Outcome(Reply(0, ValueOr(env.pick(d), Short(Department(d).value)), Some(d)), c.state)
  }

  /** time_judge_route. */
  ghost function TimeJudge(s: State, env: Env): Reply {
    var night := s.config.nightDuty;
    if env.workTime then Reply(0, "", None)
    else if !HasDuty(s.agents, night) then Reply(7, "", None)
    else Reply(6, ValueOr(env.pick(night), s.config.fallback), Some(night))
  }

  function DeptOf(env: Env, number: string): (r: Option<DeptId>)
    ensures r.Some? ==> Department(r.value).Some?
  {
    match env.number(number) case None => None case Some(n) => DeptOfNumber(n)
  }

  predicate FourDigits(env: Env, number: string) {
    var n := env.number(number);
    n.Some? && 1000.0 <= n.value <= 9999.0
  }

  predicate IsExternal(env: Env, caller: string) {
    || caller == "" || (|caller| >= 3 && caller[..3] == "400")
    || !FourDigits(env, caller) || DeptOf(env, caller).None?
  }

  predicate Has(agents: Agents, e: string, a: Activity) { e in agents && agents[e].activity == a }

  /** dept_internal_call_route. */
  function Internal(s: State, env: Env, caller: string, callee: string): Reply {
    var d := DeptOf(env, callee);
    if DeptOf(env, caller).None? || !FourDigits(env, callee) || d.None? then
      Reply(1, s.config.fallback, Some(Support))
    else if Has(s.agents, callee, Offline) then
      Reply(3, Short(Department(d.value).value), d)
    else if Has(s.agents, callee, Talking) then Reply(2, callee, d)
    else Reply(0, callee, d)
  }

  /** route_call. */
  ghost function Route(s: State, env: Env, caller: string, digits: string): (r: Outcome)
    ensures SameAgents(s, r.state)
  {
    if IsExternal(env, caller) then
      var t := TimeJudge(s, env);
      if t.code == 7 then Outcome(Reply(7, "", None), s)
      else if t.code == 6 then Outcome(t, s)
      else Ivr(s, env, caller, digits)
    else Outcome(Internal(s, env, caller, digits), s)
  }

  // --------------------------------------------------------------------------- runs

  /** The entry points that the C side may call by name, and the table changes that
      nothing in the script calls. */
  datatype Event =
    | RouteCall(env: Env, caller: string, digits: string)
    | IvrRoute(env: Env, caller: string, digits: string)
    | CheckStatus(env: Env, dept: DeptId)
    | OverflowRoute(env: Env, dept: DeptId, caller: string)
    | InvalidKeyFallback(env: Env, caller: string)
    | TimeoutFallback(env: Env, caller: string)
    | SetAgentState(ext: string, activity: Activity, now: int)
    | PopQueue(dept: DeptId)
    | ResetCounts(caller: string)
    | Configure(config: Config)

  predicate HasEnv(e: Event) {
    e.RouteCall? || e.IvrRoute? || e.CheckStatus? || e.OverflowRoute? || e.InvalidKeyFallback? || e.TimeoutFallback?
  }

  ghost predicate Allowed(s: State, e: Event) { HasEnv(e) ==> ValidPicks(s.agents, e.env.pick) }

  ghost function Step(s: State, e: Event): Outcome {
    match e
    case RouteCall(env, caller, digits) => Route(s, env, caller, digits)
    case IvrRoute(env, caller, digits) => Ivr(s, env, caller, digits)
    case CheckStatus(env, d) => CheckAgents(s, env.now, d)
    case OverflowRoute(env, d, caller) => Overflow(s, env, d, caller)
    case InvalidKeyFallback(env, caller) => InvalidKey(s, env, caller)
    case TimeoutFallback(env, caller) => TimedOut(s, env, caller)
    case SetAgentState(ext, activity, now) => Outcome(NoReply, s.(agents := WithState(s.agents, ext, activity, now)))
    case PopQueue(d) => Outcome(NoReply, WithPop(s, d))
    case ResetCounts(caller) =>
      Outcome(NoReply, s.(invalid := s.invalid[caller := 0], timeouts := s.timeouts[caller := 0]))
    case Configure(config) => Outcome(NoReply, s.(config := config))
  }

  /** init_agent_status: idle agents for the listed extensions, for all departments. */
  function WithExtensions(agents: Agents, es: seq<string>, now: int): Agents {
    if es == [] then agents
    else WithExtensions(agents, es[..|es| - 1], now)[es[|es| - 1] := Agent(Idle, 0, now)]
  }

  function WithDepartments(ds: seq<DeptId>, now: int): Agents {
    if ds == [] then map[]
    else WithExtensions(WithDepartments(ds[..|ds| - 1], now), Members(ds[|ds| - 1]), now)
  }

  /** The tables as the script leaves them when it is loaded. */
  function Loaded(config: Config, now: int): State {
    State(WithDepartments(AllDepartments(), now), map[], map[], map[], config)
  }

  ghost function StateAt(s: State, events: seq<Event>): State {
    if events == [] then s
    else Step(StateAt(s, events[..|events| - 1]), events[|events| - 1]).state
  }

  ghost predicate ValidRun(s: State, events: seq<Event>) {
    forall i :: 0 <= i < |events| ==> Allowed(StateAt(s, events[..i]), events[i])
  }

  // -------------------------------------------------------------------------- facts

  lemma {:induction false} FirstIdleDeptSpec(agents: Agents, list: seq<DeptId>, exclude: DeptId)
    ensures match FirstIdleDept(agents, list, exclude)
            case Some(d) => d in list && d != exclude && HasIdle(agents, d) && ComesFirst(agents, list, exclude, d)
            case None => forall d :: d in list && d != exclude ==> !HasIdle(agents, d)
  {
    if list != [] {
      FirstIdleDeptSpec(agents, list[1..], exclude);
      assert list == [list[0]] + list[1..];
      var r := FirstIdleDept(agents, list, exclude);
      if r.Some? {
        if list[0] != exclude && HasIdle(agents, list[0]) {
          assert FirstAt(agents, list, exclude, r.value, 0);
        } else {
          var i: nat :| FirstAt(agents, list[1..], exclude, r.value, i);
          assert FirstAt(agents, list, exclude, r.value, i + 1);
        }
      }
    }
  }

  ghost predicate FirstAt(agents: Agents, list: seq<DeptId>, exclude: DeptId, d: DeptId, i: nat) {
    i < |list| && list[i] == d && forall j :: 0 <= j < i ==> list[j] == exclude || !HasIdle(agents, list[j])
  }

  /** No department listed before d could take the call. */
  ghost predicate ComesFirst(agents: Agents, list: seq<DeptId>, exclude: DeptId, d: DeptId) {
    exists i: nat :: FirstAt(agents, list, exclude, d, i)
  }

  /** What the script ships with. */
  lemma DefaultNumbers()
    ensures var c := DefaultConfig();
            c.fallback == "9000" && c.maxInvalid == 3 && c.maxQueue == 10 && c.queueTimeout == 60
            && c.nightDuty == Support && c.overflow == [Support, Sales, Service, Market]
  {
  }

  /** A change of state dates the agent, counts a call taken, and takes one off, down to
      zero, when he becomes idle; it is his alone. */
  lemma StateChange(agents: Agents, e: string, activity: Activity, now: int, x: string)
    requires x in agents
    ensures var after := WithState(agents, e, activity, now);
            && x in after
            && (x != e ==> after[x] == agents[x])
            && (x == e ==> after[x].activity == activity && after[x].lastActive == now)
            && (x == e && activity.Talking? ==> after[x].calls == agents[x].calls + 1)
            && (x == e && activity.Idle? && agents[x].calls >= 1 ==> after[x].calls == agents[x].calls - 1)
            && (x == e && activity.Idle? && agents[x].calls <= 0 ==> after[x].calls == 0)
            && (x == e && !activity.Idle? && !activity.Talking? ==> after[x].calls == agents[x].calls)
  {
  }

  lemma {:induction false} WithExtensionsAre(agents: Agents, es: seq<string>, now: int, e: string)
    ensures e in WithExtensions(agents, es, now) <==> e in es || e in agents
    ensures e in es ==> WithExtensions(agents, es, now)[e] == Agent(Idle, 0, now)
    ensures e !in es && e in agents ==> WithExtensions(agents, es, now)[e] == agents[e]
  {
    if es != [] {
      WithExtensionsAre(agents, es[..|es| - 1], now, e);
      assert es == es[..|es| - 1] + [es[|es| - 1]];
    }
  }

  lemma {:induction false} WithDepartmentsAre(ds: seq<DeptId>, now: int, e: string)
    ensures e in WithDepartments(ds, now) <==> exists d :: d in ds && e in Members(d)
    ensures e in WithDepartments(ds, now) ==> WithDepartments(ds, now)[e] == Agent(Idle, 0, now)
  {
    if ds != [] {
      var n := |ds| - 1;
      WithDepartmentsAre(ds[..n], now, e);
      WithExtensionsAre(WithDepartments(ds[..n], now), Members(ds[n]), now, e);
      SomeDept(ds, e);
    }
  }

  lemma SomeDept(ds: seq<DeptId>, e: string)
    requires ds != []
    ensures var n := |ds| - 1;
            (exists d :: d in ds && e in Members(d))
            <==> (exists d :: d in ds[..n] && e in Members(d)) || e in Members(ds[n])
  {
    var n := |ds| - 1;
    assert forall d :: d in ds <==> d in ds[..n] || d == ds[n] by { assert ds == ds[..n] + [ds[n]]; }
  }

  /** On loading, every extension of every department is an idle agent, and no one else is. */
  lemma LoadedAgents(config: Config, now: int)
    ensures forall e :: e in Loaded(config, now).agents <==> exists d :: e in Members(d)
    ensures forall e :: e in Loaded(config, now).agents ==> Loaded(config, now).agents[e] == Agent(Idle, 0, now)
  {
    forall e
      ensures e in Loaded(config, now).agents <==> exists d :: e in Members(d)
      ensures e in Loaded(config, now).agents ==> Loaded(config, now).agents[e] == Agent(Idle, 0, now)
    {
      WithDepartmentsAre(AllDepartments(), now, e);
      if d :| e in Members(d) { ListedIsDepartment(d); }
    }
  }

  /** Only set_agent_state touches an agent, and only a configuration update the rest. */
  lemma StepFrame(s: State, e: Event)
    ensures Step(s, e).state.config == if e.Configure? then e.config else s.config
    ensures Step(s, e).state.agents
         == if e.SetAgentState? then WithState(s.agents, e.ext, e.activity, e.now) else s.agents
  {
  }

  lemma {:induction false} StateAtNext(s: State, events: seq<Event>, e: Event)
    ensures StateAt(s, events + [e]) == Step(StateAt(s, events), e).state
    ensures ValidRun(s, events) && Allowed(StateAt(s, events), e) ==> ValidRun(s, events + [e])
  {
    var all := events + [e];
    assert all[..|events|] == events;
    if ValidRun(s, events) && Allowed(StateAt(s, events), e) {
      forall i | 0 <= i < |all|
        ensures Allowed(StateAt(s, all[..i]), all[i])
      {
        if i < |events| { assert all[..i] == events[..i]; }
      }
    }
  }

  ghost predicate CallsNatural(agents: Agents) { forall e :: e in agents ==> agents[e].calls >= 0 }

  lemma WithStateNatural(agents: Agents, e: string, activity: Activity, now: int)
    requires CallsNatural(agents)
    ensures CallsNatural(WithState(agents, e, activity, now))
  {
  }

  /** No agent's call count ever goes below zero. */
  lemma {:induction false} CallsNeverNegative(s: State, events: seq<Event>)
    requires CallsNatural(s.agents)
    ensures CallsNatural(StateAt(s, events).agents)
  {
    if events != [] {
      var n := |events| - 1;
      var t, e := StateAt(s, events[..n]), events[n];
      CallsNeverNegative(s, events[..n]);
      StepFrame(t, e);
      if e.SetAgentState? { WithStateNatural(t.agents, e.ext, e.activity, e.now); }
    }
  }

  /** The first of the longest idle, in walking order. */
  function LongestIdle(agents: Agents, es: seq<string>): Option<string> {
    if es == [] then None
    else
      var best, e := LongestIdle(agents, es[..|es| - 1]), es[|es| - 1];
      if IsIdle(agents, e)
         && (best.None? || best.value !in agents || agents[e].lastActive < agents[best.value].lastActive)
      then Some(e) else best
  }

  function FirstChoice(agents: Agents): DeptId -> Option<string> { (d: DeptId) => LongestIdle(agents, Members(d)) }

  lemma {:induction false} LongestIdleSpec(agents: Agents, es: seq<string>)
    ensures match LongestIdle(agents, es)
            case None => forall c :: c in es ==> !IsIdle(agents, c)
            case Some(e) => e in es && IsIdle(agents, e)
                            && forall c :: c in es && IsIdle(agents, c) ==> agents[e].lastActive <= agents[c].lastActive
  {
    if es != [] {
      LongestIdleSpec(agents, es[..|es| - 1]);
      assert es == es[..|es| - 1] + [es[|es| - 1]];
    }
  }

  /** A choice of the kind that Env asks for exists in every state. */
  lemma FirstChoiceValid(agents: Agents)
    ensures ValidPicks(agents, FirstChoice(agents))
  {
    forall d
      ensures IsPick(agents, d, FirstChoice(agents)(d))
    {
      LongestIdleSpec(agents, Members(d));
    }
  }
}
