/** What one routing call guarantees in every state (lua/route.lua:344-734): the codes it
    may give, who it may put an outside caller through to, and when it makes callers wait. */
module RoutingSafety {
  import opened Options
  import opened CText
  import opened Departments
  import opened Routing

  // --------------------------------------------------------------------- case by case

  lemma InternalCase(s: State, env: Env, caller: string, digits: string)
    requires !IsExternal(env, caller)
    ensures Route(s, env, caller, digits) == Outcome(Internal(s, env, caller, digits), s)
  {
  }

  lemma WorkCase(s: State, env: Env, caller: string, digits: string)
    requires IsExternal(env, caller) && env.workTime
    ensures Route(s, env, caller, digits) == Ivr(s, env, caller, digits)
  {
  }

  lemma NightCase(s: State, env: Env, caller: string, digits: string)
    requires IsExternal(env, caller) && !env.workTime
    ensures Route(s, env, caller, digits) == Outcome(TimeJudge(s, env), s)
  {
  }

  /** Support or a department of the priority list, other than d, has someone idle. */
  ghost predicate OverflowTaker(s: State, d: DeptId) {
    HasIdle(s.agents, Support) || exists o :: o in s.config.overflow && o != d && HasIdle(s.agents, o)
  }

  lemma OverflowCode(s: State, env: Env, d: DeptId, caller: string)
    requires Department(d).Some?
    ensures Overflow(s, env, d, caller).reply.Reply?
    ensures Overflow(s, env, d, caller).reply.code
         == if OverflowTaker(s, d) then 4 else if HasRoom(s, d) then 5 else 7
    ensures OverflowTaker(s, d) ==> Overflow(s, env, d, caller).state == s
  {
    FirstIdleDeptSpec(s.agents, s.config.overflow, d);
  }

  /** The answer to a key that leads to department d. */
  ghost function KeyCode(s: State, now: int, d: DeptId): int {
    if HasIdle(s.agents, d) then 0
    else if !HasOnline(s.agents, d) then 3
    else if OverflowTaker(s, d) then 4
    else if HasRoom(WithClean(s, now), d) then 5 else 7
  }

  lemma IdleIsOnline(agents: Agents, d: DeptId)
    ensures HasIdle(agents, d) ==> HasOnline(agents, d)
  {
    if HasIdle(agents, d) {
      var e :| e in Members(d) && IsIdle(agents, e);
      assert IsOnline(agents, e);
    }
  }

  lemma KeyCase(s: State, env: Env, caller: string, key: string, d: DeptId)
    requires IvrDept(key) == Some(d)
    ensures var o, t := Ivr(s, env, caller, key), WithClean(s, env.now);
            && (HasIdle(s.agents, d) ==>
                  o == Outcome(Reply(0, ValueOr(env.pick(d), Short(Department(d).value)), Some(d)), t))
            && (!HasOnline(s.agents, d) ==> o == Outcome(Reply(3, s.config.fallback, Some(Support)), t))
            && (HasOnline(s.agents, d) && !HasIdle(s.agents, d) ==> o == Overflow(t, env, d, caller))
  {
    IdleIsOnline(s.agents, d);
  }

  lemma KeyAnswered(s: State, env: Env, caller: string, key: string, d: DeptId)
    requires IvrDept(key) == Some(d)
    ensures var r := Ivr(s, env, caller, key).reply; r.Reply? && r.code == KeyCode(s, env.now, d)
  {
    KeyCase(s, env, caller, key, d);
    IdleIsOnline(s.agents, d);
    OverflowCode(WithClean(s, env.now), env, d, caller);
  }

  lemma NoKeyCase(s: State, env: Env, caller: string, key: string)
    requires IvrDept(key).None?
    ensures Ivr(s, env, caller, key) == if key == "" then TimedOut(s, env, caller) else InvalidKey(s, env, caller)
  {
  }

  // ------------------------------------------------------------------------- answers

  /** The answer to an outside caller who presses a department's key in working hours. */
  lemma DialledAnswer(s: State, env: Env, caller: string, digits: string, d: DeptId)
    requires IsExternal(env, caller) && env.workTime && IvrDept(digits) == Some(d)
    ensures var r := Route(s, env, caller, digits).reply; r.Reply? && r.code == KeyCode(s, env.now, d)
  {
    WorkCase(s, env, caller, digits);
    KeyAnswered(s, env, caller, digits, d);
  }

  /** route_call never raises and never answers 99 or a code without a meaning. */
  lemma RouteAnswers(s: State, env: Env, caller: string, digits: string)
    ensures var r := Route(s, env, caller, digits).reply; r.Reply? && 0 <= r.code <= 9
  {
    if !IsExternal(env, caller) {
      InternalCase(s, env, caller, digits);
    } else if !env.workTime {
      NightCase(s, env, caller, digits);
    } else if IvrDept(digits).Some? {
      DialledAnswer(s, env, caller, digits, IvrDept(digits).value);
    } else {
      WorkCase(s, env, caller, digits);
      NoKeyCase(s, env, caller, digits);
    }
  }

  lemma PushQueues(s: State, d: DeptId, caller: string, now: int, x: DeptId)
    ensures QueueOf(WithPush(s, d, caller, now).queues, x)
         == if x == d && HasRoom(s, d) then QueueOf(s.queues, x) + [Waiting(caller, now)] else QueueOf(s.queues, x)
  {
  }

  /** The caller was appended to the queue: code 5, or the error after it. */
  predicate Joined(r: Reply) { r.Raised? || (r.Reply? && r.code == 5) }

  lemma OverflowJoins(s: State, env: Env, d: DeptId, caller: string)
    ensures Joined(Overflow(s, env, d, caller).reply) <==> !OverflowTaker(s, d) && HasRoom(s, d)
    ensures OverflowTaker(s, d) ==> Overflow(s, env, d, caller).state == s
  {
    FirstIdleDeptSpec(s.agents, s.config.overflow, d);
  }

  lemma OverflowQueues(s: State, env: Env, d: DeptId, caller: string, x: DeptId)
    ensures var o := Overflow(s, env, d, caller);
            QueueOf(o.state.queues, x)
              == if x == d && Joined(o.reply) then QueueOf(s.queues, x) + [Waiting(caller, env.now)]
                 else QueueOf(s.queues, x)
    ensures Joined(Overflow(s, env, d, caller).reply) ==> HasRoom(s, d)
  {
    OverflowJoins(s, env, d, caller);
    if !OverflowTaker(s, d) {
      NotTaken(s, env, d, caller);
      PushQueues(s, d, caller, env.now, x);
    }
  }

  lemma NotTaken(s: State, env: Env, d: DeptId, caller: string)
    requires !OverflowTaker(s, d)
    ensures Overflow(s, env, d, caller).state == WithPush(s, d, caller, env.now)
  {
    FirstIdleDeptSpec(s.agents, s.config.overflow, d);
  }

  lemma KeyQueues(s: State, env: Env, caller: string, key: string, d: DeptId, x: DeptId)
    requires IvrDept(key) == Some(d)
    ensures var o, kept := Ivr(s, env, caller, key), QueueOf(WithClean(s, env.now).queues, x);
            QueueOf(o.state.queues, x)
              == if x == d && Joined(o.reply) then kept + [Waiting(caller, env.now)] else kept
    ensures Joined(Ivr(s, env, caller, key).reply) ==> HasRoom(WithClean(s, env.now), d)
  {
    KeyCase(s, env, caller, key, d);
    IdleIsOnline(s.agents, d);
    OverflowQueues(WithClean(s, env.now), env, d, caller, x);
  }

  /** Code 5 means that the caller was appended to the queue of the dialled department;
      otherwise the key only drops callers who waited too long. */
  lemma QueuedMeansWaiting(s: State, env: Env, caller: string, digits: string, d: DeptId, x: DeptId)
    requires IsExternal(env, caller) && env.workTime && IvrDept(digits) == Some(d)
    ensures var o, kept := Route(s, env, caller, digits), QueueOf(WithClean(s, env.now).queues, x);
            QueueOf(o.state.queues, x)
              == if x == d && o.reply.Reply? && o.reply.code == 5 then kept + [Waiting(caller, env.now)] else kept
  {
    WorkCase(s, env, caller, digits);
    KeyQueues(s, env, caller, digits, d, x);
    KeyAnswered(s, env, caller, digits, d);
  }

  lemma {:induction false} UnexpiredShorter(q: seq<Waiting>, now: int, timeout: int)
    ensures |Unexpired(q, now, timeout)| <= |q|
  {
    if q != [] { UnexpiredShorter(q[..|q| - 1], now, timeout); }
  }

  // ------------------------------------------------------------- who takes the call

  /** The target is an idle agent of d that no idle colleague has been idle for longer
      than, or the fixed fallback number when d has no one idle. */
  ghost predicate LongestIdleOrFallback(s: State, d: DeptId, target: string) {
    IsLongestIdle(s.agents, d, target) || (target == s.config.fallback && !HasIdle(s.agents, d))
  }

  lemma OverflowTakenBy(s: State, env: Env, d: DeptId, caller: string)
    requires ValidPicks(s.agents, env.pick)
    ensures var r := Overflow(s, env, d, caller).reply;
            r.Reply? && r.code == 4 ==> r.department.Some? && LongestIdleOrFallback(s, r.department.value, r.target)
  {
    assert IsPick(s.agents, Support, env.pick(Support));
    FirstIdleDeptSpec(s.agents, s.config.overflow, d);
    var o := FirstIdleDept(s.agents, s.config.overflow, d);
    if o.Some? { assert IsPick(s.agents, o.value, env.pick(o.value)); }
  }

  lemma KeyTakenBy(s: State, env: Env, caller: string, key: string, d: DeptId)
    requires ValidPicks(s.agents, env.pick) && IvrDept(key) == Some(d)
    ensures var r := Ivr(s, env, caller, key).reply;
            && (r.Reply? && r.code == 0 ==> r.department == Some(d) && IsLongestIdle(s.agents, d, r.target))
            && (r.Reply? && r.code == 4 ==>
                  r.department.Some? && LongestIdleOrFallback(s, r.department.value, r.target))
  {
    KeyCase(s, env, caller, key, d);
    KeyAnswered(s, env, caller, key, d);
    OverflowTakenBy(WithClean(s, env.now), env, d, caller);
    assert IsPick(s.agents, d, env.pick(d));
  }

  lemma NoKeyTakenBy(s: State, env: Env, caller: string, key: string)
    requires ValidPicks(s.agents, env.pick) && IvrDept(key).None?
    ensures var r := Ivr(s, env, caller, key).reply;
            && r.Reply? && r.code in {4, 8, 9}
            && (r.code == 4 ==> r.department == Some(Support) && LongestIdleOrFallback(s, Support, r.target))
  {
    NoKeyCase(s, env, caller, key);
    assert IsPick(s.agents, Support, env.pick(Support));
  }

  lemma NightTakenBy(s: State, env: Env)
    requires ValidPicks(s.agents, env.pick) && !env.workTime
    ensures var r := TimeJudge(s, env);
            && (r.code == 6 || r.code == 7) && (r.code == 6 <==> HasDuty(s.agents, s.config.nightDuty))
            && (r.code == 6 ==> LongestIdleOrFallback(s, s.config.nightDuty, r.target))
  {
    assert IsPick(s.agents, s.config.nightDuty, env.pick(s.config.nightDuty));
  }

  /** Who an outside caller is put through to, whatever the state. */
  lemma PutThroughToLongestIdle(s: State, env: Env, caller: string, digits: string)
    requires ValidPicks(s.agents, env.pick) && IsExternal(env, caller)
    ensures var r := Route(s, env, caller, digits).reply;
            && r.Reply?
            && (r.code == 0 ==> r.department == IvrDept(digits) && r.department.Some?
                                && IsLongestIdle(s.agents, r.department.value, r.target))
            && (r.code == 4 ==> r.department.Some? && LongestIdleOrFallback(s, r.department.value, r.target))
            && (r.code == 6 ==> LongestIdleOrFallback(s, s.config.nightDuty, r.target))
  {
    if !env.workTime {
      NightCase(s, env, caller, digits);
      NightTakenBy(s, env);
    } else {
      WorkCase(s, env, caller, digits);
      if IvrDept(digits).Some? {
        KeyAnswered(s, env, caller, digits, IvrDept(digits).value);
        KeyTakenBy(s, env, caller, digits, IvrDept(digits).value);
      } else {
        NoKeyTakenBy(s, env, caller, digits);
      }
    }
  }

  // -------------------------------------------------------------- from the agents' states

  ghost predicate InState(agents: Agents, d: DeptId, states: set<Activity>, e: string) {
    e in Members(d) && e in agents && agents[e].activity in states
  }

  /** Some agent of d is in one of the given states. */
  ghost predicate AnyIn(agents: Agents, d: DeptId, states: set<Activity>) {
    exists e :: InState(agents, d, states, e)
  }

  lemma IdleStates(agents: Agents, d: DeptId)
    ensures HasIdle(agents, d) <==> AnyIn(agents, d, {Idle})
  {
    forall e
      ensures e in Members(d) && IsIdle(agents, e) <==> InState(agents, d, {Idle}, e)
    {
    }
  }

  lemma OnlineStates(agents: Agents, d: DeptId)
    ensures HasOnline(agents, d) <==> AnyIn(agents, d, {Idle, Talking, Busy})
  {
    forall e
      ensures e in Members(d) && IsOnline(agents, e) <==> InState(agents, d, {Idle, Talking, Busy}, e)
    {
    }
  }

  lemma DutyStates(agents: Agents, d: DeptId)
    ensures HasDuty(agents, d) <==> AnyIn(agents, d, {Idle, Talking})
  {
    forall e
      ensures e in Members(d) && OnDuty(agents, e) <==> InState(agents, d, {Idle, Talking}, e)
    {
    }
  }

  lemma StatesOf(agents: Agents, d: DeptId)
    ensures HasIdle(agents, d) <==> AnyIn(agents, d, {Idle})
    ensures HasOnline(agents, d) <==> AnyIn(agents, d, {Idle, Talking, Busy})
    ensures HasDuty(agents, d) <==> AnyIn(agents, d, {Idle, Talking})
  {
    IdleStates(agents, d);
    OnlineStates(agents, d);
    DutyStates(agents, d);
  }

  /** Somebody of support, or of a department of the list other than d, is idle. */
  ghost predicate TakerIdle(s: State, d: DeptId) {
    AnyIn(s.agents, Support, {Idle}) || exists o :: o in s.config.overflow && o != d && AnyIn(s.agents, o, {Idle})
  }

  lemma TakersAre(s: State, d: DeptId)
    ensures OverflowTaker(s, d) <==> TakerIdle(s, d)
  {
    StatesOf(s.agents, Support);
    forall o
      ensures HasIdle(s.agents, o) <==> AnyIn(s.agents, o, {Idle})
    {
      StatesOf(s.agents, o);
    }
  }

  /** The answer to a pressed key, from the agents' states and the length of the queue. */
  lemma DialledOutcome(s: State, env: Env, caller: string, digits: string, d: DeptId)
    requires IsExternal(env, caller) && env.workTime && IvrDept(digits) == Some(d)
    ensures var r := Route(s, env, caller, digits).reply;
            var idle, online := AnyIn(s.agents, d, {Idle}), AnyIn(s.agents, d, {Idle, Talking, Busy});
            var waiting := |QueueOf(WithClean(s, env.now).queues, d)|;
            && r.Reply?
            && (r.code == 0 <==> idle)
            && (r.code == 3 <==> !online)
            && (r.code == 4 <==> online && !idle && TakerIdle(s, d))
            && (r.code == 5 <==> online && !idle && !TakerIdle(s, d) && waiting < s.config.maxQueue)
            && (r.code == 7 <==> online && !idle && !TakerIdle(s, d) && waiting >= s.config.maxQueue)
  {
    DialledAnswer(s, env, caller, digits, d);
    StatesOf(s.agents, d);
    IdleIsOnline(s.agents, d);
    TakersAre(s, d);
  }

  /** Where those who are not put through to the dialled department are sent. */
  lemma SentElsewhere(s: State, env: Env, caller: string, key: string, d: DeptId)
    requires IvrDept(key) == Some(d)
    ensures var r := Ivr(s, env, caller, key).reply;
            && r.Reply?
            && (r.code == 3 ==> r.target == s.config.fallback && r.department == Some(Support))
            && (r.code == 5 ==> r.target == PrintNat(Department(d).value.short) && r.department == Some(d))
            && (r.code == 7 ==> r.target == "" && r.department == Some(d))
  {
    KeyCase(s, env, caller, key, d);
    KeyAnswered(s, env, caller, key, d);
    OverflowSends(WithClean(s, env.now), env, d, caller);
  }

  /** An overflow goes to support while anybody there is idle, then to the first department
      of the list that has somebody idle. */
  lemma OverflowSends(s: State, env: Env, d: DeptId, caller: string)
    requires Department(d).Some?
    ensures var r := Overflow(s, env, d, caller).reply;
            && r.Reply? && (r.code == 4 || r.code == 5 || r.code == 7)
            && (r.code == 4 ==>
                  if HasIdle(s.agents, Support) then r.department == Some(Support)
                  else r.department.Some? && r.department.value != d && HasIdle(s.agents, r.department.value)
                       && ComesFirst(s.agents, s.config.overflow, d, r.department.value))
            && (r.code == 5 ==> r.target == PrintNat(Department(d).value.short) && r.department == Some(d))
            && (r.code == 7 ==> r.target == "" && r.department == Some(d))
  {
    FirstIdleDeptSpec(s.agents, s.config.overflow, d);
  }

  /** Outside working hours the night department takes the call while anybody there is idle
      or talking; otherwise there is voicemail.  No table changes. */
  lemma NightOutcome(s: State, env: Env, caller: string, digits: string)
    requires IsExternal(env, caller) && !env.workTime
    ensures var o := Route(s, env, caller, digits);
            && o.state == s && o.reply.Reply?
            && (if AnyIn(s.agents, s.config.nightDuty, {Idle, Talking})
                then o.reply.code == 6 && o.reply.department == Some(s.config.nightDuty)
                else o.reply == Reply(7, "", None))
  {
    NightCase(s, env, caller, digits);
    StatesOf(s.agents, s.config.nightDuty);
  }

  /** A caller who presses nothing or nothing useful is asked again with no target, or handed
      to support. */
  lemma AskedAgain(s: State, env: Env, caller: string, key: string)
    requires IvrDept(key).None?
    ensures var r := Ivr(s, env, caller, key).reply;
            && r.Reply?
            && (r.code == 8 || r.code == 9 ==> r.target == "" && r.department == None)
            && (r.code == 4 ==> r.department == Some(Support))
            && (key == "" ==> r.code in {4, 8}) && (key != "" ==> r.code in {4, 9})
  {
    NoKeyCase(s, env, caller, key);
  }

  /** check_agent_status, asked by name: 99 for a department that does not exist. */
  lemma StatusAnswer(s: State, now: int, d: DeptId)
    ensures var r := CheckAgents(s, now, d).reply;
            && r.Reply?
            && (r.code == 99 <==> d.Unlisted?)
            && (!d.Unlisted? ==>
                  && (r.code == 0 <==> AnyIn(s.agents, d, {Idle}))
                  && (r.code == 2 <==> !AnyIn(s.agents, d, {Idle}) && AnyIn(s.agents, d, {Talking, Busy}))
                  && (r.code == 3 <==> !AnyIn(s.agents, d, {Idle, Talking, Busy}))
                  && r.target == PrintNat(Department(d).value.short) && r.department == Some(d))
  {
    StatesOf(s.agents, d);
    IdleIsOnline(s.agents, d);
    OnlineSplits(s.agents, d);
  }

  lemma OnlineSplits(agents: Agents, d: DeptId)
    ensures AnyIn(agents, d, {Idle, Talking, Busy}) <==> AnyIn(agents, d, {Idle}) || AnyIn(agents, d, {Talking, Busy})
  {
    forall e
      ensures InState(agents, d, {Idle, Talking, Busy}, e)
         <==> InState(agents, d, {Idle}, e) || InState(agents, d, {Talking, Busy}, e)
    {
    }
  }

  // ------------------------------------------------------------------- who is outside

  /** Outside are callers without a number, those who show 400, and those whose number is
      in no department's range. */
  lemma ExternalIff(env: Env, caller: string)
    ensures IsExternal(env, caller)
       <==> || caller == "" || "400" <= caller || env.number(caller).None?
            || forall d :: !InRange(d, env.number(caller).value)
  {
    if env.number(caller).Some? {
      var n := env.number(caller).value;
      FirstInRangeSpec(AllDepartments(), n);
      forall d
        ensures InRange(d, n) ==> DeptOfNumber(n) == Some(d) && 1000.0 <= n <= 9999.0
      {
        DeptOfNumberIs(n, d);
      }
    }
  }

  lemma FirstThree(n: nat)
    requires 1000 <= n <= 9999
    ensures "400" <= PrintNat(n) ==> n / 10 == 400
  {
    assert PrintNat(n) == PrintNat(n / 10) + [Digit(n % 10)];
    assert PrintNat(n / 10) == PrintNat(n / 100) + [Digit(n / 10 % 10)];
    assert PrintNat(n / 100) == PrintNat(n / 1000) + [Digit(n / 100 % 10)];
    assert PrintNat(n / 1000) == [Digit(n / 1000)];
    assert PrintNat(n)[0] == Digit(n / 1000) && PrintNat(n)[1] == Digit(n / 100 % 10)
        && PrintNat(n)[2] == Digit(n / 10 % 10);
    if "400" <= PrintNat(n) {
      assert PrintNat(n)[0] == "400"[0] && PrintNat(n)[1] == "400"[1] && PrintNat(n)[2] == "400"[2];
      assert DigitValue('4') == 4 && DigitValue('0') == 0;
    }
  }

  /** Every department's extension, read as the number it is, belongs to an inside caller. */
  lemma ExtensionIsInternal(env: Env, d: DeptId, n: nat)
    requires InRange(d, n as real) && env.number(PrintNat(n)) == Some(n as real)
    ensures !IsExternal(env, PrintNat(n))
  {
    FirstThree(n);
    DeptOfNumberIs(n as real, d);
  }

  // ---------------------------------------------------------------- internal callers

  /** An internal caller is refused for the number called, never for his own. */
  lemma InternalRefusedForCallee(s: State, env: Env, caller: string, callee: string)
    requires !IsExternal(env, caller)
    ensures var r := Route(s, env, caller, callee).reply; var n := env.number(callee);
            && r.code in {0, 1, 2, 3}
            && (r.code == 1 <==> n.None? || forall d :: !InRange(d, n.value))
            && (r.code == 1 ==> r.target == s.config.fallback && r.department == Some(Support))
            && (r.code != 1 ==> r.department.Some? && InRange(r.department.value, n.value))
            && (r.code == 0 ==>
                  r.target == callee && !Has(s.agents, callee, Offline) && !Has(s.agents, callee, Talking))
            && (r.code == 2 ==> r.target == callee && Has(s.agents, callee, Talking))
            && (r.code == 3 ==>
                  && Has(s.agents, callee, Offline)
                  && r.department.Some? && Department(r.department.value).Some?
                  && InRange(r.department.value, n.value) && r.target == Short(Department(r.department.value).value))
  {
    var n := env.number(callee);
    if n.Some? {
      FirstInRangeSpec(AllDepartments(), n.value);
      var found := DeptOfNumber(n.value);
      forall d
        ensures InRange(d, n.value) ==> found == Some(d)
      {
        DeptOfNumberIs(n.value, d);
      }
    }
  }

  // ----------------------------------------------------------------------- isolation

  /** The fallback number, the night department and the priority list lead outside callers
      to departments that are open to them, or nowhere. */
  ghost predicate OpenConfig(c: Config) {
    && OpenNumber(c.fallback)
    && OpenDept(c.nightDuty)
    && forall d :: d in c.overflow ==> OpenDept(d)
  }

  ghost predicate OpenDept(d: DeptId) { Department(d).Some? ==> Department(d).value.external }

  function Target(r: Reply): string { if r.Reply? then r.target else "" }

  lemma PickOpen(agents: Agents, d: DeptId, pick: Option<string>, default: string)
    requires IsPick(agents, d, pick) && OpenDept(d) && OpenNumber(default)
    ensures OpenNumber(ValueOr(pick, default))
  {
    if pick.Some? { MemberOpen(d, pick.value); }
  }

  lemma OverflowOpen(s: State, env: Env, d: DeptId, caller: string)
    requires OpenConfig(s.config) && ValidPicks(s.agents, env.pick)
    requires Department(d).Some? && Department(d).value.external
    ensures OpenNumber(Target(Overflow(s, env, d, caller).reply))
  {
    assert OpenNumber("");
    PickOpen(s.agents, Support, env.pick(Support), s.config.fallback);
    ShortOpen(d);
    FirstIdleDeptSpec(s.agents, s.config.overflow, d);
    var o := FirstIdleDept(s.agents, s.config.overflow, d);
    if o.Some? {
      ShortOpen(o.value);
      PickOpen(s.agents, o.value, env.pick(o.value), Short(Department(o.value).value));
    }
  }

  lemma KeyOpen(s: State, env: Env, caller: string, key: string, d: DeptId)
    requires OpenConfig(s.config) && ValidPicks(s.agents, env.pick) && IvrDept(key) == Some(d)
    ensures OpenNumber(Target(Ivr(s, env, caller, key).reply))
  {
    KeyCase(s, env, caller, key, d);
    IdleIsOnline(s.agents, d);
    OverflowOpen(WithClean(s, env.now), env, d, caller);
    ShortOpen(d);
    PickOpen(s.agents, d, env.pick(d), Short(Department(d).value));
  }

  /** No outside caller is put through to a number that is not open to him. */
  lemma OpenConfigIsolates(s: State, env: Env, caller: string, digits: string)
    requires OpenConfig(s.config) && ValidPicks(s.agents, env.pick) && IsExternal(env, caller)
    ensures OpenNumber(Target(Route(s, env, caller, digits).reply))
    ensures !InternalNumber(Target(Route(s, env, caller, digits).reply))
  {
    assert OpenNumber("");
    if !env.workTime {
      NightCase(s, env, caller, digits);
      PickOpen(s.agents, s.config.nightDuty, env.pick(s.config.nightDuty), s.config.fallback);
    } else {
      WorkCase(s, env, caller, digits);
      if IvrDept(digits).Some? {
        KeyOpen(s, env, caller, digits, IvrDept(digits).value);
      } else {
        NoKeyCase(s, env, caller, digits);
        PickOpen(s.agents, Support, env.pick(Support), s.config.fallback);
      }
    }
    OpenIsNotInternal(Target(Route(s, env, caller, digits).reply));
  }
}
