/** The routing script's tables changed in place by its routines (lua/route.lua:103-214,
    328-338, 348-636, 711-734), each proved against the specification in Routing.
    Among agents idle for equally long the first in walking order is taken. */
module Router {
  import opened Options
  import opened Counting
  import opened Departments
  import opened Routing

  function IdleIn(agents: Agents): string -> bool { (e: string) => IsIdle(agents, e) }

  function OnlineIn(agents: Agents): string -> bool { (e: string) => IsOnline(agents, e) }

  lemma {:induction false} CountPositive(es: seq<string>, p: string -> bool)
    ensures Count(es, p) > 0 <==> exists e :: e in es && p(e)
  {
    if e :| e in es && p(e) {
      var i :| 0 <= i < |es| && es[i] == e;
      CountWitness(es, i, p);
    } else {
      forall i | 0 <= i < |es|
        ensures !p(es[i])
      {
        assert es[i] in es;
      }
      CountNone(es, p);
    }
  }

  lemma UnexpiredNext(queue: seq<Waiting>, n: nat, now: int, timeout: int)
    requires n < |queue|
    ensures Unexpired(queue[..n + 1], now, timeout)
         == Unexpired(queue[..n], now, timeout) + if Expired(queue[n], now, timeout) then [] else [queue[n]]
  {
    assert queue[..n + 1][..n] == queue[..n];
  }

  lemma DropAt(front: seq<Waiting>, rest: seq<Waiting>)
    requires rest != []
    ensures (front + rest)[|front|] == rest[0]
    ensures (front + rest)[..|front|] + (front + rest)[|front| + 1..] == front + rest[1..]
    ensures front + rest == (front + [rest[0]]) + rest[1..]
  {
  }

  lemma LongestIdleNext(agents: Agents, es: seq<string>, i: nat)
    requires i < |es|
    ensures var best, e := LongestIdle(agents, es[..i]), es[i];
            LongestIdle(agents, es[..i + 1])
              == if IsIdle(agents, e) && (best.None? || best.value !in agents
                                          || agents[e].lastActive < agents[best.value].lastActive)
                 then Some(e) else best
  {
    assert es[..i + 1][..i] == es[..i];
  }

  /** queue_cleanup's inner loop on one queue. */
  method CleanOne(queue: seq<Waiting>, now: int, timeout: int) returns (q: seq<Waiting>)
    ensures q == Unexpired(queue, now, timeout)
  {
    q := queue;
    var i := 0;
    ghost var seen := 0;
    ghost var kept: seq<Waiting> := [];
    while i < |q|
      invariant 0 <= seen <= |queue| && kept == Unexpired(queue[..seen], now, timeout)
      invariant i == |kept| && q == kept + queue[seen..]
      decreases |queue| - seen
    {
      UnexpiredNext(queue, seen, now, timeout);
      DropAt(kept, queue[seen..]);
      if now - q[i].arrival > timeout {
        q := q[..i] + q[i + 1..];
      } else {
        kept := kept + [queue[seen]];
        i := i + 1;
      }
      seen := seen + 1;
    }
    assert queue[..seen] == queue;
  }

  lemma Overwrite<K, V>(m: map<K, V>, k: K, a: V, b: V)
    ensures m[k := a][k := b] == m[k := b]
  {
  }

  class Router {
    var agents: map<string, Agent>
    var queues: map<DeptId, seq<Waiting>>
    var invalid: map<string, int>
    var timeouts: map<string, int>
    var config: Config

    ghost function Tables(): State
      reads this
    {
      State(agents, queues, invalid, timeouts, config)
    }

    /** What a call reads besides the tables, with this class's choice among agents. */
    ghost function EnvFor(now: int, workTime: bool, number: string -> Option<real>): Env
      reads this
    {
      Env(now, workTime, FirstChoice(agents), number)
    }

    /** init_agent_status. */
    constructor (now: int)
      ensures Tables() == Loaded(DefaultConfig(), now)
    {
      queues, invalid, timeouts := map[], map[], map[];
      config := DefaultConfig();
      var table: map<string, Agent> := map[];
      var ds := AllDepartments();
      for k := 0 to |ds|
        invariant table == WithDepartments(ds[..k], now)
      {
        assert ds[..k + 1][..k] == ds[..k];
        ghost var before := table;
        var es := Members(ds[k]);
        for i := 0 to |es|
          invariant table == WithExtensions(before, es[..i], now)
        {
          assert es[..i + 1][..i] == es[..i];
          table := table[es[i] := Agent(Idle, 0, now)];
        }
        assert es[..|es|] == es;
      }
      assert ds[..|ds|] == ds;
      agents := table;
    }

    method CountIdle(d: DeptId) returns (count: nat)
      ensures count == Count(Members(d), IdleIn(agents))
      ensures count > 0 <==> HasIdle(agents, d)
    {
      var es := Members(d);
      count := 0;
      for i := 0 to |es|
        invariant count == Count(es[..i], IdleIn(agents))
      {
        CountPush(es, i, IdleIn(agents));
        if es[i] in agents && agents[es[i]].activity == Idle {
          count := count + 1;
        }
      }
      assert es[..|es|] == es;
      CountPositive(es, IdleIn(agents));
    }

    method PickIdle(d: DeptId) returns (r: Option<string>)
      ensures r == LongestIdle(agents, Members(d))
    {
      var es := Members(d);
      r := None;
      for i := 0 to |es|
        invariant r == LongestIdle(agents, es[..i])
      {
        LongestIdleNext(agents, es, i);
        LongestIdleSpec(agents, es[..i]);
        if es[i] in agents && agents[es[i]].activity == Idle {
          if r.None? || agents[es[i]].lastActive < agents[r.value].lastActive {
            r := Some(es[i]);
          }
        }
      }
      assert es[..|es|] == es;
    }

    method SetAgentState(ext: string, activity: Activity, now: int)
      modifies this`agents
      ensures agents == WithState(old(agents), ext, activity, now)
    {
      if ext in agents {
        var a := agents[ext];
        a := a.(activity := activity, lastActive := now);
        if activity == Talking {
          a := a.(calls := a.calls + 1);
        } else if activity == Idle {
          a := a.(calls := if a.calls - 1 > 0 then a.calls - 1 else 0);
        }
        agents := agents[ext := a];
      }
    }

    method QueuePush(d: DeptId, caller: string, now: int) returns (ok: bool)
      modifies this`queues
      ensures Tables() == WithPush(old(Tables()), d, caller, now)
      ensures ok == HasRoom(old(Tables()), d)
    {
      if d !in queues {
        queues := queues[d := []];
      }
      var q := queues[d];
      ok := |q| < config.maxQueue;
      if ok {
        q := q + [Waiting(caller, now)];
      }
      Overwrite(old(queues), d, [], q);
      queues := queues[d := q];
    }

    method QueuePop(d: DeptId) returns (r: Option<Waiting>)
      modifies this`queues
      ensures Tables() == WithPop(old(Tables()), d)
      ensures var q := QueueOf(old(queues), d); if q == [] then r == None else r == Some(q[0])
    {
      if d !in queues || |queues[d]| == 0 {
        return None;
      }
      r := Some(queues[d][0]);
      queues := queues[d := queues[d][1..]];
    }

    method QueueCleanup(now: int)
      modifies this`queues
      ensures Tables() == WithClean(old(Tables()), now)
    {
      var todo := queues.Keys;
      while todo != {}
        invariant todo <= queues.Keys == old(queues).Keys
        invariant forall d :: d in queues ==>
                    queues[d] == if d in todo then old(queues)[d]
                                 else Unexpired(old(queues)[d], now, config.queueTimeout)
      {
        var d :| d in todo;
        var q := CleanOne(queues[d], now, config.queueTimeout);
        queues := queues[d := q];
        todo := todo - {d};
      }
    }

    method CheckAgentStatus(d: DeptId, now: int) returns (r: Reply)
      modifies this`queues
      ensures Outcome(r, Tables()) == CheckAgents(old(Tables()), now, d)
    {
      QueueCleanup(now);
      if Department(d).None? {
        return Reply(99, "", None);
      }
      var es := Members(d);
      var idle, online := CountStates(d);
      var short := Short(Department(d).value);
      if online == 0 {
        return Reply(3, short, Some(d));
      }
      if idle == 0 {
        return Reply(2, short, Some(d));
      }
      r := Reply(0, short, Some(d));
    }

    /** The counting loop of check_agent_status. */
    method CountStates(d: DeptId) returns (idle: nat, online: int)
      ensures idle > 0 <==> HasIdle(agents, d)
      ensures online >= 0 && (online > 0 <==> HasOnline(agents, d))
    {
      var es := Members(d);
      var total, talking, offline, busy := 0, 0, 0, 0;
      idle := 0;
      for i := 0 to |es|
        invariant idle == Count(es[..i], IdleIn(agents))
        invariant total - offline == Count(es[..i], OnlineIn(agents))
      {
        CountPush(es, i, IdleIn(agents));
        CountPush(es, i, OnlineIn(agents));
        if es[i] in agents {
          total := total + 1;
          var a := agents[es[i]].activity;
          if a == Idle {
            idle := idle + 1;
          } else if a == Talking {
            talking := talking + 1;
          } else if a == Busy {
            busy := busy + 1;
          } else {
            offline := offline + 1;
          }
        }
      }
      online := total - offline;
      assert es[..|es|] == es;
      CountPositive(es, IdleIn(agents));
      CountPositive(es, OnlineIn(agents));
    }

    method FindOverflow(exclude: DeptId) returns (r: Option<DeptId>)
      ensures r == FirstIdleDept(agents, config.overflow, exclude)
    {
      var list := config.overflow;
      for i := 0 to |list|
        invariant FirstIdleDept(agents, list, exclude) == FirstIdleDept(agents, list[i..], exclude)
      {
        assert list[i..][0] == list[i] && list[i..][1..] == list[i + 1..];
        if list[i] != exclude {
          var idle := CountIdle(list[i]);
          if idle > 0 {
            return Some(list[i]);
          }
        }
      }
      r := None;
    }

    method OverflowRoute(d: DeptId, caller: string, now: int, workTime: bool, number: string -> Option<real>)
      returns (r: Reply)
      modifies this`queues
      ensures Outcome(r, Tables()) == Overflow(old(Tables()), old(EnvFor(now, workTime, number)), d, caller)
    {
      var idle := CountIdle(Support);
      if idle > 0 {
        var agent := PickIdle(Support);
        return Reply(4, ValueOr(agent, config.fallback), Some(Support));
      }
      var o := FindOverflow(d);
      if o.Some? {
        var agent := PickIdle(o.value);
        return Reply(4, ValueOr(agent, Short(Department(o.value).value)), o);
      }
      var ok := QueuePush(d, caller, now);
      if ok {
        if Department(d).None? {
          return Raised;
        }
        return Reply(5, Short(Department(d).value), Some(d));
      }
      r := Reply(7, "", Some(d));
    }

    method HandToSupport() returns (r: Reply)
      ensures r == Reply(4, ValueOr(FirstChoice(agents)(Support), config.fallback), Some(Support))
    {
      var agent := PickIdle(Support);
      r := Reply(4, ValueOr(agent, config.fallback), Some(Support));
    }

    method InvalidKeyFallback(caller: string, now: int, workTime: bool, number: string -> Option<real>)
      returns (r: Reply)
      modifies this`invalid
      ensures Outcome(r, Tables()) == InvalidKey(old(Tables()), old(EnvFor(now, workTime, number)), caller)
    {
      var count := (if caller in invalid then invalid[caller] else 0) + 1;
      invalid := invalid[caller := count];
      if count >= config.maxInvalid {
        Overwrite(old(invalid), caller, count, 0);
        invalid := invalid[caller := 0];
        r := HandToSupport();
        return;
      }
      r := Reply(9, "", None);
    }

    method TimeoutFallback(caller: string, now: int, workTime: bool, number: string -> Option<real>)
      returns (r: Reply)
      modifies this`timeouts
      ensures Outcome(r, Tables()) == TimedOut(old(Tables()), old(EnvFor(now, workTime, number)), caller)
    {
      var retry := (if caller in timeouts then timeouts[caller] else 0) + 1;
      timeouts := timeouts[caller := retry];
      if retry >= 2 {
        Overwrite(old(timeouts), caller, retry, 0);
        timeouts := timeouts[caller := 0];
        r := HandToSupport();
        return;
      }
      r := Reply(8, "", None);
    }

    method ResetCounts(caller: string)
      modifies this`invalid, this`timeouts
      ensures Tables() == Step(old(Tables()), Event.ResetCounts(caller)).state
    {
      invalid := invalid[caller := 0];
      timeouts := timeouts[caller := 0];
    }

    method GetIvrRoute(phone: string, key: string, now: int, workTime: bool, number: string -> Option<real>)
      returns (r: Reply)
      modifies this`queues, this`invalid, this`timeouts
      ensures Outcome(r, Tables()) == Ivr(old(Tables()), old(EnvFor(now, workTime, number)), phone, key)
    {
      if key == "" {
        r := TimeoutFallback(phone, now, workTime, number);
        return;
      }
      var d := IvrDept(key);
      if d.None? {
        r := InvalidKeyFallback(phone, now, workTime, number);
        return;
      }
      r := CheckAgentStatus(d.value, now);
      if r.code == 2 {
        r := OverflowRoute(d.value, phone, now, workTime, number);
      } else if r.code == 3 {
        r := Reply(3, config.fallback, Some(Support));
      } else {
        var agent := PickIdle(d.value);
        r := Reply(0, ValueOr(agent, Short(Department(d.value).value)), d);
      }
    }

    method SomeoneOnDuty(d: DeptId) returns (found: bool)
      ensures found <==> HasDuty(agents, d)
    {
      var es := Members(d);
      for i := 0 to |es|
        invariant forall k :: 0 <= k < i ==> !OnDuty(agents, es[k])
      {
        if es[i] in agents && (agents[es[i]].activity == Idle || agents[es[i]].activity == Talking) {
          assert OnDuty(agents, es[i]);
          return true;
        }
      }
      found := false;
    }

    method TimeJudgeRoute(now: int, workTime: bool, number: string -> Option<real>) returns (r: Reply)
      ensures r == TimeJudge(Tables(), EnvFor(now, workTime, number))
    {
      if workTime {
        return Reply(0, "", None);
      }
      var night := config.nightDuty;
      var hasDuty := SomeoneOnDuty(night);
      if hasDuty {
        var agent := PickIdle(night);
        return Reply(6, ValueOr(agent, config.fallback), Some(night));
      }
      r := Reply(7, "", None);
    }

    method RouteCall(caller: string, digits: string, now: int, workTime: bool, number: string -> Option<real>)
      returns (r: Reply)
      modifies this`queues, this`invalid, this`timeouts
      ensures Outcome(r, Tables()) == Route(old(Tables()), old(EnvFor(now, workTime, number)), caller, digits)
    {
      var env := Env(now, workTime, FirstChoice(agents), number);
      if IsExternal(env, caller) {
        var t := TimeJudgeRoute(now, workTime, number);
        if t.code == 7 {
          return Reply(7, "", None);
        }
        if t.code == 6 {
          return t;
        }
        r := GetIvrRoute(caller, digits, now, workTime, number);
        return;
      }
      r := Internal(State(agents, queues, invalid, timeouts, config), env, caller, digits);
    }
  }
}
