/** The per-caller retry counters over whole runs (lua/route.lua:565-636, 840-843): how a
    caller's own mistakes, and nobody else's, decide when he is handed to a person. */
module RetryCounters {
  import opened Options
  import opened Departments
  import opened Routing
  import opened RoutingSafety

  /** The digits of an outside caller who gets as far as the key menu. */
  function MenuInput(e: Event): Option<string> {
    if e.IvrRoute? then Some(e.digits)
    else if e.RouteCall? && IsExternal(e.env, e.caller) && e.env.workTime then Some(e.digits)
    else None
  }

  /** The caller presses a key that leads nowhere. */
  predicate PressesBadKey(e: Event, caller: string) {
    || (e.InvalidKeyFallback? && e.caller == caller)
    || (MenuInput(e).Some? && MenuInput(e).value != "" && IvrDept(MenuInput(e).value).None? && e.caller == caller)
  }

  predicate PressesNothing(e: Event, caller: string) {
    (e.TimeoutFallback? && e.caller == caller) || (MenuInput(e) == Some("") && e.caller == caller)
  }

  /** How often the caller did so since his counters were last reset. */
  function BadKeys(events: seq<Event>, caller: string): nat {
    if events == [] then 0
    else
      var e := events[|events| - 1];
      if e.ResetCounts? && e.caller == caller then 0
      else BadKeys(events[..|events| - 1], caller) + if PressesBadKey(e, caller) then 1 else 0
  }

  function Silences(events: seq<Event>, caller: string): nat {
    if events == [] then 0
    else
      var e := events[|events| - 1];
      if e.ResetCounts? && e.caller == caller then 0
      else Silences(events[..|events| - 1], caller) + if PressesNothing(e, caller) then 1 else 0
  }

  /** A caller's two counters. */
  datatype Counts = Counts(bad: int, silent: int)

  function CountsOf(s: State, caller: string): Counts {
    Counts(CountOf(s.invalid, caller), CountOf(s.timeouts, caller))
  }

  function Bump(n: int, limit: int): int { if n + 1 >= limit then 0 else n + 1 }

  /** The counters after a step, from the step alone. */
  function NextCounts(s: State, e: Event, caller: string): Counts {
    var c := CountsOf(s, caller);
    if e.ResetCounts? && e.caller == caller then Counts(0, 0)
    else if PressesBadKey(e, caller) then c.(bad := Bump(c.bad, s.config.maxInvalid))
    else if PressesNothing(e, caller) then c.(silent := Bump(c.silent, 2))
    else c
  }

  lemma MenuCounts(s: State, env: Env, x: string, key: string, caller: string)
    ensures var o, c := Ivr(s, env, x, key), CountsOf(s, caller);
            CountsOf(o.state, caller)
              == if x != caller || IvrDept(key).Some? then c
                 else if key == "" then c.(silent := Bump(c.silent, 2)) else c.(bad := Bump(c.bad, s.config.maxInvalid))
  {
    if IvrDept(key).Some? {
      KeyCounts(s, env, x, key, IvrDept(key).value);
    } else {
      NoKeyCase(s, env, x, key);
    }
  }

  lemma OverflowCounts(s: State, env: Env, d: DeptId, x: string)
    ensures var t := Overflow(s, env, d, x).state; t.invalid == s.invalid && t.timeouts == s.timeouts
  {
    OverflowJoins(s, env, d, x);
    if !OverflowTaker(s, d) { NotTaken(s, env, d, x); }
  }

  lemma KeyCounts(s: State, env: Env, x: string, key: string, d: DeptId)
    requires IvrDept(key) == Some(d)
    ensures var t := Ivr(s, env, x, key).state; t.invalid == s.invalid && t.timeouts == s.timeouts
  {
    KeyCase(s, env, x, key, d);
    IdleIsOnline(s.agents, d);
    OverflowCounts(WithClean(s, env.now), env, d, x);
  }

  lemma StepCounts(s: State, e: Event, caller: string)
    ensures CountsOf(Step(s, e).state, caller) == NextCounts(s, e, caller)
  {
    if e.RouteCall? {
      if MenuInput(e).Some? {
        WorkCase(s, e.env, e.caller, e.digits);
        MenuCounts(s, e.env, e.caller, e.digits, caller);
      } else if IsExternal(e.env, e.caller) {
        NightCase(s, e.env, e.caller, e.digits);
      } else {
        InternalCase(s, e.env, e.caller, e.digits);
      }
    } else if e.IvrRoute? {
      MenuCounts(s, e.env, e.caller, e.digits, caller);
    } else if e.OverflowRoute? {
      OverflowCounts(s, e.env, e.dept, e.caller);
    }
  }

  lemma Bigger(k: int, m: nat)
    requires k >= 1
    ensures k * m >= m
  {
    assert k * m == (k - 1) * m + m;
  }

  lemma Difference(a: int, b: int, m: nat)
    ensures (a - b) * m == a * m - b * m
  {
  }

  lemma OneQuotient(p: int, t: nat, q: int, r: nat, m: nat)
    requires t < m && r < m && p * m + t == q * m + r
    ensures t == r
  {
    Difference(p, q, m);
    Difference(q, p, m);
    if p > q { Bigger(p - q, m); }
    if p < q { Bigger(q - p, m); }
  }

  lemma ModUnique(n: nat, q: int, r: nat, m: nat)
    requires r < m && n == q * m + r
    ensures n % m == r
  {
    OneQuotient(n / m, n % m, q, r, m);
  }

  lemma ModNext(n: nat, m: nat)
    requires m >= 1
    ensures (n + 1) % m == if n % m + 1 == m then 0 else n % m + 1
  {
    var q, r := n / m, n % m;
    if r + 1 == m {
      Difference(q + 1, 1, m);
      ModUnique(n + 1, q + 1, 0, m);
    } else {
      ModUnique(n + 1, q, r + 1, m);
    }
  }

  function Period(limit: int): nat { if limit < 1 then 1 else limit }

  /** The counters as they are after loading. */
  ghost predicate NoCounts(s: State) { s.invalid == map[] && s.timeouts == map[] }

  /** A run during which the configured number of bad keys stays the same. */
  ghost predicate FixedLimit(events: seq<Event>, limit: int) {
    forall i :: 0 <= i < |events| && events[i].Configure? ==> events[i].config.maxInvalid == limit
  }

  lemma OneMore(n: nat, limit: int)
    ensures Bump(n % Period(limit), limit) == (n + 1) % Period(limit)
  {
    ModNext(n, Period(limit));
  }

  /** The counters tell the numbers of mistakes up to whole periods. */
  ghost predicate Counted(s: State, events: seq<Event>, caller: string) {
    CountsOf(s, caller) == Counts(BadKeys(events, caller) % Period(s.config.maxInvalid), Silences(events, caller) % 2)
  }

  lemma CountedNext(s: State, events: seq<Event>, caller: string)
    requires events != [] && Counted(s, events[..|events| - 1], caller)
    ensures NextCounts(s, events[|events| - 1], caller)
         == Counts(BadKeys(events, caller) % Period(s.config.maxInvalid), Silences(events, caller) % 2)
  {
    var before, e := events[..|events| - 1], events[|events| - 1];
    OneMore(BadKeys(before, caller), s.config.maxInvalid);
    OneMore(Silences(before, caller), 2);
    assert !(PressesBadKey(e, caller) && PressesNothing(e, caller));
    assert 0 % Period(s.config.maxInvalid) == 0;
  }

  lemma {:induction false} CountersCount(s: State, events: seq<Event>, caller: string)
    requires NoCounts(s) && FixedLimit(events, s.config.maxInvalid)
    ensures StateAt(s, events).config.maxInvalid == s.config.maxInvalid && Counted(StateAt(s, events), events, caller)
  {
    if events != [] {
      var n := |events| - 1;
      var t := StateAt(s, events[..n]);
      CountersCount(s, events[..n], caller);
      CountedNext(t, events, caller);
      StepCounts(t, events[n], caller);
      StepFrame(t, events[n]);
    }
  }

  lemma BadKeyReply(s: State, e: Event, caller: string)
    requires PressesBadKey(e, caller)
    ensures var r := Step(s, e).reply;
            r.Reply? && r.code == if CountOf(s.invalid, caller) + 1 >= s.config.maxInvalid then 4 else 9
  {
    if !e.InvalidKeyFallback? {
      NoKeyCase(s, e.env, caller, e.digits);
      if e.RouteCall? { WorkCase(s, e.env, caller, e.digits); }
    }
  }

  lemma SilenceReply(s: State, e: Event, caller: string)
    requires PressesNothing(e, caller)
    ensures var r := Step(s, e).reply; r.Reply? && r.code == if CountOf(s.timeouts, caller) + 1 >= 2 then 4 else 8
  {
    if !e.TimeoutFallback? {
      NoKeyCase(s, e.env, caller, "");
      if e.RouteCall? { WorkCase(s, e.env, caller, e.digits); }
    }
  }

  lemma BadKeyCounted(s: State, e: Event, caller: string, n: nat)
    requires PressesBadKey(e, caller) && CountOf(s.invalid, caller) == n % Period(s.config.maxInvalid)
    ensures var r := Step(s, e).reply;
            r.Reply? && r.code in {4, 9} && (r.code == 4 <==> (n + 1) % Period(s.config.maxInvalid) == 0)
  {
    BadKeyReply(s, e, caller);
    OneMore(n, s.config.maxInvalid);
  }

  lemma SilenceCounted(s: State, e: Event, caller: string, n: nat)
    requires PressesNothing(e, caller) && CountOf(s.timeouts, caller) == n % 2
    ensures var r := Step(s, e).reply; r.Reply? && r.code in {4, 8} && (r.code == 4 <==> (n + 1) % 2 == 0)
  {
    SilenceReply(s, e, caller);
  }

  /** In any run, with any number of other callers in between: a caller's j-th bad key
      since his last reset hands him to a person exactly when the configured number
      divides j (always, when that number is below one); otherwise he is asked again. */
  lemma BadKeyFallsBackIff(s: State, events: seq<Event>, e: Event, caller: string)
    requires NoCounts(s) && FixedLimit(events, s.config.maxInvalid) && PressesBadKey(e, caller)
    ensures var j := BadKeys(events, caller) + 1; var r := Step(StateAt(s, events), e).reply;
            r.Reply? && r.code in {4, 9} && (r.code == 4 <==> j % Period(s.config.maxInvalid) == 0)
  {
    CountersCount(s, events, caller);
    BadKeyCounted(StateAt(s, events), e, caller, BadKeys(events, caller));
  }

  /** Likewise his j-th silence, when j is even. */
  lemma SilenceFallsBackIff(s: State, events: seq<Event>, e: Event, caller: string)
    requires NoCounts(s) && FixedLimit(events, s.config.maxInvalid) && PressesNothing(e, caller)
    ensures var j := Silences(events, caller) + 1; var r := Step(StateAt(s, events), e).reply;
            r.Reply? && r.code in {4, 8} && (r.code == 4 <==> j % 2 == 0)
  {
    CountersCount(s, events, caller);
    SilenceCounted(StateAt(s, events), e, caller, Silences(events, caller));
  }
}
