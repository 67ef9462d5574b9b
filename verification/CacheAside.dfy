/** The cache-aside layer of src/db_sync.c:436-728 for agent status: the main thread
    writes Redis first and queues the MySQL write, the worker writes MySQL later, and a
    query reads Redis, then MySQL, then writes back.  Redis and MySQL are maps; the
    worker's writes may fall between any two steps of a query. */
module CacheAside {
  import opened TaskText
  import opened Options
  import TaskQueue

  const MAX := TaskQueue.QUEUE_MAX_SIZE

  datatype Row = Row(status: string, calls: int)

  type Table = map<string, Row>

  /** Redis and MySQL values alike are read back through a buffer of 32 bytes. */
  const READ_WIDTH := 31

  /** Room for the extension in a Redis key; longer extensions would share one. */
  const KEY_ROOM := 255 - |"agent:status:"|

  /** A row as a query gets to see it. */
  function Seen(row: Row): Row {
    Row(if |row.status| > READ_WIDTH then row.status[..READ_WIDTH] else row.status, row.calls)
  }

  /** The first 31 characters come back, so the whole status exactly when it has no more. */
  lemma SeenWhole(row: Row)
    ensures Seen(row).status <= row.status && Seen(row).calls == row.calls
    ensures |Seen(row).status| == if |row.status| < 31 then |row.status| else 31
    ensures Seen(row) == row <==> |row.status| <= 31
    ensures Seen(Seen(row)) == Seen(row)
  {
  }

  lemma ShortSeen(a: Row, b: Row)
    requires |b.status| < READ_WIDTH
    ensures Seen(a) == Seen(b) <==> a == b
  {
  }

  datatype Query = NoQuery | Missed(ext: string) | Fetched(ext: string, row: Row)

  /** `truth` is the synchronous map: every status change applied at once.  A pending
      task stands in the queue as the effect the worker will read out of its text. */
  datatype State = State(cache: Table, db: Table, queue: seq<Effect>, inFlight: seq<Effect>,
                         query: Query, truth: Table)

  datatype Step =
    | Change(ext: string, status: string, calls: int)
    | Online(ext: string, online: int)
    | Call(task: Task)
    | Ask(ext: string)
    | Fetch
    | WriteBack
    | Take
    | Write
    | WarmUp
    | Evict(ext: string)

  datatype Reply = Silent | NotFound | Status(row: Row)

  /** Packed into text by the main thread, scanned out of it by the worker. */
  function Queued(t: Task): Effect { WorkerEffect(PackTask(t)) }

  /** The UPDATE of the worker: a row that does not exist is not created. */
  function ApplyTask(db: Table, p: Effect): Table {
    match p
    case SetAgent(e, st, c) => if e in db then db[e := Row(st, c)] else db
    case _ => db
  }

  function Replay(db: Table, ps: seq<Effect>): (r: Table)
    ensures r.Keys == db.Keys
    decreases |ps|
  {
    if ps == [] then db else Replay(ApplyTask(db, ps[0]), ps[1..])
  }

  function Pending(s: State): seq<Effect> { s.inFlight + s.queue }

  predicate Enabled(s: State, step: Step) {
    match step
    case Change(_, _, _) => s.query.NoQuery?
    case Online(_, _) => s.query.NoQuery?
    case Call(t) => s.query.NoQuery? && (t.CallStart? || t.CallEnd?)
    case Ask(_) => s.query.NoQuery?
    case Fetch => s.query.Missed?
    case WriteBack => s.query.Fetched?
    case Take => s.inFlight == [] && s.queue != []
    case Write => |s.inFlight| == 1
    case WarmUp => s.query.NoQuery?
    case Evict(_) => true
  }

  function Apply(s: State, step: Step): State
    requires Enabled(s, step)
  {
    match step
    case Change(e, st, c) =>
      s.(cache := s.cache[e := Row(st, c)], truth := s.truth[e := Row(st, c)],
         queue := TaskQueue.AfterPush(s.queue, Queued(AgentStatus(e, st, c))))
    case Online(e, n) => s.(queue := TaskQueue.AfterPush(s.queue, Queued(AgentOnline(e, n))))
    case Call(t) => s.(queue := TaskQueue.AfterPush(s.queue, Queued(t)))
    case Ask(e) => if e in s.cache then s else s.(query := Missed(e))
    case Fetch =>
      var e := s.query.ext;
      s.(query := if e in s.db then Fetched(e, Seen(s.db[e])) else NoQuery)
    case WriteBack => s.(cache := s.cache[s.query.ext := s.query.row], query := NoQuery)
    case Take => s.(inFlight := [s.queue[0]], queue := s.queue[1..])
    case Write => s.(db := ApplyTask(s.db, s.inFlight[0]), inFlight := [])
    case WarmUp => s.(cache := s.cache + s.db)
    case Evict(e) => s.(cache := s.cache - {e})
  }

  /** What db_sync_agent_status_query returns at this step, if it returns. */
  function Answer(s: State, step: Step): Reply
    requires Enabled(s, step)
  {
    match step
    case Ask(e) => if e in s.cache then Status(Seen(s.cache[e])) else Silent
    case Fetch => if s.query.ext in s.db then Silent else NotFound
    case WriteBack => Status(s.query.row)
    case _ => Silent
  }

  /** The agent a running query is about. */
  function Asked(s: State, step: Step): string
    requires Enabled(s, step) && (step.Ask? || step.Fetch? || step.WriteBack?)
  {
    if step.Ask? then step.ext else s.query.ext
  }

  function AgentOf(p: Effect): Option<string> {
    match p case SetAgent(e, _, _) => Some(e) case _ => None
  }

  ghost predicate NoTaskFor(ps: seq<Effect>, e: string) {
    forall i :: 0 <= i < |ps| ==> AgentOf(ps[i]) != Some(e)
  }

  /** Callers, the worker and Redis may do what they do in every state: between queries any
      call, at any time an eviction, and the worker's next step whatever else goes on. */
  lemma NothingRuledOut(s: State, e: string, st: string, n: int, t: Task)
    ensures s.query.NoQuery? ==>
              && Enabled(s, Change(e, st, n)) && Enabled(s, Online(e, n)) && Enabled(s, Ask(e)) && Enabled(s, WarmUp)
              && (t.CallStart? || t.CallEnd? ==> Enabled(s, Call(t)))
    ensures Enabled(s, Evict(e))
    ensures s.inFlight == [] && |s.queue| > 0 ==> Enabled(s, Take)
    ensures |s.inFlight| == 1 ==> Enabled(s, Write)
  {
  }

  // ---------------------------------------------------------------- what queries need

  /** MySQL already shows the agent's last status, and nothing pending will touch it. */
  ghost predicate Current(s: State, e: string) {
    e in s.db && e in s.truth && Seen(s.db[e]) == Seen(s.truth[e]) && NoTaskFor(Pending(s), e)
  }

  /** Redis is never behind, and whatever it does not hold is current in MySQL. */
  ghost predicate Served(s: State) {
    && |s.inFlight| <= 1
    && s.db.Keys <= s.truth.Keys
    && (forall e :: e in s.cache ==> e in s.truth && Seen(s.cache[e]) == Seen(s.truth[e]))
    && (forall e :: e in s.truth && e !in s.cache ==> Current(s, e))
    // a query past its miss
    && (s.query.Missed? ==> s.query.ext !in s.cache)
    && (s.query.Fetched? ==>
          s.query.ext !in s.cache && s.query.ext in s.truth && s.query.row == Seen(s.truth[s.query.ext]))
  }

  /** A queued write to an agent other than e that Redis does not hold. */
  ghost predicate GoesBehind(s: State, p: Effect, e: Option<string>) {
    p.SetAgent? && Some(p.ext) != e && p.ext in s.truth && p.ext !in s.cache
  }

  /** What a caller must observe for queries to stay right.  Overflows are no matter. */
  ghost predicate Safe(s: State, step: Step) {
    match step
    case Change(e, st, c) => !GoesBehind(s, Queued(AgentStatus(e, st, c)), Some(e))
    case Online(e, n) => !GoesBehind(s, Queued(AgentOnline(e, n)), None)
    case WarmUp => forall e :: e in s.db ==> e in s.truth && Seen(s.db[e]) == Seen(s.truth[e])
    case Evict(e) => e in s.truth ==> Current(s, e)
    case Call(_) => true
    case Ask(_) => true
    case Fetch => true
    case WriteBack => true
    case Take => true
    case Write => true
  }

  lemma CallsSetNoAgent(t: Task)
    requires t.CallStart? || t.CallEnd?
    ensures !Queued(t).SetAgent?
  {
  }

  /** What is pending after a push was pending before, but for the pushed effect. */
  lemma PushPending(s: State, p: Effect, e: string)
    requires AgentOf(p) != Some(e) && NoTaskFor(Pending(s), e)
    ensures NoTaskFor(s.inFlight + TaskQueue.AfterPush(s.queue, p), e)
  {
    var ps := s.inFlight + TaskQueue.AfterPush(s.queue, p);
    forall i | 0 <= i < |ps|
      ensures AgentOf(ps[i]) != Some(e)
    {
      assert ps[i] == p || ps[i] in s.inFlight || ps[i] in s.queue;
      assert forall x :: x in s.inFlight || x in s.queue ==> x in Pending(s);
    }
  }

  lemma PushedIsPending(s: State, p: Effect)
    requires p.SetAgent?
    ensures !NoTaskFor(s.inFlight + TaskQueue.AfterPush(s.queue, p), p.ext)
  {
    var ps := s.inFlight + TaskQueue.AfterPush(s.queue, p);
    assert ps[|ps| - 1] == p;
  }

  /** A push under a cache and a synchronous map that change together, for e or not at all. */
  lemma ServedPushIff(s: State, p: Effect, e: Option<string>, row: Row)
    requires Served(s) && s.query.NoQuery?
    ensures var s' := s.(queue := TaskQueue.AfterPush(s.queue, p),
                         cache := if e.Some? then s.cache[e.value := row] else s.cache,
                         truth := if e.Some? then s.truth[e.value := row] else s.truth);
            Served(s') <==> !GoesBehind(s, p, e)
  {
    var s' := s.(queue := TaskQueue.AfterPush(s.queue, p),
                 cache := if e.Some? then s.cache[e.value := row] else s.cache,
                 truth := if e.Some? then s.truth[e.value := row] else s.truth);
    if GoesBehind(s, p, e) {
      PushedIsPending(s, p);
      assert p.ext in s'.truth && p.ext !in s'.cache && !Current(s', p.ext);
    } else {
      forall x | x in s'.truth && x !in s'.cache
        ensures Current(s', x)
      {
        PushPending(s, p, x);
      }
    }
  }

  lemma ServedTake(s: State)
    requires Served(s) && Enabled(s, Take)
    ensures Served(Apply(s, Take))
  {
    assert Pending(Apply(s, Take)) == Pending(s);
    assert forall e :: Current(Apply(s, Take), e) <==> Current(s, e);
  }

  lemma CurrentAfterWrite(s: State, e: string)
    requires Enabled(s, Write) && Current(s, e)
    ensures Current(Apply(s, Write), e)
  {
    var rest := Pending(Apply(s, Write));
    assert Pending(s) == [s.inFlight[0]] + rest;
    assert AgentOf(Pending(s)[0]) != Some(e);
    assert forall i :: 0 <= i < |rest| ==> rest[i] == Pending(s)[i + 1];
  }

  lemma ServedWorker(s: State, step: Step)
    requires Served(s) && Enabled(s, step) && (step.Take? || step.Write?)
    ensures Served(Apply(s, step))
  {
    if step.Take? {
      ServedTake(s);
    } else {
      forall e | e in s.truth && e !in s.cache
        ensures Current(Apply(s, step), e)
      {
        CurrentAfterWrite(s, e);
      }
    }
  }

  lemma ServedRefill(s: State, step: Step)
    requires Served(s) && Enabled(s, step) && (step.WarmUp? || step.Evict?)
    ensures Served(Apply(s, step)) <==> Safe(s, step)
  {
    var s' := Apply(s, step);
    assert Pending(s') == Pending(s);
    assert forall e :: Current(s', e) <==> Current(s, e);
    if step.WarmUp? && Served(s') {
      forall e | e in s.db
        ensures Seen(s.db[e]) == Seen(s.truth[e])
      {
        assert e in s'.cache && s'.cache[e] == s.db[e];
      }
    }
  }

  lemma ServedQuery(s: State, step: Step)
    requires Served(s) && Enabled(s, step) && (step.Ask? || step.Fetch? || step.WriteBack?)
    ensures Served(Apply(s, step))
  {
    var s' := Apply(s, step);
    assert Pending(s') == Pending(s);
    assert forall e :: Current(s', e) <==> Current(s, e);
    if step.WriteBack? { SeenWhole(s.truth[s.query.ext]); }
  }

  /** Exactly the safe steps keep queries right. */
  lemma ServedStepIff(s: State, step: Step)
    requires Served(s) && Enabled(s, step)
    ensures Served(Apply(s, step)) <==> Safe(s, step)
  {
    if step.Change? {
      ServedPushIff(s, Queued(AgentStatus(step.ext, step.status, step.calls)), Some(step.ext),
                    Row(step.status, step.calls));
    } else if step.Online? {
      ServedPushIff(s, Queued(AgentOnline(step.ext, step.online)), None, Row("", 0));
    } else if step.Call? {
      CallsSetNoAgent(step.task);
      ServedPushIff(s, Queued(step.task), None, Row("", 0));
    } else if step.Take? || step.Write? {
      ServedWorker(s, step);
    } else if step.WarmUp? || step.Evict? {
      ServedRefill(s, step);
    } else {
      ServedQuery(s, step);
    }
  }

  /** A change whose fields survive the task text is always safe. */
  lemma FittingChangeIsSafe(s: State, e: string, st: string, c: int)
    requires FieldsFit(AgentStatus(e, st, c))
    ensures Safe(s, Change(e, st, c))
  {
    QueuedAsMeant(AgentStatus(e, st, c));
  }

  /** A query that returns shows the last status set, or reports that there is none. */
  lemma AnswerIsTruth(s: State, step: Step)
    requires Served(s) && Enabled(s, step) && !Answer(s, step).Silent?
    ensures match Answer(s, step)
            case Status(row) => Asked(s, step) in s.truth && row == Seen(s.truth[Asked(s, step)])
            case NotFound => Asked(s, step) !in s.truth
            case Silent => false
  {
  }

  ghost predicate Run(s: State, steps: seq<Step>)
    decreases |steps|
  {
    steps == [] || (Enabled(s, steps[0]) && Run(Apply(s, steps[0]), steps[1..]))
  }

  ghost predicate SafeRun(s: State, steps: seq<Step>)
    requires Run(s, steps)
    decreases |steps|
  {
    steps == [] || (Safe(s, steps[0]) && SafeRun(Apply(s, steps[0]), steps[1..]))
  }

  ghost function Final(s: State, steps: seq<Step>): State
    requires Run(s, steps)
    decreases |steps|
  {
    if steps == [] then s else Final(Apply(s, steps[0]), steps[1..])
  }

  /** The row the caller last set for an agent in a sequence of calls. */
  function LastSet(steps: seq<Step>, e: string): Option<Row> {
    if steps == [] then None
    else
      var later := LastSet(steps[1..], e);
      if later.Some? then later
      else if steps[0].Change? && steps[0].ext == e then Some(Row(steps[0].status, steps[0].calls))
      else None
  }

  lemma {:induction false} TruthIsLastSet(s: State, steps: seq<Step>, e: string)
    requires Run(s, steps)
    ensures var f := Final(s, steps);
            match LastSet(steps, e)
            case Some(row) => e in f.truth && f.truth[e] == row
            case None => (e in f.truth <==> e in s.truth) && (e in s.truth ==> f.truth[e] == s.truth[e])
    decreases |steps|
  {
    if steps != [] { TruthIsLastSet(Apply(s, steps[0]), steps[1..], e); }
  }

  lemma {:induction false} ServedAlways(s: State, steps: seq<Step>)
    requires Served(s) && Run(s, steps) && SafeRun(s, steps)
    ensures Served(Final(s, steps))
    decreases |steps|
  {
    if steps != [] {
      ServedStepIff(s, steps[0]);
      ServedAlways(Apply(s, steps[0]), steps[1..]);
    }
  }

  ghost predicate Fresh(s: State) {
    s.cache == map[] && s.queue == [] && s.inFlight == [] && s.query.NoQuery? && s.truth == s.db
  }

  /** No extension of the run shares its Redis key with another. */
  ghost predicate KeysFit(s: State, steps: seq<Step>) {
    && (forall e :: e in s.db ==> |e| <= KEY_ROOM)
    && forall i :: 0 <= i < |steps| && (steps[i].Change? || steps[i].Ask?) ==> |steps[i].ext| <= KEY_ROOM
  }

  /** After any safe run from an empty cache, through any overflows, with the worker
      anywhere in its work and a query at any of its stages, whatever a query answers is
      the status set last, or the initial row when none was set, cut to the width of its
      buffer; it is the whole status exactly when that has at most 31 characters. */
  lemma QueryReturnsLastStatus(s: State, steps: seq<Step>, step: Step)
    requires Fresh(s) && Run(s, steps) && SafeRun(s, steps) && KeysFit(s, steps + [step])
    requires Enabled(Final(s, steps), step) && !Answer(Final(s, steps), step).Silent?
    ensures var f := Final(s, steps); var e := Asked(f, step);
            match LastSet(steps, e)
            case Some(row) =>
              && Answer(f, step) == Status(Seen(row))
              && (Answer(f, step) == Status(row) <==> |row.status| <= 31)
            case None => Answer(f, step) == if e in s.db then Status(Seen(s.db[e])) else NotFound
  {
    FreshIsServed(s);
    ServedAlways(s, steps);
    var f := Final(s, steps);
    AnswerIsTruth(f, step);
    TruthIsLastSet(s, steps, Asked(f, step));
    if LastSet(steps, Asked(f, step)).Some? { SeenWhole(LastSet(steps, Asked(f, step)).value); }
  }

  /** The course of a query when nothing intervenes: a hit is answered at once; a miss is
      answered from MySQL and fills the cache; an agent in neither is not found. */
  lemma QueryCompletes(s: State, e: string)
    requires s.query.NoQuery?
    ensures var asked := Apply(s, Ask(e));
            if e in s.cache then Answer(s, Ask(e)) == Status(Seen(s.cache[e])) && asked == s
            else
              && Answer(s, Ask(e)).Silent? && Enabled(asked, Fetch)
              && var fetched := Apply(asked, Fetch);
                 if e in s.db then
                   && Answer(asked, Fetch).Silent? && Enabled(fetched, WriteBack)
                   && Answer(fetched, WriteBack) == Status(Seen(s.db[e]))
                   && Apply(fetched, WriteBack) == s.(cache := s.cache[e := Seen(s.db[e])])
                 else Answer(asked, Fetch) == NotFound && fetched == s
  {
  }

  /** What a query writes back answers the next one at once, with the same answer. */
  lemma WriteBackHits(s: State)
    requires Served(s) && Enabled(s, WriteBack)
    ensures Answer(Apply(s, WriteBack), Ask(s.query.ext)) == Answer(s, WriteBack)
  {
    SeenWhole(s.truth[s.query.ext]);
  }

  lemma {:induction false} StaysCached(s: State, steps: seq<Step>, e: string)
    requires e in s.cache && Run(s, steps) && forall i :: 0 <= i < |steps| ==> steps[i] != Evict(e)
    ensures e in Final(s, steps).cache
    decreases |steps|
  {
    if steps != [] { StaysCached(Apply(s, steps[0]), steps[1..], e); }
  }

  /** Once a query has been answered for an agent, every later query about him is a hit with
      the status set last, until his entry is evicted. */
  lemma AnsweredThenHits(s: State, steps: seq<Step>)
    requires Served(s) && Enabled(s, WriteBack)
    requires Run(Apply(s, WriteBack), steps) && SafeRun(Apply(s, WriteBack), steps)
    requires forall i :: 0 <= i < |steps| ==> steps[i] != Evict(s.query.ext)
    ensures var f := Final(Apply(s, WriteBack), steps); var e := s.query.ext;
            e in f.cache && e in f.truth
            && (f.query.NoQuery? ==> Answer(f, Ask(e)) == Status(Seen(f.truth[e])))
  {
    ServedStepIff(s, WriteBack);
    ServedAlways(Apply(s, WriteBack), steps);
    StaysCached(Apply(s, WriteBack), steps, s.query.ext);
  }

  lemma FreshIsServed(s: State)
    requires Fresh(s)
    ensures Served(s)
  {
  }

  // ------------------------------------------------------------ what MySQL ends up with

  lemma QueuedAsMeant(t: Task)
    requires FieldsFit(t)
    ensures Queued(t) == Intended(t)
  {
    TaskRoundTrip(t);
  }

  /** The row that the effects last set for an agent. */
  function LastRow(ps: seq<Effect>, e: string): Option<Row> {
    if ps == [] then None
    else
      var p := ps[|ps| - 1];
      if p.SetAgent? && p.ext == e then Some(Row(p.status, p.calls)) else LastRow(ps[..|ps| - 1], e)
  }

  lemma {:induction false} LastRowNone(ps: seq<Effect>, e: string)
    ensures LastRow(ps, e).None? <==> NoTaskFor(ps, e)
  {
    if ps != [] {
      LastRowNone(ps[..|ps| - 1], e);
      assert NoTaskFor(ps, e) ==> AgentOf(ps[|ps| - 1]) != Some(e);
    }
  }

  lemma {:induction false} LastRowConcat(a: seq<Effect>, b: seq<Effect>, e: string)
    ensures LastRow(a + b, e) == if LastRow(b, e).Some? then LastRow(b, e) else LastRow(a, e)
  {
    if b == [] {
      assert a + b == a;
    } else {
      assert (a + b)[..|a + b| - 1] == a + b[..|b| - 1];
      LastRowConcat(a, b[..|b| - 1], e);
    }
  }

  lemma LastRowOne(p: Effect, e: string)
    ensures LastRow([p], e) == if p.SetAgent? && p.ext == e then Some(Row(p.status, p.calls)) else None
  {
    assert [p][..0] == [];
  }

  /** The rows after a replay are the rows set last, and the old ones where none is. */
  lemma {:induction false} ReplayRows(db: Table, ps: seq<Effect>, e: string)
    ensures e in db ==> Replay(db, ps)[e] == if LastRow(ps, e).Some? then LastRow(ps, e).value else db[e]
    decreases |ps|
  {
    if ps != [] {
      ReplayRows(ApplyTask(db, ps[0]), ps[1..], e);
      assert ps == [ps[0]] + ps[1..];
      LastRowConcat([ps[0]], ps[1..], e);
      LastRowOne(ps[0], e);
    }
  }

  /** Replaying what is pending gives the synchronous map, but for the lost agents. */
  ghost predicate ReplaysBut(s: State, lost: set<string>) {
    && s.db.Keys <= s.truth.Keys
    && forall e :: e in s.db && e !in lost ==> Settled(s, e) == s.truth[e]
  }

  /** The row that MySQL will hold once nothing is pending. */
  function Settled(s: State, e: string): Row
    requires e in s.db
  {
    var last := LastRow(Pending(s), e);
    if last.Some? then last.value else s.db[e]
  }

  lemma SettledIsReplay(s: State, e: string)
    requires e in s.db
    ensures e in Replay(s.db, Pending(s)) && Settled(s, e) == Replay(s.db, Pending(s))[e]
  {
    ReplayRows(s.db, Pending(s), e);
  }

  /** A full queue can give up its oldest task without loss: it sets no row, or a later
      one sets that row again, or the row is the same without it. */
  ghost predicate DropSpared(s: State, p: Effect, lost: set<string>) {
    |s.queue| >= MAX ==>
      var d := s.queue[0];
      d.SetAgent? && d.ext in s.db && d.ext !in lost ==>
        || !NoTaskFor(s.queue[1..] + [p], d.ext)
        || SettledWithout(s, d.ext) == Row(d.status, d.calls)
  }

  /** The row under the queue: what MySQL holds once the worker's current task is done. */
  function SettledWithout(s: State, e: string): Row
    requires e in s.db
  {
    var last := LastRow(s.inFlight, e);
    if last.Some? then last.value else s.db[e]
  }

  lemma SettledAfterPush(s: State, p: Effect, truth: Table, e: string)
    requires e in s.db
    ensures var s' := s.(queue := TaskQueue.AfterPush(s.queue, p), truth := truth);
            Settled(s', e) == if p.SetAgent? && p.ext == e then Row(p.status, p.calls)
                              else if |s.queue| < MAX then Settled(s, e)
                              else if LastRow(s.queue[1..], e).Some? then LastRow(s.queue[1..], e).value
                              else SettledWithout(s, e)
  {
    var rest := if |s.queue| >= MAX then s.queue[1..] else s.queue;
    assert s.inFlight + (rest + [p]) == (s.inFlight + rest) + [p];
    LastRowConcat(s.inFlight + rest, [p], e);
    LastRowOne(p, e);
    LastRowConcat(s.inFlight, rest, e);
  }

  lemma SettledWhenFull(s: State, e: string)
    requires e in s.db && |s.queue| >= MAX
    ensures var d := s.queue[0];
            Settled(s, e) == if LastRow(s.queue[1..], e).Some? then LastRow(s.queue[1..], e).value
                             else if d.SetAgent? && d.ext == e then Row(d.status, d.calls)
                             else SettledWithout(s, e)
  {
    var d, rest := s.queue[0], s.queue[1..];
    assert s.queue == [d] + rest;
    LastRowConcat(s.inFlight, s.queue, e);
    LastRowConcat([d], rest, e);
    LastRowOne(d, e);
  }

  lemma LaterTask(rest: seq<Effect>, p: Effect, e: string)
    ensures NoTaskFor(rest + [p], e) <==> LastRow(rest, e).None? && AgentOf(p) != Some(e)
  {
    LastRowNone(rest, e);
    if NoTaskFor(rest + [p], e) {
      assert forall i :: 0 <= i < |rest| ==> (rest + [p])[i] == rest[i];
      assert (rest + [p])[|rest|] == p;
    }
  }

  /** The agents whose row a pushed effect sets again. */
  function Found(p: Effect): set<string> { if p.SetAgent? then {p.ext} else {} }

  /** A push keeps MySQL on its way to the synchronous map exactly when the dropped task,
      if any, is spared and the pushed one sets what the map says. */
  lemma PushKeepsIff(s: State, p: Effect, truth: Table, lost: set<string>)
    requires ReplaysBut(s, lost) && s.db.Keys <= truth.Keys
    requires forall e :: e in s.db && AgentOf(p) != Some(e) ==> truth[e] == s.truth[e]
    ensures ReplaysBut(s.(queue := TaskQueue.AfterPush(s.queue, p), truth := truth), lost - Found(p))
       <==> DropSpared(s, p, lost) && (p.SetAgent? && p.ext in s.db ==> truth[p.ext] == Row(p.status, p.calls))
  {
    var s' := s.(queue := TaskQueue.AfterPush(s.queue, p), truth := truth);
    forall e | e in s.db
      ensures e !in Found(p) && e !in lost ==>
                (Settled(s', e) == truth[e]
                 <==> |s.queue| < MAX || AgentOf(s.queue[0]) != Some(e)
                      || !NoTaskFor(s.queue[1..] + [p], e)
                      || SettledWithout(s, e) == Row(s.queue[0].status, s.queue[0].calls))
      ensures e in Found(p) ==> Settled(s', e) == Row(p.status, p.calls)
    {
      SettledAfterPush(s, p, truth, e);
      if |s.queue| >= MAX {
        SettledWhenFull(s, e);
        LaterTask(s.queue[1..], p, e);
      }
    }
    if p.SetAgent? && p.ext in s.db { assert p.ext in Found(p); }
    if |s.queue| >= MAX && s.queue[0].SetAgent? && p.SetAgent? && p.ext == s.queue[0].ext {
      LaterTask(s.queue[1..], p, p.ext);
    }
  }

  /** Queries are right and MySQL catches up. */
  ghost predicate Coherent(s: State) { Served(s) && ReplaysBut(s, {}) }

  /** What a caller must observe, besides safety, for MySQL to catch up. */
  ghost predicate Lossless(s: State, step: Step) {
    match step
    case Change(e, st, c) => DropSpared(s, Queued(AgentStatus(e, st, c)), {})
    case Online(e, n) =>
      var p := Queued(AgentOnline(e, n));
      && DropSpared(s, p, {})
      && (p.SetAgent? && p.ext in s.db ==> p.ext in s.truth && s.truth[p.ext] == Row(p.status, p.calls))
    case Call(t) => DropSpared(s, Queued(t), {})
    case Ask(_) => true
    case Fetch => true
    case WriteBack => true
    case Take => true
    case Write => true
    case WarmUp => true
    case Evict(_) => true
  }

  lemma SettledByWrite(s: State, e: string)
    requires Enabled(s, Write) && e in s.db
    ensures e in Apply(s, Write).db && Settled(Apply(s, Write), e) == Settled(s, e)
  {
    var f := s.inFlight[0];
    assert Pending(s) == [f] + s.queue && Pending(Apply(s, Write)) == s.queue;
    LastRowConcat([f], s.queue, e);
    LastRowOne(f, e);
  }

  lemma WorkerKeepsSettled(s: State, step: Step)
    requires ReplaysBut(s, {}) && Enabled(s, step) && (step.Take? || step.Write?)
    ensures ReplaysBut(Apply(s, step), {})
  {
    if step.Take? {
      assert Pending(Apply(s, step)) == Pending(s);
    } else {
      forall e | e in s.db
        ensures e in Apply(s, step).db && Settled(Apply(s, step), e) == Settled(s, e)
      {
        SettledByWrite(s, e);
      }
    }
  }

  lemma ReplaysStepIff(s: State, step: Step)
    requires Coherent(s) && Enabled(s, step)
    requires step.Change? ==> FieldsFit(AgentStatus(step.ext, step.status, step.calls))
    ensures ReplaysBut(Apply(s, step), {}) <==> Lossless(s, step)
  {
    if step.Change? {
      QueuedAsMeant(AgentStatus(step.ext, step.status, step.calls));
      var p, row := Queued(AgentStatus(step.ext, step.status, step.calls)), Row(step.status, step.calls);
      PushSame(s, p, s.cache[step.ext := row], s.truth[step.ext := row]);
    } else if step.Online? {
      PushSame(s, Queued(AgentOnline(step.ext, step.online)), s.cache, s.truth);
    } else if step.Call? {
      CallsSetNoAgent(step.task);
      PushSame(s, Queued(step.task), s.cache, s.truth);
    } else if step.Take? || step.Write? {
      WorkerKeepsSettled(s, step);
    } else {
      var s' := Apply(s, step);
      assert Pending(s') == Pending(s) && s'.db == s.db && s'.truth == s.truth;
      assert forall e :: e in s.db ==> Settled(s', e) == Settled(s, e);
    }
  }

  /** The same with a cache that may change as well. */
  lemma PushSame(s: State, p: Effect, cache: Table, truth: Table)
    requires ReplaysBut(s, {}) && s.db.Keys <= truth.Keys
    requires forall e :: e in s.db && AgentOf(p) != Some(e) ==> truth[e] == s.truth[e]
    ensures ReplaysBut(s.(queue := TaskQueue.AfterPush(s.queue, p), cache := cache, truth := truth), {})
       <==> DropSpared(s, p, {}) && (p.SetAgent? && p.ext in s.db ==> truth[p.ext] == Row(p.status, p.calls))
  {
    PushKeepsIff(s, p, truth, {});
    var s1 := s.(queue := TaskQueue.AfterPush(s.queue, p), truth := truth);
    var s2 := s.(queue := TaskQueue.AfterPush(s.queue, p), cache := cache, truth := truth);
    assert Pending(s1) == Pending(s2);
    assert forall e :: e in s.db ==> Settled(s1, e) == Settled(s2, e);
    assert {} - Found(p) == {};
  }

  /** Exactly the safe and lossless steps keep the layer coherent. */
  lemma CoherentStepIff(s: State, step: Step)
    requires Coherent(s) && Enabled(s, step)
    requires step.Change? ==> FieldsFit(AgentStatus(step.ext, step.status, step.calls))
    ensures Coherent(Apply(s, step)) <==> Safe(s, step) && Lossless(s, step)
  {
    ServedStepIff(s, step);
    ReplaysStepIff(s, step);
  }

  ghost predicate Clean(s: State, step: Step) {
    && (step.Change? ==> FieldsFit(AgentStatus(step.ext, step.status, step.calls)))
    && Safe(s, step) && Lossless(s, step)
  }

  ghost predicate CleanRun(s: State, steps: seq<Step>)
    requires Run(s, steps)
    decreases |steps|
  {
    steps == [] || (Clean(s, steps[0]) && CleanRun(Apply(s, steps[0]), steps[1..]))
  }

  lemma {:induction false} CoherentAlways(s: State, steps: seq<Step>)
    requires Coherent(s) && Run(s, steps) && CleanRun(s, steps)
    ensures Coherent(Final(s, steps))
    decreases |steps|
  {
    if steps != [] {
      CoherentStepIff(s, steps[0]);
      CoherentAlways(Apply(s, steps[0]), steps[1..]);
    }
  }

  /** Steps that the worker still has to take. */
  function Unwritten(s: State): nat { 2 * |s.queue| + |s.inFlight| }

  /** Left alone, the worker takes exactly the outstanding number of steps, one is always
      possible before that, and then MySQL holds the synchronous map on its rows. */
  lemma {:induction false} DatabaseCatchesUp(s: State, steps: seq<Step>)
    requires Coherent(s) && Run(s, steps)
    requires forall i :: 0 <= i < |steps| ==> steps[i].Take? || steps[i].Write?
    ensures var f := Final(s, steps);
            && |steps| + Unwritten(f) == Unwritten(s)
            && (Unwritten(f) > 0 ==> Enabled(f, Take) || Enabled(f, Write))
            && (Unwritten(f) == 0 ==> f.db.Keys == s.db.Keys && forall e :: e in s.db ==> f.db[e] == s.truth[e])
    decreases |steps|
  {
    if steps == [] {
      if Unwritten(s) == 0 {
        assert forall e :: e in s.db ==> Settled(s, e) == s.db[e];
      }
    } else {
      CoherentStepIff(s, steps[0]);
      DatabaseCatchesUp(Apply(s, steps[0]), steps[1..]);
    }
  }

  // --------------------------------------------------------- the conditions, one by one

  /** A queued agent write that bypasses the cache keeps coherence exactly when the agent is
      cached, that very row was set last, and a full queue spares its oldest task. */
  lemma AppendCoherentIff(s: State, e: string, row: Row)
    requires Coherent(s) && s.query.NoQuery? && e in s.db
    ensures var p := SetAgent(e, row.status, row.calls);
            Coherent(s.(queue := TaskQueue.AfterPush(s.queue, p)))
            <==> DropSpared(s, p, {}) && e in s.cache && s.truth[e] == row
    ensures |row.status| < READ_WIDTH && e in s.cache ==> (s.truth[e] == row <==> s.cache[e] == row)
  {
    var p := SetAgent(e, row.status, row.calls);
    if e in s.cache && |row.status| < READ_WIDTH {
      ShortSeen(s.cache[e], row);
      ShortSeen(s.truth[e], row);
    }
    ServedPushIff(s, p, None, row);
    PushSame(s, p, s.cache, s.truth);
  }

  /** An online/offline call keeps the layer coherent exactly when a full queue spares its
      oldest task and the status it will write is already the cached one. */
  lemma OnlineCoherentIff(s: State, e: string, n: int)
    requires Coherent(s) && Enabled(s, Online(e, n)) && FieldsFit(AgentOnline(e, n))
    ensures var row := Row(if n != 0 then "idle" else "offline", 0);
            Coherent(Apply(s, Online(e, n)))
            <==> && DropSpared(s, SetAgent(e, row.status, row.calls), {})
                 && (e in s.truth ==> e in s.cache) && (e in s.db ==> s.cache[e] == row)
  {
    QueuedAsMeant(AgentOnline(e, n));
    CoherentStepIff(s, Online(e, n));
    if e in s.cache {
      ShortSeen(s.cache[e], Row(if n != 0 then "idle" else "offline", 0));
      ShortSeen(s.truth[e], Row(if n != 0 then "idle" else "offline", 0));
    }
  }

  /** After a warm-up Redis holds every row of MySQL's, and what it held besides. */
  lemma WarmUpFills(s: State, e: string)
    requires s.query.NoQuery?
    ensures var s' := Apply(s, WarmUp);
            && s' == s.(cache := s'.cache)
            && (e in s'.cache <==> e in s.db || e in s.cache)
            && (e in s.db ==> e in s'.cache && s'.cache[e] == s.db[e])
            && (e !in s.db && e in s.cache ==> e in s'.cache && s'.cache[e] == s.cache[e])
  {
  }

  ghost predicate SeenAlike(a: Table, b: Table)
    requires a.Keys == b.Keys
  {
    forall e :: e in a ==> Seen(a[e]) == Seen(b[e])
  }

  ghost predicate Short(a: Table) { forall e :: e in a ==> |a[e].status| <= READ_WIDTH }

  lemma ShortAlike(a: Table, b: Table)
    requires a.Keys == b.Keys && Short(a) && Short(b)
    ensures SeenAlike(a, b) <==> a == b
  {
    forall e | e in a
      ensures Seen(a[e]) == a[e] && Seen(b[e]) == b[e]
    {
      SeenWhole(a[e]);
      SeenWhole(b[e]);
    }
  }

  /** A warm-up keeps the layer coherent exactly when the pending writes change no row, as
      far as queries see it; for short statuses, when they change no row at all. */
  lemma WarmUpCoherentIff(s: State)
    requires Coherent(s) && Enabled(s, WarmUp)
    ensures Coherent(Apply(s, WarmUp)) <==> SeenAlike(s.db, Replay(s.db, Pending(s)))
    ensures Short(s.db) && Short(Replay(s.db, Pending(s))) ==>
              (Coherent(Apply(s, WarmUp)) <==> Replay(s.db, Pending(s)) == s.db)
  {
    var after := Replay(s.db, Pending(s));
    CoherentStepIff(s, WarmUp);
    forall e | e in s.db
      ensures after[e] == s.truth[e]
    {
      SettledIsReplay(s, e);
    }
    if Short(s.db) && Short(after) { ShortAlike(s.db, after); }
  }

  /** One status change followed by a warm-up before the worker has run: the next query
      answers with the old row. */
  lemma WarmUpServesOldStatus(e: string, was: Row, st: string, c: int)
    requires FieldsFit(AgentStatus(e, st, c)) && Seen(was) != Row(st, c)
    ensures var s := State(map[], map[e := was], [], [], NoQuery, map[e := was]);
            var f := Apply(Apply(s, Change(e, st, c)), WarmUp);
            Fresh(s) && f.truth[e] == Row(st, c) && Answer(f, Ask(e)) == Status(Seen(was)) != Status(Row(st, c))
  {
  }

  /** A change that overflows the queue keeps the layer coherent exactly when the dropped
      task sets no agent, or one that MySQL does not have, or the one being changed, or
      one with a later task, or a row that stands there without it. */
  lemma OverflowCoherentIff(s: State, e: string, st: string, c: int)
    requires Coherent(s) && Enabled(s, Change(e, st, c)) && FieldsFit(AgentStatus(e, st, c)) && |s.queue| >= MAX
    ensures var d := s.queue[0];
            Coherent(Apply(s, Change(e, st, c)))
            <==> || !d.SetAgent? || d.ext !in s.db || d.ext == e || !NoTaskFor(s.queue[1..], d.ext)
                 || Replay(s.db, s.inFlight)[d.ext] == Row(d.status, d.calls)
  {
    FittingChangeIsSafe(s, e, st, c);
    CoherentStepIff(s, Change(e, st, c));
    QueuedAsMeant(AgentStatus(e, st, c));
    var d := s.queue[0];
    if d.SetAgent? && d.ext in s.db {
      LaterTask(s.queue[1..], SetAgent(e, st, c), d.ext);
      LastRowNone(s.queue[1..], d.ext);
      ReplayRows(s.db, s.inFlight, d.ext);
    }
  }

  /** The same for a call event, which sets no agent itself. */
  lemma CallOverflowCoherentIff(s: State, t: Task)
    requires Coherent(s) && Enabled(s, Call(t)) && |s.queue| >= MAX
    ensures var d := s.queue[0];
            Coherent(Apply(s, Call(t)))
            <==> || !d.SetAgent? || d.ext !in s.db || !NoTaskFor(s.queue[1..], d.ext)
                 || Replay(s.db, s.inFlight)[d.ext] == Row(d.status, d.calls)
  {
    CoherentStepIff(s, Call(t));
    CallsSetNoAgent(t);
    var d := s.queue[0];
    if d.SetAgent? && d.ext in s.db {
      LaterTask(s.queue[1..], Queued(t), d.ext);
      LastRowNone(s.queue[1..], d.ext);
      ReplayRows(s.db, s.inFlight, d.ext);
    }
  }

  /** Where an overflow does lose a status, it loses that agent's alone ... */
  lemma OverflowLosesOne(s: State, e: string, st: string, c: int)
    requires Coherent(s) && Enabled(s, Change(e, st, c)) && FieldsFit(AgentStatus(e, st, c))
    requires |s.queue| >= MAX && s.queue[0].SetAgent?
    ensures var s' := Apply(s, Change(e, st, c)); Served(s') && ReplaysBut(s', {s.queue[0].ext})
  {
    FittingChangeIsSafe(s, e, st, c);
    ServedStepIff(s, Change(e, st, c));
    QueuedAsMeant(AgentStatus(e, st, c));
    var p, truth, x := SetAgent(e, st, c), s.truth[e := Row(st, c)], s.queue[0].ext;
    PushKeepsIff(s, p, truth, {x});
    var s1, s' := s.(queue := TaskQueue.AfterPush(s.queue, p), truth := truth), Apply(s, Change(e, st, c));
    assert Pending(s1) == Pending(s');
    assert forall y :: y in s.db ==> Settled(s1, y) == Settled(s', y);
  }

  /** ... and until that agent's next change, which restores coherence unless it drops
      another status in turn. */
  lemma NextChangeRestores(s: State, x: string, st: string, c: int)
    requires Served(s) && ReplaysBut(s, {x})
    requires Enabled(s, Change(x, st, c)) && FieldsFit(AgentStatus(x, st, c))
    ensures Coherent(Apply(s, Change(x, st, c))) <==> DropSpared(s, SetAgent(x, st, c), {x})
  {
    FittingChangeIsSafe(s, x, st, c);
    ServedStepIff(s, Change(x, st, c));
    QueuedAsMeant(AgentStatus(x, st, c));
    var p, truth := SetAgent(x, st, c), s.truth[x := Row(st, c)];
    PushKeepsIff(s, p, truth, {x});
    var s1, s' := s.(queue := TaskQueue.AfterPush(s.queue, p), truth := truth), Apply(s, Change(x, st, c));
    assert Pending(s1) == Pending(s');
    assert forall y :: y in s.db ==> Settled(s1, y) == Settled(s', y);
    assert {x} - Found(p) == {};
  }

  /** f is s after n more writes of p have been queued, and nothing else about MySQL, the
      worker, or any agent but p's has changed. */
  ghost predicate Filled(s: State, f: State, p: Effect, n: nat) {
    && p.SetAgent? && f.query.NoQuery? && f.db == s.db && f.inFlight == s.inFlight
    && |f.queue| == |s.queue| + n && f.queue[..|s.queue|] == s.queue
    && (forall i :: |s.queue| <= i < |f.queue| ==> f.queue[i] == p)
    && forall x :: x in s.truth && x != p.ext ==> x in f.truth && f.truth[x] == s.truth[x]
  }

  lemma FilledThen(s: State, m: State, f: State, p: Effect, n: nat)
    requires Filled(s, m, p, 1) && Filled(m, f, p, n)
    ensures Filled(s, f, p, n + 1)
  {
    assert f.queue[..|s.queue|] == f.queue[..|m.queue|][..|s.queue|];
    assert f.queue[|s.queue|] == f.queue[..|m.queue|][|s.queue|];
  }

  /** n changes of one agent, none of which overflows. */
  lemma {:induction false} FillQueue(s: State, e: string, st: string, c: int, n: nat) returns (steps: seq<Step>)
    requires s.query.NoQuery? && FieldsFit(AgentStatus(e, st, c)) && |s.queue| + n <= MAX
    ensures Run(s, steps) && CleanRun(s, steps) && Filled(s, Final(s, steps), SetAgent(e, st, c), n)
    decreases n
  {
    if n == 0 {
      return [];
    }
    var step := Change(e, st, c);
    QueuedAsMeant(AgentStatus(e, st, c));
    var m := Apply(s, step);
    var rest := FillQueue(m, e, st, c, n - 1);
    steps := [step] + rest;
    assert steps[1..] == rest;
    FilledThen(s, m, Final(m, rest), SetAgent(e, st, c), n - 1);
  }

  /** Such losses happen: from any two agents' rows, one change of x and then changes of
      another agent until the queue overflows leave MySQL with x's old row for good if
      nothing else follows, while Redis has the new one. */
  lemma OverflowLossIsReachable(x: string, was: Row, st: string, c: int, e: string, st': string, c': int)
    returns (s: State, steps: seq<Step>)
    requires x != e && FieldsFit(AgentStatus(x, st, c)) && FieldsFit(AgentStatus(e, st', c')) && was != Row(st, c)
    ensures Fresh(s) && Run(s, steps) && CleanRun(s, steps) && Coherent(Final(s, steps))
    ensures var f := Final(s, steps);
            && |f.queue| == MAX && Enabled(f, Change(e, st', c'))
            && var f' := Apply(f, Change(e, st', c'));
               && !Coherent(f') && Served(f')
               && x in f'.db && Settled(f', x) == was && x in f'.truth && f'.truth[x] == Row(st, c)
  {
    s := State(map[], map[x := was], [], [], NoQuery, map[x := was]);
    var first := Change(x, st, c);
    QueuedAsMeant(AgentStatus(x, st, c));
    var s1 := Apply(s, first);
    var rest := FillQueue(s1, e, st', c', MAX - 1);
    steps := [first] + rest;
    assert steps[1..] == rest;
    var f := Final(s1, rest);
    assert f.queue[0] == f.queue[..|s1.queue|][0] == SetAgent(x, st, c);
    FreshIsCoherent(s);
    CoherentAlways(s, steps);
    assert NoTaskFor(f.queue[1..], x);
    OverflowCoherentIff(f, e, st', c');
    ReplayRows(f.db, f.inFlight, x);
    FittingChangeIsSafe(f, e, st', c');
    ServedStepIff(f, Change(e, st', c'));
    QueuedAsMeant(AgentStatus(e, st', c'));
    LastRowNone(f.queue[1..], x);
    SettledAfterPush(f, SetAgent(e, st', c'), f.truth[e := Row(st', c')], x);
  }

  lemma FreshIsCoherent(s: State)
    requires Fresh(s)
    ensures Coherent(s)
  {
  }
}
