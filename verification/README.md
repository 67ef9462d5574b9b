# Call-centre server: a verified model

The server answers SIP over UDP, keeps TCP clients in an epoll loop, routes calls with a
Lua script, and stores agents and calls in MySQL behind a Redis cache. This project models
five parts of it and proves what they are for.

| Part | Files | Main results |
|---|---|---|
| MySQL connection pool | `MysqlPool`, `PoolProtocol`, `PoolSplit`, `PoolTiming` | no connection is ever lent twice or reset while lent; no leak; no lost wake-up; exactly which runs fail when the unlocked stores are taken one by one; reconnect attempts are spaced by the backoff, for any number of threads and any schedule |
| Write-behind queue and cache | `TaskText`, `TaskQueue`, `WorkerProtocol`, `CacheAside` | the linked list stays well formed; nothing is lost or reordered except the oldest task on overflow; every push-free run of the stopped worker drains; task text round trip (if and only if); a query returns the status set last through any overflow; exactly which steps MySQL survives without loss |
| SIP parser and responses | `CText`, `SipMessage`, `SipRequest`, `SipResponse`, `SipDispatch` | the header loop refines a split into lines; a printed request is read back whole; every response parses again and echoes the request; no answer is ever answered |
| Event loop | `SendBuffer`, `ConnectionTable`, `EventLoop`, `LoopRun` | descriptors and slots correspond one to one through re-entrant removal; the byte stream on the wire under partial writes; both over whole runs of the loop |
| Routing script | `Departments`, `Routing`, `Router`, `RoutingSafety`, `Isolation`, `WaitQueue`, `RetryCounters`, `FairDispatch`, `InviteAnswer` | exact condition for the isolation of outside callers; wait-queue history; retry counters; bounded waiting of idle agents; an INVITE is answered 100 and then one of four codes |

`Options` and `Counting` are shared helpers. Where the program changes state in place, a class
carries the same fields (`MysqlPool.Pool`, `TaskQueue.Queue`, `EventLoop.EventLoop`,
`Router.Router`) and its methods are proved against functions; the step systems are built from
the same functions. Runs are arbitrary finite sequences of steps, so a theorem about the final
state of a run holds at every moment of every run.

`dafny verify dfyconfig.toml` checks everything.

Where the code and what is said about it differ, the model follows the code:

- `db_mysql_pool_borrow` takes a timeout, but a lone borrower with nothing to lend and a slot
  down never reaches the timed wait while the server stays down
  (`PoolTiming.StrandedBorrowerNeverTimesOut`). While somebody else reconnects he does.
- The coordinator publishes a slot in two stores and broadcasts without the lock. Taken
  literally the first can lend a connection twice and the second can lose a wake-up.
  `PoolSplit` says in exactly which runs (`SplitLeaseIff`, `SplitWakefulIff`) and shows one of
  each; `PoolProtocol.PoolSafety` takes the claim of `reconnecting`, the publication of a slot
  and the closing step as atomic, which is what the comment at src/db_mysql.c:151 intends.
- An overflow, an online/offline call (its MySQL status never reaches the cached status) and a
  warm-up with writes pending can each leave MySQL or the cache with an old row; for each the
  exact condition is proved. What an overflow loses, MySQL misses until that agent's next change.
- A NULL department is packed as an empty field, which ends the worker's scan early
  (`TaskText.EmptyDepartmentLosesStartTime`).
- The SHUTDOWN task is an ordinary push and costs a full queue its oldest task.
- A status of more than 31 characters is cut on its way to MySQL, and an online call for an
  extension of more than 31 sets another agent offline (`TaskText.LongExtensionGoesOffline`).
- A blank Content-Length takes its value from whatever follows the line, a further header line or
  the body (`SipResponse.LengthFromOwnLineIff`).
- The idle clean-up spares only TCP listeners, so it also reaps the UDP SIP socket.
- The script calls its choice of agents a rotation, but routing calls never update an agent, so
  there is no rotation without the updates that are left to others
  (`FairDispatch.NoRotationWithoutStamps`).

## Model

| member | source | states |
|---|---|---|
| `MysqlPool.Pool.constructor` | src/db_mysql.c:24-54 | the size asked for, the default 8 for none, 32 for more; all slots down and free, backoff 1 |
| `MysqlPool.Pool.SlotConnect` | src/db_mysql.c:80-121 | the slot afterwards for each way connecting can end, and nothing else changed |
| `MysqlPool.Pool.ConnectAll` | src/db_mysql.c:123-137 | every slot is tried once, the active count is the number of successes, one is enough |
| `MysqlPool.Pool.TryReconnect` | src/db_mysql.c:149-195 | an attempt is admitted exactly when nobody reconnects and the backoff has passed; a refused one changes nothing; an admitted one reconnects exactly the slots that were down, recounts, and sets the next backoff by whether all came up |
| `MysqlPool.Pool.BorrowScan` | src/db_mysql.c:214-225 | the first free connected slot is marked in use, or there is none and nothing changes |
| `MysqlPool.Pool.Return` | src/db_mysql.c:245-258 | the first slot with the handle is released and no other slot changes |
| `PoolProtocol.PoolSafety` | src/db_mysql.c:80-258 | in every run of any number of threads: lent handles are distinct and their slots connected and in use; slots in use equal borrowers; no lost wake-up; one coordinator with a right total and backoff in 1..30 |
| `PoolProtocol.InvariantAlways` | src/db_mysql.c:149-258 | the whole invariant is kept by every run from any state that has it |
| `PoolProtocol.LeaseStep` | src/db_mysql.c:80-258 | each single step, atomic or split, keeps the exclusive lease unless it is a second store that finds its slot taken |
| `PoolProtocol.ReconnectSparesLentSlots` | src/db_mysql.c:80-121 | reconnecting neither closes nor resets a slot that is lent out |
| `PoolProtocol.InvReturn` | src/db_mysql.c:245-258 | a return with its signal keeps lease, counts and wake-up guarantee |
| `PoolProtocol.InvScan` | src/db_mysql.c:214-242 | a scan that lends, turns coordinator or goes to sleep keeps them too |
| `PoolSplit.SplitLeaseIff` | src/db_mysql.c:80-258 | with the two stores of a publication apart, the lease is exclusive at every moment of a run if and only if no second store finds its slot taken |
| `PoolSplit.SplitWakefulIff` | src/db_mysql.c:192-257 | with the broadcast outside the lock, no wake-up is lost at any moment of a run if and only if, outside a reconnect, nobody goes to sleep beside more free slots than woken borrowers and nobody woken gives up a scan owed to a sleeper |
| `PoolSplit.LockedBroadcastSuffices` | src/db_mysql.c:192-193 | if no coordinator finishes while a borrower is about to wait, and nobody gives up such a scan, no wake-up is lost |
| `PoolSplit.SplitPublicationLendsTwice` | src/db_mysql.c:118-119 | a concrete run in which one handle is lent to two threads |
| `PoolSplit.LateBroadcastIsLost` | src/db_mysql.c:192-240 | a concrete run that leaves a borrower asleep beside a free slot |
| `PoolSplit.LateTimeoutIsLost` | src/db_mysql.c:235-241 | a concrete run in which a signalled borrower times out and another sleeps on beside the returned slot |
| `PoolTiming.ReconnectStormBound` | src/db_mysql.c:149-195 | n admitted incomplete attempts from backoff 1 span at least 2^n - 2 seconds (n up to 5) and 30(n-4) seconds (n from 5), whatever the clocks read in between |
| `PoolTiming.AdmittedIff` | src/db_mysql.c:152-162 | an attempt that is due is admitted and one that is not is refused, to the second |
| `PoolTiming.FinishOutcome` | src/db_mysql.c:178-194 | an attempt leaves the number of slots up, every sleeper awake, and backoff 1, or twice the last up to 30 |
| `PoolTiming.EveryoneCanMove` | src/db_mysql.c:200-258 | no thread is ever stuck, and no clock reading or connect outcome is ruled out |
| `PoolTiming.WhereTheyGo` | src/db_mysql.c:235-258 | where a thread is after a timeout, a wake-up, a return |
| `PoolTiming.StrandedBorrowerNeverTimesOut` | src/db_mysql.c:226-242 | a lone borrower with nothing to lend, a slot down and a dead server never gets to the timed wait |
| `PoolTiming.StrandedIsReachable` | src/db_mysql.c:226-242 | such borrowers are reached from a pool that could not connect |
| `PoolTiming.ScanLendsOrSleepsIff` | src/db_mysql.c:214-242 | a scan lends or sleeps exactly when a slot is free, all are connected, or somebody is reconnecting |
| `TaskText.RoundTrip` | src/db_sync.c:128-230 | items come back from the 512-byte buffer if and only if each fits its conversion, and then nothing is truncated |
| `TaskText.TaskRoundTrip` | src/db_sync.c:128-230 | the same for each kind of task; with C ints the database effect is the one meant if and only if every field fits |
| `TaskText.FieldsFitIff` | src/db_sync.c:186-224 | the fields that come back whole, kind by kind, with their widths |
| `TaskText.PackedText` | src/db_sync.c:128-162 | the text of each kind of task |
| `TaskText.MinimumConversions` | src/db_sync.c:193-222 | how many conversions each kind needs to have an effect |
| `TaskText.LongStatusIsCut` | src/db_sync.c:190-197 | a status over 31 characters reaches the database cut, with no calls |
| `TaskText.LongExtensionGoesOffline` | src/db_sync.c:198-206 | an online call for a longer extension sets another agent offline |
| `TaskText.EmptyFieldInCallStart` | src/db_sync.c:207-216 | what an empty field leaves of a call start |
| `TaskText.EmptyDescriptionStillEnds` | src/db_sync.c:217-229 | a call without a description is still ended |
| `TaskText.BudgetOf` | src/db_sync.c:186-224 | the scanf widths of each kind alone keep its text within 512 bytes |
| `TaskText.AgentStatusDelivered` | src/db_sync.c:128-197 | a status update is delivered as meant if and only if both texts are 1 to 31 characters without a bar |
| `TaskText.EmptyDepartmentLosesStartTime` | src/db_sync.c:143-216 | an empty department still inserts the call, with department and start time read from buffers nobody wrote |
| `TaskText.ScanStopsAtEmpty` | src/db_sync.c:186-224 | an empty field ends the scan at exactly the items before it |
| `TaskText.ScanAllFits` | src/db_sync.c:186-224 | whatever text arrives, a scan delivers only items within the widths |
| `CText.StoreIntWraps` | src/db_sync.c:193-222 | a number of up to 64 bits keeps its low 32, a longer one gives -1 or 0 |
| `CText.ScanOfPrint` | src/db_sync.c:128-197 | every int that is printed reads back as itself when no digit follows |
| `TaskQueue.Queue.Push` | src/db_sync.c:67-100 | the new task is appended, a full queue first gives up its oldest, the list stays acyclic and linked head to tail |
| `TaskQueue.Queue.Pop` | src/db_sync.c:102-122 | the oldest task leaves, or null on an empty queue after shutdown |
| `TaskQueue.Queue.DrainAfterShutdown` | src/db_sync.c:168-250 | the worker loop stops on an empty queue after handling each queued task once, in order |
| `TaskQueue.Queue.Destroy` | src/db_sync.c:48-65 | every node of the list is visited once, in order, and none is left |
| `WorkerProtocol.HistoryAlways` | src/db_sync.c:67-122 | in every run: removed tasks then queued tasks are the pushed ones; handled tasks and the one in hand are the popped ones; at most 10000 queued |
| `WorkerProtocol.HandledInOrder` | src/db_sync.c:168-250 | handled tasks are a subsequence of the pushed ones, each from its own push |
| `WorkerProtocol.DropsOldestWhenFull` | src/db_sync.c:67-100 | a push loses a task exactly when the queue is full, and then the oldest |
| `WorkerProtocol.ShutdownDrains` | src/db_sync.c:168-250 | in every run without pushes from a stopped state: worker steps taken plus steps left is constant, the worker can go on until it exits, exits on an empty queue, and has then handled its task and the whole queue, in order |
| `WorkerProtocol.WorkerProgressIff` | src/db_sync.c:102-122 | the worker has something to do exactly while it holds a task, tasks wait, or it is told to stop |
| `WorkerProtocol.EveryTaskAccountedFor` | src/db_sync.c:351-375 | after any run and any push-free run to the exit, each accepted task was dropped or handled, once |
| `WorkerProtocol.StoppingAFullQueueDropsATask` | src/db_sync.c:351-369 | stopping a full queue loses its oldest task to the SHUTDOWN task |
| `CacheAside.QueryReturnsLastStatus` | src/db_sync.c:440-605 | after any safe run, through any overflows and with worker steps inside the query, a query answers with the status set last, cut to the 31 characters that its buffer holds; the whole status if and only if it is no longer |
| `CacheAside.QueryCompletes` | src/db_sync.c:556-598 | a hit is answered at once; a miss is answered from MySQL and fills the cache; an agent in neither is not found |
| `CacheAside.AnsweredThenHits` | src/db_sync.c:587-592 | once answered, every later query about the agent is a hit with the status set last, until his entry is evicted |
| `CacheAside.WarmUpFills` | src/db_sync.c:682-716 | after a warm-up Redis holds every row of MySQL's and what it held besides |
| `CacheAside.SeenWhole` | src/db_redis.c:464-470 | what is read back is the whole row exactly up to 31 characters |
| `CacheAside.ServedStepIff` | src/db_sync.c:440-605 | a step keeps the cache right, and everything uncached current in MySQL, if and only if it is safe |
| `CacheAside.CoherentStepIff` | src/db_sync.c:440-605 | a step keeps cache, pending tasks and database together one synchronous map if and only if it is safe and lossless |
| `CacheAside.CoherentAlways` | src/db_sync.c:440-605 | every clean run keeps them so |
| `CacheAside.PushKeepsIff` | src/db_sync.c:67-100 | a push keeps MySQL on its way if and only if the dropped task is spared and the pushed one sets what the map says |
| `CacheAside.ReplayRows` | src/db_sync.c:168-250 | replaying effects leaves in each row what was set last, or the old row |
| `CacheAside.DatabaseCatchesUp` | src/db_sync.c:168-250 | the worker left alone takes exactly the outstanding steps, and then MySQL holds the synchronous map on its rows |
| `CacheAside.TruthIsLastSet` | src/db_sync.c:440-461 | the synchronous map holds what was last set |
| `CacheAside.OnlineCoherentIff` | src/db_sync.c:463-481 | an online/offline call keeps coherence exactly when a full queue spares its oldest task and it writes the row already cached |
| `CacheAside.AppendCoherentIff` | src/db_sync.c:463-481 | any agent write that bypasses the cache does so exactly when the agent is cached, that row was set last and a full queue spares its oldest task |
| `CacheAside.WarmUpCoherentIff` | src/db_sync.c:682-716 | a warm-up keeps coherence exactly when the pending writes change no row as queries see it, and with short statuses no row at all |
| `CacheAside.WarmUpServesOldStatus` | src/db_sync.c:682-716 | a concrete change and warm-up after which a query answers with the old row |
| `CacheAside.OverflowCoherentIff` | src/db_sync.c:67-100 | a change that overflows keeps coherence exactly when the dropped task sets no agent of MySQL's, or the changed one, or one with a later task, or a row that stands without it |
| `CacheAside.CallOverflowCoherentIff` | src/db_sync.c:67-100 | likewise a call event that overflows |
| `CacheAside.OverflowLossIsReachable` | src/db_sync.c:67-100 | a run of changes to a full queue after which one more loses a status to MySQL |
| `CacheAside.OverflowLosesOne` | src/db_sync.c:67-100 | an overflow harms MySQL's row of the dropped agent alone, and no query |
| `CacheAside.NextChangeRestores` | src/db_sync.c:440-461 | that agent's next change restores coherence exactly when it drops no other news |
| `SendBuffer.SendStream` | src/event_loop.c:339-398 | under any partial writes the wire carries one prefix of each accepted message in call order, short only if replaced, failed, or pending with EPOLLOUT armed |
| `SendBuffer.RunKeepsStream` | src/event_loop.c:638-686 | the stream invariant, with offsets within 0..65536, is kept by every run of sends and writable events |
| `SendBuffer.SendOutcome` | src/event_loop.c:339-398 | success means all taken, or part with EPOLLOUT armed for the rest; "full" means over 65536 bytes |
| `SendBuffer.WritableOutcome` | src/event_loop.c:638-686 | an event fails only for pending bytes refused, and disarms EPOLLOUT once nothing is pending |
| `SendBuffer.SendFate` | src/event_loop.c:339-398 | the result tells the message's fate, and a pending message is marked replaced |
| `SendBuffer.ResumeFate` | src/event_loop.c:638-686 | resuming completes, leaves pending, or fails exactly when an error is reported |
| `ConnectionTable.IdleAreSwept` | src/event_loop.c:513-535 | just the active clients and UDP sockets unused for the timeout or longer are freed |
| `ConnectionTable.RoomBelowCapacity` | src/event_loop.c:404-414 | below capacity a free slot exists |
| `ConnectionTable.LiveFdsListedOnce` | src/event_loop.c:213-241 | the descriptors of live slots in slot order are all of them, each once |
| `EventLoop.EventLoop.AllocConnection` | src/event_loop.c:404-414 | the first free slot zeroed, or none exactly at capacity |
| `EventLoop.EventLoop.AddConnection` | src/event_loop.c:247-287 | fails only for a bad descriptor, a full table or a refusal by epoll; else one slot, counter and ownership move together |
| `EventLoop.EventLoop.RemoveConnection` | src/event_loop.c:289-301 | a live slot is closed, freed and counted out once; a free slot is left alone |
| `EventLoop.EventLoop.DefaultOnError` | src/event_loop.c:688-707 | the double removal through on_close removes and closes once |
| `EventLoop.EventLoop.HandleAccept` | src/event_loop.c:435-477 | as many are registered as there is room for and arrive well before the end; every accepted socket is registered or closed, and existing connections are undisturbed |
| `EventLoop.EventLoop.AcceptOne` | src/event_loop.c:435-568 | registration happens exactly when there is room and both set-up calls succeed |
| `EventLoop.EventLoop.CleanupIdle` | src/event_loop.c:513-542 | frees exactly the active non-listening slots idle for the timeout, closing each once, and changes no other slot |
| `EventLoop.EventLoop.Destroy` | src/event_loop.c:213-241 | closes every live descriptor exactly once with on_close default or NULL |
| `EventLoop.EventLoop.SendData` | src/event_loop.c:339-398 | a slot's buffer and result as the stream model prescribes, other slots unchanged |
| `EventLoop.EventLoop.DefaultOnWrite` | src/event_loop.c:638-686 | resumes the pending bytes, or removes the connection once on error |
| `EventLoop.EventFreesIff` | src/event_loop.c:479-511 | which events end a connection, and what the survivors keep |
| `EventLoop.StaleEvent` | src/event_loop.c:479-511 | a stale event leaves a freed slot free, an error unusable until it is allocated again |
| `EventLoop.EventLoop.HandleClientEvent` | src/event_loop.c:479-511 | what any event, also a stale one on a freed slot, leaves in its own slot; no other slot changes and the table stays sound |
| `LoopRun.RunLoop` | src/event_loop.c:138-204 | over any batches, clean-ups, sends, registrations and removals: table and descriptors stay sound, and at every moment each live connection's wire carries one prefix of each message given to it since it was accepted |
| `LoopRun.HandleReady` | src/event_loop.c:165-186 | one event of a batch: skipped, accepting, or handled on its slot alone |
| `LoopRun.MomentFollows` | src/event_loop.c:138-204 | whatever an act does to the table, every live connection's stream goes on or starts afresh |
| `SipMessage.GatherHeaders` | src/sip_handler.c:102-175 | the header loop stops within the data and takes exactly the lines before the first blank one |
| `SipMessage.ParseHeaders` | src/sip_handler.c:102-175 | each field is the cut value of the last line with its name (any case), and the body offset lies behind the blank line |
| `SipMessage.GatheredFields` | src/sip_handler.c:134-171 | taking lines one at a time leaves each field its last value |
| `SipMessage.OneName` | src/sip_handler.c:134-171 | no header name matches two fields |
| `SipMessage.TakeBody` | src/sip_handler.c:267-277 | the body is the next min(Content-Length, remaining, 4095) bytes |
| `SipMessage.ParseMessage` | src/sip_handler.c:225-280 | start line, fields, users and body as the specification puts them together, or the start line's error |
| `SipMessage.ParsedFieldsClean` | src/sip_handler.c:102-175 | whatever bytes arrive, stored fields are within width, free of CRLF and do not start with a blank |
| `SipMessage.CallerAndCallee` | src/sip_handler.c:246-265 | the caller is the From header's user and the callee the To header's, cut to 15 characters |
| `SipRequest.RequestReads` | src/sip_handler.c:50-280 | a printed request is read back whole: method, URI, every header within its width, and the body up to 4095 bytes |
| `SipRequest.BodyIs` | src/sip_handler.c:267-277 | the body is what Content-Length announces, as far as it is there, up to 4095 bytes |
| `SipRequest.StartRefusedIff` | src/sip_handler.c:57-80 | what a start line is refused for |
| `SipRequest.StartAccepted` | src/sip_handler.c:67-96 | when a start line is accepted, and the code, method and URI it gives |
| `SipRequest.ValidIff` | src/sip_handler.c:282-314 | which messages are let through, and what is missing from the others |
| `SipRequest.AnyCase` | src/sip_handler.c:13-30 | letters match in either case, everything else only itself |
| `SipMessage.UserOfUri` | src/sip_handler.c:177-223 | behind "sip:", else "SIP:", else the first colon, else from the start: what stands before '@', else before ':', else before ';' or the end, cut to the buffer |
| `SipMessage.MethodNamed` | src/sip_handler.c:13-48 | a text is read as a method exactly when it is that method's name in any case |
| `SipResponse.RequestLineReads` | src/sip_handler.c:50-100 | a well-formed request line yields its method, its URI and the offset behind it |
| `SipResponse.StatusLineReads` | src/sip_handler.c:67-71 | a printed status line yields its code and the offset behind it |
| `SipResponse.ResponseRoundTrip` | src/sip_handler.c:455-485 | for any parsed message, positive code and CRLF-free reason up to 800 bytes, the response fits 2048 bytes and parses to that code and those fields |
| `SipResponse.RequestEcho` | src/sip_handler.c:455-485 | the response to a valid request carries its Call-ID, From, To, CSeq, and Via when present (section 8.2.6.2 of RFC 3261) |
| `SipResponse.ResponseFits` | src/sip_handler.c:455-482 | the field widths keep a response under 2048 bytes |
| `SipResponse.LengthFromOwnLineIff` | src/sip_handler.c:169-171 | a Content-Length is read from its own value if and only if that is not blank or what follows reads as zero |
| `SipResponse.LengthFromOwnLine` | src/sip_handler.c:169-171 | a value that is not blank is read from its own line alone |
| `SipResponse.BlankLengthReadsOn` | src/sip_handler.c:169-171 | a blank value is read from whatever follows the line |
| `SipResponse.BlankLengthReadsTheBody` | src/sip_handler.c:169-171 | an instance: behind an empty value and a blank line, from the start of the body |
| `SipDispatch.EveryReplyEchoes` | src/sip_handler.c:415-577 | each reply to a valid datagram is sent, and parses with its code and the datagram's fields |
| `SipDispatch.RepliesAre` | src/sip_handler.c:381-453 | the answer to each method other than a complete INVITE |
| `SipDispatch.InviteRepliesAre` | src/sip_handler.c:325-378 | the answers to a complete INVITE for each routing code, with their phrases |
| `SipDispatch.InvalidIgnored` | src/sip_handler.c:555-572 | what cannot be parsed or is invalid is answered with nothing |
| `SipDispatch.NoAnswerToAnAnswer` | src/sip_handler.c:415-577 | whatever is sent in answer to a datagram is answered with nothing |
| `InviteAnswer.InviteIsAnswered` | src/sip_handler.c:316-379 | in every routing state an INVITE with caller and callee gets 100 and then one of 180, 404, 480, 486, determined by the routing code, both echoing it |
| `InviteAnswer.CallIsRouted` | src/sip_handler.c:338-340 | the script is asked about the call from the From user to the To user |
| `Departments.DepartmentTable` | lua/route.lua:66-85 | which numbers belong to which department |
| `Departments.KeysAndDoors` | lua/route.lua:66-93 | the four keys lead to exactly the departments open to the outside |
| `Departments.MembersAre` | lua/route.lua:120-131 | a department's extensions are the numbers of its range, each and no other |
| `Departments.DeptOfNumberIs` | lua/route.lua:297-306 | the department found for a number is the only one whose range holds it, in whatever order the table is walked |
| `Departments.MemberOfOne` | lua/route.lua:66-85 | no extension belongs to two departments |
| `Departments.OpenIsNotInternal` | lua/route.lua:66-85 | no number is both open to the outside and internal |
| `Routing.LoadedAgents` | lua/route.lua:103-117 | on loading, the agents are exactly the departments' extensions, all idle |
| `Routing.DefaultNumbers` | lua/route.lua:23-61 | the limits and lists that the script ships with |
| `Routing.StateChange` | lua/route.lua:161-172 | what a change of state does to the agent, and that it is his alone |
| `Routing.CallsNeverNegative` | lua/route.lua:161-172 | in no run does an agent's call count go below zero |
| `Routing.FirstIdleDeptSpec` | lua/route.lua:328-338 | the overflow search finds the first listed department other than the excluded one with someone idle, or there is none |
| `Routing.FirstChoiceValid` | lua/route.lua:146-158 | the first of the longest idle is a valid choice for every department |
| `Router.Router.constructor` | lua/route.lua:103-117 | loading leaves the specified tables |
| `Router.Router.CountIdle` | lua/route.lua:134-143 | the number of idle members, positive exactly when someone is idle |
| `Router.Router.PickIdle` | lua/route.lua:146-158 | the first of the longest-idle members, or none |
| `Router.Router.SetAgentState` | lua/route.lua:161-172 | one agent's state, time and call count change, no other agent's |
| `Router.Router.QueuePush` | lua/route.lua:180-188 | append when there is room, else false and no change |
| `Router.Router.QueuePop` | lua/route.lua:190-194 | the caller at the front leaves |
| `Router.Router.QueueCleanup` | lua/route.lua:202-214 | the in-place loop removes exactly the expired callers of every queue, keeping the order |
| `Router.Router.CheckAgentStatus` | lua/route.lua:399-449 | cleans the queues and tells offline, full or free by who is online and idle |
| `Router.Router.FindOverflow` | lua/route.lua:328-338 | the first listed department with someone idle |
| `Router.Router.OverflowRoute` | lua/route.lua:455-506 | reply and tables of the four-level overflow |
| `Router.Router.InvalidKeyFallback` | lua/route.lua:567-600 | reply and counter of a bad key |
| `Router.Router.TimeoutFallback` | lua/route.lua:607-636 | reply and counter of a silence |
| `Router.Router.GetIvrRoute` | lua/route.lua:348-394 | reply and tables of a key press |
| `Router.Router.TimeJudgeRoute` | lua/route.lua:510-558 | day, night duty or voicemail, by who is on duty |
| `Router.Router.RouteCall` | lua/route.lua:711-734 | reply and tables of a whole call, equal to the specification |
| `Router.Router.ResetCounts` | lua/route.lua:840-843 | both counters of one caller are cleared |
| `RoutingSafety.RouteAnswers` | lua/route.lua:344-734 | route_call never raises and never gives a code outside 0..9, so never 99 |
| `RoutingSafety.DialledAnswer` | lua/route.lua:348-506 | the exact code a pressed key gets, by who is idle, online and willing to take the overflow |
| `RoutingSafety.DialledOutcome` | lua/route.lua:348-506 | the same code from the agents' states and the number waiting |
| `RoutingSafety.SentElsewhere` | lua/route.lua:371-506 | the targets of those who are not put through to the dialled department |
| `RoutingSafety.OverflowSends` | lua/route.lua:455-506 | an overflow goes to support while anybody there is idle, then to the first listed department that has somebody |
| `RoutingSafety.NightOutcome` | lua/route.lua:510-558 | at night the night department answers while anybody there is idle or talking, else voicemail |
| `RoutingSafety.AskedAgain` | lua/route.lua:567-636 | a bad key or silence asks again without a target, or hands to support |
| `RoutingSafety.StatusAnswer` | lua/route.lua:399-449 | the answer of the status interface, 99 for a department that does not exist |
| `RoutingSafety.ExternalIff` | lua/route.lua:308-325 | exactly who counts as an outside caller |
| `RoutingSafety.ExtensionIsInternal` | lua/route.lua:308-325 | every department's extension is an inside caller |
| `RoutingSafety.OverflowCode` | lua/route.lua:455-506 | code 5 exactly when support and all eligible departments have no one idle and there is room, 7 when there is none |
| `RoutingSafety.QueuedMeansWaiting` | lua/route.lua:180-188 | code 5 means the caller was appended to the dialled department's queue, any other code that nobody was |
| `RoutingSafety.PutThroughToLongestIdle` | lua/route.lua:146-158 | an outside caller is put through to an idle agent whom no idle colleague has waited longer than, or to the fallback number when no one is idle |
| `RoutingSafety.InternalRefusedForCallee` | lua/route.lua:642-706 | an internal caller gets code 1 exactly when the callee is in no department, never on his own account; offline, busy and reached callees get the short number, the number and the number |
| `RoutingSafety.OpenConfigIsolates` | lua/route.lua:308-734 | with open settings every outside caller gets an open number or none, and never an internal one |
| `Isolation.IsolationIff` | lua/route.lua:308-734 | over all reachable states, outside callers are isolated if and only if fallback number, night department and overflow list are open |
| `Isolation.DefaultIsOpen` | lua/route.lua:23-61 | the shipped configuration is open |
| `WaitQueue.CleanPrefix` | lua/route.lua:202-214 | in an arrival-sorted queue the clean-up removes exactly the expired prefix |
| `WaitQueue.UnexpiredIff` | lua/route.lua:202-214 | the clean-up keeps exactly those who have waited no longer than the limit |
| `WaitQueue.StepQueue` | lua/route.lua:180-214 | every call keeps what it must and appends at most the caller it answers, within the limit |
| `WaitQueue.WaitQueueHistory` | lua/route.lua:180-214 | in every run with a clock that does not go back: joined callers are those who left, in order, then those waiting; the queue is sorted; who left unserved had waited too long, and after a clean-up nobody is left who has |
| `WaitQueue.QueueWithinLimit` | lua/route.lua:180-188 | no queue is ever longer than a bound on the configured limit |
| `RetryCounters.BadKeyFallsBackIff` | lua/route.lua:567-600 | a caller's j-th bad key since reset goes to a person exactly when the limit divides j, whatever others do |
| `RetryCounters.SilenceFallsBackIff` | lua/route.lua:607-636 | likewise his j-th silence, when j is even |
| `RetryCounters.StepCounts` | lua/route.lua:565-636 | each step moves only the acting caller's counter |
| `FairDispatch.HandsOutLongestIdle` | lua/route.lua:146-158 | whoever is dispatched has been idle longest in the department |
| `FairDispatch.KeyDispatches` | lua/route.lua:371-393 | a key of a department with someone idle, pressed in working hours, always reaches an idle agent |
| `FairDispatch.NotBeforeColleague` | lua/route.lua:146-172 | no agent is dispatched again after an update of his while a colleague idles without one |
| `FairDispatch.WaitIsBounded` | lua/route.lua:146-172 | while an idle agent waits his department dispatches each colleague at most once |
| `FairDispatch.StrictClockIsFresh` | lua/route.lua:161-172 | strictly increasing clock readings give every update a newer time than all agents have |
| `FairDispatch.NoRotationWithoutStamps` | lua/route.lua:146-158 | two dispatches with no update between go to agents with the same time of last change, and the first agent is a permitted choice again |

## Left out

- Sockets, epoll, the MySQL client, hiredis and the Lua C API: their answers are parameters of the steps. MySQL and Redis statements are taken to succeed; degraded modes without cache or database are not modelled.
- The pool's unlocked accesses: the claim of `reconnecting` (src/db_mysql.c:152-162), the publication of a slot (lines 118-119) and the coordinator's closing step (lines 178-193) are atomic in `PoolSafety`. `PoolSplit` divides the publication, and the borrower's fruitless scan from his wait, so that the closing step may fall between them; the claim, the closing step and a failed connect each stay one step.
- A wait that was signalled is never reported as timed out in `PoolProtocol.PoolSafety`; `PoolSplit` has that step and its exact condition. Clock readings are integers of unbounded width.
- `mysql_close` on a slot whose borrower still works after the pool is destroyed, and pool destruction itself.
- `CacheAside.QueryReturnsLastStatus`: is about extensions of at most 242 characters, since longer ones share a Redis key of 256 bytes, and takes the caller's own buffer to hold 31 characters, as the buffers at src/db_redis.c:464 and src/db_sync.c:574 do.
- MySQL's column types (an enumerated status, extensions of 16 characters) are not part of this model; rows hold any text.
- HMSET is modelled by its intended effect; src/db_redis.c:343-357 leaves the last argument cell unfilled. SQL text, the other tables and the session keys of calls are not part of this model.
- Cache entries for departments, the DEPT_IDLE task (nothing pushes it) and the worker with MySQL disabled.
- The warm-up of agents is one step; a status change cannot fall inside it. MySQL values of a query that find no row are reported as not found.
- The display name of From, logging, and the call log ring; `get_recent_logs` reads the wrong range once the ring wraps.
- Compact header names, folded lines, several Via lines, To tags and transactions, which the parser does not attempt. A message holds no NUL.
- Pending UDP sends: `default_on_write` passes no destination, so the stream theorem is about TCP.
- `LoopRun.RunLoop`: the time since the last clean-up is not kept, so a clean-up may come after any act; the idle callback and errors of epoll_wait are not modelled.
- The send buffer is a sequence inside its slot's record rather than a separate array.
- `Router.Router.PickIdle`: takes the first in walking order among equals instead of running a sort; the specification and all theorems about routing allow any choice among equals.
- Lua's `tonumber` is a parameter: the theorems hold for every reading of number texts. The working-hours test is a parameter too, so both outcomes are covered at every moment.
- The wording of descriptions and prompts, working-hours texts, and queries of status and configuration, which only report.
- `Routing.Route`: one clock reading serves a whole call, while the script reads the clock separately for the clean-up (line 203) and the push (line 186).
- Hot configuration updates replace the whole modelled configuration at once, with values of the types the script itself uses.
