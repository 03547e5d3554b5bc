# Verification of entcache

entcache puts a cache in front of the SQL driver of ent. This project models what is hard about it and
proves it with Dafny: the protocols that let one caller load a missing key while the others wait, the
invalidation of key-addressed queries, the tape that turns rows into cache entries, and, in the `todo`
example, Relay pagination, filter compilation and in-memory joins. `dafny verify dfyconfig.toml` checks
all of it.

## How the protocols are modelled

Each locking protocol appears twice. An automaton (`NatsLock`, `RedisLock`, `WaitRun`, `Staleness`) holds
the shared state and one program counter per caller. Every server request is one step, so a run is any
interleaving of any number of callers, with crashes, dropped requests, lost replies, expiry and the
passing of time. What is proved of it holds of all its runs. The client code (`NatsKV`,
`RedisClient`, `Waits`, `QueryPath`) is written as classes with the loops and branches of the source, and
each method's contract says that it moves the automaton's caller as the automaton would, whatever
everybody else does between two of its requests. So what is proved about runs holds of that code.

History that the servers do not store (why a key was deleted, who closed a channel, which marks had
landed) is part of the automata's state and never decides a step.

| files | what they model |
|---|---|
| Options, JetStream, NatsLock, NatsTenure, NatsWait, NatsKV | the revision-fenced lock of natscache |
| RedisLock, RedisPoll, RedisClient | the timed, id-fenced lock of rediscache and rueidiscache |
| Waits, WaitRun, LocalCache | the wait-channel table and the stores of lrucache and contextcache |
| MultiLevel | the level hierarchy |
| ChangeSet, Staleness, QueryPath | markers, their garbage collection, and Query around them |
| Recorder, Driver | recorder, repeater, and the release of the lock |
| Pagination | the Todo pager |
| WhereInput | TodoWhereInput.P and UserWhereInput.P |
| Join, EagerLoad | TodoQuery.sqlAll |
| Noders | Client.Noders |

## What was found

Some properties that one would expect turned out to be false. Each has a concrete run or input in the
project, and the exact condition beside it.

- The Redis lock is not fenced. Its value is the client id of a process, so a late release or a late kill
  deletes whatever tenure is in force if that has the same id, exactly (`RedisLock.DelkeyEndsTenure`). A
  caller that outlives its 30 s can so end the tenure of a later caller of its own process, after which two
  callers hold the lock at once (`RedisLock.LateReleaseHarms`).
- An unbroken heartbeat since the win does not protect a Redis tenure either: a waiter may still act on a
  gap it saw before (`RedisLock.OldEvidenceHarms`). An unbroken heartbeat since it was first set does
  (`RedisLock.LockSafety`).
- A Redis waiter reads the lock twice in a poll. If it is in other hands at the first read and gone at the
  second, the poll misses both and waits on, for a client that may have released long ago
  (`RedisPoll.PollMissesBoth`); exactly when a poll ends the wait is `RedisPoll.PollEnds`.
- A NATS lock whose Create got through without its reply, or whose release was dropped, has no holder that
  would release it (`NatsTenure.Orphan`, and exactly when in `NatsTenure.OwnerlessExactly`). It stays in
  force as long as the client that created it is alive (`NatsTenure.OwnerlessLasts`).
- Invalidation is only as good as the relation of ttl and sweep interval. Without any race, rows older than
  a mark can be served if and only if entries never expire, or live longer than the interval plus a
  nanosecond (`Staleness.SafeConfigurations`). The repository's README pairs a five-minute interval with a
  key ttl of an hour (README.md:221-247).
- Even then there are races. A load that a mark overtakes stores its old rows, its own Clear erases the
  mark, and queries that begin later serve those rows (`Staleness.InFlightLoad`); one that waits for such a
  load gets them too (`Staleness.WaiterGetsOldRows`). A mark that lands between the Del and the Clear of an
  eviction is erased (`Staleness.EvictionRace`, with no load in flight at any mark). An eviction by another
  query clears the marker between a query's Get and its Changed (`Staleness.ClearRace`), two marks land out
  of order (`Staleness.OutOfOrder`), or the query itself is slow (`Staleness.SlowQuery`). What they have in
  common is exact, by the time at which the rows were read: for a query in flight `Staleness.StaleExactly`,
  for one that waited `Staleness.WaitersStaleExactly`, for queries to come `Staleness.StaleIfHarmed`.
- Closing a recorder twice stores twice, and the second store comes after the release
  (`Driver.CloseTimes`). A consumer that goes on after a failed Scan has an entry with a hole stored
  (`Recorder.StoresAHole`, and exactly when in `Recorder.PrefixIffNoHole`), one that stops early a prefix,
  and a row stream that ends in an error is stored too (`Recorder.Consume`).
- Two overlapping Adds can leave the levels of the hierarchy with different entries
  (`MultiLevel.OverlapDisagrees`, and exactly when in `MultiLevel.OverlapAgrees`).
- When a page is asked for without its edges, or for zero rows, its has-next or has-previous flag tells
  only whether there are any rows at all (`Pagination.FlagMisleads`, `Pagination.FlagWithoutEdges`).
- After an Add or Del that failed at some level, an older entry can come back from that level or one below
  (`MultiLevel.MayFindAfter`, `MultiLevel.FailedAddRevivesOld`).
- In both in-process caches a Get that has read an expired entry removes whatever entry the key has by then,
  also one that an Add has just put there (`WaitRun.RemovesLiveEntry`); `WaitRun.WokenReadsTheStore` names it
  among the three ways in which a woken waiter can miss its winner's entry.
- The LRU ignores the empty key and the context cache does not (`LocalCache.EmptyKeyDiffers`). The two caches
  answer a trace alike if and only if no Get finds an entry under it (`LocalCache.SameAnswersExactly`).

## Assumptions

- JetStream's Create and its purge at an expected revision are atomic, and so are the two Redis scripts. A
  JetStream watch starts with the key's latest operation and hands over every later one in order.
- Client ids are unique. Data, lock and heartbeat keys do not collide. Lock keys of NATS do not expire with
  the bucket.
- The SQL server compares composites lexicographically, the And, Or, Not and edge predicates of the ent
  selector mean what their comments say, and field tests are two-valued (no NULLs).
- Values of a sorted column compare like integers.
- A database query reads all its rows at one moment, and a mark tells when its rows were changed.

## Model

| member | source | states |
|---|---|---|
| NatsLock.MutualExclusion | natscache/nats.go:164-242 | in every run, two callers hold one lock un-released only if the earlier holder's heartbeat key was absent at some moment between the two Creates |
| NatsLock.EndOfTenure | natscache/nats.go:187-242 | a tenure that a later one follows was removed before that, by its own holder's release or by a steal that had seen the holder's heartbeat missing during the tenure; both name its revision |
| NatsLock.Fenced | natscache/nats.go:187-242 | a release or steal, however late it arrives, ends the tenure it names and leaves every other live tenure of any key live |
| NatsLock.NoLostWakeUp | natscache/nats.go:208-266 | whoever waits in the watch loop waits for a lock that is present, or a removal is still queued for it |
| NatsLock.WakesUp | natscache/nats.go:245-266 | a queued removal is handed over, and ends the watch loop, after no more deliveries than messages were queued, whatever everybody else does before each |
| NatsLock.RetryBound | natscache/nats.go:196-266 | apart from a closed watcher and a dropped purge, the retry loop runs at most once for each tenure of the key in force during the call |
| NatsLock.RunKeepsInv | natscache/nats.go:164-267 | in every run lock keys are created only when absent and removed only lawfully, and no two callers hold the same tenure |
| NatsLock.StepKeepsInv | natscache/nats.go:164-267 | every request, delivery, cancellation, heartbeat change or data change keeps that invariant, and the stream only grows |
| NatsLock.AppendKeepsCallerInv | natscache/nats.go:164-267 | what a caller knows of tenures survives any message but the release of the tenure that it holds |
| NatsLock.LatestBlocks | natscache/nats.go:179-206 | a lock key found present belongs to a tenure newer than those behind all earlier retries of the call |
| NatsLock.ServedWasHeld | natscache/nats.go:168-266 | in every run, a caller is answered only with an entry that its data key held at some moment of the call |
| NatsWait.ReadExactly | natscache/nats.go:168-206 | a read of the data key, at the fast path, at the start of a wait or after a removal, is answered with the entry if it is delivered and the key holds one that decodes, and leads on to the lock, to its holder, or round again if not |
| NatsWait.CreateExactly | natscache/nats.go:179-194 | a Create that gets through makes the caller's tenure exactly if the lock is free; without an answer the caller has no lock, and a taken lock makes it wait for the tenure in force |
| NatsWait.PurgeExactly | natscache/nats.go:187-242 | a release or steal that gets through removes its tenure exactly if that is still in force; a steal asks for a retry in any case |
| NatsWait.WatchExactly | natscache/nats.go:221-226 | the watch has the latest message of the lock key and every later one still to hand over |
| NatsWait.WatchingExactly | natscache/nats.go:229-266 | in the watch loop the next message of the lock key is handed over, and only a removal ends the wait; a closed watcher makes the caller retry, the end of its context makes it fail |
| NatsWait.WaitGoes | natscache/nats.go:196-226 | a wait, with everybody else moving before each of its requests and any of them lost, ends by what they meet: answered with what its first read met, retrying for a lock that is gone or a holder without a heartbeat, whose tenure is then over unless the purge was dropped, failing for a lost lookup or watch, or watching the holder it found |
| NatsTenure.OwnerlessExactly | natscache/nats.go:179-194 | in every run, a lock that is in force has exactly one Create behind it, and no caller holds it if and only if that Create's reply was lost or its caller's release was dropped |
| NatsTenure.OwnerlessLasts | natscache/nats.go:208-266 | a lock that nobody holds or is about to steal stays in force, whatever anybody does, as long as the heartbeat of the client that created it is there |
| NatsTenure.LiveIsAwaited | natscache/nats.go:196-266 | while a lock is in force, no wait for it has ended in a removal or in a certified retry |
| NatsTenure.DeadHolderIsReplaced | natscache/nats.go:208-242 | once the holder's heartbeat is gone for good, a waiter whose next probe and purge get through ends that tenure and retries, whatever everybody else does before each |
| NatsTenure.Orphan | natscache/nats.go:183-194 | a run to such a lock without a holder, by a lost reply or by a dropped release |
| JetStream.PrefixStable | natscache/nats.go:125-162 | a key's past revisions and presence never change as the stream grows |
| NatsKV.ServeFollowsSend | natscache/nats.go:164-267 | each step of the automaton does to the stream what the server does with the client's request |
| NatsKV.DecodeIsReadData | natscache/nats.go:125-147 | what the client decodes from a reply is what the data key held, and nothing for other bytes |
| NatsKV.LockHoldsHolder | natscache/nats.go:179-206 | in every run a lock key that is present holds a client id |
| NatsKV.Cluster.Ask | natscache/nats.go:164-267 | a request may find the stream grown, and its reply is the server's or an error |
| NatsKV.NatsKV.Keepalive | natscache/nats.go:53-72 | an installed id is never replaced; otherwise the heartbeat is put first and the id of a rival goroutine wins |
| NatsKV.NatsKV.RefreshOnce | natscache/nats.go:83-101 | one tick: an update at the known revision is enough if that is right, whatever follows, and a create if the heartbeat is gone, whatever became of the update; a create and a read that are answered always leave the key present and its revision known; without them the revision stays |
| NatsKV.NatsKV.Refresh | natscache/nats.go:74-101 | after a last tick whose create and read would be answered, the heartbeat is present and the revision right, whatever expiry and lost replies did before |
| NatsKV.NatsKV.LockOrWait | natscache/nats.go:164-194 | it wins exactly the tenure its own Create made, hits, must wait, or fails, as the automaton's caller does; a hit brings an entry that the data key held during the call |
| NatsKV.NatsKV.Release | natscache/nats.go:187-189 | the release purges at the revision that its Create returned, and nothing else of the caller changes |
| NatsKV.NatsKV.Wait | natscache/nats.go:196-267 | every result of wait is the automaton's: an entry that the data key held during the wait, a retry that is certified or counted, or an error |
| NatsKV.NatsKV.AwaitHolder | natscache/nats.go:208-220 | a holder without a heartbeat is stolen from at once, and the lock of any other is watched |
| NatsKV.NatsKV.WatchLoop | natscache/nats.go:221-266 | ticks probe the heartbeat, updates are read in order, a closed watcher retries |
| NatsKV.NatsKV.OnUpdate | natscache/nats.go:245-266 | a put goes on waiting; a removal ends the wait with the entry that the data key then holds if there is one and a retry if not |
| NatsKV.NatsKV.StealLock | natscache/nats.go:208-242 | a steal purges exactly the tenure looked up and asks for a retry |
| RedisLock.LockSafety | rediscache/redis.go:144-227 | once a client id has won, nobody wins within 30 s unless a release with that id came between or its heartbeat was missing at some moment since it was first set |
| RedisLock.AfterGrant | rediscache/redis.go:144-146 | the event after a grant is a deletion of that grant, or a grant at least 30 s later |
| RedisLock.DelkeyEndsTenure | rediscache/redis.go:145 | a release or kill ends the tenure in force if and only if that has the client id it names, whoever's tenure it is |
| RedisLock.LateRelease | rediscache/redis.go:204-206 | a release can meet a tenure not its own only if its own ended before by time, by a release of its id, or by a missing heartbeat |
| RedisLock.LateReleaseHarms | rediscache/redis.go:189-227 | a run: a release after 30 s ends the tenure of another caller of the same process, and then two callers hold the lock with all heartbeats unbroken |
| RedisLock.OldEvidenceHarms | rediscache/redis.go:281-323 | a run: a kill that rests on a gap from before a win ends that win although its heartbeat has been present since |
| RedisPoll.PollEnds | rediscache/redis.go:281-323 | one poll of either client, with everybody else moving before each of its requests, any of them lost, and reads as old as they may be: it ends the wait exactly if it sees the lock gone, and then with the entry if there is one, or in other hands, or a holder of its own kind without a heartbeat; it fails exactly if it sees none of that and its first read failed; it kills exactly for such a holder, and a kill that arrives leaves the lock free of it |
| RedisPoll.DeadHolderIsReplaced | rueidiscache/rueidis.go:203-240 | if the heartbeat of a crashed holder is not set again, every poll of a client of its kind whose probe is answered and shows it at most s late ends the wait from 10 s and s after its last SET on, whatever everybody else does, and frees the lock unless it saw it gone or in other hands; a Redis probe has s = 0 |
| RedisPoll.SlowHolderIsReplaced | rediscache/redis.go:281-323 | with reads of the lock answered and at most s late, a poll that begins 30 s and s after the last win of the client ends the wait, heartbeat or not, except exactly when it sees the lock in other hands at its first read and gone at its second while the client is not seen dead |
| RedisLock.Earlier | rueidiscache/rueidis.go:203-240 | what a read of the past shows is the state to which some prefix of the run led, and all that has happened since happened no earlier |
| RedisPoll.PollMissesBoth | rediscache/redis.go:289-307 | a run of that exception: a rival wins before the first read and releases before the second, and the waiter goes on waiting for a client that has released |
| RedisPoll.RueidisFreesDeadHolder | rueidiscache/rueidis.go:203-240 | a run: a Rueidis waiter polls at 25 s, finds no heartbeat of the Rueidis client that won at 0, deletes the lock 5 s before its time, and retries |
| RedisPoll.KillsOwnKind | rediscache/redis.go:306-314 | in every run a waiter probes and kills only clients of its own kind |
| RedisPoll.ReadsShow | rueidiscache/rueidis.go:203-232 | a Redis read shows the present, a Rueidis read of the lock any moment so far, and one of a heartbeat any since it was first set |
| RedisPoll.AcquireExactly | rediscache/redis.go:144-146 | the script grants the lock for 30 s exactly if it is free, and otherwise tells whose it is; without an answer the caller goes on without the lock |
| RedisPoll.DeleteExactly | rediscache/redis.go:145 | a release or kill that gets through deletes the lock exactly if it holds the id |
| RedisLock.HeartbeatEnds | rediscache/redis.go:149-186 | a heartbeat that is not set again ends 10 s after its last SET |
| RedisLock.GrantRunsOut | rediscache/redis.go:146 | from 30 s after its last win on, a client does not hold the lock |
| RedisLock.OthersMove | rueidiscache/rueidis.go:169-245 | nobody moves a caller but itself, and neither time nor history runs back |
| RedisLock.RunKeepsInv | rediscache/redis.go:144-227 | in every run, with stale Rueidis reads too, the lock key is what the last grant or deletion left, and every deletion is a release of the id or a kill that saw its heartbeat missing |
| RedisLock.StepKeepsInv | rueidiscache/rueidis.go:169-245 | every step of either client keeps that invariant |
| RedisLock.GrantTimes | rediscache/redis.go:146 | the events of one lock come in the order of their times |
| RedisClient.Redis.Keepalive | rediscache/redis.go:166-186 | an id is installed only after its heartbeat was set; a failed SET installs none; an installed id stays |
| RedisClient.Redis.LockOrWait | rediscache/redis.go:189-227 | it wins, waits for the id that the script returned, or fails, as the automaton's caller does |
| RedisClient.Redis.Release | rediscache/redis.go:204-206 | the release runs the deleting script once, with the caller's own id |
| RedisClient.Redis.WaitPoll | rediscache/redis.go:281-323 | the loop polls at each tick, and its result is the automaton's |
| RedisClient.Redis.Poll | rediscache/redis.go:281-300 | a lock seen gone ends the poll with a read of the data key |
| RedisClient.Redis.CheckHolder | rediscache/redis.go:295-310 | a lock held by another id asks for a retry |
| RedisClient.Redis.ProbeHolder | rueidiscache/rueidis.go:210-240 | a holder seen without a heartbeat is deleted by the script and asks for a retry |
| RedisClient.Redis.Refresh | rediscache/redis.go:149-164 | whatever everybody else does meanwhile, the heartbeat key is present at every moment of the loop if and only if no SET lands 10 s or more after the one before |
| Waits.LockStaysSound | lrucache/lru.go:119-135 | taking or making a channel keeps each channel listed, under its own key only, exactly until its only close |
| Waits.WakeStaysSound | lrucache/lru.go:82-87 | so does the wake-up, after which the key has no channel |
| Waits.WaitTable.LockOrWait | lrucache/lru.go:119-135 | whoever finds no channel wins with a new open one, the others get the listed one, which is open |
| Waits.WaitTable.Wake | contextcache/context.go:112-115 | whatever channel is under the key is closed and leaves the table, and no closed one is closed again |
| Waits.WaitTable.Release | lrucache/lru.go:138-145 | a release closes the caller's own channel if it is still listed and changes nothing otherwise |
| WaitRun.ChannelsSound | lrucache/lru.go:119-147 | under every interleaving each channel is closed at most once, is in the table exactly while open, and has exactly one winner |
| WaitRun.OneWinner | contextcache/context.go:128-156 | no two callers hold open channels of one key |
| WaitRun.NotStranded | lrucache/lru.go:82-87 | a blocked waiter is let go by the wake-up of any Add under its key and by the release of its winner |
| WaitRun.LateReleaseIsFenced | lrucache/lru.go:138-145 | a release that comes after its channel was closed touches no later channel |
| WaitRun.WokenReadsTheStore | lrucache/lru.go:64-107 | a waiter is answered with the entry added by the caller that closed its channel, or a newer one, unless that or a newer one was lost after that Add: by a deletion or eviction, by an Add to a context cache with negative ttl, or by a Get that had read an expired entry |
| WaitRun.CloserKept | lrucache/lru.go:82-87 | who closed a channel, and what it had stored by then, is settled once and for all |
| WaitRun.GoneMeansLost | lrucache/lru.go:92-117 | an entry is gone only by one of those three |
| WaitRun.GotSane | lrucache/lru.go:92-106 | a Get that sees an unexpired entry sees the newest, one that sees none means that nothing ever added under the key is left, and only an entry whose expiry is strictly past counts as expired |
| WaitRun.ReadSees | lrucache/lru.go:92-106 | the Get of a woken waiter answers with an unexpired entry, sets out to remove an expired one, and answers with nothing if there is none |
| WaitRun.AnswerWasLive | lrucache/lru.go:92-135 | in every run a waiter is answered only with an entry that was unexpired when it read it, and sets out to remove one only if it read one that had expired |
| WaitRun.LiveIsAnswered | lrucache/lru.go:92-135 | and a woken waiter that reads an unexpired entry is answered with it |
| WaitRun.RemovesLiveEntry | lrucache/lru.go:97-105 | a run, in either cache: a Get reads an expired entry, an Add puts one that never expires, and the Get removes that |
| WaitRun.EnterExactly | contextcache/context.go:128-146 | who comes to a key with an open channel waits for that channel, and otherwise wins with a new one |
| WaitRun.AddedSane | contextcache/context.go:102-118 | an Add makes its entry the newest, with the expiry that the ttl asks for in that cache |
| WaitRun.StepKeepsInv | lrucache/lru.go:64-147 | every critical section of either cache keeps the table and store invariants |
| WaitRun.RunKeepsInv | contextcache/context.go:87-156 | and so does every run |
| LocalCache.Lru.AddStore | lrucache/lru.go:64-81 | the key has the new entry, which expires after its ttl or, with ttl 0, never; other keys keep theirs unless evicted; the empty key is ignored |
| LocalCache.Lru.Get | lrucache/lru.go:92-106 | an entry is found exactly if the key is not empty and has one that has not expired; an expired one is gone afterwards; other keys keep theirs |
| LocalCache.Lru.Del | lrucache/lru.go:109-116 | the key has no entry afterwards, unless it is empty, and other keys keep theirs |
| LocalCache.ContextCache.Add | contextcache/context.go:102-118 | with a negative ttl the key has no entry afterwards, and else the new one, which expires after a positive ttl and never for ttl 0; the waiters wake in the same critical section |
| LocalCache.ContextCache.Get | contextcache/context.go:87-100 | an entry is found exactly if the key has one that has not expired; an expired one is gone afterwards; other keys keep theirs |
| LocalCache.ContextCache.Del | contextcache/context.go:120-126 | the key has no entry afterwards, other keys keep theirs, and the waiters stay |
| LocalCache.LruTrace | lrucache/lru.go:64-116 | the LRU, run on a trace, gives the answers of its specification |
| LocalCache.CtxTrace | contextcache/context.go:87-126 | so does the context cache, so that SameAnswersExactly holds of the two classes |
| LocalCache.SameAnswersExactly | contextcache/context.go:87-126 | any trace of Add, Get and Del, with any keys and ttl, gets the same answers from both caches while the LRU evicts nothing if and only if no Get of the empty key comes while the last Add or Del under it has left an unexpired entry |
| LocalCache.SameAnswers | contextcache/context.go:87-126 | in particular every trace that adds nothing under the empty key, other than with a negative ttl, gets the same answers |
| LocalCache.AgreementLasts | lrucache/lru.go:64-116 | the same if and only if from any two stores that differ only in entries that have expired and in what the context cache has under the empty key |
| LocalCache.EmptyKeyDiffers | lrucache/lru.go:66-68 | with the empty key the two caches answer differently |
| MultiLevel.RefinesOneMap | cache_multi.go:20-50 | in every run of calls that do not overlap, in which the last write of a key returned no error, Get finds what that write left, fails, or finds nothing because every level has lost it |
| MultiLevel.LevelsAgree | cache_multi.go:20-28 | then every level that has the key holds the entry of the last Add, and none has it after a Del |
| MultiLevel.OverlapAgrees | cache_multi.go:20-50 | when calls interleave level by level, a Get can find only what one write left, whatever is lost, if at every level that write or a Del came last; without losses, exactly then |
| MultiLevel.LastCallDecides | cache_multi.go:20-50 | it does at every level that the last call reaches after all others |
| MultiLevel.LevelHoldsLast | cache_multi.go:20-50 | a level holds what was written there last, or nothing |
| MultiLevel.OverlapDisagrees | cache_multi.go:20-28 | two overlapping Adds without any error leave two levels with different entries, and a Get may find either |
| MultiLevel.LookupFinds | cache_multi.go:30-40 | Get answers with the first level that has the key or fails, and not found means that no level does either |
| MultiLevel.MayFindAfter | cache_multi.go:20-28 | after a write that stopped at some level, losses let a Get find exactly what it wrote, if it got anywhere, and what the levels below still hold |
| MultiLevel.MayFindIff | cache_multi.go:30-40 | some losses let a Get find an entry if and only if some level holds it |
| MultiLevel.FailedAddRevivesOld | cache_multi.go:20-28 | an Add that fails below the first level lets the old entry come back |
| MultiLevel.MultiLevel.Add | cache_multi.go:20-28 | the levels down to the first error get the entry, the others keep theirs, and the error is returned |
| MultiLevel.MultiLevel.Del | cache_multi.go:42-50 | the levels down to the first error lose the key |
| MultiLevel.MultiLevel.Get | cache_multi.go:30-40 | nothing changes, and the answer is that of the first level that has the key or fails |
| ChangeSet.ChangeSet.constructor | changeset.go:22-31 | a sweep interval that is not positive becomes five minutes |
| ChangeSet.ChangeSet.Mark | changeset.go:33-45 | exactly the string keys given get the new marker |
| ChangeSet.ChangeSet.Changed | changeset.go:47-61 | true exactly for a string key with a marker strictly after the given time |
| ChangeSet.ChangeSet.Clear | changeset.go:63-73 | exactly the string keys given lose their marker |
| ChangeSet.ChangeSet.Sweep | changeset.go:87-104 | exactly the markers strictly older than the interval are pruned, in whatever order the map is ranged over, and the others stay as they are |
| Staleness.StaleExactly | driver.go:180-188 | in every run, whatever races and however slow the query, with ttl <= interval + 1 ns: a query that asks the change set answers stale exactly if the rows of its entry were read before a mark that had landed when it began, and the last mark or Clear before its Changed is not a mark within the last ttl |
| Staleness.StaleIfHarmed | driver.go:180-248 | in any run with 0 < ttl <= interval + 1 ns or ttl < 0, a new query could be answered stale at some point if and only if some earlier step added rows that a mark had overtaken since they were read, cleared the marker of an unexpired entry with such rows, or overwrote it with a mark not after that entry's Add |
| Staleness.NeverStale | driver.go:180-188 | without such a step, no query serves rows read strictly before a mark that had landed when it began, if the entry was unexpired at its Changed and no Clear or out-of-order mark came between its Get and its Changed |
| Staleness.WouldBeStaleIfExposed | driver.go:180-188 | a new query could be answered stale exactly if an unexpired entry is cached whose rows were read before the latest mark, without a marker after its Add |
| Staleness.ExposedByHarm | driver.go:180-247 | an entry gets into that state exactly by such a step |
| Staleness.MarkerIsLastWord | changeset.go:33-104 | the marker is the last mark that no Clear came after, unless a sweep pruned it when it was older than the interval |
| Staleness.WaitersNeverStale | driver.go:207-226 | in a run without a harmful step, whatever the configuration, a query that is served by waiting never gets rows read before a mark that had landed when it began |
| Staleness.WaitersStaleExactly | driver.go:207-226 | in every run and any configuration, what a query gets by waiting was stored after every mark that had landed when it began, so it is stale exactly if such a mark landed between the read of the rows and their Add |
| Staleness.LoadersNeverStale | driver.go:228-236 | a query that loads reads its rows after every mark that had landed when it began |
| Staleness.AddHarmsExactly | driver.go:228-247 | the Add of a load is a harmful step exactly if a mark later than its read has landed by then |
| Staleness.SparedLoads | driver.go:228-247 | if no load is between its read and its Add when a mark lands, no Add is harmful |
| Staleness.HarmlessRunIsTimely | driver.go:228-247 | in a run without a harmful step every entry, cached or waited for, has rows no older than the marks that had landed at its Add |
| Staleness.LastMarkIsLatest | changeset.go:33-45 | the history of marks that the others rest on: the latest mark is after t exactly if some mark after t has landed |
| Staleness.ServedWasLive | driver.go:178-226 | in every run and any configuration, what a query is served from the cache, at once or by waiting, was cached and unexpired at the moment of that Get |
| Staleness.LiveIsServed | driver.go:207-226 | and a wait that comes back while such an entry is cached is served it |
| Staleness.LookupExactly | driver.go:178-226 | a Get finds the cached entry exactly if its ttl is 0 or not strictly past, and leaves none behind otherwise |
| Staleness.CheckExactly | driver.go:180-188 | a found entry is served unless a marker within the last ttl is there; then it is deleted, the marker cleared, and the query goes on as a miss |
| Staleness.EntryWasLoaded | driver.go:228-247 | in every run a cached entry was stored by a load at the time it says, with rows read by that load at the time it says |
| Staleness.LoadExactly | driver.go:204-247 | a miss loads, or waits and goes round on a retry; a load reads its rows at one moment, stores them at another, and then clears the marker |
| Staleness.SweepExactly | changeset.go:87-104 | a sweep that is due prunes the marker exactly if it is older than the interval at that tick |
| Staleness.BaredExactly | driver.go:180-188 | a query counts as disturbed exactly if, between its Get and its Changed, somebody cleared the marker or a mark not after its entry landed |
| Staleness.SafeConfigurations | changeset.go:87-104 | some run without a harmful step has a prompt query that serves rows older than a mark before it if and only if ttl is 0 or ttl exceeds the interval by more than a nanosecond |
| Staleness.NoExpiryIsStale | driver.go:180-188 | a run with ttl 0 that serves rows older than a mark |
| Staleness.LongTtlIsStale | changeset.go:87-104 | a run in which the sweep prunes the marker of an entry that is still live |
| Staleness.InFlightLoad | driver.go:228-247 | a run in which a mark lands between the read and the Add of a load, the load's Clear erases it, and a prompt query begun after the mark serves the old rows though their entry is newer than the mark |
| Staleness.WaiterGetsOldRows | driver.go:204-247 | a run in which a query begun after the mark waits for that load and gets the old rows |
| Staleness.ClearRace | driver.go:180-188 | a run in which another query's eviction clears the marker between Get and Changed |
| Staleness.EvictionRace | driver.go:180-188 | a run in which a mark lands between the Del and the Clear of an eviction, with no load in flight, and is lost |
| Staleness.OutOfOrder | changeset.go:33-45 | a run in which a mark that read its time first lands last, and a prompt query serves a stale entry though nothing was cleared |
| Staleness.SlowQuery | driver.go:178-188 | a run in which a query asks the change set a whole ttl after its Get, and serves a stale entry though nobody else did anything |
| Staleness.RunKeepsInv | driver.go:159-251 | in every run a query that has evicted, missed or waited never meets a cached entry stored before the marks it began with, nor loads rows read before them |
| Staleness.StepKeepsInv | driver.go:159-251 | every step of a query, mark, sweep, loss or tick keeps that |
| Staleness.HarmlessRunKeeps | driver.go:159-251 | in a run without a harmful step every unexpired entry with rows older than a mark, cached or in the hands of an undisturbed query, has a marker after its Add |
| QueryPath.KeyedDriver.Query | driver.go:159-251 | one call, whatever others do between its requests, ends as the automaton's query does; an entry is served only if it was unexpired at its Get, and one that a wait finds so is served; what it waited for was stored after every mark that landed before the call; without a harmful step its rows were read after those marks too, and so were those of a cached entry under the conditions of NeverStale |
| QueryPath.KeyedDriver.FromCache | driver.go:178-195 | a hit that has changed since is deleted and its marker cleared, and the query goes on as a miss |
| QueryPath.KeyedDriver.LockLoop | driver.go:204-226 | retries go round; the loop ends with the entry that a wait found unexpired, or with the load |
| QueryPath.KeyedDriver.LoadAndStore | driver.go:228-247 | the rows are read, then stored, then the marker is cleared; a failure of the first or second ends the load |
| QueryPath.Site.Take | changeset.go:33-104 | the change set's own methods keep the marker in step with the automaton |
| Recorder.RawCopy.Scan | driver.go:342-352 | the next slot gets the value, and a byte slice is copied into fresh memory |
| Recorder.CopyCells | driver.go:369-380 | a row is copied so that it shows what the driver's row showed and shares no memory with it |
| Recorder.Assign | driver.go:374-386 | the consumer gets the row unless some column does not fit its destination |
| Recorder.Recorder.Next | driver.go:363-367 | the recorder notes when the rows are drained |
| Recorder.Recorder.Scan | driver.go:369-386 | a scan that succeeds tapes exactly the current database row and hands it on; one that fails tapes nothing |
| Recorder.Recorder.Columns | driver.go:388-395 | the column names are recorded exactly when the consumer asks for them and gets them |
| Recorder.Recorder.Close | driver.go:397-413 | an entry with all taped rows is stored exactly when the rows closed well, there was no error or they were drained, and it is not an empty result to be skipped; the lock is released last and at most once |
| Recorder.Consume | driver.go:363-413 | for every consumer that scans once after each true Next, with any outcome of each Scan and going on after failed ones or not, the entry is exactly the rows whose Scan succeeded, outside the driver's buffers, under the column names if it asked for them; it is stored unless the rows close badly or it is an empty result to be skipped |
| Recorder.TakenIsSubsequence | driver.go:369-386 | those rows, each once and in the order of the database |
| Recorder.PrefixIffNoHole | driver.go:369-413 | they are a prefix of the database rows if no failed Scan comes before one that succeeds, and only then if the rows differ; they are the whole result exactly if all of it was scanned without failure |
| Recorder.StoresAHole | driver.go:379-411 | the first row does not fit, the consumer goes on, and the entry has the second row alone |
| Recorder.ReadRows | driver.go:363-386 | the tape is the rows whose Scan succeeded, and the recorder is done exactly if the consumer asked for more rows than there are |
| Recorder.Repeater.Scan | driver.go:439-450 | the next row is shown and dropped, or, if it does not fit, kept |
| Recorder.Replay | driver.go:417-450 | a repeater shows exactly the entry's columns and rows and leaves the shared entry as it is |
| Driver.Driver.QueryWithStampedeLock | driver.go:204-251 | a hit, with the columns and rows of the entry, exactly when the last wait brought one; a failed query releases the lock at once; otherwise the recorder holds the lock exactly if it was won with a release function |
| Driver.MissLife | driver.go:204-251 | over every lock outcome, database error, outcome of each Scan and number of Closes, a lock won with a release function is released exactly once, and with one Close only after the store |
| Driver.CloseTimes | driver.go:397-413 | n Closes release once; something is stored after the release if and only if n > 1 and Close stores |
| Driver.NextClose | driver.go:397-413 | what one more Close adds to releases and to stores after a release |
| Pagination.Paginate | examples/todo/ent/gql_pagination.go:333-427 | errors exactly for both of first and last, or a negative one; the edges are the first or last n rows strictly between the cursors in the requested order, or by ascending id without one, the has-next or has-previous flag tells exactly whether there are more, and the total is the full filtered count if that is asked for and the number of edges if not |
| Pagination.FetchPage | examples/todo/ent/gql_pagination.go:374-427 | fetching one row more, in reversed order for last, and dropping it gives that page and its cursors |
| Pagination.ToEdges | examples/todo/ent/gql_pagination.go:398-420 | the edges show the nodes, turned back round for last, each with its own cursor |
| Pagination.PagesTile | examples/todo/ent/gql_pagination.go:333-427 | walking forward with first = n, or backward with last = n, shows every filtered row exactly once in the requested order, for every field and direction |
| Pagination.WalkEnds | examples/todo/ent/gql_pagination.go:333-427 | a walk exists and ends in either direction: it needs at most one page more than there are rows |
| Pagination.CursorsSelectWindow | examples/todo/ent/gql_pagination.go:75-136 | the cursor predicates hold of a row exactly when it lies strictly between the cursors |
| Pagination.WindowAtRow | examples/todo/ent/gql_pagination.go:306-318 | the window after the cursor of a row is what follows that row, and before it what precedes it |
| Pagination.ApplyOrderSorts | examples/todo/ent/gql_pagination.go:320-330 | the order clause sorts in the requested order or its reverse, with the id as tie-breaker |
| Pagination.ListIsList | examples/todo/ent/gql_pagination.go:320-330 | the ordered list has every row exactly once, and there is only one such list |
| Pagination.OrdersMean | examples/todo/ent/gql_pagination.go:429-536 | each order field compares its own column and puts that column and the id into its cursors |
| Pagination.QueryReturnsWindow | examples/todo/ent/gql_pagination.go:374-396 | the query without its limit returns the window, mirrored for last |
| Pagination.TrimmedIsPage | examples/todo/ent/gql_pagination.go:383-420 | the limit of n + 1, trimmed to n, leaves the page and tells whether there is more |
| Pagination.AskFlag | examples/todo/ent/gql_pagination.go:349-427 | for first and last: with edges and n > 0 the flag that Paginate returns tells whether the window holds more than n rows; else it tells whether there are rows, which without cursors is right exactly if there are none or more than n |
| Pagination.FlagWithoutEdges | examples/todo/ent/gql_pagination.go:349-372 | that flag is right for all rows, orders and cursors if and only if the query selects the edges and n > 0 |
| Pagination.FlagMisleads | examples/todo/ent/gql_pagination.go:349-372 | one row, asked for its first five without edges, is promised a next page |
| WhereInput.TodoP | examples/todo/ent/gql_where_input.go:97-328 | P succeeds exactly when every input in the tree carries some condition, and its predicate then holds of a row exactly when all conditions that are set do |
| WhereInput.UserP | examples/todo/ent/gql_where_input.go:380-515 | the same for users, through the mutual recursion |
| WhereInput.TodoList | examples/todo/ent/gql_where_input.go:105-140 | a list compiles exactly when each of its inputs does, to predicates of the same meanings in the same order |
| WhereInput.UserList | examples/todo/ent/gql_where_input.go:305-319 | the same for the users of an owner condition |
| WhereInput.Scalars | examples/todo/ent/gql_where_input.go:141-263 | a predicate for each scalar condition that is set, an empty list not being one |
| WhereInput.Pieces | examples/todo/ent/gql_where_input.go:106-140 | the shortcuts for no, one and many inputs mean "some" for or and "all" for and |
| WhereInput.EdgePieces | examples/todo/ent/gql_where_input.go:265-319 | an edge condition asks for some neighbour, for none, or for one neighbour that satisfies all the nested inputs |
| WhereInput.JoinedMeans | examples/todo/ent/gql_where_input.go:320-327 | the final shortcut means that all conditions hold |
| Join.ChildrenMean | examples/todo/ent/todo_query.go:457-485 | a node's children are the neighbours with its id as foreign key, each once and in the order of the query |
| Join.AttachedOnce | examples/todo/ent/todo_query.go:475-485 | every neighbour that belongs to a node is attached exactly once, and with distinct ids every node has all of its own |
| Join.KeyMeans | examples/todo/ent/todo_query.go:487-541 | a parent or owner is a neighbour with the foreign key, and is missing exactly when none has it |
| Join.KeyIsUnique | examples/todo/ent/todo_query.go:487-541 | among distinct ids it is the only one |
| Join.NextShare | examples/todo/ent/todo_query.go:475-485 | the next neighbour goes to the node of its foreign key and to no other |
| EagerLoad.Scan | examples/todo/ent/todo_query.go:417-448 | the nodes are fresh, in the order of the rows, with foreign keys only if they are scanned |
| EagerLoad.LoadChildren | examples/todo/ent/todo_query.go:457-485 | it asks for the ids of the nodes, fails exactly when some neighbour's parent key is nil or not the id of a node, and otherwise each node, the last if several have one id, gets exactly the neighbours with its id for their parent key, in their order |
| EagerLoad.LoadParent | examples/todo/ent/todo_query.go:487-514 | the distinct parent keys of the nodes are asked for, it fails exactly when something else comes back, and otherwise each node's Parent is the neighbour that its parent key names, or nil |
| EagerLoad.LoadOwner | examples/todo/ent/todo_query.go:516-541 | the same for Owner with the owner key |
| EagerLoad.GroupByFk | examples/todo/ent/todo_query.go:488-499 | the distinct foreign keys, and for each exactly the nodes that have it |
| EagerLoad.SqlAll | examples/todo/ent/todo_query.go:417-544 | it succeeds exactly when every query it makes returns only what it was asked for, and every requested edge is then loaded and every other left empty |
| Noders.Noders | examples/todo/ent/gql_node.go:242-300 | for two ids or more, position j holds what the lookup of ids[j] finds, whatever order the tables come in, and the errors of the failed positions are recorded in order; one id fails as a whole |
| Noders.LinesUp | examples/todo/ent/gql_node.go:242-300 | position j holds the row with ids[j] in its table, and is nil exactly when the id does not resolve, its table is unknown, that table's query fails or has no such row, with an error recorded exactly then, duplicates included |
| Noders.ErrorsSayWhy | examples/todo/ent/gql_node.go:242-340 | the recorded error is that of the resolver, of the unknown table or of the table's query, wrapped with the id if it says not-found, and otherwise not-found for the id |
| Noders.NoderFinds | examples/todo/ent/gql_node.go:203-240 | a single id gets its row in its table, or the error, wrapped with the id if it says not-found |
| Noders.ReportsInOrder | examples/todo/ent/gql_node.go:288-299 | the errors are recorded in the order of the positions |
| Noders.TableNoders | examples/todo/ent/gql_node.go:303-340 | the result of one table lines up with its ids, duplicates included; an unknown table is an error |
| Noders.Group | examples/todo/ent/gql_node.go:254-269 | each table is asked for exactly the ids that resolve to it, and each id knows all its positions |
| Noders.Scatter | examples/todo/ent/gql_node.go:271-286 | a value or error goes to every position of its id and to no other |
| Noders.ReportsMean | examples/todo/ent/gql_node.go:288-299 | each position has at most one recorded error, the one that its lookup calls for |

## Left out

- The keyspace-event wait of rediscache: its wake-up depends on when a subscription takes effect, which is not visible here.
- WatchInvalidations and its relay through the levels.
- Gob encoding, SQL text, key hashing and convertAssign. Entries are numbers or rows of contents; a value that does not decode or does not fit is a case of its own.
- "Exactly one database load": a waiter that wakes without data, or whose lock request fails, loads on its own, so tenures are what is shown not to overlap.
- The driver's options from the context, its statistics other than hits, and the queries it passes through untouched.
- The cache errors other than not-found in Driver.Query, which go straight to the database.
- The LockOrWait of the level hierarchy, which delegates to the first level that can lock.
- The pager's filter option and its errors, and an order direction that is neither ascending nor descending.
- The pager and the loader of User, generated from the same templates as those of Todo.
- The text of filter errors: the compiler's error is one value, and which input of the tree was empty is not told.
- WhereInput.Scalars: does not model the names of the scalar fields; they are a list of field, operator and operand, so a generated line that pairs a field with the wrong operator is not seen.
- A filter whose pointers form a cycle, or whose lists hold nil.
- A level hierarchy that lists one cache twice.
- The loadedTypes flags of eager loading, which say what was asked for.
- Which entry the data key of Redis holds: the model knows only whether a read brings one.
- NatsKV.NatsKV.Refresh: does not bound how long the heartbeat stays present, because the effect of an update on the key's ttl is known only from a comment.
- MultiLevel.RefinesOneMap: does not cover calls on one key that overlap, because the property is false of them; OverlapAgrees says when it holds.
- The clock that Changed compares with is read just before the lock of the change set; here both are one step.
- RedisPoll.DeadHolderIsReplaced: does not say how late a Rueidis read is, because the client-side cache decides that; it is the parameter s.
- NatsTenure.OwnerlessExactly: counts as holder a caller that crashed after its Create, which is one that is never scheduled again.
- The wire encoding of cursors: a cursor is passed back as it is. The source omits an empty value from the encoding, so a sort value of zero may come back as no value, and the comparison is then by id alone.
