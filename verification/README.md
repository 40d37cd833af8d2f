# A model of the valkey-ldap authentication module

`valkey-ldap` answers Valkey's `AUTH` command by asking LDAP servers. This project models its
concurrent back end and the decisions built on top of it, and proves what they keep.

| file | what it models |
|---|---|
| `ConnectionQueue.dfy`, `ConnectionPool.dfy` | the queue of idle connections of one server, and the bodies of the pool operations under the mutex, as classes |
| `PoolProtocol.dfy`, `PoolInvariants.dfy`, `PoolTheorems.dfy` | takers, returners, refreshers and shutdowns interleaving on one pool, with the `notify_wait!` idiom taken apart into its steps; connections that go astray from it and connections of other pools that are handed in |
| `ServerTable.dfy` | the table of servers and pools, as a class |
| `Failover.dfy` | the failover loop of one login that nobody disturbs, against a recursive walk down the list |
| `FailoverProtocol.dfy`, `FailoverTheorems.dfy` | any number of failover loops and health probes and one configuration actor over the table |
| `TrafficProtocol.dfy`, `PoolTraffic.dfy`, `TrafficRuns.dfy` | the table and all pools as one step system; where the connections of a pool come from and go to; runs in which pools fail |
| `ServerList.dfy` | setting the list of servers |
| `LdapErrors.dfy` | the error values and their classes |
| `GroupRules.dfy` | merging ACL rule tokens of all groups |
| `Login.dfy` | the operation of one login, with the shared result cell, across retries |
| `AclTokens.dfy`, `Auth.dfy` | what ACL rules do to a user, and the AUTH callbacks over the ACL store |
| `AuthRuns.dfy` | runs of logins over one ACL store, with configuration changes in between, carried out or not |
| `Scheduler.dfy`, `OneShot.dfy` | the job scheduler and the result cells of its synchronous submits |

`dafny verify dfyconfig.toml` checks all of it.

Concurrency is modelled by step systems: a state, the steps that are enabled in it, and their
effect. A step is what one task does without another being able to interfere; where the code holds
a lock over several actions, no other task can reach the same data in between. A run starts in the
initial state and makes any number of steps; `Reachable` means "the last state of a run". Fields
marked as history are only written, never read, by steps. What comes from outside (whether a
connection can be opened, what a directory answers, whether a submission is accepted) is a
parameter of the step or method, and every theorem holds for all of its values.

## Results

Pool. Queued and outstanding connections add up to the pool size after a successful reset, plus
those that strayed in from other pools, less those that went astray; so to the size itself exactly
when the two balance (`Conservation`). Every connection is in exactly one place. With all at home
no wake-up is lost and a shutdown can complete, wherever it stands; and in a filled pool of positive
size, a sleeper has somebody to wait for and nothing deadlocks. Elsewhere a taker can be stranded:
after a shutdown, by a login that took its reference to the pool before the list was cleared
(`LateTakerIsStranded`), and after a refresh that failed (`FailedRefreshStrandsTaker`). When not all
are at home, the one step that loses a wake-up is a take from a queue longer than the size by one
while a shutdown sleeps (`WakeupLostExactlyWhen`); `StrayBreaksThePool` and `LossBlocksShutdown` are
the runs in which a pool fails.

All pools and the table together. In every run of the joint step system (`TrafficProtocol.dfy`) a
pool has had a foreign connection or lost one of its own exactly when the list was cleared between
the two halves of a probe of it; logins never do that, and two of them never have the same
connection. So a pool is sound as long as no such clear happened and no dropped probe had a task in
it, and no probe is dropped before one has panicked (`UndisturbedPoolIsSound`, `CutNeedsPanic`).
`DisturbedPoolsCanFail` is a run with two changes of the list, one under a probe, after which the
shutdowns of both pools sleep for nobody. `PanicCanStrandTaker` is a run in which the panic of one
probe stops the refresh that another was making, and a taker stays asleep beside a queue that is
not empty; a drop loses a wake-up in that case and no other (`DropLosesWakeupExactlyWhen`).

Failover. The failed iterations of one loop are at most the servers healthy at its first lookup
plus the gains since, whatever all the others do; each loop hands back what it took; undisturbed,
the loop is the recursive walk. Which status is written is told by the outcome of the ping, the
connection, the refresh or the operation (`PingDecidesStatus` and its neighbours); it reaches its own
server exactly when the list was not cleared since the server was copied.

Authentication. Whoever is let in was accepted by a directory, with the DN that this directory names
for the user, and gets the rules that it lists (`HandledMeansVouched`); every other reply has the
answer of its class (`ReplyAnswers`). Local authentication is reached from a reply exactly when fallback is enabled and
the loop ended for want of a server. A login removes its user exactly when the first directory that
kept the connection denied it, and the user was not exempt if unknown there. Over every run, carried
out or not, the password that is locally accepted is told by a recursion over the events
(`LocalCheckIsExact`), and some directory has accepted it. It is the one that LDAP's latest decision
meant exactly when that decision was carried out, or was held before (`SafetyExactlyWhen`).
`RefusalMustRemove`, `RefusedRulesKeepOldPassword` and `ProtectedUserKeepsPassword` show how that
fails: a stale password survives for a user that `ACL DELUSER` does not remove, on the not-found
path while the user is exempt, and when `ACL SETUSER` fails.

Scheduler. The shutdown message is the last of its channel, a stop that has sent it can always
finish, and when it returns every accepted job has been dispatched once and in order. A client
crashes only after a completed stop or on a lock that a stop poisoned. A synchronous submit returns
its own task's result, and never returns if the task panics.

## Where code and documentation differ

The model follows the code.

- README.md:92 says that only "user not found" deletes a user. Any decided refusal does, a wrong
  password (src/auth.rs:87-105) and a refused bind of the service account
  (`Auth.ServiceAccountFailureDeletes`) included. `Auth.LoginRemovesExactlyWhen` has the exact
  condition on the directory's answers.
- README.md:90 says that exempted users are never deleted. The refusal path does not look at the
  exemption again, so a user exempted while a login is in flight can be deleted
  (`AuthRuns.ExemptUserIsDeleted`).
- README.md:249 calls the server list comma separated; it is split at single spaces
  (src/configs.rs:217).
- The URL comparison in `update_server_status` compares a slot with itself (src/vkldap/context.rs:96-99);
  only the index bound rejects an update, and a stale one hits whatever server is in that slot
  (`FailoverTheorems.StaleUpdateHitsAnother`).
- A probe of the failure detector hands its connection back through a fresh lookup by index, which
  after a change of the list is another server's pool or out of bounds (`FailoverTheorems.ProbeCanMiss`).
  That pool accepts it if the epochs happen to be equal (src/vkldap/connection.rs:160), and may then
  hold more connections than its size, one of them to another server.
- When a probe panics, the other probes of its iteration are dropped with it (src/vkldap/failure_detector.rs:63-73),
  in the middle of a refresh too (`TrafficRuns.PanicCanStrandTaker`), and the failure detector never
  runs again, because its synchronous submit never returns (`OneShot.PanickedSubmitNeverReturns`).
- A client that asked whether the scheduler is ready can still meet a stopped one
  (`Scheduler.LateSubmitIsPossible`).

## Model

| member | source | states |
|---|---|---|
| `ConnectionQueues.ConnectionQueue.constructor` | src/vkldap/connection.rs:26-32 | a new queue is empty, of epoch 0 and size 0 |
| `ConnectionQueues.ConnectionQueue.CloseConnections` | src/vkldap/connection.rs:34-39 | closes the queued connections in order and leaves only the queue changed |
| `ConnectionQueues.ConnectionQueue.ResetConnections` | src/vkldap/connection.rs:41-62 | succeeds exactly when every attempt does; new epoch and size, and either a full batch or nothing queued, with everything else closed |
| `ConnectionQueues.ConnectionQueue.Take` | src/vkldap/connection.rs:72-75 | takes from the back, with the current epoch |
| `ConnectionQueues.ConnectionQueue.Put` | src/vkldap/connection.rs:77-79 | puts to the front |
| `ConnectionPool.VkConnectionPool.constructor` | src/vkldap/connection.rs:116-130 | a new pool holds the queue of the protocol's initial state |
| `ConnectionPool.VkConnectionPool.TakeConnection` | src/vkldap/connection.rs:149-154 | the end of take_connection is the protocol's TakeOut |
| `ConnectionPool.VkConnectionPool.ReturnConnection` | src/vkldap/connection.rs:157-166 | return_connection, given a handle of this pool or of another, is PutBack or Discard, by epoch, and notifies or closes accordingly |
| `ConnectionPool.VkConnectionPool.RefreshConnections` | src/vkldap/connection.rs:132-140 | refresh_connections is Reset; a failed one does not notify |
| `ConnectionPool.VkConnectionPool.ShutDown` | src/vkldap/connection.rs:175 | the end of shutdown is CloseAll |
| `PoolInvariants.StepKeepsMutexInv` | src/vkldap/connection.rs:98-113 | the mutex is held by exactly the task inside its critical section |
| `PoolInvariants.StepKeepsUniqueInv` | src/vkldap/connection.rs:142-177 | no connection comes to be in two of queue, holders, close log and elsewhere |
| `PoolInvariants.StepKeepsPlacedInv` | src/vkldap/connection.rs:142-177 | no connection is out of all of these |
| `PoolInvariants.StepKeepsCountInv` | src/vkldap/connection.rs:41-79 | every step keeps the count of queued, outstanding, lost and strayed connections |
| `PoolInvariants.StepKeepsBirthInv` | src/vkldap/connection.rs:157-166 | a queued connection came to the pool in its current epoch, and a held one in that of its handle, whether built here or handed in |
| `PoolInvariants.StepKeepsWakeInv` | src/vkldap/connection.rs:98-177 | every step keeps that a sleeper must wait or a notification is on its way, for a shutdown unless something strayed in |
| `PoolInvariants.StepKeepsInv` | src/vkldap/connection.rs:98-177 | every step keeps all parts of the invariant together |
| `PoolTheorems.Conservation` | src/vkldap/connection.rs:41-79 | queued plus outstanding plus lost equals what was built plus what strayed in; it is the size of a filled pool if and only if strays and losses balance, and 0 after a failed reset or a shutdown with all at home |
| `PoolTheorems.ExactlyOnePlace` | src/vkldap/connection.rs:34-62 | each connection that ever came to the pool is counted once over queue, holders, close log and those gone astray |
| `PoolTheorems.TakeIsFreshAndFair` | src/vkldap/connection.rs:142-155 | a connection handed out is the longest waiting one and open; it was built by the latest reset with its settings, or strayed in with the current epoch |
| `PoolTheorems.FailedResetClosesAll` | src/vkldap/connection.rs:51-58 | a partly built pool is closed in full, each connection once |
| `PoolTheorems.FailedResetIsSilent` | src/vkldap/connection.rs:132-140 | a refresh that fails releases the mutex, notifies nobody and moves no other task |
| `PoolTheorems.SuccessfulResetFills` | src/vkldap/connection.rs:41-62 | a refresh that builds all leaves exactly its connections queued in order, in a new epoch with its settings, closes the old ones and notifies |
| `PoolTheorems.ShutdownGoesExactlyWhen` | src/vkldap/connection.rs:168-173 | the shutdown of a filled pool is let through if and only if as many connections strayed in as are out or lost |
| `PoolTheorems.ShutdownClosesEpoch` | src/vkldap/connection.rs:168-176 | a completed shutdown leaves nothing of the current epoch outstanding if and only if strays and losses balance, and with nothing strayed in it leaves all built in that epoch closed |
| `PoolTheorems.RunIsMonotone` | src/vkldap/connection.rs:48-49 | along a run, epochs do not decrease and closings and births are never undone |
| `PoolTheorems.ClosedStaysClosed` | src/vkldap/connection.rs:157-176 | in every run a closed connection is never queued or held again |
| `PoolTheorems.StaleNeverReenters` | src/vkldap/connection.rs:160-165 | in every run a connection whose handle is of an older epoch, taken here or handed in, never enters the queue after a later reset |
| `PoolTheorems.NoLostWakeup` | src/vkldap/connection.rs:98-113 | with the mutex free, a taker that sleeps without a notification has a true loop condition, and so has a shutdown if nothing strayed in |
| `PoolTheorems.WakeupLostExactlyWhen` | src/vkldap/connection.rs:142-176 | a step makes a sleeper's condition false with no notification to come if and only if it takes from a queue longer than the size by one while a shutdown sleeps; such a queue needs more strays than losses |
| `PoolTheorems.BlockingJustified` | src/vkldap/connection.rs:142-176 | a sleeper has a current connection out to wait for if and only if not all that the pool should have is queued; with all at home, if and only if the pool is filled and of positive size |
| `PoolTheorems.ReturnWakesEverySleeper` | src/vkldap/connection.rs:157-163 | handing back a current connection fills the queue and wakes every sleeper |
| `PoolTheorems.CriticalTaskMoves` | src/vkldap/connection.rs:132-176 | the task that holds the mutex can always go on |
| `PoolTheorems.RestingSleeperHasHolder` | src/vkldap/connection.rs:142-176 | when nothing moves and somebody sleeps, a holder of a current connection is at work if and only if not all that the pool should have is queued; with all at home a filled pool has no deadlock |
| `PoolTheorems.SleeperCanBeServed` | src/vkldap/connection.rs:98-166 | one hand-over is enough for a sleeping taker to get that connection, with nobody else moving |
| `PoolTheorems.ShutdownCanComplete` | src/vkldap/connection.rs:168-176 | from every reachable state of a filled pool with balanced strays and losses, a shutdown completes from wherever it stands, in a run of the tasks that are there; unless another shutdown or a foreign connection holds the mutex, or its wake-up has been lost |
| `PoolTheorems.AllHomeCanShutDown` | src/vkldap/connection.rs:98-176 | with all at home no wake-up of a shutdown is lost, so nothing but a rival at the mutex is in its way |
| `PoolTheorems.LossBlocksShutdown` | src/vkldap/context.rs:221-227 | a reachable state where a connection went astray and the shutdown sleeps with nothing out and nothing that can move |
| `PoolTheorems.StrayBreaksThePool` | src/vkldap/connection.rs:157-166 | reachable states of a pool of size 1 after a stray: more queued than the size with the shutdown asleep; then its wake-up lost; then the foreign connection handed out |
| `PoolTheorems.NoTrafficMeansAllHome` | src/vkldap/connection.rs:142-166 | a pool to which nothing foreign came and from which nothing went away has no strays and no losses |
| `PoolTheorems.LateTakerIsStranded` | src/vkldap/context.rs:150-157 | a reachable state where a taker sleeps after a completed shutdown, nothing is out and nothing can move |
| `PoolTheorems.FailedRefreshStrandsTaker` | src/vkldap/connection.rs:132-140 | a reachable state where a taker sleeps after a failed refresh, nothing is out and nothing can move |
| `PoolTraffic.StraysExactlyWhenDisturbed` | src/vkldap/context.rs:216-227 | in every run of table and pools together, a pool in which no dropped probe had a task has had a foreign connection or lost one of its own if and only if the list was cleared between the halves of a probe that took from it or returned to it |
| `PoolTraffic.UndisturbedPoolIsSound` | src/vkldap/context.rs:132-290 | otherwise, in every such run, its connections add up to its size and every sleeper has a true loop condition |
| `PoolTraffic.CutNeedsPanic` | src/vkldap/failure_detector.rs:63-73 | no probe is dropped in a pool before one has panicked |
| `PoolTraffic.StepKeepsInv` | src/vkldap/context.rs:54-290 | every step of table and pools together keeps that each pool's history agrees with the returns of the probes, and that every login and probe has a task of its own in the pool it found |
| `PoolTraffic.NoSharedConnection` | src/vkldap/context.rs:262-274 | in every run two logins at their operations on a pool have different connections of it |
| `PoolTraffic.ShutdownIsLoneAndLate` | src/vkldap/context.rs:150-157 | in every run a pool that is being shut down has left the table, and one task does it |
| `PoolTraffic.UndisturbedShutdownCanComplete` | src/vkldap/connection.rs:168-176 | so in every run the shutdown of a filled pool whose probes are neither disturbed nor dropped can complete |
| `PoolTraffic.CallsAreNotHeldUp` | src/vkldap/context.rs:216-266 | in every run the lookups and returns of the table's own system are enabled in the joint one |
| `PoolTraffic.RefreshTellsOfItsPool` | src/vkldap/context.rs:249-253 | in every run the status after a refresh is healthy if and only if the refreshed pool has as many connections queued as its size |
| `PoolTraffic.AdditionTellsOfItsPool` | src/vkldap/context.rs:141-147 | in every run a server comes into the list healthy if and only if its new pool is filled |
| `PoolTraffic.DropLosesConnection` | src/vkldap/failure_detector.rs:63-73 | a connection held by a dropped task is away, counted as lost if current, and with no task, queue or close log |
| `PoolTraffic.InterruptedRefresh` | src/vkldap/connection.rs:34-62 | a refresh stopped while closing leaves closed connections queued; stopped while opening, fewer than the size, of the new epoch |
| `PoolTraffic.DropLosesWakeupExactlyWhen` | src/vkldap/connection.rs:41-62 | dropping a task leaves a sleeper unnotified with a false condition if and only if it stops a refresh that has opened some of its connections, and the sleeper is a taker |
| `TrafficRuns.DisturbedPoolsCanFail` | src/vkldap/context.rs:150-227 | one run with two changes of the list, the first under a probe, after which the shutdowns of both pools sleep with nothing out |
| `TrafficRuns.PanicCanStrandTaker` | src/vkldap/failure_detector.rs:63-73 | one run in which a panic stops a refresh: nothing strayed, the mutex is free, and a taker sleeps beside a queue that is not empty while queued and outstanding are fewer than the size |
| `ServerTable.VkLdapContext.ClearServerList` | src/vkldap/context.rs:54-64 | empties the table and hands out all pools in order |
| `ServerTable.VkLdapContext.NewServer` | src/vkldap/context.rs:66-69 | a new server is healthy and numbered by the length of the list |
| `ServerTable.VkLdapContext.AddServer` | src/vkldap/context.rs:71-74 | appends server and pool, and keeps ids as positions |
| `ServerTable.VkLdapContext.GetConnectionPool` | src/vkldap/context.rs:76-78 | the pool in the slot of the server's id |
| `ServerTable.VkLdapContext.UpdateServerStatus` | src/vkldap/context.rs:86-111 | the slot of that id, if there is one, has this status and this ping time with URL and id unchanged, and every other slot is as before |
| `ServerTable.UpdateMeaning` | src/vkldap/context.rs:86-111 | the same of the table alone; the set of healthy slots changes by that slot at most, and has it exactly if the new status is healthy |
| `ServerTable.VkLdapContext.FindServer` | src/vkldap/context.rs:113-125 | a healthy server, or the error for an empty list exactly if it is empty, or that for none healthy exactly if all are unhealthy |
| `ServerTable.LookupMeaning` | src/vkldap/context.rs:113-125 | a lookup finds the first healthy server, and which of the two errors it gives is told by the list |
| `Failover.RunLdapOpWithFailover` | src/vkldap/context.rs:257-290 | undisturbed, the loop ends, gives the walk's outcome, table and tries, and hands each taken connection back to its pool |
| `Failover.WalkOutcome` | src/vkldap/context.rs:257-290 | the outcome is that of the first healthy server that does not fail to connect, never a connection failure; exactly the healthy servers before it are marked down |
| `Failover.WalkTriesEachOnce` | src/vkldap/context.rs:113-125 | the servers tried are the healthy ones up to that one, each once, in list order |
| `FailoverTheorems.StepKeepsShape` | src/vkldap/context.rs:54-111 | every step keeps ids as positions, pools parallel and the configured URLs |
| `FailoverTheorems.ChangeKeepsLogin` | src/vkldap/context.rs:86-125 | any change of the table by others pays for the slot a loop is busy with |
| `FailoverTheorems.MarkDownKeepsLogin` | src/vkldap/context.rs:276-285 | a failed iteration is paid for by a slot that stopped being healthy |
| `FailoverTheorems.FailoverBound` | src/vkldap/context.rs:257-290 | in every run the failed iterations, and the steps, of a loop are bounded by the servers healthy at its first lookup and the gains since |
| `FailoverTheorems.LoopIsSafe` | src/vkldap/context.rs:262-289 | in every run a loop never indexes the pools out of bounds and never returns a connection failure |
| `FailoverTheorems.LoopHandsBackWhatItTook` | src/vkldap/context.rs:262-274 | in every run a loop takes once from each pool it looked up and returns once to each it took from, in order, less the one it is busy with; one for each failed iteration and one for the current or last |
| `FailoverTheorems.TableFollowsConfiguration` | src/vkldap/context.rs:132-157 | in every run the table is the configured list, whatever logins and probes do |
| `FailoverTheorems.ProbeReturnsHome` | src/vkldap/context.rs:221-227 | a probe's connection goes to the issuing pool if and only if the list was not cleared since, and the probe panics if and only if the id is out of bounds |
| `FailoverTheorems.ReturnsGoHome` | src/vkldap/context.rs:221-227 | in every run exactly those returns of probes went home that no clear came before |
| `FailoverTheorems.UpdateHitsItsServer` | src/vkldap/context.rs:86-111 | a status update, of a login or a probe, reaches the server it was copied from if and only if the list was not cleared since; the slot of that number then has the status and ping time of the update, its URL stays, and no other slot changes |
| `FailoverTheorems.PingDecidesStatus` | src/vkldap/failure_detector.rs:16-40 | in every run, the update after a ping makes the slot healthy with the time it took if the ping was answered, and unhealthy with its message and no time if it failed |
| `FailoverTheorems.FailedConnectDecidesStatus` | src/vkldap/failure_detector.rs:51-58 | in every run, the update after a failed connection makes the slot unhealthy with its message |
| `FailoverTheorems.ConnectedProbeRefreshes` | src/vkldap/failure_detector.rs:44-50 | a probe that connects goes on to a refresh if and only if the ping is answered, and otherwise writes nothing |
| `FailoverTheorems.RefreshDecidesStatus` | src/vkldap/context.rs:241-254 | in every run, the update after a refresh makes the slot healthy if and only if the refresh succeeded, with no ping time |
| `FailoverTheorems.CheckGoesByTheCopy` | src/vkldap/failure_detector.rs:16-60 | a check pings over the pool if the copied server was healthy and connects afresh if not |
| `FailoverTheorems.LookupByIdFindsSlot` | src/vkldap/context.rs:76-78 | the pool a probe takes from or refreshes is the one in the slot of its id at that moment, and the probe panics if and only if there is none |
| `FailoverTheorems.LoopFindsFirstHealthy` | src/vkldap/context.rs:262-268 | in every run a loop finds the first healthy server with the pool of the same slot, or ends with the matching error |
| `FailoverTheorems.AdditionBegins` | src/vkldap/context.rs:132-139 | a server is added with the given URL and the number of the next slot |
| `FailoverTheorems.LostConnectionDecidesStatus` | src/vkldap/context.rs:276-285 | in every run, the update after an operation follows a lost connection only, and makes the slot unhealthy with its message, null characters removed |
| `FailoverTheorems.OtherOutcomesEndTheLoop` | src/vkldap/context.rs:276-289 | any other outcome of the operation is the outcome of the loop and changes no server |
| `FailoverTheorems.LoopLooksAgain` | src/vkldap/context.rs:276-285 | after a mark-down the loop looks for a server again |
| `FailoverTheorems.AddedServerStatus` | src/vkldap/context.rs:132-148 | in every run an added server is last in the list, with the number of its position, and healthy if and only if its pool was built |
| `FailoverTheorems.StepKeepsCopy` | src/vkldap/context.rs:54-74 | every step keeps where the server of a copy is to be found |
| `FailoverTheorems.ProbeCanMiss` | src/vkldap/failure_detector.rs:16-24 | both failures of a probe are reachable |
| `FailoverTheorems.StaleUpdateHitsAnother` | src/vkldap/context.rs:276-285 | a reachable state where a server is marked down that nobody has tried |
| `FailoverTheorems.SoloLoopIsTheWalk` | src/vkldap/context.rs:257-290 | the steps of an undisturbed loop of the step system do what the walk says |
| `ServerList.SplitInvertsJoin` | src/configs.rs:217 | the pieces contain no space and join to the text |
| `ServerList.ParseAllMeaning` | src/configs.rs:217-225 | all pieces as URLs, or the first piece that is none |
| `ServerList.ParseUrls` | src/configs.rs:218-225 | the parse loop gives that result |
| `ServerList.AddServerUrl` | src/vkldap/context.rs:132-148 | appends the server, unhealthy if its pool failed, with its pool |
| `ServerList.AddUrls` | src/configs.rs:235-244 | adds the URLs in order up to the first failed submission |
| `ServerList.ProcessServerList` | src/configs.rs:204-247 | an unparsable URL, a scheduler that is not ready or a failed clear leaves the table untouched; otherwise it holds exactly the accepted URLs |
| `ServerList.SuccessIsTheList` | src/configs.rs:235-244 | when all are accepted the table holds the given URLs in order, healthy exactly where the pool was built, each with a pool of its own |
| `LdapErrors.NotFoundIgnoresNullsAndCase` | src/vkldap/errors.rs:26-33 | null characters and letter case in the text of result code 49 do not change the class |
| `LdapErrors.UserNotFoundTexts` | src/vkldap/errors.rs:55-69 | result code 49 means an unknown user if and only if its text, without null characters and in lower case, has ` data 525`, `user not found` or `no such object` in it |
| `LdapErrors.UserNotFoundErrors` | src/vkldap/errors.rs:37-79 | no other error does, but an empty search and result code 32 always do |
| `LdapErrors.ServerUnavailableErrors` | src/vkldap/errors.rs:83-91 | the errors of the unavailable class are these four, and none of them is of the not-found class |
| `LdapErrors.RemoveNullsMeaning` | src/vkldap/errors.rs:26-33 | removing null characters drops these and keeps all others in place |
| `LdapErrors.ClassifyCall` | src/vkldap/errors.rs:205-222 | a call comes to its value, to the result code and text of a refusal, or to its own failure, which counts as a lost connection exactly when it is none of the named errors |
| `GroupRules.MergeGroupRules` | src/vkldap/connection.rs:457-476 | the nested loops give the first occurrences of all tokens; a token is in the result if and only if it is a word of some value of some entry |
| `GroupRules.MergeValue` | src/vkldap/connection.rs:464-472 | the innermost loop merges the words of one value |
| `GroupRules.MergeEntry` | src/vkldap/connection.rs:463-473 | the middle loop merges the values of one entry |
| `GroupRules.MergedRules` | src/vkldap/connection.rs:457-476 | a rule is a word of some value of some entry, and every such word is a rule; no duplicates, first-occurrence order, and only non-empty tokens without white space |
| `GroupRules.EntryTokensConcat` | src/vkldap/connection.rs:463-473 | the tokens of entries one after the other are the tokens of the first and then those of the second, nothing forgotten |
| `GroupRules.ValueTokensConcat` | src/vkldap/connection.rs:464-472 | the same for the values of one entry |
| `GroupRules.TokensOfOneValue` | src/vkldap/connection.rs:464 | the tokens of one value are its words |
| `GroupRules.TokensOfOneEntry` | src/vkldap/connection.rs:462-463 | an entry without the attribute has no tokens, and one with it has those of its values |
| `GroupRules.WordsAroundSpace` | src/vkldap/connection.rs:464 | the words of a text are those on either side of any space in it |
| `GroupRules.MergeIsIdempotent` | src/vkldap/connection.rs:457-476 | merging the result again gives the result |
| `GroupRules.DefaultRulesAreWords` | src/configs.rs:423-431 | the default rules are the words of the configured text, trimming and filtering them changes nothing |
| `GroupRules.ShippedDefaultRules` | src/configs.rs:127-128 | the built-in default is the two rules `on` and `resetpass` |
| `Login.LoginOp` | src/vkldap/context.rs:421-439 | one operation fills the cell on success and leaves it alone on failure |
| `Login.LdapLogin` | src/vkldap/context.rs:412-487 | the outcome is that of the deciding attempt; the cell's default is never used |
| `Login.DecidedByOneAttempt` | src/vkldap/context.rs:261-289 | the deciding attempt is the first that did not lose its connection |
| `Login.UserDnExactlyWhen` | src/vkldap/connection.rs:275-349 | the DN that is bound is the name between prefix and suffix, or the first value of the DN attribute of the one entry found; with the arguments of both searches and of the service account's bind |
| `Login.RulesAreListed` | src/vkldap/connection.rs:457-476 | the rules of a login are the words of the values of the rules attribute of all group entries |
| `Login.SucceedsExactlyWhen` | src/vkldap/context.rs:421-439 | an attempt succeeds with rules if and only if the directory accepts the bind of the user's DN and the service account, and the group entries of that DN list exactly these rules |
| `Login.DeniedExactlyWhen` | src/vkldap/connection.rs:263-350 | an attempt ends in a refusal, not in success or a lost connection, if and only if a directory that was reached turns down one of the calls or the search gives no DN |
| `Login.LoginSound` | src/vkldap/context.rs:412-487 | Ok means one directory accepted the bind of the DN it names for the user, with the password, and listed exactly these rules for that DN |
| `Login.UnavailableMeansNoServer` | src/vkldap/errors.rs:83-91 | an outcome is of the unavailable class if and only if the loop ended in the lookup of a server |
| `Login.SearchAsksForTheName` | src/vkldap/connection.rs:305 | the search filter has the user name as it is, and that text stands for the name itself if and only if it has no character that RFC 4515, section 3, reserves |
| `Login.NotFoundComesFromTheUser` | src/vkldap/errors.rs:37-79 | an attempt is of the not-found class if and only if the search for that user is answered with no entry, or the bind with the user's DN with result code 32, or 49 with one of the three texts |
| `AclTokens.NoAccumulation` | src/auth.rs:18-28 | the root permissions after a login do not depend on the user's earlier state |
| `AclTokens.RootOfRules` | src/auth.rs:18-28 | they are what the default and LDAP rules make of a user without permissions |
| `AclTokens.SecondLoginAddsNothing` | src/auth.rs:18-28 | applying the rules twice equals once on the root permissions |
| `AclTokens.CachedPasswordIsExact` | src/auth.rs:30-34 | with fallback enabled the supplied password is the only one, for every rule list |
| `AclTokens.NoPasswordWithoutFallback` | src/auth.rs:26-34 | with fallback disabled no password is left, if the rules clear them |
| `AclTokens.ResetPassClears` | src/auth.rs:26-28 | rules with `resetpass` among the defaults and no password rule clear them |
| `AclTokens.SwitchRules` | src/auth.rs:18-28 | `on` and `off` enable and disable the user and nothing else |
| `AclTokens.AllCommandsRules` | src/auth.rs:24 | `-@all` and `+@all` take away and give all commands |
| `AclTokens.AllKeysRules` | src/auth.rs:22 | `resetkeys` and `~*` take away and give all keys |
| `AclTokens.AllChannelsRules` | src/auth.rs:23 | `resetchannels` and `&*` take away and give all channels |
| `AclTokens.PlainRulesKeepPasswords` | src/auth.rs:18-34 | with fallback disabled, rules that neither clear the passwords nor speak of any keep them |
| `Auth.ValkeyServer.ApplyLdapUserAcl` | src/auth.rs:12-56 | sets the rules in the given order, all or none, and authenticates an enabled user |
| `Auth.ValkeyServer.HandleUserNotFound` | src/auth.rs:59-71 | removes the user unless exempt at that moment |
| `Auth.ValkeyServer.HandleServerUnavailable` | src/auth.rs:74-84 | passes on to local authentication if fallback is enabled |
| `Auth.ValkeyServer.HandleCredentialRejection` | src/auth.rs:87-108 | removes the user and refuses |
| `Auth.ValkeyServer.AuthReply` | src/auth.rs:110-141 | the reply for each class of result; handled means that LDAP accepted the login and the stored user is enabled |
| `Auth.ValkeyServer.AuthBlocking` | src/auth.rs:145-192 | a login starts if and only if LDAP is configured, the user is not exempt and the job is accepted |
| `Auth.FallbackExactness` | src/auth.rs:73-141 | local authentication is reached if and only if fallback is enabled and the loop ended in the lookup of a server |
| `Auth.ReplyAnswers` | src/auth.rs:12-141 | the answer to every reply with its message, and the entry after a success: the listed rules in their order, applied to the user's entry or to one without any right |
| `Auth.HandledExactlyWhen` | src/auth.rs:49-55 | AUTH succeeds if and only if LDAP accepted the login, the server took the rules and the user they make is enabled |
| `Auth.HandledMeansVouched` | src/auth.rs:110-141 | from the failover loop to the answer: whoever is let in was accepted by one directory, and the entry is what the rules listed there make of it |
| `Auth.ReplyFrame` | src/auth.rs:58-141 | a reply touches the user's own entry alone, and none when LDAP did not decide |
| `Auth.RemovedExactlyWhen` | src/auth.rs:58-108 | a reply removes the user exactly when it is a decided refusal, the server lets the user go and the not-found path finds no exemption |
| `Auth.LoginRemovesExactlyWhen` | src/auth.rs:58-141 | a login removes its user if and only if the user is not protected and the first directory that kept the connection denied it, the user not being exempt if unknown there |
| `Auth.ServiceAccountFailureDeletes` | src/auth.rs:87-105 | a refused bind of the service account deletes the user |
| `AuthRuns.StepReflects` | src/auth.rs:110-141 | a decision that is carried out puts the stored entry in line with it, whatever was there before, and other events keep it there |
| `AuthRuns.RunReflects` | src/auth.rs:110-141 | after any run whose latest decision was carried out, the stored entry says what that decision meant |
| `AuthRuns.CachedPasswordSafety` | src/auth.rs:12-141 | after any run whose latest decision was carried out, a password is locally accepted if and only if it is the one cached by that decision and the user is enabled |
| `AuthRuns.FallbackAcceptsOnlyTheLatest` | src/auth.rs:73-84 | so it is on the fallback path, under the same condition |
| `AuthRuns.WellBehavedIsCarriedOut` | src/auth.rs:12-141 | accepted rules with `resetpass`, no password rules and no protection are enough for a decision to be carried out |
| `AuthRuns.ShippedDefaultsAreCarriedOut` | src/configs.rs:127-128 | with the built-in default rules, accepted rules that add no password are enough for a success |
| `AuthRuns.StepStores` | src/auth.rs:12-141 | every event, carried out or not, leaves in the user's entry exactly the password that the recursion over events tells |
| `AuthRuns.LocalCheckIsExact` | src/auth.rs:12-141 | over every run a password is locally accepted if and only if it is the held one and the user is enabled; rules set with fallback off must clear the passwords or not speak of any |
| `AuthRuns.HeldAgreesExactlyWhen` | src/auth.rs:12-141 | over every run the held password is what the latest decision meant if and only if that decision was carried out or it was held before |
| `AuthRuns.SafetyExactlyWhen` | src/auth.rs:12-141 | so for an enabled user the local check accepts exactly the latest decision's password under that same condition and no other |
| `AuthRuns.LocalPasswordsAreVouched` | src/auth.rs:30-34 | in every run, carried out or not, no password is locally accepted that no directory accepts for that user |
| `AuthRuns.PendingPassedTheGate` | src/auth.rs:150-160 | every login in flight was submitted while its user was not exempt |
| `AuthRuns.PendingExactlyWhen` | src/auth.rs:150-191 | a login is in flight exactly from its submission past the gate to its reply |
| `AuthRuns.RemovalHasItsReasons` | src/auth.rs:58-108 | over any run, a user there at some moment and gone at the end was submitted while not exempt and then, after that moment, refused by a decided reply |
| `AuthRuns.ExemptUserIsDeleted` | src/auth.rs:87-105 | a run that deletes a user who has been exempted since the login was submitted |
| `AuthRuns.ProtectedUserKeepsPassword` | src/auth.rs:97-105 | a run after which a protected user's old password is accepted although LDAP refused the user |
| `Scheduler.SchedulerLoop` | src/vkldap/scheduler.rs:166-183 | the loop dispatches the jobs before the first shutdown, in order |
| `Scheduler.StepKeepsLockInv` | src/vkldap/scheduler.rs:185-195 | readers and the writer exclude each other |
| `Scheduler.StepKeepsChannelInv` | src/vkldap/scheduler.rs:151-163 | every step keeps the shape of the channel |
| `Scheduler.StepKeepsJobsInv` | src/vkldap/scheduler.rs:241-264 | accepted jobs are the dispatched ones followed by those in the channel, each once |
| `Scheduler.ShutdownIsLast` | src/vkldap/scheduler.rs:151-153 | in every run a shutdown message is the last of its channel |
| `Scheduler.DispatchOrder` | src/vkldap/scheduler.rs:166-183 | in every run jobs are dispatched in acceptance order, each at most once, and no send fails |
| `Scheduler.StopDrains` | src/vkldap/scheduler.rs:151-163 | when stop returns every accepted job is dispatched, the channel is empty and the scheduler is not ready |
| `Scheduler.CrashHasItsReasons` | src/vkldap/scheduler.rs:147-195 | in every run whoever crashes, at any of the locks or at the send, does so after a completed stop or on a poisoned lock |
| `Scheduler.PoisonedLockCrashes` | src/vkldap/scheduler.rs:185-195 | on a poisoned lock every access crashes and changes nothing else |
| `Scheduler.PoisonedExactlyWhen` | src/vkldap/scheduler.rs:151-153 | the lock becomes poisoned if and only if a stop meets a missing state, and that stop crashes |
| `Scheduler.StopCanFinish` | src/vkldap/scheduler.rs:151-183 | from every reachable state a stop that has sent its message finishes in a run of the receive loop and itself, with every accepted job dispatched |
| `Scheduler.CheckIsTrue` | src/vkldap/scheduler.rs:193-195 | a client is told ready if and only if the scheduler is set and its loop runs, and goes on exactly then |
| `Scheduler.SubmitCanFinish` | src/vkldap/scheduler.rs:251-264 | a client that goes on before any stop gets its job accepted, behind all that are in the channel |
| `Scheduler.LateSubmitIsPossible` | src/vkldap/mod.rs:48-67 | that happens to a client that was told the scheduler is ready |
| `OneShot.CellStepKeepsInv` | src/vkldap/scheduler.rs:202-223 | every step of notifier and waiter keeps the cell's invariant |
| `OneShot.NotifiedWaiterFinishes` | src/vkldap/scheduler.rs:210-222 | no notification is lost: afterwards the waiter ends with the value on its own |
| `OneShot.SyncSubmitReturnsOwnResult` | src/vkldap/scheduler.rs:225-248 | in every run a synchronous submit returns its own task's result, of a job that was accepted and dispatched |
| `OneShot.PanickedSubmitNeverReturns` | src/vkldap/scheduler.rs:202-248 | in every run a synchronous submit whose task panicked has no value from then on, and nothing that could give it one is enabled |

## Left out

- Epochs are unbounded numbers; the wrap-around of the 64-bit counter is not modelled.
- Cancellation of a task while it holds a connection or the mutex, other than by the panic of a probe, and the teardown of the async runtime: the claims about jobs stop at dispatch.
- Fairness of the mutex: the pool theorems hold for every order in which it is granted, and so say that a sleeper is woken and can be served, not that it is served first.
- The contents of TLS, certificate and timeout settings and all LDAP wire traffic; a connection attempt succeeds or fails, and a directory answers each call with acceptance, a result code or a failure; the calls of one attempt are numbered, so the two binds of the service account may be answered differently.
- Changes that an administrator makes to the ACL users, or other clients and modules do, while logins run: in a run only replies touch the store.
- The size limits of the `ldap.connection_pool_size` option: pools of any size, 0 included, are modelled.
- An LDAP attribute that is present without a single value, for which the DN lookup would panic.
- Selectors, key permissions of their own (`%R~`), unknown command names and sanitizing flags in ACL rules; a refusal by the server for such reasons is a parameter.
- Password hashes: a stored password is the text itself, a digest given by rule is something else.
- Letter case is folded for the letters A to Z only; white space, the URL parser, the LDAP escape function and the exemption pattern are parameters, and so is the setting of that pattern.
- The thread of the failure detector with its stop and interval flags: its iterations appear as probes that may start at any time. Which probes are of one iteration is left open, so that after a panic any other may be dropped, at any later moment. What a pool does after a drop is not described further.
- That the pools of a cleared list are shut down one after the other (src/vkldap/context.rs:152-156), so that one stuck shutdown also keeps the later ones from starting; each shutdown is modelled by itself.
- Starting the scheduler while it runs, and reloading the module; `reset_context`, which drops pools without closing them.
- The unused variants `ldap_bind`, `ldap_search_and_bind` and those that return group names, which are near copies of what is modelled.
- Log messages, the INFO section, configuration getters, module registration, packaging and scripts.
- Whether rule deduplication keeps the meaning of the rules: it does not in general, because their order matters, and only the merged list itself is described.
