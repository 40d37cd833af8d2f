/**
 Runs of the whole back end in which pools fail, as a consequence of changes of the server list.
 */
module TrafficRuns {
  import opened Wrappers
  import opened ConnectionQueues
  import opened ServerTable
  import opened TrafficProtocol
  import opened PoolTraffic
  import P = PoolProtocol
  import PI = PoolInvariants
  import PT = PoolTheorems
  import F = FailoverProtocol

  const NO_SETTINGS := ConnectionSettings(0, "")

  // A step of the table that calls no pool, and one that calls task `u` of a pool.
  function Plain(step: F.Step): Step {
    Table(step, 0, NO_SETTINGS, 0)
  }

  function Calling(step: F.Step, u: P.TaskId): Step {
    Table(step, u, NO_SETTINGS, 0)
  }

  function SetPool(j: Traffic, p: PoolId, s: P.PoolState): Traffic {
    j.(pools := j.pools[p := s])
  }

  // ---- Inside one pool

  lemma Inside(j: Traffic, p: PoolId, step: P.Step) returns (j': Traffic)
    requires Reachable(j) && CanMove(j.pools, p, step) && IsOwn(step)
    ensures Reachable(j') && j' == SetPool(j, p, P.Apply(j.pools[p], step))
  {
    j' := Apply(j, Within(p, step));
    ReachableNext(j, Within(p, step));
  }

  // A caller that must wait falls asleep.
  lemma SleepingSteps(s: P.PoolState, t: P.TaskId, purpose: P.Purpose)
    requires s.mutex == None && P.MustWait(purpose, s.q)
    requires t in s.tasks && s.tasks[t] == P.Acquiring(P.Await(purpose))
    ensures P.Enabled(s, P.Acquire(t))
    ensures var s1 := P.Apply(s, P.Acquire(t));
            && P.Enabled(s1, P.Register(t))
            && var s2 := P.Apply(s1, P.Register(t));
            && P.Enabled(s2, P.Release(t))
            && P.Apply(s2, P.Release(t)) == s.(tasks := s.tasks[t := P.Asleep(purpose)])
  {
    var s2 := P.Apply(P.Apply(s, P.Acquire(t)), P.Register(t));
    assert s2 == s.(mutex := Some(t), tasks := s.tasks[t := P.Registered(purpose)]);
    assert P.Apply(s2, P.Release(t)).tasks == s.tasks[t := P.Asleep(purpose)];
  }

  lemma CallerSleeps(j: Traffic, p: PoolId, t: P.TaskId, purpose: P.Purpose) returns (j': Traffic)
    requires Reachable(j) && p in j.pools && j.pools[p].mutex == None && P.MustWait(purpose, j.pools[p].q)
    requires t in j.pools[p].tasks && j.pools[p].tasks[t] == P.Acquiring(P.Await(purpose))
    ensures Reachable(j')
    ensures j' == SetPool(j, p, j.pools[p].(tasks := j.pools[p].tasks[t := P.Asleep(purpose)]))
  {
    SleepingSteps(j.pools[p], t, purpose);
    var j1 := Inside(j, p, P.Acquire(t));
    var j2 := Inside(j1, p, P.Register(t));
    j' := Inside(j2, p, P.Release(t));
    assert j'.pools == j.pools[p := j'.pools[p]];
  }

  // One that finds a connection takes it.
  lemma CallerTakes(j: Traffic, p: PoolId, t: P.TaskId) returns (j': Traffic)
    requires Reachable(j) && p in j.pools && j.pools[p].mutex == None && j.pools[p].q.queue != []
    requires t in j.pools[p].tasks && j.pools[p].tasks[t] == P.Acquiring(P.Await(P.Take))
    ensures Reachable(j')
    ensures var s := j.pools[p];
            var handle := P.Handle(s.q.queue[|s.q.queue| - 1], s.q.epoch);
            j' == SetPool(j, p, s.(q := AfterTake(s.q), departures := s.departures + 1,
                                   tasks := s.tasks[t := P.Holding(handle)]))
  {
    var s := j.pools[p];
    var handle := P.Handle(s.q.queue[|s.q.queue| - 1], s.q.epoch);
    var j1 := Inside(j, p, P.Acquire(t));
    assert j1.pools[p] == s.(mutex := Some(t), tasks := s.tasks[t := P.Locked(P.Await(P.Take))]);
    j' := Inside(j1, p, P.TakeOut(t));
    assert j'.pools[p].tasks == s.tasks[t := P.Holding(handle)];
    assert j'.pools == j.pools[p := j'.pools[p]];
  }

  // A foreign connection of the current epoch is put into the queue.
  lemma HandedInIsPut(j: Traffic, p: PoolId, t: P.TaskId, handle: P.Handle) returns (j': Traffic)
    requires Reachable(j) && p in j.pools && j.pools[p].mutex == None
    requires j.pools[p].tasks == map[t := P.Acquiring(P.HandIn(handle))] && handle.epoch == j.pools[p].q.epoch
    ensures Reachable(j')
    ensures p in j'.pools && j' == SetPool(j, p, j'.pools[p])
    ensures j'.pools[p].q == AfterPut(j.pools[p].q, handle.conn) && j'.pools[p].mutex == None
    ensures j'.pools[p].filled == j.pools[p].filled && j'.pools[p].tasks == map[t := P.Finished]
  {
    var j1 := Inside(j, p, P.Acquire(t));
    assert j1.pools[p].tasks == map[t := P.Locked(P.HandIn(handle))];
    var j2 := Inside(j1, p, P.PutBack(t));
    assert j2.pools[p].tasks == map[t := P.Notifying];
    j' := Inside(j2, p, P.NotifyAll(t));
    assert j'.pools[p].tasks == map[t := P.Finished];
    assert j'.pools == j.pools[p := j'.pools[p]];
  }

  // ---- Changes of the list

  // What a change of the list leaves alone.
  predicate SameUsers(j: Traffic, j': Traffic) {
    && j'.hands == j.hands && j'.shut == j.shut && j'.dropped == j.dropped && j'.cut == j.cut
    && j'.table.logins == j.table.logins && j'.table.probes == j.table.probes
    && j'.table.probeReturns == j.table.probeReturns
  }

  lemma Cleared(j: Traffic) returns (j': Traffic)
    requires Reachable(j) && j.table.config.Idle?
    ensures Reachable(j') && SameUsers(j, j') && j'.pools == j.pools
    ensures j'.table.servers == [] && j'.table.pools == [] && j'.table.config.Idle?
    ensures j'.table.nextPool == j.table.nextPool && j'.table.clears == j.table.clears + 1
  {
    var step := Plain(F.ClearList);
    assert MovesOf(j, step) == NoMove;
    j' := Apply(j, step);
    ReachableNext(j, step);
  }

  lemma Added(j: Traffic, url: Url, settings: ConnectionSettings, built: nat) returns (j': Traffic)
    requires Reachable(j) && j.table.config.Idle? && built <= settings.connectionPoolSize
    ensures Reachable(j') && SameUsers(j, j') && j'.table.config.Idle? && j'.table.clears == j.table.clears
    ensures j'.pools == j.pools[j.table.nextPool := P.Init(settings, built)]
    ensures j'.table.nextPool == j.table.nextPool + 1
    ensures j'.table.pools == j.table.pools + [j.table.nextPool]
    ensures |j'.table.servers| == |j.table.servers| + 1 && j'.table.servers[..|j.table.servers|] == j.table.servers
    ensures var server := j'.table.servers[|j.table.servers|];
            server.id == |j.table.servers| && (server.IsHealthy() <==> built == settings.connectionPoolSize)
  {
    var j1 := Apply(j, Plain(F.BeginAdd(url)));
    ReachableNext(j, Plain(F.BeginAdd(url)));
    var failure := if built == settings.connectionPoolSize then None else Some("");
    j' := EndsAdding(j1, settings, built, failure);
  }

  lemma EndsAdding(j: Traffic, settings: ConnectionSettings, built: nat, failure: Option<string>) returns (j': Traffic)
    requires Reachable(j) && j.table.config.Adding? && built <= settings.connectionPoolSize
    requires failure.None? <==> built == settings.connectionPoolSize
    ensures Reachable(j') && SameUsers(j, j')
    ensures j'.table.config.Idle? && j'.table.clears == j.table.clears && j'.table.nextPool == j.table.nextPool + 1
    ensures j'.pools == j.pools[j.table.nextPool := P.Init(settings, built)]
    ensures j'.table.pools == j.table.pools + [j.table.nextPool]
    ensures j'.table.servers == j.table.servers + [j.table.config.server.(status := F.StatusOf(failure))]
  {
    var step := Table(F.EndAdd(failure), 0, settings, built);
    assert MovesOf(j, step) == NoMove;
    j' := Apply(j, step);
    ReachableNext(j, step);
  }

  // ---- One connection astray

  // The shutdown of task `t` sleeps, nothing is out and nothing moves in the pool.
  ghost predicate SleepsForNobody(s: P.PoolState, t: P.TaskId) {
    && PT.Quiescent(s) && PI.Outstanding(s) == {}
    && t in s.tasks && s.tasks[t] == P.Asleep(P.Shutdown)
  }

  // A probe of a healthy server finds its pool and calls it as task 0.
  lemma ProbeCalls(j: Traffic, t: TaskId, i: nat) returns (j': Traffic)
    requires Reachable(j) && t !in j.table.probes && t !in j.dropped && i < |j.table.servers| == |j.table.pools|
    requires j.table.servers[i].IsHealthy() && j.table.servers[i].id == i
    requires j.table.pools[i] in j.pools && 0 !in j.pools[j.table.pools[i]].tasks
    ensures Reachable(j')
    ensures var p := j.table.pools[i];
            && j'.table == j.table.(probes := j'.table.probes)
            && j'.table.probes == j.table.probes[t := F.Pinging(F.CopyOf(j.table, i), p, j.table.clears)]
            && j' == SetPool(j, p, j.pools[p].(tasks := j.pools[p].tasks[0 := P.Acquiring(P.Await(P.Take))])).(
                       table := j'.table, hands := j.hands[ByProbe(t) := Hand(p, 0)])
  {
    var j1 := ProbeStarts(j, t, i);
    j' := Apply(j1, Calling(F.ProbeTake(t), 0));
    ReachableNext(j1, Calling(F.ProbeTake(t), 0));
    assert j'.table.probes == j.table.probes[t := F.Pinging(F.CopyOf(j.table, i), j.table.pools[i], j.table.clears)];
  }

  lemma ProbeStarts(j: Traffic, t: TaskId, i: nat) returns (j': Traffic)
    requires Reachable(j) && t !in j.table.probes && t !in j.dropped && i < |j.table.servers|
    ensures Reachable(j')
    ensures j' == j.(table := j.table.(probes := j.table.probes[t := F.Checking(F.CopyOf(j.table, i))]))
  {
    j' := Apply(j, Plain(F.StartProbe(t, i)));
    ReachableNext(j, Plain(F.StartProbe(t, i)));
  }

  // The first probe of a fresh table pings the only server, with the only connection of its pool.
  lemma Pinged(url: Url, settings: ConnectionSettings) returns (j: Traffic)
    requires settings.connectionPoolSize == 1
    ensures Reachable(j) && j.table.config.Idle? && j.table.nextPool == 1 && j.table.clears == 0
    ensures j.table.probeReturns == [] && j.table.probes.Keys == {0} && j.table.probes[0].Pinging?
    ensures j.table.probes[0].issued == 0 && j.table.probes[0].copy.server.id == 0
    ensures j.hands == map[ByProbe(0) := Hand(0, 0)] && j.shut == {} && j.dropped == {} && j.cut == {}
    ensures j.pools.Keys == {0} && j.pools[0].q == QueueState([], 1, 1) && j.pools[0].filled
    ensures j.pools[0].tasks == map[0 := P.Holding(P.Handle(0, 1))] && j.pools[0].mutex == None
  {
    assert IsRun([INITIAL]) && [INITIAL][0] == INITIAL;
    var j1 := Added(INITIAL, url, settings, 1);
    assert j1.pools[0].q.queue == Batch(0, 1) == [0];
    var j2 := ProbeCalls(j1, 0, 0);
    j := CallerTakes(j2, 0, 0);
  }

  // After a change of the list the probe hands that connection to the pool of the other server.
  lemma Strayed(url: Url, other: Url, settings: ConnectionSettings) returns (j: Traffic)
    requires settings.connectionPoolSize == 1
    ensures Reachable(j) && j.table.config.Idle? && j.table.pools == [1] && j.table.clears == 1
    ensures j.shut == {} && j.cut == {} && !AnyPanicked(j.table)
    ensures j.pools.Keys == {0, 1}
    ensures j.pools[0].q == QueueState([], 1, 1) && j.pools[0].filled
    ensures j.pools[0].tasks == map[0 := P.Finished] && j.pools[0].mutex == None
    ensures j.pools[1].q == QueueState([1, 0], 1, 1) && j.pools[1].filled
    ensures j.pools[1].tasks == map[0 := P.Finished] && j.pools[1].mutex == None
  {
    var j1 := Pinged(url, settings);
    var j2 := Cleared(j1);
    var j3 := Added(j2, other, settings, 1);
    assert j3.pools[1].q.queue == Batch(0, 1) == [0];
    var j4 := StraysOver(j3, settings);
    j := HandedInIsPut(j4, 1, 0, P.Handle(1, 1));
  }

  lemma StraysOver(j: Traffic, settings: ConnectionSettings) returns (j': Traffic)
    requires Reachable(j) && j.table.pools == [1] && j.pools.Keys == {0, 1} && j.dropped == {}
    requires j.table.probes.Keys == {0} && j.table.probes[0].Pinging? && j.table.probes[0].copy.server.id == 0
    requires j.hands == map[ByProbe(0) := Hand(0, 0)]
    requires j.pools[0].tasks == map[0 := P.Holding(P.Handle(0, 1))]
    requires j.pools[1].tasks == map[] && |j.pools[1].births| == 1
    ensures Reachable(j') && j'.shut == j.shut && j'.cut == j.cut && !AnyPanicked(j'.table)
    ensures j'.table.config == j.table.config && j'.table.pools == j.table.pools && j'.table.clears == j.table.clears
    ensures j'.pools.Keys == {0, 1}
    ensures j'.pools[0].q == j.pools[0].q && j'.pools[0].filled == j.pools[0].filled
    ensures j'.pools[0].tasks == map[0 := P.Finished] && j'.pools[0].mutex == j.pools[0].mutex
    ensures j'.pools[1].q == j.pools[1].q && j'.pools[1].filled == j.pools[1].filled
    ensures j'.pools[1].tasks == map[0 := P.Acquiring(P.HandIn(P.Handle(1, 1)))]
    ensures j'.pools[1].mutex == j.pools[1].mutex
  {
    var step := Calling(F.ProbeReturn(0, None, 0), 0);
    assert MovesOf(j, step) == Two(0, P.StrayOut(0), 1, P.StrayIn(0, 1));
    j' := Apply(j, step);
    ReachableNext(j, step);
    assert j'.pools[0].tasks == map[0 := P.Finished];
  }

  // A pool that has left the table is shut down, and its shutdown must wait.
  lemma ShutdownSleeps(j: Traffic, p: PoolId) returns (j': Traffic)
    requires Reachable(j) && p in j.pools && p !in j.table.pools && p !in j.shut
    requires j.pools[p].mutex == None && j.pools[p].tasks == map[0 := P.Finished]
    requires P.MustWait(P.Shutdown, j.pools[p].q)
    ensures Reachable(j')
    ensures j' == SetPool(j, p, j.pools[p].(tasks := map[0 := P.Finished, 1 := P.Asleep(P.Shutdown)])).(
                    shut := j.shut + {p})
    ensures SleepsForNobody(j'.pools[p], 1)
  {
    var j1 := Apply(j, ShutDown(p, 1));
    ReachableNext(j, ShutDown(p, 1));
    j' := CallerSleeps(j1, p, 1, P.Shutdown);
    var s := j'.pools[p];
    assert s.tasks == map[0 := P.Finished, 1 := P.Asleep(P.Shutdown)];
    assert j'.pools == j.pools[p := s];
    PT.RestIsQuiescent(s);
    assert PI.Outstanding(s) == {};
  }

  // One run with two changes of the list, the first of them under a probe: the shutdown of the
  // first pool sleeps with nothing out, because its connection went astray; and the shutdown of the
  // second sleeps with all its connections in the queue, because there is one too many.
  lemma DisturbedPoolsCanFail(url: Url, other: Url, settings: ConnectionSettings) returns (j: Traffic)
    requires settings.connectionPoolSize == 1
    ensures Reachable(j) && j.table.clears == 2 && !AnyPanicked(j.table)
    ensures j.pools.Keys == {0, 1} && j.shut == {0, 1}
    ensures SleepsForNobody(j.pools[0], 1) && SleepsForNobody(j.pools[1], 1)
    ensures j.pools[0].filled && |j.pools[0].q.queue| < j.pools[0].q.size
    ensures j.pools[1].filled && |j.pools[1].q.queue| > j.pools[1].q.size
  {
    var j1 := Strayed(url, other, settings);
    var j2 := ShutdownSleeps(j1, 0);
    var j3 := Cleared(j2);
    j := ShutdownSleeps(j3, 1);
  }

  // ---- One panic

  // The list held an unhealthy and a healthy server when an iteration of the failure detector
  // began, and now holds another one instead.  One probe is about to refresh, one pings.
  ghost predicate InIteration(j: Traffic) {
    && Reachable(j) && j.table.pools == [2] && j.dropped == {} && j.cut == {}
    && j.pools.Keys == {0, 1, 2}
    && j.table.probes.Keys == {0, 1} && ByProbe(0) !in j.hands
    && j.table.probes[0].Checking? && !j.table.probes[0].copy.server.IsHealthy()
    && j.table.probes[0].copy.server.id == 0
    && j.table.probes[1].Pinging? && j.table.probes[1].copy.server.id == 1 && j.table.probes[1].issued == 1
    && j.table.probeReturns == []
    && ByProbe(1) in j.hands && j.hands[ByProbe(1)] == Hand(1, 0)
    && j.pools[1].tasks == map[0 := P.Holding(P.Handle(0, 1))]
  }

  lemma TwoServers(url: Url, other: Url, one: ConnectionSettings) returns (j: Traffic)
    requires one.connectionPoolSize == 1
    ensures Reachable(j) && j.table.pools == [0, 1] && j.table.nextPool == 2 && SameUsers(INITIAL, j)
    ensures j.table.config.Idle? && |j.table.servers| == 2
    ensures !j.table.servers[0].IsHealthy() && j.table.servers[0].id == 0
    ensures j.table.servers[1].IsHealthy() && j.table.servers[1].id == 1
    ensures j.pools.Keys == {0, 1} && j.pools[1] == P.Init(one, 1)
  {
    assert IsRun([INITIAL]) && [INITIAL][0] == INITIAL;
    var j1 := Added(INITIAL, url, one, 0);
    j := Added(j1, other, one, 1);
    assert j.table.servers[0] == j.table.servers[..1][0] == j1.table.servers[0];
  }

  lemma TwoProbes(url: Url, other: Url, one: ConnectionSettings) returns (j: Traffic)
    requires one.connectionPoolSize == 1
    ensures Reachable(j) && j.table.nextPool == 2 && j.table.config.Idle? && j.dropped == {} && j.cut == {}
    ensures j.pools.Keys == {0, 1} && j.pools[1].tasks == map[0 := P.Holding(P.Handle(0, 1))]
    ensures j.table.probes.Keys == {0, 1} && j.table.logins == map[] && j.table.probeReturns == []
    ensures j.table.probes[0].Checking? && !j.table.probes[0].copy.server.IsHealthy()
    ensures j.table.probes[0].copy.server.id == 0
    ensures j.table.probes[1].Pinging? && j.table.probes[1].copy.server.id == 1 && j.table.probes[1].issued == 1
    ensures j.hands == map[ByProbe(1) := Hand(1, 0)]
  {
    var j1 := TwoServers(url, other, one);
    assert j1.pools[1].q.queue == Batch(0, 1) == [0];
    var j2 := ProbeStarts(j1, 0, 0);
    var j3 := ProbeCalls(j2, 1, 1);
    j := CallerTakes(j3, 1, 0);
  }

  lemma IterationUnderChange(url: Url, other: Url, third: Url, one: ConnectionSettings) returns (j: Traffic)
    requires one.connectionPoolSize == 1
    ensures InIteration(j) && j.table.logins == map[]
    ensures |j.table.servers| == 1 && j.table.servers[0].IsHealthy() && j.table.servers[0].id == 0
    ensures j.pools[2] == P.Init(one, 1)
  {
    var j1 := TwoProbes(url, other, one);
    var j2 := Cleared(j1);
    j := Added(j2, third, one, 1);
  }

  // A login finds the only server and calls its pool.
  lemma LoginCalls(j: Traffic, t: TaskId, u: P.TaskId) returns (j': Traffic)
    requires Reachable(j) && t !in j.table.logins
    requires |j.table.servers| == |j.table.pools| == 1 && j.table.servers[0].IsHealthy() && j.table.servers[0].id == 0
    requires j.table.pools[0] in j.pools && u !in j.pools[j.table.pools[0]].tasks
    ensures Reachable(j')
    ensures var p := j.table.pools[0];
            && j'.table == j.table.(logins := j'.table.logins) && j'.table.logins.Keys == j.table.logins.Keys + {t}
            && j' == SetPool(j, p, j.pools[p].(tasks := j.pools[p].tasks[u := P.Acquiring(P.Await(P.Take))])).(
                       table := j'.table, hands := j.hands[ByLogin(t) := Hand(p, u)])
  {
    var j1 := Apply(j, Plain(F.StartLogin(t)));
    ReachableNext(j, Plain(F.StartLogin(t)));
    assert j1 == j.(table := j.table.(logins := j1.table.logins));
    j' := Apply(j1, Calling(F.FindServer(t), u));
    ReachableNext(j1, Calling(F.FindServer(t), u));
  }

  // Its one connection is taken by a login, and another login sleeps.
  lemma TakerSleeps(j: Traffic, one: ConnectionSettings) returns (j': Traffic)
    requires one.connectionPoolSize == 1 && InIteration(j) && j.table.logins == map[]
    requires |j.table.servers| == 1 && j.table.servers[0].IsHealthy() && j.table.servers[0].id == 0
    requires j.pools[2] == P.Init(one, 1)
    ensures InIteration(j')
    ensures j'.pools[2].mutex == None && j'.pools[2].q == QueueState([], 1, 1) && |j'.pools[2].births| == 1
    ensures j'.pools[2].tasks == map[0 := P.Holding(P.Handle(0, 1)), 1 := P.Asleep(P.Take)]
  {
    assert j.pools[2].q.queue == Batch(0, 1) == [0];
    var j1 := LoginCalls(j, 0, 0);
    var j2 := CallerTakes(j1, 2, 0);
    var j3 := LoginCalls(j2, 1, 1);
    j' := CallerSleeps(j3, 2, 1, P.Take);
  }

  // The first probe gets to refresh the pool that is in the slot of its id now.
  lemma RefreshBegins(j: Traffic, two: ConnectionSettings) returns (j': Traffic)
    requires InIteration(j) && 2 !in j.pools[2].tasks && j.pools[2].mutex == None
    ensures Reachable(j') && j'.dropped == {} && j'.cut == {}
    ensures j'.pools == j.pools[2 := j.pools[2].(mutex := Some(2),
                                                 tasks := j.pools[2].tasks[2 := P.Locked(P.Refresh(two))])]
    ensures j'.hands == j.hands[ByProbe(0) := Hand(2, 2)]
    ensures j'.table.pools == j.table.pools && j'.table.probeReturns == []
    ensures j'.table.probes.Keys == {0, 1} && j'.table.probes[0].Resetting? && j'.table.probes[1] == j.table.probes[1]
  {
    var j1 := Apply(j, Plain(F.ProbeConnect(0, None, true)));
    ReachableNext(j, Plain(F.ProbeConnect(0, None, true)));
    var j2 := RefreshCalls(j1, two);
    j' := Inside(j2, 2, P.Acquire(2));
    assert j'.pools[2].tasks == j.pools[2].tasks[2 := P.Locked(P.Refresh(two))];
    assert j'.pools == j.pools[2 := j'.pools[2]];
  }

  lemma RefreshCalls(j: Traffic, two: ConnectionSettings) returns (j': Traffic)
    requires Reachable(j) && j.table.pools == [2] && 2 in j.pools && 2 !in j.pools[2].tasks && j.dropped == {}
    requires 0 in j.table.probes && j.table.probes[0].Refreshing? && j.table.probes[0].copy.server.id == 0
    ensures Reachable(j') && j'.dropped == j.dropped && j'.cut == j.cut
    ensures j'.pools == j.pools[2 := j.pools[2].(tasks := j.pools[2].tasks[2 := P.Acquiring(P.Refresh(two))])]
    ensures j'.hands == j.hands[ByProbe(0) := Hand(2, 2)]
    ensures j'.table.pools == j.table.pools && j'.table.probeReturns == j.table.probeReturns
    ensures j'.table.probes == j.table.probes[0 := F.Resetting(j.table.probes[0].copy, 2)]
  {
    var step := Table(F.ProbeLookup(0), 2, two, 0);
    assert MovesOf(j, step) == One(2, P.Spawn(2, P.Refresh(two)));
    j' := Apply(j, step);
    ReachableNext(j, step);
  }

  // The other one finds the list too short and panics.
  lemma ReturnPanics(j: Traffic) returns (j': Traffic)
    requires Reachable(j) && j.table.pools == [2] && j.dropped == {} && j.pools.Keys == {0, 1, 2}
    requires j.table.probes.Keys == {0, 1} && j.table.probes[1].Pinging? && j.table.probeReturns == []
    requires j.table.probes[1].copy.server.id == 1 && j.table.probes[1].issued == 1
    requires ByProbe(1) in j.hands && j.hands[ByProbe(1)] == Hand(1, 0)
    requires j.pools[1].tasks == map[0 := P.Holding(P.Handle(0, 1))]
    ensures Reachable(j') && AnyPanicked(j'.table) && Undisturbed(j'.table, 2)
    ensures j'.dropped == j.dropped && j'.cut == j.cut && j'.hands == j.hands
    ensures j'.pools.Keys == j.pools.Keys && j'.pools[2] == j.pools[2]
    ensures j'.table.probes.Keys == {0, 1} && j'.table.probes[0] == j.table.probes[0]
    ensures j'.table.pools == j.table.pools
  {
    var step := Plain(F.ProbeReturn(1, None, 0));
    assert MovesOf(j, step) == One(1, P.StrayOut(0));
    j' := Apply(j, step);
    ReachableNext(j, step);
    assert j'.table.probes[1].Panicked?;
  }

  // So a pool can fail although nothing strayed and no clear came under a probe of it: the panic of
  // one probe stops the refresh that another was making, and leaves a taker asleep beside a queue
  // that is not empty, with the mutex free and nobody to notify it; and the pool's shutdown is
  // stuck, because the connections never become as many as the size.
  lemma PanicCanStrandTaker(url: Url, other: Url, third: Url, one: ConnectionSettings, two: ConnectionSettings)
    returns (j: Traffic)
    requires one.connectionPoolSize == 1 && two.connectionPoolSize == 2
    ensures Reachable(j) && j.table.pools == [2] && 2 in j.pools && j.cut == {2}
    ensures Undisturbed(j.table, 2) && AnyPanicked(j.table)
    ensures var s := j.pools[2];
            && PT.AllHome(s) && s.mutex == None
            && 1 in s.tasks && s.tasks[1] == P.Asleep(P.Take) && !P.MustWait(P.Take, s.q)
            && |s.q.queue| + |PI.Outstanding(s)| < s.q.size
  {
    var j1 := IterationUnderChange(url, other, third, one);
    var j2 := TakerSleeps(j1, one);
    var j3 := RefreshBegins(j2, two);
    var j4 := ReturnPanics(j3);
    j := Apply(j4, Drop(0, Opening(1)));
    ReachableNext(j4, Drop(0, Opening(1)));
    AbortedRefresh(j4.pools[2], two);
  }

  lemma AbortedRefresh(s: P.PoolState, two: ConnectionSettings)
    requires two.connectionPoolSize == 2 && s.q == QueueState([], 1, 1)
    requires s.tasks == map[0 := P.Holding(P.Handle(0, 1)), 1 := P.Asleep(P.Take), 2 := P.Locked(P.Refresh(two))]
    ensures var s' := AfterDrop(s, 2, Opening(1));
            && PT.AllHome(s') && s'.mutex == None && s'.q == QueueState([|s.births|], 2, 2)
            && PI.Outstanding(s') == {} && 1 in s'.tasks && s'.tasks[1] == P.Asleep(P.Take)
  {
    var s' := AfterDrop(s, 2, Opening(1));
    assert s'.tasks == map[0 := P.Holding(P.Handle(0, 1)), 1 := P.Asleep(P.Take), 2 := P.Finished];
    assert s'.q.queue == Batch(|s.births|, 1) == [|s.births|];
  }
}
