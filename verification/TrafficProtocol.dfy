/**
 The whole back end as one step system: the server table with its logins, probes and configuration
 actor (FailoverProtocol), and every pool that was ever in the table (PoolProtocol).

 A step of the table is taken together with what it does to the pools: a lookup is followed by a
 call of take_connection or refresh_connections on the pool it found, and a login or probe that
 has finished hands its connection to return_connection.  What then happens inside a pool is a
 step of that pool alone.  The list is cleared by the configuration actor, and the pools that have
 left the table are shut down.

 A probe that panics takes the other probes of its iteration with it: join_all drops their
 futures wherever they wait (src/vkldap/failure_detector.rs:63-73).  Which probes are of one
 iteration is left open: once a probe has panicked, any other may be dropped.
 */
module TrafficProtocol {
  import opened Wrappers
  import opened ConnectionQueues
  import opened ServerTable
  import F = FailoverProtocol
  import P = PoolProtocol
  import PI = PoolInvariants

  type TaskId = nat

  datatype User = ByLogin(t: TaskId) | ByProbe(t: TaskId)

  // The task that works for a user in a pool.
  datatype Hand = Hand(pool: PoolId, task: P.TaskId)

  datatype Traffic = Traffic(
    table: F.SystemState,
    pools: map<PoolId, P.PoolState>,
    hands: map<User, Hand>,
    shut: set<PoolId>,      // the pools whose shutdown has been called
    dropped: set<TaskId>,   // the probes that were dropped
    // History:
    cut: set<PoolId>        // the pools in which a dropped probe had a task
  )

  const INITIAL := Traffic(F.INITIAL, map[], map[], {}, {}, {})

  // Where the future of a dropped refresh waited: for the mutex, for the n-th queued connection to
  // close, or for one to open after `n` were opened.
  datatype Point = AtRest | Closing(n: nat) | Opening(n: nat)

  datatype Step =
    | Table(step: F.Step, u: P.TaskId, settings: ConnectionSettings, built: nat)
    | Within(pool: PoolId, poolStep: P.Step)
    | ShutDown(pool: PoolId, u: P.TaskId)
    | Drop(t: TaskId, point: Point)

  // ---- What a step of the table does to the pools

  datatype Moves =
    | NoMove
    | One(pool: PoolId, step: P.Step)
    | Two(pool: PoolId, step: P.Step, other: PoolId, otherStep: P.Step)

  // The pool in the slot of an id.
  function PoolAt(table: F.SystemState, id: nat): Option<PoolId> {
    if id < |table.pools| then Some(table.pools[id]) else None
  }

  function LookedUp(table: F.SystemState): Option<PoolId> {
    match Lookup(table.servers)
    case Err(_) => None
    case Ok(server) => PoolAt(table, server.id)
  }

  function Call(pool: Option<PoolId>, u: P.TaskId, op: P.Op): Moves {
    match pool
    case None => NoMove
    case Some(p) => One(p, P.Spawn(u, op))
  }

  // A probe hands its connection to the pool that it looks up now, or panics with it.
  function ReturnMoves(hand: Hand, to: Option<PoolId>, u: P.TaskId, epoch: nat): Moves {
    match to
    case None => One(hand.pool, P.StrayOut(hand.task))
    case Some(p) =>
      if p == hand.pool then One(p, P.BeginReturn(hand.task))
      else Two(hand.pool, P.StrayOut(hand.task), p, P.StrayIn(u, epoch))
  }

  // The task of a user, in the pool it is in.
  function TaskOf(j: Traffic, user: User): Option<P.Task> {
    if user !in j.hands then None
    else
      var hand := j.hands[user];
      if hand.pool in j.pools && hand.task in j.pools[hand.pool].tasks then Some(j.pools[hand.pool].tasks[hand.task])
      else None
  }

  predicate HasConnection(j: Traffic, user: User) {
    TaskOf(j, user).Some? && TaskOf(j, user).value.Holding?
  }

  function MovesOf(j: Traffic, step: Step): Moves
    requires step.Table? && F.Enabled(j.table, step.step) && Ready(j, step)
  {
    match step.step
    case FindServer(_) => Call(LookedUp(j.table), step.u, P.Await(P.Take))
    case FinishOp(t, _) =>
      var hand := j.hands[ByLogin(t)];
      One(hand.pool, P.BeginReturn(hand.task))
    case ProbeTake(t) => Call(PoolAt(j.table, j.table.probes[t].copy.server.id), step.u, P.Await(P.Take))
    case ProbeReturn(t, _, _) =>
      ReturnMoves(j.hands[ByProbe(t)], PoolAt(j.table, j.table.probes[t].copy.server.id), step.u,
                  TaskOf(j, ByProbe(t)).value.handle.epoch)
    case ProbeLookup(t) => Call(PoolAt(j.table, j.table.probes[t].copy.server.id), step.u, P.Refresh(step.settings))
    case ProbeReset(t, _) =>
      var hand := j.hands[ByProbe(t)];
      One(hand.pool, P.Reset(hand.task, step.built))
    case _ => NoMove
  }

  // What a step of the table waits for: take_connection has returned, and the status that is
  // written is what the building of the connections came to.
  predicate Ready(j: Traffic, step: Step)
    requires step.Table? && F.Enabled(j.table, step.step)
  {
    match step.step
    case TakeConnection(t) => HasConnection(j, ByLogin(t))
    case FinishOp(t, _) => HasConnection(j, ByLogin(t))
    case ProbeReturn(t, _, _) => HasConnection(j, ByProbe(t))
    case ProbeReset(t, failure) =>
      && TaskOf(j, ByProbe(t)).Some? && TaskOf(j, ByProbe(t)).value.Locked? && TaskOf(j, ByProbe(t)).value.op.Refresh?
      && (failure.None? <==> step.built == TaskOf(j, ByProbe(t)).value.op.settings.connectionPoolSize)
    case EndAdd(failure) =>
      step.built <= step.settings.connectionPoolSize
      && (failure.None? <==> step.built == step.settings.connectionPoolSize)
    case _ => true
  }

  predicate CanMove(pools: map<PoolId, P.PoolState>, pool: PoolId, step: P.Step) {
    pool in pools && P.Enabled(pools[pool], step)
  }

  predicate CanMakeMoves(pools: map<PoolId, P.PoolState>, moves: Moves) {
    match moves
    case NoMove => true
    case One(p, step) => CanMove(pools, p, step)
    case Two(p, step, q, otherStep) => p != q && CanMove(pools, p, step) && CanMove(pools, q, otherStep)
  }

  function MakeMoves(pools: map<PoolId, P.PoolState>, moves: Moves): map<PoolId, P.PoolState>
    requires CanMakeMoves(pools, moves)
  {
    match moves
    case NoMove => pools
    case One(p, step) => pools[p := P.Apply(pools[p], step)]
    case Two(p, step, q, otherStep) => pools[p := P.Apply(pools[p], step)][q := P.Apply(pools[q], otherStep)]
  }

  // Who a step of the table works for, and with which task from then on.
  function NewHands(hands: map<User, Hand>, step: F.Step, moves: Moves): map<User, Hand> {
    match moves
    case One(p, Spawn(u, _)) =>
      if step.FindServer? then hands[ByLogin(step.t) := Hand(p, u)]
      else if step.ProbeTake? || step.ProbeLookup? then hands[ByProbe(step.t) := Hand(p, u)]
      else hands
    case Two(_, _, q, StrayIn(u, _)) => if step.ProbeReturn? then hands[ByProbe(step.t) := Hand(q, u)] else hands
    case _ => hands
  }

  // ---- Steps

  predicate IsProbeStep(step: F.Step) {
    !F.IsLoginStep(step) && !F.IsConfigStep(step)
  }

  // What a task of a pool does by itself, once called.  Only probes refresh, and the building of
  // the connections is taken together with their ProbeReset.
  predicate IsOwn(step: P.Step) {
    !step.Spawn? && !step.BeginReturn? && !step.StrayIn? && !step.StrayOut? && !step.Reset?
  }

  predicate Enabled(j: Traffic, step: Step) {
    match step
    case Table(fstep, _, _, _) =>
      && F.Enabled(j.table, fstep) && Ready(j, step)
      && (IsProbeStep(fstep) ==> fstep.t !in j.dropped)
      && CanMakeMoves(j.pools, MovesOf(j, step))
    case Within(p, poolStep) => CanMove(j.pools, p, poolStep) && IsOwn(poolStep)
    case ShutDown(p, u) =>
      && p !in j.shut && p !in j.table.pools
      && CanMove(j.pools, p, P.Spawn(u, P.Await(P.Shutdown)))
    case Drop(t, point) =>
      && AnyPanicked(j.table)
      && t in j.table.probes && !j.table.probes[t].Over? && !j.table.probes[t].Panicked? && t !in j.dropped
      && (HasTask(j, t) ==>
            var hand := j.hands[ByProbe(t)]; CanBeDropped(j.pools[hand.pool], hand.task, point))
  }

  predicate AnyPanicked(table: F.SystemState) {
    exists t | t in table.probes :: table.probes[t].Panicked?
  }

  // A dropped probe has a task that is not at its end.
  predicate HasTask(j: Traffic, t: TaskId) {
    TaskOf(j, ByProbe(t)).Some? && !TaskOf(j, ByProbe(t)).value.Finished?
  }

  function Apply(j: Traffic, step: Step): Traffic
    requires Enabled(j, step)
  {
    match step
    case Table(fstep, _, settings, built) =>
      var moves := MovesOf(j, step);
      var pools := MakeMoves(j.pools, moves);
      j.(table := F.Apply(j.table, fstep),
         pools := if fstep.EndAdd? then pools[j.table.nextPool := P.Init(settings, built)] else pools,
         hands := NewHands(j.hands, fstep, moves))
    case Within(p, poolStep) => j.(pools := j.pools[p := P.Apply(j.pools[p], poolStep)])
    case ShutDown(p, u) =>
      j.(pools := j.pools[p := P.Apply(j.pools[p], P.Spawn(u, P.Await(P.Shutdown)))], shut := j.shut + {p})
    case Drop(t, point) =>
      if !HasTask(j, t) then j.(dropped := j.dropped + {t})
      else
        var hand := j.hands[ByProbe(t)];
        j.(pools := j.pools[hand.pool := AfterDrop(j.pools[hand.pool], hand.task, point)],
           dropped := j.dropped + {t},
           cut := j.cut + {hand.pool})
  }

  // ---- A dropped task

  // A future can be dropped where it waits.
  predicate CanBeDropped(s: P.PoolState, t: P.TaskId, point: Point)
    requires t in s.tasks
  {
    match s.tasks[t]
    case Locked(Refresh(settings)) =>
      (point.Closing? && point.n <= |s.q.queue|) || (point.Opening? && point.n < settings.connectionPoolSize)
    case Locked(_) => false
    case Registered(_) => false
    case Notifying => false
    case _ => point == AtRest
  }

  // A connection that the task has is gone with it.  A refresh stops in the middle of its reset
  // and releases the mutex; nobody is notified.
  function AfterDrop(s: P.PoolState, t: P.TaskId, point: Point): P.PoolState
    requires t in s.tasks && CanBeDropped(s, t, point)
  {
    match s.tasks[t]
    case Locked(Refresh(settings)) =>
      (match point
       case Closing(n) => s.(tasks := s.tasks[t := P.Finished], mutex := None, closeLog := s.closeLog + s.q.queue[..n])
       case _ => AfterAbort(s, settings, point.n).(tasks := s.tasks[t := P.Finished], mutex := None))
    case _ =>
      var s' := s.(tasks := s.tasks[t := P.Finished]);
      (match PI.Held(s.tasks[t])
       case None => s'
       case Some(h) =>
         s'.(away := s.away + {h.conn}, lost := if PI.HoldsCurrent(s.tasks[t], s.q.epoch) then s.lost + 1 else s.lost))
  }

  // reset_connections after `n` connections have been pushed.
  function AfterAbort(s: P.PoolState, settings: ConnectionSettings, n: nat): P.PoolState
    requires n < settings.connectionPoolSize
  {
    var first := |s.births|;
    s.(q := QueueState(Batch(first, n), s.q.epoch + 1, settings.connectionPoolSize),
       settings := settings,
       filled := false,
       births := s.births + seq(n, _ => P.Home(s.q.epoch + 1, settings)),
       closeLog := s.closeLog + s.q.queue,
       arrivals := seq(n, i requires 0 <= i < n => first + i),
       departures := 0,
       stock := n,
       strayed := 0,
       lost := 0)
  }

  // ---- Runs

  ghost predicate Next(j: Traffic, j': Traffic) {
    exists step :: Enabled(j, step) && j' == Apply(j, step)
  }

  ghost predicate IsRun(run: seq<Traffic>) {
    && run != []
    && run[0] == INITIAL
    && forall i :: 0 <= i < |run| - 1 ==> Next(run[i], run[i + 1])
  }

  ghost predicate Reachable(j: Traffic) {
    exists run: seq<Traffic> :: IsRun(run) && run[|run| - 1] == j
  }
}
