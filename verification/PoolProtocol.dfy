/**
 One connection pool shared by any number of tasks (VkConnectionPool in
 src/vkldap/connection.rs), as a step system.

 A step is what one task does between two points where another task can run.  The
 `notify_wait!` idiom is three steps: the waiter is enabled while the mutex is still held
 (Register), the mutex is released (Release), and a notified waiter asks for the mutex again
 (Relock) before it looks at its loop condition once more.  The mutex goes to any task that
 asks for it, in any order.

 A connection taken here need not come back here: the failure detector looks the pool up again
 before it hands a connection back, and after a change of the list it finds another server's pool
 or none (FailoverTheorems.ProbeCanMiss).  Seen from one pool, a handle goes astray (StrayOut) or
 the handle of another pool is handed in (StrayIn).
 */
module PoolProtocol {
  import opened Wrappers
  import opened ConnectionQueues

  type TaskId = nat

  // VkLdapPoolConnection: the connection and the epoch of the queue it was taken from.
  datatype Handle = Handle(conn: ConnId, epoch: nat)

  // How a connection came to the pool: built by the reset of that epoch with these settings, or
  // handed in with the epoch that another pool had given it.
  datatype Birth = Home(epoch: nat, settings: ConnectionSettings) | Foreign(epoch: nat)

  datatype Purpose = Take | Shutdown

  datatype Op =
    | Await(purpose: Purpose)
    | Refresh(settings: ConnectionSettings)
    | Return(handle: Handle) // of a connection taken from this pool
    | HandIn(handle: Handle) // of a connection taken from another pool

  datatype Task =
    | Acquiring(op: Op)            // waits for the mutex
    | Locked(op: Op)               // holds the mutex, at the head of its loop or body
    | Registered(purpose: Purpose) // holds the mutex, its notification future is enabled
    | Asleep(purpose: Purpose)     // mutex released, the future is not completed
    | Woken(purpose: Purpose)      // mutex released, the future is completed
    | Notifying                    // holds the mutex, changed the queue, has not notified yet
    | Holding(handle: Handle)      // took a connection, holds no mutex
    | Finished

  datatype PoolState = PoolState(
    q: QueueState,
    mutex: Option<TaskId>,
    tasks: map<TaskId, Task>,
    // History, never read by a task:
    settings: ConnectionSettings,  // those of the most recent reset
    filled: bool,                  // the most recent reset succeeded and no shutdown completed since
    births: seq<Birth>,            // connection `c` came to the pool as `births[c]`
    closeLog: seq<ConnId>,         // the connections closed, in order
    arrivals: seq<ConnId>,         // the connections that entered the queue since it was last emptied
    departures: nat,               // how many of them were taken
    away: set<ConnId>,             // the connections that went astray
    stock: int,                    // connections built by the most recent reset, less those shut down since
    strayed: nat,                  // foreign connections put into the queue since the most recent reset
    lost: nat                      // connections of the current epoch that went astray
  )

  // The loop condition of take_connection and of shutdown.
  predicate MustWait(purpose: Purpose, q: QueueState) {
    match purpose
    case Take => q.queue == []
    case Shutdown => |q.queue| != q.size
  }

  // VkConnectionPool::new, whose first reset built `built` connections.
  function Init(settings: ConnectionSettings, built: nat): PoolState
    requires built <= settings.connectionPoolSize
  {
    var empty := PoolState(QueueState([], 0, 0), None, map[], settings, false, [], [], [], 0, {}, 0, 0, 0);
    AfterRefill(empty, settings, built)
  }

  function AfterRefill(s: PoolState, settings: ConnectionSettings, built: nat): PoolState
    requires built <= settings.connectionPoolSize
  {
    var first := |s.births|;
    var ok := built == settings.connectionPoolSize;
    s.(q := AfterReset(s.q, settings, first, built),
       settings := settings,
       filled := ok,
       births := s.births + seq(built, _ => Home(s.q.epoch + 1, settings)),
       closeLog := s.closeLog + ClosedByReset(s.q, settings, first, built),
       arrivals := if ok then seq(built, i requires 0 <= i < built => first + i) else [],
       departures := 0,
       stock := if ok then built else 0,
       strayed := 0,
       lost := 0)
  }

  datatype Step =
    | Spawn(t: TaskId, op: Op)        // a new task calls take_connection, refresh_connections or shutdown
    | BeginReturn(t: TaskId)          // a task gives its connection to return_connection
    | StrayIn(t: TaskId, epoch: nat)  // a new task gives the connection of another pool to return_connection
    | StrayOut(t: TaskId)             // a task gives its connection to another pool, or panics with it
    | Acquire(t: TaskId)
    | Register(t: TaskId)
    | Release(t: TaskId)
    | Relock(t: TaskId)
    | TakeOut(t: TaskId)              // take_connection ends
    | PutBack(t: TaskId)              // return_connection, handle of the current epoch
    | Discard(t: TaskId)              // return_connection, handle of an older epoch
    | Reset(t: TaskId, built: nat)    // refresh_connections: `built` attempts succeeded
    | NotifyAll(t: TaskId)
    | CloseAll(t: TaskId)             // shutdown ends

  // An operation that runs return_connection.
  predicate HandsBack(op: Op) {
    op.Return? || op.HandIn?
  }

  predicate Enabled(s: PoolState, step: Step) {
    if step.Spawn? then
      step.t !in s.tasks && !HandsBack(step.op)
    else if step.StrayIn? then
      step.t !in s.tasks
    else if step.t !in s.tasks then
      false
    else
      var task := s.tasks[step.t];
      match step
      case BeginReturn(_) => task.Holding?
      case StrayOut(_) => task.Holding?
      case Acquire(_) => task.Acquiring? && s.mutex == None
      case Register(_) => task.Locked? && task.op.Await? && MustWait(task.op.purpose, s.q)
      case Release(_) => task.Registered?
      case Relock(_) => task.Woken?
      case TakeOut(_) => task == Locked(Await(Take)) && !MustWait(Take, s.q)
      case PutBack(_) => task.Locked? && HandsBack(task.op) && task.op.handle.epoch == s.q.epoch
      case Discard(_) => task.Locked? && HandsBack(task.op) && task.op.handle.epoch != s.q.epoch
      case Reset(_, built) => task.Locked? && task.op.Refresh? && built <= task.op.settings.connectionPoolSize
      case NotifyAll(_) => task.Notifying?
      case CloseAll(_) => task == Locked(Await(Shutdown)) && !MustWait(Shutdown, s.q)
  }

  function Awaken(task: Task): Task {
    if task.Asleep? then Woken(task.purpose) else task
  }

  function Apply(s: PoolState, step: Step): PoolState
    requires Enabled(s, step)
  {
    var t := step.t;
    match step
    case Spawn(_, op) => s.(tasks := s.tasks[t := Acquiring(op)])
    case BeginReturn(_) => s.(tasks := s.tasks[t := Acquiring(Return(s.tasks[t].handle))])
    case StrayIn(_, epoch) =>
      s.(tasks := s.tasks[t := Acquiring(HandIn(Handle(|s.births|, epoch)))],
         births := s.births + [Foreign(epoch)])
    case StrayOut(_) =>
      var h := s.tasks[t].handle;
      s.(tasks := s.tasks[t := Finished],
         away := s.away + {h.conn},
         lost := if h.epoch == s.q.epoch then s.lost + 1 else s.lost)
    case Acquire(_) => s.(tasks := s.tasks[t := Locked(s.tasks[t].op)], mutex := Some(t))
    case Register(_) => s.(tasks := s.tasks[t := Registered(s.tasks[t].op.purpose)])
    case Release(_) => s.(tasks := s.tasks[t := Asleep(s.tasks[t].purpose)], mutex := None)
    case Relock(_) => s.(tasks := s.tasks[t := Acquiring(Await(s.tasks[t].purpose))])
    case TakeOut(_) =>
      var last := |s.q.queue| - 1;
      s.(q := AfterTake(s.q),
         tasks := s.tasks[t := Holding(Handle(s.q.queue[last], s.q.epoch))],
         mutex := None,
         departures := s.departures + 1)
    case PutBack(_) =>
      var conn := s.tasks[t].op.handle.conn;
      s.(q := AfterPut(s.q, conn),
         tasks := s.tasks[t := Notifying],
         arrivals := s.arrivals + [conn],
         strayed := if s.tasks[t].op.HandIn? then s.strayed + 1 else s.strayed)
    case Discard(_) =>
      s.(tasks := s.tasks[t := Finished],
         mutex := None,
         closeLog := s.closeLog + [s.tasks[t].op.handle.conn])
    case Reset(_, built) =>
      var settings := s.tasks[t].op.settings;
      var ok := built == settings.connectionPoolSize;
      AfterRefill(s, settings, built).(
        tasks := s.tasks[t := if ok then Notifying else Finished],
        mutex := if ok then s.mutex else None)
    case NotifyAll(_) =>
      s.(tasks := (map u | u in s.tasks :: Awaken(s.tasks[u]))[t := Finished], mutex := None)
    case CloseAll(_) =>
      s.(q := s.q.(queue := []),
         tasks := s.tasks[t := Finished],
         mutex := None,
         filled := false,
         closeLog := s.closeLog + s.q.queue,
         arrivals := [],
         departures := 0,
         stock := s.stock - |s.q.queue|)
  }

  ghost predicate Next(s: PoolState, s': PoolState) {
    exists step :: Enabled(s, step) && s' == Apply(s, step)
  }

  ghost predicate IsInit(s: PoolState) {
    exists settings: ConnectionSettings, built: nat | built <= settings.connectionPoolSize ::
      s == Init(settings, built)
  }

  // The states of a run, from the creation of the pool on.
  ghost predicate IsRun(run: seq<PoolState>) {
    && run != []
    && IsInit(run[0])
    && forall i :: 0 <= i < |run| - 1 ==> Next(run[i], run[i + 1])
  }

  ghost predicate Reachable(s: PoolState) {
    exists run: seq<PoolState> :: IsRun(run) && run[|run| - 1] == s
  }
}
