/**
 The bodies of VkConnectionPool (src/vkldap/connection.rs) between the acquisition of the mutex,
 after any waiting, and its release.  Each is shown to be a step of the pool protocol.
 */
module ConnectionPool {
  import opened Wrappers
  import opened ConnectionQueues
  import opened PoolProtocol

  class VkConnectionPool {
    const queue: ConnectionQueue

    constructor (settings: ConnectionSettings, connect: nat -> bool)
      ensures fresh(queue)
      ensures queue.State() == Init(settings, Built(connect, settings.connectionPoolSize)).q
    {
      var empty := new ConnectionQueue();
      var _, _, _ := empty.ResetConnections(settings, 0, connect);
      queue := empty;
    }

    // What task `t` sees when it has the mutex in state `s`.
    ghost predicate At(s: PoolState, t: TaskId, op: Op)
      reads queue
    {
      t in s.tasks && s.tasks[t] == Locked(op) && queue.State() == s.q
    }

    // take_connection after its loop
    method TakeConnection(ghost s: PoolState, ghost t: TaskId) returns (handle: Handle)
      requires At(s, t, Await(Take)) && !MustWait(Take, s.q)
      modifies queue
      ensures var s' := Apply(s, TakeOut(t));
              queue.State() == s'.q && s'.tasks[t] == Holding(handle)
    {
      var conn, epoch := queue.Take();
      handle := Handle(conn, epoch);
    }

    method ReturnConnection(handle: Handle, ghost s: PoolState, ghost t: TaskId)
      returns (notifies: bool, closed: seq<ConnId>)
      requires At(s, t, Return(handle)) || At(s, t, HandIn(handle))
      modifies queue
      ensures var s' := Apply(s, if handle.epoch == s.q.epoch then PutBack(t) else Discard(t));
              && queue.State() == s'.q
              && notifies == s'.tasks[t].Notifying?
              && s'.closeLog == s.closeLog + closed
    {
      if queue.epoch == handle.epoch {
        queue.Put(handle.conn);
        return true, [];
      } else {
        return false, [handle.conn];
      }
    }

    // `next` is the identity of the next connection to be opened.
    method RefreshConnections(settings: ConnectionSettings, connect: nat -> bool, next: ConnId,
                              ghost s: PoolState, ghost t: TaskId)
      returns (ok: bool, notifies: bool, closed: seq<ConnId>)
      requires At(s, t, Refresh(settings)) && next == |s.births|
      modifies queue
      ensures var s' := Apply(s, Reset(t, Built(connect, settings.connectionPoolSize)));
              && queue.State() == s'.q
              && ok == s'.filled && notifies == s'.tasks[t].Notifying?
              && s'.closeLog == s.closeLog + closed
    {
      var built: nat;
      ok, built, closed := queue.ResetConnections(settings, next, connect);
      // A failed reset returns before the waiters are notified.
      notifies := ok;
    }

    // shutdown after its loop
    method ShutDown(ghost s: PoolState, ghost t: TaskId) returns (closed: seq<ConnId>)
      requires At(s, t, Await(Shutdown)) && !MustWait(Shutdown, s.q)
      modifies queue
      ensures var s' := Apply(s, CloseAll(t));
              queue.State() == s'.q && s'.closeLog == s.closeLog + closed
    {
      closed := queue.CloseConnections();
    }
  }
}
