/**
 The queue of idle LDAP connections of one server (ConnectionQueue in src/vkldap/connection.rs).

 A connection is known by its identity: every successful connection attempt of a pool gets
 the next number.  Opening and unbinding have no other effect here: a method returns the
 identities it closed, in order, and takes the outcome of its connection attempts as a
 parameter.
 */
module ConnectionQueues {

  type ConnId = nat

  // `connectionPoolSize` is the only setting that the pool itself looks at.
  datatype ConnectionSettings = ConnectionSettings(connectionPoolSize: nat, transport: string)

  // Index 0 is the front of the deque: connections are pushed there and taken from the back.
  datatype QueueState = QueueState(queue: seq<ConnId>, epoch: nat, size: nat)

  // The connections `first`, `first + 1`, ... after each was pushed to the front.
  function Batch(first: ConnId, n: nat): seq<ConnId> {
    seq(n, i requires 0 <= i < n => first + n - 1 - i)
  }

  // The number of connection attempts that succeed before the first that fails, at most `n`.
  function Built(connect: nat -> bool, n: nat): (built: nat)
    ensures built <= n
    ensures forall i :: 0 <= i < built ==> connect(i)
    ensures built < n ==> !connect(built)
  {
    if n == 0 then 0
    else
      var built := Built(connect, n - 1);
      if built == n - 1 && connect(n - 1) then n else built
  }

  function AfterReset(q: QueueState, settings: ConnectionSettings, first: ConnId, built: nat): QueueState {
    var size := settings.connectionPoolSize;
    QueueState(if built == size then Batch(first, built) else [], q.epoch + 1, size)
  }

  function ClosedByReset(q: QueueState, settings: ConnectionSettings, first: ConnId, built: nat): seq<ConnId> {
    q.queue + if built == settings.connectionPoolSize then [] else Batch(first, built)
  }

  function AfterTake(q: QueueState): QueueState
    requires q.queue != []
  {
    q.(queue := q.queue[..|q.queue| - 1])
  }

  function AfterPut(q: QueueState, conn: ConnId): QueueState {
    q.(queue := [conn] + q.queue)
  }

  class ConnectionQueue {
    var queue: seq<ConnId>
    var epoch: nat
    var size: nat

    function State(): QueueState
      reads this
    {
      QueueState(queue, epoch, size)
    }

    constructor ()
      ensures State() == QueueState([], 0, 0)
    {
      queue, epoch, size := [], 0, 0;
    }

    method CloseConnections() returns (closed: seq<ConnId>)
      modifies this
      ensures closed == old(queue)
      ensures State() == old(State()).(queue := [])
    {
      closed := [];
      for i := 0 to |queue|
        invariant unchanged(this)
        invariant closed == queue[..i]
      {
        closed := closed + [queue[i]];
      }
      queue := [];
    }

    method ResetConnections(settings: ConnectionSettings, first: ConnId, connect: nat -> bool)
      returns (ok: bool, built: nat, closed: seq<ConnId>)
      modifies this
      ensures built == Built(connect, settings.connectionPoolSize)
      ensures ok <==> forall i :: 0 <= i < settings.connectionPoolSize ==> connect(i)
      ensures State() == AfterReset(old(State()), settings, first, built)
      ensures closed == ClosedByReset(old(State()), settings, first, built)
    {
      closed := CloseConnections();
      epoch := epoch + 1;
      size := settings.connectionPoolSize;
      built := 0;
      while built < size
        invariant built <= size == settings.connectionPoolSize
        invariant epoch == old(epoch) + 1
        invariant closed == old(queue)
        invariant queue == Batch(first, built)
        invariant forall i :: 0 <= i < built ==> connect(i)
      {
        if !connect(built) {
          var partial := CloseConnections();
          closed := closed + partial;
          ok := false;
          return;
        }
        queue := [first + built] + queue;
        built := built + 1;
      }
      ok := true;
    }

    method Take() returns (conn: ConnId, from: nat)
      requires queue != []
      modifies this
      ensures conn == old(queue)[|old(queue)| - 1] && from == old(epoch)
      ensures State() == AfterTake(old(State()))
    {
      conn, from := queue[|queue| - 1], epoch;
      queue := queue[..|queue| - 1];
    }

    method Put(conn: ConnId)
      modifies this
      ensures State() == AfterPut(old(State()), conn)
    {
      queue := [conn] + queue;
    }
  }
}
