/**
 The failover loop run_ldap_op_with_failover (src/vkldap/context.rs) in a run that nobody
 disturbs, against a recursive walk down the server list.

 The operation is given by its outcome on each slot: in such a run no slot is tried twice.
 */
module Failover {
  import opened Wrappers
  import opened LdapErrors
  import opened ServerTable

  datatype PoolEvent = Taken(pool: PoolId) | HandedBack(pool: PoolId)

  datatype WalkResult = WalkResult(servers: seq<Server>, outcome: Outcome, tried: seq<nat>)

  function MarkedDown(server: Server, outcome: Outcome): Server {
    if IsConnectionFailure(outcome) then
      server.(status := Unhealthy(ConnectionErrorMessage(outcome.error.err)), pingTime := None)
    else server
  }

  predicate GivesWay(servers: seq<Server>, op: nat -> Outcome, i: nat)
    requires i < |servers|
  {
    servers[i].IsHealthy() ==> IsConnectionFailure(op(i))
  }

  // Down the list from slot `from`: skip the unhealthy, mark down those that fail to connect,
  // stop at the first answer.
  function Walk(servers: seq<Server>, op: nat -> Outcome, from: nat): WalkResult
    requires from <= |servers|
    decreases |servers| - from
  {
    if from == |servers| then
      WalkResult(servers, Err(NoServerError(servers)), [])
    else if !servers[from].IsHealthy() then
      Walk(servers, op, from + 1)
    else if IsConnectionFailure(op(from)) then
      var rest := Walk(servers[from := MarkedDown(servers[from], op(from))], op, from + 1);
      rest.(tried := [from] + rest.tried)
    else
      WalkResult(servers, op(from), [from])
  }

  // The first healthy slot whose operation gives no connection failure, or the length of the list.
  function Stop(servers: seq<Server>, op: nat -> Outcome, from: nat): (stop: nat)
    requires from <= |servers|
    ensures from <= stop <= |servers|
    ensures forall i :: from <= i < stop ==> GivesWay(servers, op, i)
    ensures stop < |servers| ==> !GivesWay(servers, op, stop)
    decreases |servers| - from
  {
    if from == |servers| || !GivesWay(servers, op, from) then from else Stop(servers, op, from + 1)
  }

  // What the walk comes to and what it leaves behind, told by the stop alone.
  lemma {:induction false} WalkOutcome(servers: seq<Server>, op: nat -> Outcome, from: nat)
    requires from <= |servers|
    ensures var w, stop := Walk(servers, op, from), Stop(servers, op, from);
            && w.outcome == (if stop < |servers| then op(stop) else Err(NoServerError(servers)))
            && !IsConnectionFailure(w.outcome)
            && |w.servers| == |servers|
            && (forall i :: 0 <= i < |servers| ==>
                  w.servers[i] == if from <= i < stop && servers[i].IsHealthy() then MarkedDown(servers[i], op(i))
                                  else servers[i])
    decreases |servers| - from
  {
    if from < |servers| {
      if !servers[from].IsHealthy() {
        WalkOutcome(servers, op, from + 1);
      } else if IsConnectionFailure(op(from)) {
        var marked := servers[from := MarkedDown(servers[from], op(from))];
        WalkOutcome(marked, op, from + 1);
        StopIgnoresEarlierSlots(servers, marked, op, from + 1);
      }
    }
  }

  // The healthy slots from `from` up to `to`, in list order.
  function HealthySlots(servers: seq<Server>, from: nat, to: nat): seq<nat>
    requires from <= to <= |servers|
    decreases |servers| - from
  {
    if from == to then []
    else (if servers[from].IsHealthy() then [from] else []) + HealthySlots(servers, from + 1, to)
  }

  // `slots` are exactly the healthy ones in the range, each once, in list order.
  ghost predicate ListsHealthy(slots: seq<nat>, servers: seq<Server>, from: nat, to: nat)
    requires from <= to <= |servers|
  {
    && (forall k :: 0 <= k < |slots| ==> from <= slots[k] < to && servers[slots[k]].IsHealthy())
    && (forall i: nat :: from <= i < to && servers[i].IsHealthy() ==> i in slots)
    && (forall j, k :: 0 <= j < k < |slots| ==> slots[j] < slots[k])
  }

  lemma ListsOneMore(later: seq<nat>, servers: seq<Server>, from: nat, to: nat)
    requires from < to <= |servers| && ListsHealthy(later, servers, from + 1, to)
    ensures ListsHealthy((if servers[from].IsHealthy() then [from] else []) + later, servers, from, to)
  {
    var slots := (if servers[from].IsHealthy() then [from] else []) + later;
    forall i: nat | from <= i < to && servers[i].IsHealthy() ensures i in slots {
      assert i in later ==> i in slots;
    }
  }

  lemma {:induction false} HealthySlotsMeaning(servers: seq<Server>, from: nat, to: nat)
    requires from <= to <= |servers|
    ensures ListsHealthy(HealthySlots(servers, from, to), servers, from, to)
    decreases |servers| - from
  {
    if from < to {
      HealthySlotsMeaning(servers, from + 1, to);
      ListsOneMore(HealthySlots(servers, from + 1, to), servers, from, to);
    }
  }

  lemma {:induction false} HealthySlotsLocal(a: seq<Server>, b: seq<Server>, from: nat, to: nat)
    requires from <= to <= |a| == |b| && a[from..] == b[from..]
    ensures HealthySlots(a, from, to) == HealthySlots(b, from, to)
    decreases |a| - from
  {
    if from < to {
      assert a[from] == a[from..][0] == b[from];
      assert a[from + 1..] == a[from..][1..] == b[from + 1..];
      HealthySlotsLocal(a, b, from + 1, to);
    }
  }

  function TriedUpTo(servers: seq<Server>, stop: nat): (to: nat)
    ensures to == if stop < |servers| then stop + 1 else |servers|
  {
    if stop < |servers| then stop + 1 else |servers|
  }

  // The slots tried are the healthy ones up to and with the stop.
  lemma {:induction false} WalkTries(servers: seq<Server>, op: nat -> Outcome, from: nat)
    requires from <= |servers|
    ensures Walk(servers, op, from).tried == HealthySlots(servers, from, TriedUpTo(servers, Stop(servers, op, from)))
    decreases |servers| - from
  {
    if from < |servers| {
      if !servers[from].IsHealthy() {
        WalkTries(servers, op, from + 1);
      } else if IsConnectionFailure(op(from)) {
        var marked := servers[from := MarkedDown(servers[from], op(from))];
        WalkTries(marked, op, from + 1);
        StopIgnoresEarlierSlots(servers, marked, op, from + 1);
        HealthySlotsLocal(servers, marked, from + 1, TriedUpTo(servers, Stop(servers, op, from + 1)));
      } else {
        assert HealthySlots(servers, from + 1, from + 1) == [];
      }
    }
  }

  lemma WalkTriesEachOnce(servers: seq<Server>, op: nat -> Outcome)
    ensures ListsHealthy(Walk(servers, op, 0).tried, servers, 0, TriedUpTo(servers, Stop(servers, op, 0)))
  {
    WalkTries(servers, op, 0);
    HealthySlotsMeaning(servers, 0, TriedUpTo(servers, Stop(servers, op, 0)));
  }

  lemma {:induction false} StopIgnoresEarlierSlots(a: seq<Server>, b: seq<Server>, op: nat -> Outcome, from: nat)
    requires from <= |a| == |b| && a[from..] == b[from..]
    ensures Stop(a, op, from) == Stop(b, op, from)
    decreases |a| - from
  {
    if from < |a| {
      assert a[from] == a[from..][0] == b[from];
      assert a[from + 1..] == a[from..][1..] == b[from + 1..];
      StopIgnoresEarlierSlots(a, b, op, from + 1);
    }
  }

  // Slots before `from` that are all unhealthy are as good as skipped.
  lemma {:induction false} WalkSkips(servers: seq<Server>, op: nat -> Outcome, from: nat, to: nat)
    requires from <= to <= |servers|
    requires forall i :: from <= i < to ==> !servers[i].IsHealthy()
    ensures Walk(servers, op, from) == Walk(servers, op, to)
    decreases |servers| - from
  {
    if from < to {
      WalkSkips(servers, op, from + 1, to);
    }
  }

  // One round of the loop: what it tries is what the walk tries next.
  lemma WalkRound(servers: seq<Server>, op: nat -> Outcome)
    ensures var slot := FirstHealthy(servers);
            if slot == |servers| then
              Walk(servers, op, 0) == WalkResult(servers, Err(NoServerError(servers)), [])
            else if IsConnectionFailure(op(slot)) then
              var rest := Walk(servers[slot := MarkedDown(servers[slot], op(slot))], op, 0);
              Walk(servers, op, 0) == rest.(tried := [slot] + rest.tried)
            else
              Walk(servers, op, 0) == WalkResult(servers, op(slot), [slot])
  {
    var slot := FirstHealthy(servers);
    WalkSkips(servers, op, 0, slot);
    if slot < |servers| && IsConnectionFailure(op(slot)) {
      WalkSkips(servers[slot := MarkedDown(servers[slot], op(slot))], op, 0, slot + 1);
    }
  }

  // The pool traffic of a run that tried the given slots.
  function Traffic(pools: seq<PoolId>, tried: seq<nat>): seq<PoolEvent>
    requires forall k :: 0 <= k < |tried| ==> tried[k] < |pools|
  {
    if tried == [] then []
    else
      var last := |tried| - 1;
      Traffic(pools, tried[..last]) + [Taken(pools[tried[last]]), HandedBack(pools[tried[last]])]
  }

  lemma TrafficOfOneMore(pools: seq<PoolId>, tried: seq<nat>, slot: nat)
    requires slot < |pools| && forall k :: 0 <= k < |tried| ==> tried[k] < |pools|
    ensures Traffic(pools, tried + [slot]) == Traffic(pools, tried) + [Taken(pools[slot]), HandedBack(pools[slot])]
  {
  }

  function After(tried: seq<nat>, rest: WalkResult): WalkResult {
    rest.(tried := tried + rest.tried)
  }

  // A failed round keeps the walk and leaves fewer healthy servers.
  lemma FailedRoundKeepsWalk(servers: seq<Server>, op: nat -> Outcome, tried: seq<nat>)
    requires var slot := FirstHealthy(servers); slot < |servers| && IsConnectionFailure(op(slot))
    ensures var slot := FirstHealthy(servers);
            var marked := servers[slot := MarkedDown(servers[slot], op(slot))];
            && After(tried, Walk(servers, op, 0)) == After(tried + [slot], Walk(marked, op, 0))
            && HealthySet(marked) < HealthySet(servers)
  {
    var slot := FirstHealthy(servers);
    var marked := servers[slot := MarkedDown(servers[slot], op(slot))];
    WalkRound(servers, op);
    var rest := Walk(marked, op, 0).tried;
    assert tried + ([slot] + rest) == (tried + [slot]) + rest;
    assert slot in HealthySet(servers) && slot !in HealthySet(marked);
  }

  method RunLdapOpWithFailover(ctx: VkLdapContext, op: nat -> Outcome)
    returns (res: Outcome, tried: seq<nat>, traffic: seq<PoolEvent>)
    requires WellShaped(ctx.servers, ctx.connPools)
    modifies ctx`servers
    ensures WalkResult(ctx.servers, res, tried) == Walk(old(ctx.servers), op, 0)
    ensures WellShaped(ctx.servers, ctx.connPools)
    ensures forall k :: 0 <= k < |tried| ==> tried[k] < |ctx.connPools|
    ensures traffic == Traffic(ctx.connPools, tried)
  {
    tried, traffic := [], [];
    ghost var walk := Walk(ctx.servers, op, 0);
    while true
      invariant WellShaped(ctx.servers, ctx.connPools)
      invariant forall k :: 0 <= k < |tried| ==> tried[k] < |ctx.connPools|
      invariant traffic == Traffic(ctx.connPools, tried)
      invariant walk == After(tried, Walk(ctx.servers, op, 0))
      decreases HealthySet(ctx.servers)
    {
      var found := ctx.FindServer();
      if found.Err? {
        WalkRound(ctx.servers, op);
        return Err(found.error), tried, traffic;
      }
      var server := found.value;
      var pool := ctx.GetConnectionPool(server);
      TrafficOfOneMore(ctx.connPools, tried, server.id);
      traffic := traffic + [Taken(pool)];
      var opRes := op(server.id);
      traffic := traffic + [HandedBack(pool)];
      if IsConnectionFailure(opRes) {
        FailedRoundKeepsWalk(ctx.servers, op, tried);
        tried := tried + [server.id];
        ctx.UpdateServerStatus(server, Unhealthy(ConnectionErrorMessage(opRes.error.err)), None);
        continue;
      }
      WalkRound(ctx.servers, op);
      tried := tried + [server.id];
      return opRes, tried, traffic;
    }
  }
}
