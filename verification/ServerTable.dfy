/**
 The table of LDAP servers and their connection pools (VkLdapServer in src/vkldap/server.rs,
 VkLdapContext in src/vkldap/context.rs).
 */
module ServerTable {
  import opened Wrappers
  import opened LdapErrors
  import opened ConnectionQueues

  type Url = string

  // A pool is known by its identity: the shared reference to it.
  type PoolId = nat

  datatype Status = Healthy | Unhealthy(message: string)

  datatype Server = Server(url: Url, id: nat, status: Status, pingTime: Option<nat>) {
    // Statuses are compared by their kind alone.
    predicate IsHealthy() { status.Healthy? }
  }

  // The index of the first healthy server, or the length of the list.
  function FirstHealthy(servers: seq<Server>): (i: nat)
    ensures i <= |servers|
    ensures i < |servers| ==> servers[i].IsHealthy()
    ensures forall j :: 0 <= j < i ==> !servers[j].IsHealthy()
  {
    if servers == [] || servers[0].IsHealthy() then 0 else 1 + FirstHealthy(servers[1..])
  }

  function NoServerError(servers: seq<Server>): VkLdapError {
    if servers == [] then NoServerConfigured else NoHealthyServerAvailable
  }

  function Lookup(servers: seq<Server>): Result<Server, VkLdapError> {
    var i := FirstHealthy(servers);
    if i < |servers| then Ok(servers[i]) else Err(NoServerError(servers))
  }

  // Only the index bound can reject an update.
  function AfterUpdate(servers: seq<Server>, id: nat, status: Status, pingTime: Option<nat>): seq<Server> {
    if id < |servers| then servers[id := servers[id].(status := status, pingTime := pingTime)] else servers
  }

  // What a lookup finds, told by the list alone.
  lemma LookupMeaning(servers: seq<Server>)
    ensures Lookup(servers) == Err(NoServerConfigured) <==> |servers| == 0
    ensures Lookup(servers) == Err(NoHealthyServerAvailable)
       <==> |servers| > 0 && forall i :: 0 <= i < |servers| ==> servers[i].status.Unhealthy?
    ensures Lookup(servers).Ok? ==>
              exists i :: 0 <= i < |servers| && Lookup(servers) == Ok(servers[i]) && servers[i].status == Healthy
                && forall j :: 0 <= j < i ==> servers[j].status.Unhealthy?
  {
    var i := FirstHealthy(servers);
    if i < |servers| {
      assert servers[i].IsHealthy();
      assert Lookup(servers) == Ok(servers[i]);
    }
    assert forall j :: 0 <= j < i ==> !servers[j].IsHealthy();
  }

  // The table `after` is `before` with this status and ping time in the slot of that id, if there is one.
  predicate IsUpdated(before: seq<Server>, after: seq<Server>, id: nat, status: Status, pingTime: Option<nat>) {
    && |after| == |before|
    && (id < |before| ==> after[id] == Server(before[id].url, before[id].id, status, pingTime))
    && forall i :: 0 <= i < |before| && i != id ==> after[i] == before[i]
  }

  lemma UpdateMeaning(servers: seq<Server>, id: nat, status: Status, pingTime: Option<nat>)
    ensures IsUpdated(servers, AfterUpdate(servers, id, status, pingTime), id, status, pingTime)
    ensures id >= |servers| ==> AfterUpdate(servers, id, status, pingTime) == servers
    ensures HealthySet(AfterUpdate(servers, id, status, pingTime)) - {id} == HealthySet(servers) - {id}
    ensures id in HealthySet(AfterUpdate(servers, id, status, pingTime)) <==> id < |servers| && status == Healthy
  {
  }

  // The slots whose server is healthy.
  function HealthySet(servers: seq<Server>): set<nat> {
    set i: nat | i < |servers| && servers[i].IsHealthy()
  }

  // Ids are list positions and pools run parallel to the servers.
  predicate WellShaped(servers: seq<Server>, pools: seq<PoolId>) {
    && |servers| == |pools|
    && forall i :: 0 <= i < |servers| ==> servers[i].id == i
  }

  class VkLdapContext {
    var servers: seq<Server>
    var connPools: seq<PoolId>
    var connectionSettings: ConnectionSettings

    constructor ()
      ensures servers == [] && connPools == []
      ensures connectionSettings == ConnectionSettings(0, "")
    {
      servers, connPools := [], [];
      connectionSettings := ConnectionSettings(0, "");
    }

    method ClearServerList() returns (pools: seq<PoolId>)
      modifies this`servers, this`connPools
      ensures servers == [] && connPools == []
      ensures pools == old(connPools)
    {
      servers := [];
      pools := [];
      for i := 0 to |connPools|
        invariant connPools == old(connPools) && servers == []
        invariant pools == connPools[..i]
      {
        pools := pools + [connPools[i]];
      }
      connPools := [];
    }

    method NewServer(url: Url) returns (server: Server)
      ensures server == Server(url, |servers|, Healthy, None)
    {
      server := Server(url, |servers|, Healthy, None);
    }

    method AddServer(server: Server, pool: PoolId)
      modifies this`servers, this`connPools
      ensures servers == old(servers) + [server]
      ensures connPools == old(connPools) + [pool]
      ensures old(WellShaped(servers, connPools)) && server.id == old(|servers|) ==> WellShaped(servers, connPools)
    {
      servers := servers + [server];
      connPools := connPools + [pool];
    }

    // Indexing out of bounds panics.
    method GetConnectionPool(server: Server) returns (pool: PoolId)
      requires server.id < |connPools|
      ensures pool == connPools[server.id]
    {
      pool := connPools[server.id];
    }

    // The guard that compares the slot's URL with itself never rejects, so it is not written out.
    method UpdateServerStatus(server: Server, status: Status, pingTime: Option<nat>)
      modifies this`servers
      ensures servers == AfterUpdate(old(servers), server.id, status, pingTime)
      ensures IsUpdated(old(servers), servers, server.id, status, pingTime)
      ensures old(WellShaped(servers, connPools)) ==> WellShaped(servers, connPools)
    {
      if server.id >= |servers| {
        return;
      }
      var slot := servers[server.id];
      slot := slot.(status := status);
      slot := slot.(pingTime := pingTime);
      servers := servers[server.id := slot];
    }

    method FindServer() returns (found: Result<Server, VkLdapError>)
      ensures found == Lookup(servers)
      ensures found.Ok? ==> found.value in servers && found.value.status == Healthy
      ensures found == Err(NoServerConfigured) <==> |servers| == 0
      ensures found == Err(NoHealthyServerAvailable)
         <==> |servers| > 0 && forall i :: 0 <= i < |servers| ==> servers[i].status.Unhealthy?
    {
      LookupMeaning(servers);
      if servers == [] {
        return Err(NoServerConfigured);
      }
      for i := 0 to |servers|
        invariant forall j :: 0 <= j < i ==> !servers[j].IsHealthy()
      {
        if servers[i].IsHealthy() {
          return Ok(servers[i]);
        }
      }
      found := Err(NoHealthyServerAvailable);
    }
  }
}
