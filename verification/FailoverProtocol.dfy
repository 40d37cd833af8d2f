/**
 Many failover loops, health probes and one configuration actor over the shared server table
 (src/vkldap/context.rs and src/vkldap/failure_detector.rs), as a step system.

 A step is one section under the context mutex, or one event outside it.  The pools are known
 by their identity only: waiting in them is the subject of PoolProtocol.
 */
module FailoverProtocol {
  import opened Wrappers
  import opened LdapErrors
  import opened ServerTable

  type TaskId = nat

  // A task's copy of a server.  What identifies that server, as history: the pool in its slot when
  // the copy was made, and how often the list had been cleared by then.
  datatype Copy = Copy(server: Server, slot: PoolId, since: nat)

  // Where a task in run_ldap_op_with_failover stands.
  datatype LoginPc =
    | Looking
    | Taking(copy: Copy, pool: PoolId)
    | Operating(copy: Copy, pool: PoolId)
    | MarkingDown(copy: Copy, err: LdapError)
    | Done(outcome: Outcome)
    | Crashed

  datatype Login = Login(
    pc: LoginPc,
    // History:
    failed: nat,           // iterations that ended in a connection failure
    steps: nat,            // own steps so far
    startHealthy: nat,     // healthy servers at the first lookup
    startGains: nat,       // the counters below at the first lookup
    startLosses: nat,
    found: seq<PoolId>,    // the pools looked up, taken from and returned to, in order
    taken: seq<PoolId>,
    returned: seq<PoolId>
  )

  // Where a task in check_server_health or refresh_pool_connections stands.
  datatype Probe =
    | Checking(copy: Copy)
    | Pinging(copy: Copy, issued: PoolId, since: nat) // `since`: the clears when the pool was looked up
    | Refreshing(copy: Copy)
    | Resetting(copy: Copy, pool: PoolId)
    | Updating(copy: Copy, status: Status, pingTime: Option<nat>)
    | Over
    | Panicked

  datatype Config = Idle | Adding(server: Server)

  // A connection that a probe took from pool `issued` and handed to pool `to`, or dropped in a
  // panic; with the clears at the lookup for the take, and at that for the return.
  datatype HandBack = HandBack(issued: PoolId, to: Option<PoolId>, since: nat, at: nat)

  datatype SystemState = SystemState(
    servers: seq<Server>,
    pools: seq<PoolId>,
    nextPool: PoolId,
    config: Config,
    logins: map<TaskId, Login>,
    probes: map<TaskId, Probe>,
    // History, never read by a task:
    configured: seq<Url>,        // what the configuration actor added since it last cleared the list
    clears: nat,
    gains: nat,                  // slots that became healthy, over the whole run
    losses: nat,                 // slots that stopped being healthy
    probeReturns: seq<HandBack>
  )

  const INITIAL := SystemState([], [], 0, Idle, map[], map[], [], 0, 0, 0, [])

  // Every change of the table goes through here.
  function WithServers(s: SystemState, servers: seq<Server>): SystemState {
    var before, after := HealthySet(s.servers), HealthySet(servers);
    s.(servers := servers, gains := s.gains + |after - before|, losses := s.losses + |before - after|)
  }

  datatype Step =
    // one failover loop
    | StartLogin(t: TaskId)
    | FindServer(t: TaskId)
    | TakeConnection(t: TaskId)
    | FinishOp(t: TaskId, opRes: Outcome)
    | MarkDown(t: TaskId)
    // the failure detector, and refreshes after a change of settings
    | StartProbe(t: TaskId, i: nat)
    | StartRefresh(t: TaskId, i: nat)
    | ProbeTake(t: TaskId)
    | ProbeReturn(t: TaskId, failure: Option<string>, elapsed: nat)
    | ProbeConnect(t: TaskId, connected: Option<string>, pinged: bool)
    | ProbeLookup(t: TaskId)
    | ProbeReset(t: TaskId, failure: Option<string>)
    | ProbeUpdate(t: TaskId)
    // the configuration actor
    | ClearList
    | BeginAdd(url: Url)
    | EndAdd(failure: Option<string>)

  function StatusOf(failure: Option<string>): Status {
    match failure
    case None => Healthy
    case Some(message) => Unhealthy(message)
  }

  predicate IsLoginStep(step: Step) {
    step.StartLogin? || step.FindServer? || step.TakeConnection? || step.FinishOp? || step.MarkDown?
  }

  predicate IsConfigStep(step: Step) {
    step.ClearList? || step.BeginAdd? || step.EndAdd?
  }

  predicate LoginEnabled(s: SystemState, step: Step)
    requires IsLoginStep(step)
  {
    if step.StartLogin? then step.t !in s.logins
    else if step.t !in s.logins then false
    else
      var pc := s.logins[step.t].pc;
      match step
      case FindServer(_) => pc.Looking?
      case TakeConnection(_) => pc.Taking?
      case FinishOp(_, _) => pc.Operating?
      case _ => pc.MarkingDown?
  }

  predicate ProbeEnabled(s: SystemState, step: Step)
    requires !IsLoginStep(step) && !IsConfigStep(step)
  {
    if step.StartProbe? || step.StartRefresh? then step.t !in s.probes && step.i < |s.servers|
    else if step.t !in s.probes then false
    else
      var probe := s.probes[step.t];
      match step
      case ProbeTake(_) => probe.Checking? && probe.copy.server.IsHealthy()
      case ProbeConnect(_, _, _) => probe.Checking? && !probe.copy.server.IsHealthy()
      case ProbeReturn(_, _, _) => probe.Pinging?
      case ProbeLookup(_) => probe.Refreshing?
      case ProbeReset(_, _) => probe.Resetting?
      case _ => probe.Updating?
  }

  predicate ConfigEnabled(s: SystemState, step: Step)
    requires IsConfigStep(step)
  {
    if step.EndAdd? then s.config.Adding? else s.config.Idle?
  }

  predicate Enabled(s: SystemState, step: Step) {
    if IsLoginStep(step) then LoginEnabled(s, step)
    else if IsConfigStep(step) then ConfigEnabled(s, step)
    else ProbeEnabled(s, step)
  }

  function SetLogin(s: SystemState, t: TaskId, login: Login): SystemState {
    s.(logins := s.logins[t := login.(steps := login.steps + 1)])
  }

  function ApplyFind(s: SystemState, t: TaskId): SystemState
    requires t in s.logins && s.logins[t].pc.Looking?
  {
    var login := if s.logins[t].failed > 0 then s.logins[t] else
      s.logins[t].(startHealthy := |HealthySet(s.servers)|, startGains := s.gains, startLosses := s.losses);
    match Lookup(s.servers)
    case Err(err) => SetLogin(s, t, login.(pc := Done(Err(err))))
    case Ok(server) =>
      if server.id < |s.pools| then
        var pool := s.pools[server.id];
        SetLogin(s, t, login.(pc := Taking(Copy(server, pool, s.clears), pool), found := login.found + [pool]))
      else
        SetLogin(s, t, login.(pc := Crashed))
  }

  function ApplyLogin(s: SystemState, step: Step): SystemState
    requires IsLoginStep(step) && LoginEnabled(s, step)
  {
    var t := step.t;
    match step
    case StartLogin(_) => s.(logins := s.logins[t := Login(Looking, 0, 0, 0, s.gains, s.losses, [], [], [])])
    case FindServer(_) => ApplyFind(s, t)
    case TakeConnection(_) =>
      var login := s.logins[t];
      SetLogin(s, t, login.(pc := Operating(login.pc.copy, login.pc.pool), taken := login.taken + [login.pc.pool]))
    case FinishOp(_, opRes) =>
      // The connection goes back through the reference to the pool it came from.
      var login := s.logins[t];
      var pc := if IsConnectionFailure(opRes) then MarkingDown(login.pc.copy, opRes.error.err) else Done(opRes);
      SetLogin(s, t, login.(pc := pc, returned := login.returned + [login.pc.pool]))
    case MarkDown(_) =>
      var login := s.logins[t];
      var message := ConnectionErrorMessage(login.pc.err);
      SetLogin(WithServers(s, AfterUpdate(s.servers, login.pc.copy.server.id, Unhealthy(message), None)), t,
               login.(pc := Looking, failed := login.failed + 1))
  }

  function CopyOf(s: SystemState, i: nat): Copy
    requires i < |s.servers|
  {
    Copy(s.servers[i], if i < |s.pools| then s.pools[i] else s.nextPool, s.clears)
  }

  function ApplyProbe(s: SystemState, step: Step): SystemState
    requires !IsLoginStep(step) && !IsConfigStep(step) && ProbeEnabled(s, step)
  {
    var t := step.t;
    match step
    case StartProbe(_, i) => s.(probes := s.probes[t := Checking(CopyOf(s, i))])
    case StartRefresh(_, i) => s.(probes := s.probes[t := Refreshing(CopyOf(s, i))])
    case ProbeTake(_) =>
      var copy := s.probes[t].copy;
      var id := copy.server.id;
      s.(probes := s.probes[t := if id < |s.pools| then Pinging(copy, s.pools[id], s.clears) else Panicked])
    case ProbeReturn(_, failure, elapsed) =>
      // The pool is looked up afresh by the id of the copy.
      var probe := s.probes[t];
      var id := probe.copy.server.id;
      var to := if id < |s.pools| then Some(s.pools[id]) else None;
      var pingTime := if failure.None? then Some(elapsed) else None;
      s.(probes := s.probes[t := if to.Some? then Updating(probe.copy, StatusOf(failure), pingTime) else Panicked],
         probeReturns := s.probeReturns + [HandBack(probe.issued, to, probe.since, s.clears)])
    case ProbeConnect(_, failure, pinged) =>
      var copy := s.probes[t].copy;
      s.(probes := s.probes[t :=
        if failure.Some? then Updating(copy, Unhealthy(failure.value), None)
        else if pinged then Refreshing(copy)
        else Over])
    case ProbeLookup(_) =>
      var copy := s.probes[t].copy;
      var id := copy.server.id;
      s.(probes := s.probes[t := if id < |s.pools| then Resetting(copy, s.pools[id]) else Panicked])
    case ProbeReset(_, failure) =>
      s.(probes := s.probes[t := Updating(s.probes[t].copy, StatusOf(failure), None)])
    case ProbeUpdate(_) =>
      var probe := s.probes[t];
      WithServers(s, AfterUpdate(s.servers, probe.copy.server.id, probe.status, probe.pingTime)).(
        probes := s.probes[t := Over])
  }

  function ApplyConfig(s: SystemState, step: Step): SystemState
    requires IsConfigStep(step) && ConfigEnabled(s, step)
  {
    match step
    case ClearList => WithServers(s, []).(pools := [], configured := [], clears := s.clears + 1)
    case BeginAdd(url) => s.(config := Adding(Server(url, |s.servers|, Healthy, None)))
    case EndAdd(failure) =>
      var server := s.config.server.(status := StatusOf(failure));
      WithServers(s, s.servers + [server]).(
        pools := s.pools + [s.nextPool],
        nextPool := s.nextPool + 1,
        config := Idle,
        configured := s.configured + [server.url])
  }

  function Apply(s: SystemState, step: Step): SystemState
    requires Enabled(s, step)
  {
    if IsLoginStep(step) then ApplyLogin(s, step)
    else if IsConfigStep(step) then ApplyConfig(s, step)
    else ApplyProbe(s, step)
  }

  ghost predicate Next(s: SystemState, s': SystemState) {
    exists step :: Enabled(s, step) && s' == Apply(s, step)
  }

  ghost predicate IsRun(run: seq<SystemState>) {
    && run != []
    && run[0] == INITIAL
    && forall i :: 0 <= i < |run| - 1 ==> NextAt(run, i)
  }

  ghost predicate NextAt(run: seq<SystemState>, i: nat)
    requires i < |run| - 1
  {
    Next(run[i], run[i + 1])
  }

  ghost predicate Reachable(s: SystemState) {
    exists run: seq<SystemState> :: IsRun(run) && run[|run| - 1] == s
  }
}
