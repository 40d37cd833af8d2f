/**
 What holds in every run of the failover system: the shape of the table, the bound on the failed
 iterations of a loop, and where connections are handed back.
 */
module FailoverTheorems {
  import opened Wrappers
  import opened LdapErrors
  import opened ServerTable
  import opened FailoverProtocol
  import opened Failover

  function Urls(servers: seq<Server>): seq<Url> {
    seq(|servers|, i requires 0 <= i < |servers| => servers[i].url)
  }

  // The table is what the configuration actor made of it.
  ghost predicate ShapeInv(s: SystemState) {
    && WellShaped(s.servers, s.pools)
    && Urls(s.servers) == s.configured
    && (forall i :: 0 <= i < |s.pools| ==> s.pools[i] < s.nextPool)
    && (s.config.Adding? ==> s.config.server.id == |s.servers|)
  }

  predicate InFlight(pc: LoginPc) {
    pc.Taking? || pc.Operating? || pc.MarkingDown?
  }

  // 1 when the slot a loop is busy with has stopped being healthy since the lookup.
  function Charge(servers: seq<Server>, pc: LoginPc): nat {
    if InFlight(pc) && pc.copy.server.id !in HealthySet(servers) then 1 else 0
  }

  function Rank(pc: LoginPc): nat {
    match pc
    case Looking => 0
    case Taking(_, _) => 1
    case Operating(_, _) => 2
    case _ => 3
  }

  ghost predicate LoginInv(s: SystemState, login: Login) {
    && login.startLosses <= s.losses && login.startGains <= s.gains
    && login.failed + Charge(s.servers, login.pc) <= s.losses - login.startLosses
    && (login.steps > 0 ==> login.startHealthy == login.startGains - login.startLosses)
    && (login.steps == 0 ==> login.pc.Looking? && login.failed == 0)
    && login.steps <= 4 * login.failed + Rank(login.pc)
    && (login.pc.Done? ==> !IsConnectionFailure(login.pc.outcome))
    && !login.pc.Crashed?
  }

  ghost predicate CountInv(s: SystemState) {
    |HealthySet(s.servers)| + s.losses == s.gains
  }

  // The slot of a copy, by id, holds the pool it held when the copy was made, until the list is
  // cleared; after that the pool is nowhere in the table.
  ghost predicate CopyInv(s: SystemState, copy: Copy) {
    && copy.since <= s.clears
    && copy.slot < s.nextPool
    && (copy.since == s.clears ==> SlotIs(s, copy))
    && (copy.since < s.clears ==> copy.slot !in s.pools)
  }

  // The slot that the copy's id names is that of the server it was copied from.
  predicate SlotIs(s: SystemState, copy: Copy) {
    copy.server.id < |s.pools| && s.pools[copy.server.id] == copy.slot
  }

  ghost predicate ProbeInv(s: SystemState, probe: Probe) {
    && (!probe.Over? && !probe.Panicked? ==> CopyInv(s, probe.copy))
    && (probe.Pinging? ==> CopyInv(s, Copy(probe.copy.server, probe.issued, probe.since)))
  }

  // The pools that a loop found, took from and returned to are the same, up to the one it is busy with.
  predicate LogInv(login: Login) {
    && (InFlight(login.pc) ==> login.found != [])
    && (login.pc.Taking? || login.pc.Operating? ==> login.pc.pool == login.found[|login.found| - 1])
    && login.taken == (if login.pc.Taking? then login.found[..|login.found| - 1] else login.found)
    && login.returned == (if login.pc.Operating? then login.taken[..|login.found| - 1] else login.taken)
    && login.failed <= |login.found| <= login.failed + 1
    && (InFlight(login.pc) ==> |login.found| == login.failed + 1)
    && (login.pc.Looking? ==> |login.found| == login.failed)
    && (login.pc.Done? && |login.found| == login.failed ==> EndedInLookup(login.pc.outcome))
  }

  predicate EndedInLookup(outcome: Outcome) {
    outcome == Err(NoServerConfigured) || outcome == Err(NoHealthyServerAvailable)
  }

  ghost predicate ReturnsInv(s: SystemState) {
    forall i :: 0 <= i < |s.probeReturns| ==> ReturnKnown(s.probeReturns[i], s.nextPool)
  }

  predicate ReturnKnown(r: HandBack, nextPool: PoolId) {
    && (r.to == Some(r.issued) <==> r.since == r.at)
    && r.issued < nextPool && (r.to.Some? ==> r.to.value < nextPool)
  }

  ghost predicate LoginCopyInv(s: SystemState, login: Login) {
    && (InFlight(login.pc) ==> CopyInv(s, login.pc.copy))
    && (login.pc.Taking? || login.pc.Operating? ==> login.pc.pool == login.pc.copy.slot)
  }

  ghost predicate Inv(s: SystemState) {
    && ShapeInv(s)
    && CountInv(s)
    && (forall t :: t in s.logins ==> LoginInv(s, s.logins[t]) && LogInv(s.logins[t]) && LoginCopyInv(s, s.logins[t]))
    && (forall t :: t in s.probes ==> ProbeInv(s, s.probes[t]))
    && ReturnsInv(s)
  }

  // ---- The shape of the table

  lemma UpdateKeepsUrls(servers: seq<Server>, id: nat, status: Status, pingTime: Option<nat>)
    ensures Urls(AfterUpdate(servers, id, status, pingTime)) == Urls(servers)
  {
  }

  lemma LoginStepKeepsTable(s: SystemState, step: Step)
    requires IsLoginStep(step) && Enabled(s, step)
    ensures var s' := Apply(s, step);
            && Urls(s'.servers) == Urls(s.servers)
            && (forall pools :: WellShaped(s.servers, pools) ==> WellShaped(s'.servers, pools))
            && s'.(servers := s.servers, logins := s.logins, gains := s.gains, losses := s.losses) == s
  {
    if step.MarkDown? {
      var login := s.logins[step.t];
      UpdateKeepsUrls(s.servers, login.pc.copy.server.id, Unhealthy(ConnectionErrorMessage(login.pc.err)), None);
    }
  }

  lemma ProbeStepKeepsTable(s: SystemState, step: Step)
    requires !IsLoginStep(step) && !IsConfigStep(step) && Enabled(s, step)
    ensures var s' := Apply(s, step);
            && Urls(s'.servers) == Urls(s.servers)
            && (forall pools :: WellShaped(s.servers, pools) ==> WellShaped(s'.servers, pools))
            && s'.(servers := s.servers, probes := s.probes, probeReturns := s.probeReturns,
                   gains := s.gains, losses := s.losses) == s
  {
    if step.ProbeUpdate? {
      var probe := s.probes[step.t];
      UpdateKeepsUrls(s.servers, probe.copy.server.id, probe.status, probe.pingTime);
    }
  }

  lemma AppendKeepsShape(servers: seq<Server>, pools: seq<PoolId>, server: Server, pool: PoolId)
    requires WellShaped(servers, pools) && server.id == |servers|
    ensures WellShaped(servers + [server], pools + [pool])
    ensures Urls(servers + [server]) == Urls(servers) + [server.url]
  {
  }

  lemma ConfigStepKeepsShape(s: SystemState, step: Step)
    requires ShapeInv(s) && IsConfigStep(step) && Enabled(s, step)
    ensures ShapeInv(Apply(s, step))
  {
    if step.EndAdd? {
      AppendKeepsShape(s.servers, s.pools, s.config.server.(status := StatusOf(step.failure)), s.nextPool);
    } else if step.ClearList? {
      assert Apply(s, step).servers == [] && Urls([]) == [];
    }
  }

  lemma {:induction false} StepKeepsShape(s: SystemState, step: Step)
    requires ShapeInv(s) && Enabled(s, step)
    ensures ShapeInv(Apply(s, step))
  {
    if IsConfigStep(step) {
      ConfigStepKeepsShape(s, step);
    } else if IsLoginStep(step) {
      LoginStepKeepsTable(s, step);
    } else {
      ProbeStepKeepsTable(s, step);
    }
  }

  // ---- Counting healthy slots

  // A change of the table by others keeps what is known of a loop.
  lemma ChangeKeepsLogin(s: SystemState, servers: seq<Server>, login: Login)
    requires LoginInv(s, login)
    ensures LoginInv(WithServers(s, servers), login)
  {
    var before, after := HealthySet(s.servers), HealthySet(servers);
    if Charge(s.servers, login.pc) < Charge(servers, login.pc) {
      assert login.pc.copy.server.id in before - after;
    }
  }

  lemma StepKeepsCount(s: SystemState, step: Step)
    requires CountInv(s) && Enabled(s, step)
    ensures CountInv(Apply(s, step))
  {
  }

  // ---- One failover loop

  lemma FindKeepsLogin(s: SystemState, t: TaskId)
    requires ShapeInv(s) && CountInv(s) && Enabled(s, FindServer(t)) && LoginInv(s, s.logins[t])
    ensures LoginInv(Apply(s, FindServer(t)), Apply(s, FindServer(t)).logins[t])
  {
    var i := FirstHealthy(s.servers);
    assert i < |s.servers| ==> i in HealthySet(s.servers);
  }

  lemma MarkDownKeepsLogin(s: SystemState, t: TaskId)
    requires Enabled(s, MarkDown(t)) && LoginInv(s, s.logins[t])
    ensures LoginInv(Apply(s, MarkDown(t)), Apply(s, MarkDown(t)).logins[t])
  {
    var id := s.logins[t].pc.copy.server.id;
    var before, after := HealthySet(s.servers), HealthySet(Apply(s, MarkDown(t)).servers);
    assert id !in after;
    if id in before {
      assert id in before - after;
    }
  }

  lemma OwnStepKeepsLogin(s: SystemState, step: Step)
    requires ShapeInv(s) && CountInv(s) && IsLoginStep(step) && Enabled(s, step)
    requires step.t in s.logins ==> LoginInv(s, s.logins[step.t])
    ensures LoginInv(Apply(s, step), Apply(s, step).logins[step.t])
  {
    if step.FindServer? {
      FindKeepsLogin(s, step.t);
    } else if step.MarkDown? {
      MarkDownKeepsLogin(s, step.t);
    }
  }

  lemma LoginUnmoved(s: SystemState, step: Step, t: TaskId)
    requires Enabled(s, step) && (IsLoginStep(step) ==> t != step.t)
    ensures t in Apply(s, step).logins <==> t in s.logins
    ensures t in s.logins ==> Apply(s, step).logins[t] == s.logins[t]
  {
    if !IsLoginStep(step) && !IsConfigStep(step) {
      ProbeStepKeepsTable(s, step);
    }
  }

  lemma ProbeUnmoved(s: SystemState, step: Step, t: TaskId)
    requires Enabled(s, step) && (IsLoginStep(step) || IsConfigStep(step) || t != step.t)
    ensures t in Apply(s, step).probes <==> t in s.probes
    ensures t in s.probes ==> Apply(s, step).probes[t] == s.probes[t]
  {
    if IsLoginStep(step) {
      LoginStepKeepsTable(s, step);
    }
  }

  lemma OthersKeepLogin(s: SystemState, step: Step, t: TaskId)
    requires Enabled(s, step) && t in s.logins && LoginInv(s, s.logins[t])
    requires IsLoginStep(step) ==> t != step.t
    ensures LoginInv(Apply(s, step), s.logins[t])
  {
    ChangeKeepsLogin(s, Apply(s, step).servers, s.logins[t]);
  }

  lemma {:induction false} StepKeepsLogins(s: SystemState, step: Step, t: TaskId)
    requires ShapeInv(s) && CountInv(s) && Enabled(s, step)
    requires t in s.logins ==> LoginInv(s, s.logins[t])
    requires t in Apply(s, step).logins
    ensures LoginInv(Apply(s, step), Apply(s, step).logins[t])
  {
    if IsLoginStep(step) && t == step.t {
      OwnStepKeepsLogin(s, step);
    } else {
      LoginUnmoved(s, step, t);
      OthersKeepLogin(s, step, t);
    }
  }

  lemma StepKeepsLog(s: SystemState, step: Step)
    requires IsLoginStep(step) && Enabled(s, step)
    requires step.t in s.logins ==> LogInv(s.logins[step.t])
    ensures LogInv(Apply(s, step).logins[step.t])
  {
    if step.TakeConnection? || step.FinishOp? {
      var found := s.logins[step.t].found;
      assert found == found[..|found| - 1] + [found[|found| - 1]];
    }
  }

  // ---- Copies of servers

  lemma StepKeepsCopy(s: SystemState, step: Step, copy: Copy)
    requires ShapeInv(s) && Enabled(s, step) && CopyInv(s, copy)
    ensures CopyInv(Apply(s, step), copy)
  {
    if IsLoginStep(step) {
      LoginStepKeepsTable(s, step);
    } else if !IsConfigStep(step) {
      ProbeStepKeepsTable(s, step);
    }
  }

  lemma OwnStepKeepsCopy(s: SystemState, step: Step)
    requires ShapeInv(s) && IsLoginStep(step) && Enabled(s, step)
    requires step.t in s.logins ==> LoginCopyInv(s, s.logins[step.t])
    ensures LoginCopyInv(Apply(s, step), Apply(s, step).logins[step.t])
  {
    LoginStepKeepsTable(s, step);
  }

  lemma StepKeepsLoginCopy(s: SystemState, step: Step, t: TaskId)
    requires ShapeInv(s) && Enabled(s, step) && t in Apply(s, step).logins
    requires t in s.logins ==> LoginCopyInv(s, s.logins[t])
    ensures LoginCopyInv(Apply(s, step), Apply(s, step).logins[t])
  {
    if IsLoginStep(step) && t == step.t {
      OwnStepKeepsCopy(s, step);
    } else {
      LoginUnmoved(s, step, t);
      if InFlight(s.logins[t].pc) {
        StepKeepsCopy(s, step, s.logins[t].pc.copy);
      }
    }
  }

  lemma StartedProbe(s: SystemState, step: Step)
    requires ShapeInv(s) && (step.StartProbe? || step.StartRefresh?) && Enabled(s, step)
    ensures ProbeInv(Apply(s, step), Apply(s, step).probes[step.t])
  {
  }

  // A probe keeps its copy, takes from a pool it has just looked up, or is at its end.
  lemma CopyAfter(s: SystemState, step: Step, t: TaskId)
    requires Enabled(s, step) && t in s.probes && t in Apply(s, step).probes
    requires !(step.StartProbe? || step.StartRefresh?) || t != step.t
    ensures var probe, probe' := s.probes[t], Apply(s, step).probes[t];
            || probe' == probe || probe'.Over? || probe'.Panicked?
            || (&& !probe.Over? && !probe.Panicked? && probe'.copy == probe.copy
                && (probe'.Pinging? ==>
                      probe'.since == s.clears && SlotIs(s, Copy(probe.copy.server, probe'.issued, s.clears))))
  {
  }

  lemma StepKeepsProbes(s: SystemState, step: Step, t: TaskId)
    requires ShapeInv(s) && Enabled(s, step) && t in Apply(s, step).probes
    requires t in s.probes ==> ProbeInv(s, s.probes[t])
    ensures ProbeInv(Apply(s, step), Apply(s, step).probes[t])
  {
    if (step.StartProbe? || step.StartRefresh?) && t == step.t {
      StartedProbe(s, step);
    } else {
      ProbesStay(s, step, t);
      CopyAfter(s, step, t);
      var probe' := Apply(s, step).probes[t];
      if !probe'.Over? && !probe'.Panicked? {
        StepKeepsCopy(s, step, probe'.copy);
      }
      if probe'.Pinging? {
        StepKeepsCopy(s, step, Copy(probe'.copy.server, probe'.issued, probe'.since));
      }
    }
  }

  lemma ProbesStay(s: SystemState, step: Step, t: TaskId)
    requires Enabled(s, step) && t in Apply(s, step).probes
    requires !(step.StartProbe? || step.StartRefresh?) || t != step.t
    ensures t in s.probes
  {
    if IsLoginStep(step) {
      LoginStepKeepsTable(s, step);
    }
  }

  lemma ReturnIsKnown(s: SystemState, t: TaskId)
    requires t in s.probes && s.probes[t].Pinging? && ProbeInv(s, s.probes[t])
    requires forall i :: 0 <= i < |s.pools| ==> s.pools[i] < s.nextPool
    ensures var probe := s.probes[t];
            var id := probe.copy.server.id;
            var to := if id < |s.pools| then Some(s.pools[id]) else None;
            ReturnKnown(HandBack(probe.issued, to, probe.since, s.clears), s.nextPool)
  {
    var id := s.probes[t].copy.server.id;
    assert id < |s.pools| ==> s.pools[id] in s.pools;
  }

  lemma ReturnsAfter(s: SystemState, step: Step)
    requires Enabled(s, step)
    ensures s.nextPool <= Apply(s, step).nextPool
    ensures !step.ProbeReturn? ==> Apply(s, step).probeReturns == s.probeReturns
  {
    if IsLoginStep(step) {
      LoginStepKeepsTable(s, step);
    } else if !IsConfigStep(step) {
      ProbeStepKeepsTable(s, step);
    }
  }

  lemma StepKeepsReturns(s: SystemState, step: Step)
    requires Inv(s) && Enabled(s, step)
    ensures ReturnsInv(Apply(s, step))
  {
    ReturnsAfter(s, step);
    if step.ProbeReturn? {
      ReturnIsKnown(s, step.t);
    }
  }

  lemma {:induction false} StepKeepsInv(s: SystemState, step: Step)
    requires Inv(s) && Enabled(s, step)
    ensures Inv(Apply(s, step))
  {
    var s' := Apply(s, step);
    StepKeepsShape(s, step);
    StepKeepsCount(s, step);
    StepKeepsReturns(s, step);
    forall t | t in s'.logins
      ensures LoginInv(s', s'.logins[t]) && LogInv(s'.logins[t]) && LoginCopyInv(s', s'.logins[t])
    {
      assert t in s.logins ==> LoginInv(s, s.logins[t]) && LoginCopyInv(s, s.logins[t]);
      StepKeepsLogins(s, step, t);
      StepKeepsLoginCopy(s, step, t);
      if IsLoginStep(step) && t == step.t {
        StepKeepsLog(s, step);
      } else {
        LoginUnmoved(s, step, t);
      }
    }
    forall t | t in s'.probes ensures ProbeInv(s', s'.probes[t]) {
      StepKeepsProbes(s, step, t);
    }
  }

  // ---- Runs

  lemma StepOf(run: seq<SystemState>, k: nat) returns (step: Step)
    requires IsRun(run) && k < |run| - 1
    ensures Enabled(run[k], step) && run[k + 1] == Apply(run[k], step)
  {
    assert NextAt(run, k);
    step :| Enabled(run[k], step) && run[k + 1] == Apply(run[k], step);
  }

  lemma {:induction false} RunKeepsInv(run: seq<SystemState>, i: nat)
    requires IsRun(run) && i < |run|
    ensures Inv(run[i])
  {
    if i == 0 {
      assert HealthySet([]) == {};
    } else {
      RunKeepsInv(run, i - 1);
      var step := StepOf(run, i - 1);
      StepKeepsInv(run[i - 1], step);
    }
  }

  lemma ReachableInv(s: SystemState)
    requires Reachable(s)
    ensures Inv(s)
  {
    var run: seq<SystemState> :| IsRun(run) && run[|run| - 1] == s;
    RunKeepsInv(run, |run| - 1);
  }

  // Failed iterations are paid for by servers that were healthy at the first lookup or became so later.
  lemma FailoverBound(s: SystemState, t: TaskId)
    requires Reachable(s) && t in s.logins && s.logins[t].steps > 0
    ensures var login := s.logins[t];
            && login.failed <= login.startHealthy + (s.gains - login.startGains)
            && login.steps <= 4 * (login.startHealthy + (s.gains - login.startGains)) + 3
  {
    ReachableInv(s);
  }

  // The loop neither indexes the pools out of bounds nor returns a connection failure.
  lemma LoopIsSafe(s: SystemState, t: TaskId)
    requires Reachable(s) && t in s.logins
    ensures !s.logins[t].pc.Crashed?
    ensures s.logins[t].pc.Done? ==> !IsConnectionFailure(s.logins[t].pc.outcome)
  {
    ReachableInv(s);
  }

  // It takes one connection for each lookup that found a server and hands each back to the pool it
  // came from, the last one when its operation is over; there is one for each failed iteration and
  // one for the iteration that is under way or gave the outcome.
  lemma LoopHandsBackWhatItTook(s: SystemState, t: TaskId)
    requires Reachable(s) && t in s.logins
    ensures var login := s.logins[t];
            && login.taken <= login.found && login.returned <= login.taken
            && |login.taken| == |login.found| - (if login.pc.Taking? then 1 else 0)
            && |login.returned| == |login.taken| - (if login.pc.Operating? then 1 else 0)
            && login.failed <= |login.found| <= login.failed + 1
            && (login.pc.Looking? ==> |login.found| == login.failed)
            && (InFlight(login.pc) ==> |login.found| == login.failed + 1)
            && (login.pc.Done? && |login.found| == login.failed ==> EndedInLookup(login.pc.outcome))
  {
    ReachableInv(s);
  }

  // At every moment the table is the configured list, ids are positions and pools run parallel.
  lemma TableFollowsConfiguration(s: SystemState)
    requires Reachable(s)
    ensures Urls(s.servers) == s.configured && WellShaped(s.servers, s.pools)
  {
    ReachableInv(s);
  }

  // A probe hands its connection to the issuing pool exactly when the list was not cleared in
  // between, and panics with it exactly when the list has become too short.
  lemma ProbeReturnsHome(s: SystemState, t: TaskId, failure: Option<string>, elapsed: nat)
    requires Reachable(s) && Enabled(s, ProbeReturn(t, failure, elapsed))
    ensures var probe, s' := s.probes[t], Apply(s, ProbeReturn(t, failure, elapsed));
            && |s'.probeReturns| == |s.probeReturns| + 1
            && var r := s'.probeReturns[|s.probeReturns|];
            && r.issued == probe.issued
            && (r.to == Some(probe.issued) <==> probe.since == s.clears)
            && (r.to == None <==> probe.copy.server.id >= |s.pools|)
            && (s'.probes[t].Panicked? <==> r.to == None)
  {
    ReachableInv(s);
    StepKeepsReturns(s, ProbeReturn(t, failure, elapsed));
    assert ReturnKnown(Apply(s, ProbeReturn(t, failure, elapsed)).probeReturns[|s.probeReturns|], s.nextPool);
  }

  // So of all returns of probes, exactly those went home that no clear came between.
  lemma ReturnsGoHome(s: SystemState, i: nat)
    requires Reachable(s) && i < |s.probeReturns|
    ensures s.probeReturns[i].to == Some(s.probeReturns[i].issued) <==> s.probeReturns[i].since == s.probeReturns[i].at
  {
    ReachableInv(s);
    assert ReturnKnown(s.probeReturns[i], s.nextPool);
  }

  // ---- Status updates by copies

  // The copy by whose id a step writes a status.
  predicate Updates(s: SystemState, step: Step, copy: Copy) {
    && Enabled(s, step)
    && match step
       case MarkDown(t) => s.logins[t].pc.copy == copy
       case ProbeUpdate(t) => s.probes[t].copy == copy
       case _ => false
  }

  // A status update reaches the server it is about exactly when the list was not cleared since the
  // copy was made.  It writes the status and ping time it has to the slot of that number, whosever
  // it is, and to no other.
  lemma UpdateHitsItsServer(s: SystemState, step: Step, copy: Copy)
    requires Reachable(s) && Updates(s, step, copy)
    ensures SlotIs(s, copy) <==> copy.since == s.clears
    ensures var servers := Apply(s, step).servers;
            if step.MarkDown? then
              IsUpdated(s.servers, servers, copy.server.id,
                        Unhealthy("LDAP connection failure: " + RemoveNulls(s.logins[step.t].pc.err.text)), None)
            else
              IsUpdated(s.servers, servers, copy.server.id, s.probes[step.t].status, s.probes[step.t].pingTime)
  {
    ReachableInv(s);
    if step.MarkDown? {
      assert LoginCopyInv(s, s.logins[step.t]);
    } else {
      assert ProbeInv(s, s.probes[step.t]);
    }
    assert CopyInv(s, copy);
  }

  // ---- Which status is written

  // From step `i` of a run to step `j`, which make these two steps.
  ghost predicate StepsAt(run: seq<SystemState>, i: nat, first: Step, j: nat, last: Step) {
    && IsRun(run) && i < j < |run| - 1
    && Enabled(run[i], first) && run[i + 1] == Apply(run[i], first)
    && Enabled(run[j], last) && run[j + 1] == Apply(run[j], last)
  }

  predicate Decided(probe: Probe) {
    probe.Updating? || probe.Over? || probe.Panicked?
  }

  // A probe whose outcome is known writes it and is over; over and panicked probes do nothing more.
  lemma ProbeWaits(run: seq<SystemState>, k: nat, t: TaskId)
    requires IsRun(run) && k < |run| - 1 && t in run[k].probes && Decided(run[k].probes[t])
    ensures t in run[k + 1].probes
    ensures run[k + 1].probes[t] == run[k].probes[t] || run[k + 1].probes[t].Over?
  {
    var step := StepOf(run, k);
    if IsLoginStep(step) || IsConfigStep(step) || t != step.t {
      ProbeUnmoved(run[k], step, t);
    }
  }

  // The outcome of a probe waits to be written until it is, and a probe that is over does nothing more.
  lemma {:induction false} OutcomeWaits(run: seq<SystemState>, i: nat, j: nat, t: TaskId)
    requires IsRun(run) && i <= j < |run| && t in run[i].probes && Decided(run[i].probes[t])
    ensures t in run[j].probes && (run[j].probes[t] == run[i].probes[t] || run[j].probes[t].Over?)
    decreases j
  {
    if i < j {
      OutcomeWaits(run, i, j - 1, t);
      ProbeWaits(run, j - 1, t);
    }
  }

  lemma UpdateWrites(s: SystemState, t: TaskId)
    requires Enabled(s, ProbeUpdate(t))
    ensures var probe := s.probes[t];
            IsUpdated(s.servers, Apply(s, ProbeUpdate(t)).servers, probe.copy.server.id, probe.status, probe.pingTime)
  {
    var probe := s.probes[t];
    UpdateMeaning(s.servers, probe.copy.server.id, probe.status, probe.pingTime);
  }

  // The status that a probe holds after step `i` is what its update at step `j` writes.
  lemma HeldIsWritten(run: seq<SystemState>, i: nat, first: Step, j: nat, t: TaskId)
    requires StepsAt(run, i, first, j, ProbeUpdate(t)) && t in run[i + 1].probes && Decided(run[i + 1].probes[t])
    ensures var probe := run[i + 1].probes[t];
            && probe.Updating?
            && IsUpdated(run[j].servers, run[j + 1].servers, probe.copy.server.id, probe.status, probe.pingTime)
  {
    OutcomeWaits(run, i + 1, j, t);
    UpdateWrites(run[j], t);
  }

  lemma AfterPing(s: SystemState, t: TaskId, failure: Option<string>, elapsed: nat)
    requires Enabled(s, ProbeReturn(t, failure, elapsed))
    ensures var s' := Apply(s, ProbeReturn(t, failure, elapsed));
            && t in s'.probes
            && var copy := s.probes[t].copy;
               match failure
               case None => s'.probes[t] in {Panicked, Updating(copy, Healthy, Some(elapsed))}
               case Some(message) => s'.probes[t] in {Panicked, Updating(copy, Unhealthy(message), None)}
  {
  }

  // After a ping the slot is healthy with the time it took, if it was answered, and unhealthy with
  // the message and no time, if it failed.
  lemma {:induction false} PingDecidesStatus(run: seq<SystemState>, i: nat, j: nat, t: TaskId,
                                             failure: Option<string>, elapsed: nat)
    requires StepsAt(run, i, ProbeReturn(t, failure, elapsed), j, ProbeUpdate(t))
    ensures var id := run[i].probes[t].copy.server.id;
            match failure
            case None => IsUpdated(run[j].servers, run[j + 1].servers, id, Healthy, Some(elapsed))
            case Some(message) => IsUpdated(run[j].servers, run[j + 1].servers, id, Unhealthy(message), None)
  {
    AfterPing(run[i], t, failure, elapsed);
    HeldIsWritten(run, i, ProbeReturn(t, failure, elapsed), j, t);
  }

  lemma AfterFailedConnect(s: SystemState, t: TaskId, message: string, pinged: bool)
    requires Enabled(s, ProbeConnect(t, Some(message), pinged))
    ensures var s' := Apply(s, ProbeConnect(t, Some(message), pinged));
            t in s'.probes && s'.probes[t] == Updating(s.probes[t].copy, Unhealthy(message), None)
  {
  }

  // A probe of an unhealthy server that cannot connect leaves it so, with the new message; one that
  // connects goes on to refresh the pool exactly if the server answers a ping.
  lemma {:induction false} FailedConnectDecidesStatus(run: seq<SystemState>, i: nat, j: nat, t: TaskId,
                                                      message: string, pinged: bool)
    requires StepsAt(run, i, ProbeConnect(t, Some(message), pinged), j, ProbeUpdate(t))
    ensures IsUpdated(run[j].servers, run[j + 1].servers, run[i].probes[t].copy.server.id, Unhealthy(message), None)
  {
    AfterFailedConnect(run[i], t, message, pinged);
    HeldIsWritten(run, i, ProbeConnect(t, Some(message), pinged), j, t);
  }

  lemma ConnectedProbeRefreshes(s: SystemState, t: TaskId, pinged: bool)
    requires Enabled(s, ProbeConnect(t, None, pinged))
    ensures var s' := Apply(s, ProbeConnect(t, None, pinged));
            && (Enabled(s', ProbeLookup(t)) <==> pinged)
            && (s'.probes[t].Over? <==> !pinged)
            && !Enabled(s', ProbeUpdate(t)) && s'.servers == s.servers
  {
  }

  lemma AfterRefresh(s: SystemState, t: TaskId, failure: Option<string>)
    requires Enabled(s, ProbeReset(t, failure))
    ensures var s' := Apply(s, ProbeReset(t, failure));
            t in s'.probes && match failure
                              case None => s'.probes[t] == Updating(s.probes[t].copy, Healthy, None)
                              case Some(m) => s'.probes[t] == Updating(s.probes[t].copy, Unhealthy(m), None)
  {
  }

  // After a refresh the slot is healthy exactly if all connections were built, and has no ping time.
  lemma {:induction false} RefreshDecidesStatus(run: seq<SystemState>, i: nat, j: nat, t: TaskId,
                                                failure: Option<string>)
    requires StepsAt(run, i, ProbeReset(t, failure), j, ProbeUpdate(t))
    ensures var id := run[i].probes[t].copy.server.id;
            match failure
            case None => IsUpdated(run[j].servers, run[j + 1].servers, id, Healthy, None)
            case Some(message) => IsUpdated(run[j].servers, run[j + 1].servers, id, Unhealthy(message), None)
  {
    AfterRefresh(run[i], t, failure);
    HeldIsWritten(run, i, ProbeReset(t, failure), j, t);
  }

  // A lookup by the id of a copy finds the pool that is in that slot now, or panics.
  lemma LookupByIdFindsSlot(s: SystemState, t: TaskId)
    requires Reachable(s) && t in s.probes && !s.probes[t].Over? && !s.probes[t].Panicked?
    ensures var id := s.probes[t].copy.server.id;
            && (Enabled(s, ProbeLookup(t)) ==>
                  Apply(s, ProbeLookup(t)).probes[t] ==
                  if id < |s.pools| then Resetting(s.probes[t].copy, s.pools[id]) else Panicked)
            && (Enabled(s, ProbeTake(t)) ==>
                  Apply(s, ProbeTake(t)).probes[t] ==
                  if id < |s.pools| then Pinging(s.probes[t].copy, s.pools[id], s.clears) else Panicked)
  {
  }

  // The server a loop finds is the first healthy one, and its pool the one in the same slot; without
  // one the loop ends with the matching error.
  lemma LoopFindsFirstHealthy(s: SystemState, t: TaskId)
    requires Reachable(s) && Enabled(s, FindServer(t))
    ensures var pc := Apply(s, FindServer(t)).logins[t].pc;
            if |s.servers| == 0 then pc == Done(Err(NoServerConfigured))
            else if forall i :: 0 <= i < |s.servers| ==> s.servers[i].status.Unhealthy? then
              pc == Done(Err(NoHealthyServerAvailable))
            else
              exists i :: 0 <= i < |s.servers| && IsFoundAt(s, pc, i)
  {
    ReachableInv(s);
    LookupMeaning(s.servers);
    var i := FirstHealthy(s.servers);
    if i < |s.servers| {
      assert s.servers[i].id == i;
      assert IsFoundAt(s, Apply(s, FindServer(t)).logins[t].pc, i);
    }
  }

  // The loop is about to take from the pool of slot `i`, the first healthy one.
  predicate IsFoundAt(s: SystemState, pc: LoginPc, i: nat)
    requires i < |s.servers|
  {
    && s.servers[i].status == Healthy && (forall j :: 0 <= j < i ==> s.servers[j].status.Unhealthy?)
    && i < |s.pools| && pc.Taking? && pc.pool == s.pools[i]
    && pc.copy.server == s.servers[i] && pc.copy.server.id == i
  }

  // What a check does is decided by the copy: a server that was healthy is pinged over its pool,
  // and one that was not is connected to afresh.
  lemma CheckGoesByTheCopy(s: SystemState, t: TaskId, i: nat)
    requires Enabled(s, StartProbe(t, i))
    ensures var s' := Apply(s, StartProbe(t, i));
            && (Enabled(s', ProbeTake(t)) <==> s.servers[i].status == Healthy)
            && (forall failure, pinged ::
                  Enabled(s', ProbeConnect(t, failure, pinged)) <==> s.servers[i].status.Unhealthy?)
            && s'.probes[t].copy.server == s.servers[i]
    ensures var s' := Apply(s, StartRefresh(t, i));
            && Enabled(s', ProbeLookup(t)) && s'.probes[t].copy.server == s.servers[i]
  {
  }

  // The server that is being added has the given URL and the number of the slot it is for.
  lemma AdditionBegins(s: SystemState, url: Url)
    requires Enabled(s, BeginAdd(url))
    ensures var s' := Apply(s, BeginAdd(url));
            && (forall failure :: Enabled(s', EndAdd(failure))) && s'.servers == s.servers
            && s'.config.server.url == url && s'.config.server.id == |s.servers| && s'.config.server.pingTime == None
  {
  }

  // A step of its own is counted, and nothing else moves a loop.
  lemma LoginStepsCount(run: seq<SystemState>, k: nat, t: TaskId)
    requires IsRun(run) && k < |run| - 1 && t in run[k].logins
    ensures t in run[k + 1].logins
    ensures run[k + 1].logins[t] == run[k].logins[t] || run[k + 1].logins[t].steps == run[k].logins[t].steps + 1
  {
    var step := StepOf(run, k);
    if !IsLoginStep(step) || t != step.t {
      LoginUnmoved(run[k], step, t);
    }
  }

  lemma {:induction false} LoginWaits(run: seq<SystemState>, i: nat, j: nat, t: TaskId)
    requires IsRun(run) && i <= j < |run| && t in run[i].logins
    ensures t in run[j].logins && run[i].logins[t].steps <= run[j].logins[t].steps
    ensures run[i].logins[t].steps == run[j].logins[t].steps ==> run[j].logins[t] == run[i].logins[t]
    decreases j
  {
    if i < j {
      LoginWaits(run, i, j - 1, t);
      LoginStepsCount(run, j - 1, t);
    }
  }

  // The first step of a loop after its operation: only a lost connection is followed by an update,
  // and it marks the server that the loop was busy with as unhealthy.
  lemma {:induction false} LostConnectionDecidesStatus(run: seq<SystemState>, i: nat, j: nat, t: TaskId, opRes: Outcome)
    requires StepsAt(run, i, FinishOp(t, opRes), j, MarkDown(t))
    requires run[j].logins[t].steps == run[i + 1].logins[t].steps
    ensures opRes.Err? && opRes.error.LdapConnectionError?
    ensures IsUpdated(run[j].servers, run[j + 1].servers, run[i].logins[t].pc.copy.server.id,
                      Unhealthy("LDAP connection failure: " + RemoveNulls(opRes.error.err.text)), None)
  {
    LoginWaits(run, i + 1, j, t);
    var pc := run[j].logins[t].pc;
    UpdateMeaning(run[j].servers, pc.copy.server.id, Unhealthy(ConnectionErrorMessage(pc.err)), None);
  }

  // Any other outcome of the operation is the outcome of the loop.
  lemma OtherOutcomesEndTheLoop(s: SystemState, t: TaskId, opRes: Outcome)
    requires Enabled(s, FinishOp(t, opRes))
    ensures Apply(s, FinishOp(t, opRes)).logins[t].pc == Done(opRes) <==> opRes.Ok? || !opRes.error.LdapConnectionError?
    ensures Enabled(Apply(s, FinishOp(t, opRes)), MarkDown(t)) <==> opRes.Err? && opRes.error.LdapConnectionError?
    ensures Apply(s, FinishOp(t, opRes)).servers == s.servers
  {
  }

  // After a mark-down the loop looks for a server again.
  lemma LoopLooksAgain(s: SystemState, t: TaskId)
    requires Enabled(s, MarkDown(t))
    ensures var s' := Apply(s, MarkDown(t));
            && Enabled(s', FindServer(t)) && s'.logins[t].failed == s.logins[t].failed + 1
            && s'.logins[t].found == s.logins[t].found
  {
  }

  // A server comes into the list healthy exactly if its pool could be built, and with no ping time.
  lemma AddedServerStatus(s: SystemState, failure: Option<string>)
    requires Reachable(s) && Enabled(s, EndAdd(failure))
    ensures var servers := Apply(s, EndAdd(failure)).servers;
            && |servers| == |s.servers| + 1 && servers[..|s.servers|] == s.servers
            && servers[|s.servers|].id == |s.servers| && servers[|s.servers|].url == s.config.server.url
            && servers[|s.servers|].pingTime == s.config.server.pingTime
            && match failure
               case None => servers[|s.servers|].status == Healthy
               case Some(message) => servers[|s.servers|].status == Unhealthy(message)
  {
    ReachableInv(s);
  }

  // ---- Runs given by their steps

  function Exec(s: SystemState, steps: seq<Step>): Option<SystemState>
    decreases |steps|
  {
    if steps == [] then Some(s)
    else if Enabled(s, steps[0]) then Exec(Apply(s, steps[0]), steps[1..])
    else None
  }

  lemma ReachableNext(s: SystemState, step: Step)
    requires Reachable(s) && Enabled(s, step)
    ensures Reachable(Apply(s, step))
  {
    var run: seq<SystemState> :| IsRun(run) && run[|run| - 1] == s;
    var longer := run + [Apply(s, step)];
    forall i | 0 <= i < |longer| - 1 ensures NextAt(longer, i) {
      if i < |run| - 1 {
        assert NextAt(run, i);
      }
    }
    assert IsRun(longer) && longer[|longer| - 1] == Apply(s, step);
  }

  lemma {:induction false} ExecConcat(s: SystemState, a: seq<Step>, b: seq<Step>)
    ensures Exec(s, a + b) == match Exec(s, a) case None => None case Some(middle) => Exec(middle, b)
    decreases |a|
  {
    if a == [] {
      assert a + b == b;
    } else {
      assert (a + b)[1..] == a[1..] + b;
      if Enabled(s, a[0]) {
        ExecConcat(Apply(s, a[0]), a[1..], b);
      }
    }
  }

  // Both failures of a probe do happen: after a change of the list, its connection can end in
  // another server's pool, and with a shorter list it panics.
  lemma ProbeCanMiss(url: Url, other: Url) returns (strayed: SystemState, panicked: SystemState)
    ensures Reachable(strayed) && strayed.probeReturns == [HandBack(0, Some(1), 0, 1)]
    ensures Reachable(panicked) && panicked.probeReturns == [HandBack(0, None, 0, 1)]
    ensures 0 in panicked.probes && panicked.probes[0].Panicked?
  {
    var s := INITIAL;
    assert IsRun([s]) && [s][0] == s;
    var taken := ProbedServer(s, url);
    var cleared := Apply(taken, ClearList);
    ReachableNext(taken, ClearList);
    panicked := ReturnedTo(cleared, None);
    var added := AddedServer(cleared, other);
    strayed := ReturnedTo(added, Some(1));
  }

  lemma ReturnedTo(s: SystemState, to: Option<PoolId>) returns (s': SystemState)
    requires Reachable(s) && s.probeReturns == [] && s.clears == 1
    requires 0 in s.probes && s.probes[0].Pinging? && s.probes[0].issued == 0 && s.probes[0].since == 0
    requires s.probes[0].copy.server.id == 0 && to == if s.pools == [] then None else Some(s.pools[0])
    ensures Reachable(s') && s'.probeReturns == [HandBack(0, to, 0, 1)]
    ensures 0 in s'.probes && (to.None? ==> s'.probes[0].Panicked?)
  {
    s' := Apply(s, ProbeReturn(0, None, 0));
    ReachableNext(s, ProbeReturn(0, None, 0));
  }

  lemma AddedServer(s: SystemState, url: Url) returns (s': SystemState)
    requires Reachable(s) && s.config.Idle?
    ensures Reachable(s') && s'.servers == s.servers + [Server(url, |s.servers|, Healthy, None)]
    ensures s'.pools == s.pools + [s.nextPool] && s'.nextPool == s.nextPool + 1
    ensures s'.config.Idle? && s'.probes == s.probes && s'.logins == s.logins
    ensures s'.clears == s.clears && s'.probeReturns == s.probeReturns && s'.configured == s.configured + [url]
  {
    var s1 := Apply(s, BeginAdd(url));
    ReachableNext(s, BeginAdd(url));
    s' := Apply(s1, EndAdd(None));
    ReachableNext(s1, EndAdd(None));
  }

  lemma ProbedServer(s: SystemState, url: Url) returns (s': SystemState)
    requires Reachable(s) && s == INITIAL
    ensures Reachable(s') && s'.config.Idle? && s'.nextPool == 1 && s'.probeReturns == [] && s'.clears == 0
    ensures 0 in s'.probes && s'.probes[0].Pinging? && s'.probes[0].issued == 0 && s'.probes[0].since == 0
    ensures s'.probes[0].copy.server.id == 0
  {
    var s1 := AddedServer(s, url);
    var s2 := Apply(s1, StartProbe(0, 0));
    ReachableNext(s1, StartProbe(0, 0));
    s' := Apply(s2, ProbeTake(0));
    ReachableNext(s2, ProbeTake(0));
  }

  // And a stale update does hit another server: a login loses its connection to a server, and the
  // server that took its place in the list meanwhile is marked down, though nobody has tried it.
  lemma StaleUpdateHitsAnother(url: Url, other: Url, err: LdapError) returns (s: SystemState)
    ensures Reachable(s) && s.configured == [other] && s.pools == [1]
    ensures |s.servers| == 1 && !s.servers[0].IsHealthy()
    ensures s.logins.Keys == {0} && s.logins[0].found == [0] && s.probes == map[]
  {
    var s0 := INITIAL;
    assert IsRun([s0]) && [s0][0] == s0;
    var s1 := AddedServer(s0, url);
    var s2 := LoginOnFirst(s1);
    var s3 := Apply(s2, ClearList);
    ReachableNext(s2, ClearList);
    var s4 := AddedServer(s3, other);
    s := LostConnection(s4, err);
  }

  lemma LoginOnFirst(s: SystemState) returns (s': SystemState)
    requires Reachable(s) && s.logins == map[]
    requires |s.servers| == |s.pools| == 1 && s.servers[0].IsHealthy() && s.servers[0].id == 0
    ensures Reachable(s') && s'.config == s.config && s'.probes == s.probes && s'.nextPool == s.nextPool
    ensures s'.logins.Keys == {0} && s'.logins[0].pc.Operating? && s'.logins[0].found == [s.pools[0]]
    ensures s'.logins[0].pc.copy.server.id == 0
  {
    var s1 := Apply(s, StartLogin(0));
    ReachableNext(s, StartLogin(0));
    var s2 := Apply(s1, FindServer(0));
    ReachableNext(s1, FindServer(0));
    s' := Apply(s2, TakeConnection(0));
    ReachableNext(s2, TakeConnection(0));
  }

  lemma LostConnection(s: SystemState, err: LdapError) returns (s': SystemState)
    requires Reachable(s) && s.logins.Keys == {0} && s.logins[0].pc.Operating?
    requires |s.servers| == 1 && s.logins[0].pc.copy.server.id == 0
    ensures Reachable(s') && s'.configured == s.configured && s'.pools == s.pools && s'.probes == s.probes
    ensures s'.logins.Keys == {0} && s'.logins[0].found == s.logins[0].found
    ensures |s'.servers| == 1 && !s'.servers[0].IsHealthy()
  {
    var lost: Outcome := Err(LdapConnectionError(err));
    var s1 := Apply(s, FinishOp(0, lost));
    ReachableNext(s, FinishOp(0, lost));
    s' := Apply(s1, MarkDown(0));
    ReachableNext(s1, MarkDown(0));
  }

  // ---- A loop that nobody disturbs

  // The steps it makes, when the operation comes to `op(i)` on slot `i`.
  function SoloSteps(servers: seq<Server>, t: TaskId, op: nat -> Outcome): seq<Step>
    decreases HealthySet(servers)
  {
    var i := FirstHealthy(servers);
    if i == |servers| then [FindServer(t)]
    else if IsConnectionFailure(op(i)) then
      var marked := servers[i := MarkedDown(servers[i], op(i))];
      assert i in HealthySet(servers) && i !in HealthySet(marked);
      [FindServer(t), TakeConnection(t), FinishOp(t, op(i)), MarkDown(t)] + SoloSteps(marked, t, op)
    else
      [FindServer(t), TakeConnection(t), FinishOp(t, op(i))]
  }

  lemma {:induction false} ExecKeepsShape(s: SystemState, steps: seq<Step>)
    requires ShapeInv(s) && Exec(s, steps).Some?
    ensures ShapeInv(Exec(s, steps).value)
    decreases |steps|
  {
    if steps != [] {
      StepKeepsShape(s, steps[0]);
      ExecKeepsShape(Apply(s, steps[0]), steps[1..]);
    }
  }

  lemma AnsweredRound(s: SystemState, t: TaskId, op: nat -> Outcome)
    requires ShapeInv(s) && t in s.logins && s.logins[t].pc.Looking?
    requires var i := FirstHealthy(s.servers); i < |s.servers| && !IsConnectionFailure(op(i))
    ensures var i := FirstHealthy(s.servers);
            var s' := Exec(s, [FindServer(t), TakeConnection(t), FinishOp(t, op(i))]);
            && s'.Some? && t in s'.value.logins
            && s'.value.servers == s.servers && s'.value.logins[t].pc == Done(op(i))
            && s'.value.logins[t].failed == s.logins[t].failed
  {
    var i := FirstHealthy(s.servers);
    var steps := [FindServer(t), TakeConnection(t), FinishOp(t, op(i))];
    var s1 := Apply(s, steps[0]);
    var s2 := Apply(s1, steps[1]);
    var s3 := Apply(s2, steps[2]);
    assert Exec(s2, steps[2..]) == Exec(s3, steps[2..][1..]) == Some(s3);
    assert Exec(s1, steps[1..]) == Exec(s2, steps[1..][1..]);
  }

  lemma FailedRound(s: SystemState, t: TaskId, op: nat -> Outcome)
    requires ShapeInv(s) && t in s.logins && s.logins[t].pc.Looking?
    requires var i := FirstHealthy(s.servers); i < |s.servers| && IsConnectionFailure(op(i))
    ensures var i := FirstHealthy(s.servers);
            var s' := Exec(s, [FindServer(t), TakeConnection(t), FinishOp(t, op(i)), MarkDown(t)]);
            && s'.Some? && t in s'.value.logins
            && s'.value.servers == s.servers[i := MarkedDown(s.servers[i], op(i))]
            && s'.value.logins[t].pc.Looking?
            && s'.value.logins[t].failed == s.logins[t].failed + 1
  {
    var i := FirstHealthy(s.servers);
    var steps := [FindServer(t), TakeConnection(t), FinishOp(t, op(i)), MarkDown(t)];
    var s1 := Apply(s, steps[0]);
    var s2 := Apply(s1, steps[1]);
    var s3 := Apply(s2, steps[2]);
    var s4 := Apply(s3, steps[3]);
    assert Exec(s3, steps[3..]) == Exec(s4, steps[3..][1..]) == Some(s4);
    assert Exec(s2, steps[2..]) == Exec(s3, steps[2..][1..]);
    assert Exec(s1, steps[1..]) == Exec(s2, steps[1..][1..]);
  }

  // It does what the recursive walk says: same outcome, same table, one failed iteration for each
  // slot that was tried in vain.
  lemma {:induction false} SoloLoopIsTheWalk(s: SystemState, t: TaskId, op: nat -> Outcome)
    requires ShapeInv(s) && t in s.logins && s.logins[t].pc.Looking?
    ensures var walk := Walk(s.servers, op, 0);
            var s' := Exec(s, SoloSteps(s.servers, t, op));
            && s'.Some? && t in s'.value.logins
            && s'.value.servers == walk.servers
            && s'.value.logins[t].pc == Done(walk.outcome)
            && s'.value.logins[t].failed == s.logins[t].failed + FailedTries(walk.tried, op)
    decreases HealthySet(s.servers)
  {
    var i := FirstHealthy(s.servers);
    WalkRound(s.servers, op);
    if i == |s.servers| {
      assert Exec(Apply(s, FindServer(t)), [FindServer(t)][1..]) == Some(Apply(s, FindServer(t)));
    } else if IsConnectionFailure(op(i)) {
      var marked := s.servers[i := MarkedDown(s.servers[i], op(i))];
      assert i in HealthySet(s.servers) && i !in HealthySet(marked);
      var round := [FindServer(t), TakeConnection(t), FinishOp(t, op(i)), MarkDown(t)];
      FailedRound(s, t, op);
      ExecKeepsShape(s, round);
      var s1 := Exec(s, round).value;
      SoloLoopIsTheWalk(s1, t, op);
      ExecConcat(s, round, SoloSteps(marked, t, op));
      var rest := Walk(marked, op, 0).tried;
      assert ([i] + rest)[1..] == rest;
    } else {
      AnsweredRound(s, t, op);
    }
  }

  function FailedTries(tried: seq<nat>, op: nat -> Outcome): nat {
    if tried == [] then 0
    else (if IsConnectionFailure(op(tried[0])) then 1 else 0) + FailedTries(tried[1..], op)
  }
}
