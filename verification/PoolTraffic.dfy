/**
 Where the connections of a pool come from and go to, in every run of the whole back end: they go
 astray in the hands of probes alone, and exactly when the list is cleared under one.
 */
module PoolTraffic {
  import opened Wrappers
  import opened ConnectionQueues
  import opened ServerTable
  import opened TrafficProtocol
  import P = PoolProtocol
  import PI = PoolInvariants
  import PT = PoolTheorems
  import F = FailoverProtocol
  import FT = FailoverTheorems

  predicate StraysInto(r: F.HandBack, pool: PoolId) {
    r.to == Some(pool) && r.issued != pool
  }

  predicate StraysFrom(r: F.HandBack, pool: PoolId) {
    r.issued == pool && r.to != Some(pool)
  }

  ghost predicate AnyInto(log: seq<F.HandBack>, pool: PoolId) {
    exists i: nat :: i < |log| && StraysInto(log[i], pool)
  }

  ghost predicate AnyFrom(log: seq<F.HandBack>, pool: PoolId) {
    exists i: nat :: i < |log| && StraysFrom(log[i], pool)
  }

  // The pool's own history agrees with the returns of the probes.
  ghost predicate Fits(s: P.PoolState, log: seq<F.HandBack>, pool: PoolId) {
    && P.Reachable(s)
    && (PT.HasForeign(s.births) <==> AnyInto(log, pool))
    && (s.away != {} <==> AnyFrom(log, pool))
  }

  // The pool that a login or probe has a task in.
  function InPool(table: F.SystemState, user: User): Option<PoolId> {
    match user
    case ByLogin(t) =>
      if t in table.logins && (table.logins[t].pc.Taking? || table.logins[t].pc.Operating?) then
        Some(table.logins[t].pc.pool)
      else None
    case ByProbe(t) =>
      if t !in table.probes then None
      else if table.probes[t].Pinging? then Some(table.probes[t].issued)
      else if table.probes[t].Resetting? then Some(table.probes[t].pool)
      else None
  }

  predicate Exists(pools: map<PoolId, P.PoolState>, hand: Hand) {
    hand.pool in pools && hand.task in pools[hand.pool].tasks
  }

  // Every user has a task of its own.
  ghost predicate HandsInv(j: Traffic) {
    HandsExist(j.pools, j.hands) && HandsApart(j.hands)
  }

  ghost predicate HandsExist(pools: map<PoolId, P.PoolState>, hands: map<User, Hand>) {
    forall a :: a in hands ==> Exists(pools, hands[a])
  }

  ghost predicate HandsApart(hands: map<User, Hand>) {
    forall a, b :: a in hands && b in hands && a != b ==> hands[a] != hands[b]
  }

  // It is in the pool that the user has found, and a login at its operation has a connection of it.
  predicate UserInv(j: Traffic, user: User) {
    InPool(j.table, user).Some? ==>
      && user in j.hands && j.hands[user].pool == InPool(j.table, user).value
      && (AtOperation(j.table, user) ==> HasConnection(j, user))
  }

  predicate AtOperation(table: F.SystemState, user: User) {
    user.ByLogin? && user.t in table.logins && table.logins[user.t].pc.Operating?
  }

  ghost predicate UsersInv(j: Traffic) {
    forall user :: UserInv(j, user)
  }

  ghost predicate PoolsNumbered(j: Traffic) {
    forall p: PoolId :: p in j.pools <==> p < j.table.nextPool
  }

  ghost predicate PoolsFit(j: Traffic) {
    forall p :: p in j.pools && p !in j.cut ==> Fits(j.pools[p], j.table.probeReturns, p)
  }

  ghost predicate Inv(j: Traffic) {
    && F.Reachable(j.table)
    && PoolsNumbered(j)
    && PoolsFit(j)
    && HandsInv(j)
    && UsersInv(j)
    && (j.cut != {} ==> AnyPanicked(j.table))
  }

  // ---- One step

  // What the moves of a step do in one pool.
  function StepIn(moves: Moves, p: PoolId): Option<P.Step> {
    match moves
    case NoMove => None
    case One(q, step) => if q == p then Some(step) else None
    case Two(q, step, q', step') => if q' == p then Some(step') else if q == p then Some(step) else None
  }

  function After(s: P.PoolState, step: Option<P.Step>): P.PoolState
    requires step.Some? ==> P.Enabled(s, step.value)
  {
    if step.Some? then P.Apply(s, step.value) else s
  }

  lemma MovesMade(pools: map<PoolId, P.PoolState>, moves: Moves, p: PoolId)
    requires CanMakeMoves(pools, moves)
    ensures p in MakeMoves(pools, moves) <==> p in pools
    ensures p in pools ==>
              && (StepIn(moves, p).Some? ==> P.Enabled(pools[p], StepIn(moves, p).value))
              && MakeMoves(pools, moves)[p] == After(pools[p], StepIn(moves, p))
  {
  }

  predicate BringsIn(step: Option<P.Step>) {
    step.Some? && step.value.StrayIn?
  }

  predicate TakesAway(step: Option<P.Step>) {
    step.Some? && step.value.StrayOut?
  }

  // Only StrayIn brings a foreign connection, and only StrayOut takes one away.
  lemma HistoryAfter(s: P.PoolState, step: P.Step)
    requires P.Enabled(s, step)
    ensures PT.HasForeign(P.Apply(s, step).births) <==> PT.HasForeign(s.births) || step.StrayIn?
    ensures P.Apply(s, step).away != {} <==> s.away != {} || step.StrayOut?
  {
    var births' := P.Apply(s, step).births;
    PT.StepIsMonotone(s, step);
    if step.StrayIn? {
      assert births'[|s.births|].Foreign?;
    }
    if c: ConnId :| c < |s.births| && s.births[c].Foreign? {
      assert births'[c].Foreign?;
    }
    forall c: ConnId | c < |births'| && births'[c].Foreign? && !step.StrayIn? ensures PT.HasForeign(s.births) {
      assert c < |s.births| && s.births[c].Foreign?;
    }
    if step.StrayOut? {
      assert s.tasks[step.t].handle.conn in P.Apply(s, step).away;
    }
  }

  // The returns that a step of the table logs: none but its own.
  function Logged(j: Traffic, fstep: F.Step): seq<F.HandBack>
    requires F.Enabled(j.table, fstep)
  {
    match fstep
    case ProbeReturn(t, _, _) =>
      var probe := j.table.probes[t];
      [F.HandBack(probe.issued, PoolAt(j.table, probe.copy.server.id), probe.since, j.table.clears)]
    case _ => []
  }

  lemma ReturnsAfter(j: Traffic, fstep: F.Step)
    requires F.Enabled(j.table, fstep)
    ensures F.Apply(j.table, fstep).probeReturns == j.table.probeReturns + Logged(j, fstep)
  {
  }

  lemma AnyAfter(log: seq<F.HandBack>, more: seq<F.HandBack>, p: PoolId)
    ensures AnyInto(log + more, p) <==> AnyInto(log, p) || AnyInto(more, p)
    ensures AnyFrom(log + more, p) <==> AnyFrom(log, p) || AnyFrom(more, p)
  {
    var all := log + more;
    forall i: nat | i < |log| ensures all[i] == log[i] {
    }
    forall i: nat | i < |more| ensures all[|log| + i] == more[i] {
    }
    forall i: nat | i < |all| ensures i < |log| || (exists k: nat :: k < |more| && all[i] == more[k]) {
      if i >= |log| {
        assert all[i] == more[i - |log|];
      }
    }
  }

  // A step strays from or to a pool exactly if it logs such a return.
  lemma StraysAreLogged(j: Traffic, step: Step, p: PoolId)
    requires Inv(j) && step.Table? && Enabled(j, step)
    ensures BringsIn(StepIn(MovesOf(j, step), p)) <==> AnyInto(Logged(j, step.step), p)
    ensures TakesAway(StepIn(MovesOf(j, step), p)) <==> AnyFrom(Logged(j, step.step), p)
  {
    if step.step.ProbeReturn? {
      ReturnStrays(j, step, p);
    }
  }

  lemma ReturnStrays(j: Traffic, step: Step, p: PoolId)
    requires step.Table? && step.step.ProbeReturn? && Enabled(j, step) && UserInv(j, ByProbe(step.step.t))
    ensures BringsIn(StepIn(MovesOf(j, step), p)) <==> AnyInto(Logged(j, step.step), p)
    ensures TakesAway(StepIn(MovesOf(j, step), p)) <==> AnyFrom(Logged(j, step.step), p)
  {
    var log := Logged(j, step.step);
    assert AnyInto(log, p) <==> StraysInto(log[0], p);
    assert AnyFrom(log, p) <==> StraysFrom(log[0], p);
  }

  lemma MoveKeepsFits(s: P.PoolState, log: seq<F.HandBack>, step: Option<P.Step>, more: seq<F.HandBack>, p: PoolId)
    requires Fits(s, log, p) && (step.Some? ==> P.Enabled(s, step.value))
    requires (BringsIn(step) <==> AnyInto(more, p)) && (TakesAway(step) <==> AnyFrom(more, p))
    ensures Fits(After(s, step), log + more, p)
  {
    AnyAfter(log, more, p);
    if step.Some? {
      HistoryAfter(s, step.value);
      PT.ReachableNext(s, step.value);
    }
  }

  // A pool is created with the next number, which no return has named.
  lemma NewPoolFits(j: Traffic, settings: ConnectionSettings, built: nat)
    requires Inv(j) && built <= settings.connectionPoolSize
    ensures Fits(P.Init(settings, built), j.table.probeReturns, j.table.nextPool)
  {
    var s := P.Init(settings, built);
    assert P.IsInit(s) && P.IsRun([s]) && [s][0] == s;
    FT.ReachableInv(j.table);
    assert !AnyInto(j.table.probeReturns, j.table.nextPool) && !AnyFrom(j.table.probeReturns, j.table.nextPool);
  }

  // A task is never forgotten, and one that has a connection keeps it until it hands it over.
  lemma TaskStays(s: P.PoolState, step: P.Step, t: P.TaskId)
    requires P.Enabled(s, step) && t in s.tasks
    ensures t in P.Apply(s, step).tasks
    ensures s.tasks[t].Holding? && !(step.t == t && (step.BeginReturn? || step.StrayOut?)) ==>
              P.Apply(s, step).tasks[t] == s.tasks[t]
  {
  }

  predicate Releases(moves: Moves, hand: Hand) {
    match StepIn(moves, hand.pool)
    case Some(BeginReturn(t)) => t == hand.task
    case Some(StrayOut(t)) => t == hand.task
    case _ => false
  }

  lemma HandStays(pools: map<PoolId, P.PoolState>, moves: Moves, hand: Hand)
    requires CanMakeMoves(pools, moves) && Exists(pools, hand)
    ensures var pools' := MakeMoves(pools, moves);
            && Exists(pools', hand)
            && (pools[hand.pool].tasks[hand.task].Holding? && !Releases(moves, hand) ==>
                  pools'[hand.pool].tasks[hand.task] == pools[hand.pool].tasks[hand.task])
  {
    MovesMade(pools, moves, hand.pool);
    if StepIn(moves, hand.pool).Some? {
      TaskStays(pools[hand.pool], StepIn(moves, hand.pool).value, hand.task);
    }
  }

  // What a step may add to the hands: one task that was not there, for one user.
  predicate AddsOne(hands: map<User, Hand>, hands': map<User, Hand>, user: User, hand: Hand) {
    hands' == hands[user := hand]
  }

  lemma NewHandIsFresh(j: Traffic, step: Step) returns (user: User, hand: Hand)
    requires step.Table? && Enabled(j, step)
    ensures var hands', pools' := NewHands(j.hands, step.step, MovesOf(j, step)), MakeMoves(j.pools, MovesOf(j, step));
            || hands' == j.hands
            || (AddsOne(j.hands, hands', user, hand) && Exists(pools', hand) && !Exists(j.pools, hand))
  {
    var moves := MovesOf(j, step);
    match moves {
      case One(p, Spawn(u, _)) =>
        user, hand := if step.step.FindServer? then ByLogin(step.step.t) else ByProbe(step.step.t), Hand(p, u);
      case Two(_, _, q, StrayIn(u, _)) =>
        user, hand := ByProbe(step.step.t), Hand(q, u);
      case _ =>
        user, hand := ByLogin(0), Hand(0, 0);
    }
    MovesMade(j.pools, moves, hand.pool);
  }

  lemma HandsStay(pools: map<PoolId, P.PoolState>, moves: Moves, hands: map<User, Hand>)
    requires CanMakeMoves(pools, moves) && HandsExist(pools, hands)
    ensures HandsExist(MakeMoves(pools, moves), hands)
  {
    forall a | a in hands ensures Exists(MakeMoves(pools, moves), hands[a]) {
      HandStays(pools, moves, hands[a]);
    }
  }

  lemma AddOne(pools: map<PoolId, P.PoolState>, pools': map<PoolId, P.PoolState>,
               hands: map<User, Hand>, hands': map<User, Hand>, user: User, hand: Hand)
    requires HandsExist(pools, hands) && HandsApart(hands) && HandsExist(pools', hands)
    requires AddsOne(hands, hands', user, hand) && Exists(pools', hand) && !Exists(pools, hand)
    ensures HandsExist(pools', hands') && HandsApart(hands')
  {
  }

  lemma TableKeepsHands(j: Traffic, step: Step)
    requires HandsInv(j) && PoolsNumbered(j) && step.Table? && Enabled(j, step)
    ensures HandsInv(Apply(j, step))
  {
    var moves := MovesOf(j, step);
    MovedHandsApart(j, step);
    if step.step.EndAdd? {
      assert Apply(j, step).hands == j.hands;
      assert forall a :: a in j.hands ==> j.hands[a].pool != j.table.nextPool;
    }
  }

  lemma MovedHandsApart(j: Traffic, step: Step)
    requires HandsInv(j) && step.Table? && Enabled(j, step)
    ensures HandsExist(MakeMoves(j.pools, MovesOf(j, step)), Apply(j, step).hands) && HandsApart(Apply(j, step).hands)
  {
    var moves := MovesOf(j, step);
    HandsStay(j.pools, moves, j.hands);
    var user, hand := NewHandIsFresh(j, step);
    var hands', pools' := NewHands(j.hands, step.step, moves), MakeMoves(j.pools, moves);
    if hands' != j.hands {
      AddOne(j.pools, pools', j.hands, hands', user, hand);
    }
  }

  // The user that a step of the table is of.
  function Acts(fstep: F.Step): Option<User> {
    if F.IsConfigStep(fstep) then None
    else if F.IsLoginStep(fstep) then Some(ByLogin(fstep.t))
    else Some(ByProbe(fstep.t))
  }

  lemma UsersStay(table: F.SystemState, fstep: F.Step, user: User)
    requires F.Enabled(table, fstep) && Acts(fstep) != Some(user)
    ensures InPool(F.Apply(table, fstep), user) == InPool(table, user)
    ensures AtOperation(F.Apply(table, fstep), user) <==> AtOperation(table, user)
  {
    if user.ByLogin? {
      FT.LoginUnmoved(table, fstep, user.t);
    } else {
      FT.ProbeUnmoved(table, fstep, user.t);
    }
  }

  lemma HandsOfOthersStay(hands: map<User, Hand>, fstep: F.Step, moves: Moves, user: User)
    requires Acts(fstep) != Some(user) && user in hands
    ensures user in NewHands(hands, fstep, moves) && NewHands(hands, fstep, moves)[user] == hands[user]
  {
  }

  // A step makes no moves but with the task of its own user.
  lemma ReleasesItsOwn(j: Traffic, step: Step, hand: Hand)
    requires step.Table? && Enabled(j, step) && Releases(MovesOf(j, step), hand)
    ensures Acts(step.step).Some? && Acts(step.step).value in j.hands && j.hands[Acts(step.step).value] == hand
  {
  }

  // ---- Steps of the table

  lemma ActorKeepsUser(j: Traffic, step: Step)
    requires Inv(j) && step.Table? && Enabled(j, step) && Acts(step.step).Some?
    ensures UserInv(Apply(j, step), Acts(step.step).value)
  {
    var user := Acts(step.step).value;
    assert UserInv(j, user);
    if user.ByLogin? {
      LoginKeepsUser(j, step);
    } else {
      ProbeKeepsUser(j, step);
    }
  }

  lemma LoginKeepsUser(j: Traffic, step: Step)
    requires step.Table? && Enabled(j, step) && F.IsLoginStep(step.step) && UserInv(j, ByLogin(step.step.t))
    ensures UserInv(Apply(j, step), ByLogin(step.step.t))
  {
    match step.step
    case FindServer(_) => FindKeepsUser(j, step);
    case TakeConnection(t) => TakeKeepsUser(j, step);
    case _ => EndsUse(j, step);
  }

  lemma FindKeepsUser(j: Traffic, step: Step)
    requires step.Table? && Enabled(j, step) && step.step.FindServer?
    ensures UserInv(Apply(j, step), ByLogin(step.step.t))
  {
  }

  lemma TakeKeepsUser(j: Traffic, step: Step)
    requires step.Table? && Enabled(j, step) && step.step.TakeConnection? && UserInv(j, ByLogin(step.step.t))
    ensures UserInv(Apply(j, step), ByLogin(step.step.t))
  {
    assert MovesOf(j, step) == NoMove;
    assert Apply(j, step) == j.(table := F.Apply(j.table, step.step));
  }

  lemma EndsUse(j: Traffic, step: Step)
    requires step.Table? && Enabled(j, step) && F.IsLoginStep(step.step)
    requires !step.step.FindServer? && !step.step.TakeConnection?
    ensures InPool(Apply(j, step).table, ByLogin(step.step.t)) == None
  {
  }

  lemma ProbeKeepsUser(j: Traffic, step: Step)
    requires step.Table? && Enabled(j, step) && IsProbeStep(step.step) && UserInv(j, ByProbe(step.step.t))
    ensures UserInv(Apply(j, step), ByProbe(step.step.t))
  {
  }

  // The pools after a step are those after its moves, with a new one perhaps.
  lemma PoolsAfterMoves(j: Traffic, step: Step, p: PoolId)
    requires step.Table? && Enabled(j, step) && p in j.pools && PoolsNumbered(j)
    ensures p in Apply(j, step).pools && Apply(j, step).pools[p] == MakeMoves(j.pools, MovesOf(j, step))[p]
  {
    MovesMade(j.pools, MovesOf(j, step), p);
  }

  lemma OthersKeepConnection(j: Traffic, step: Step, user: User)
    requires Inv(j) && step.Table? && Enabled(j, step) && Acts(step.step) != Some(user) && user in j.hands
    ensures var j' := Apply(j, step);
            user in j'.hands && j'.hands[user] == j.hands[user] && (HasConnection(j, user) ==> HasConnection(j', user))
  {
    var moves := MovesOf(j, step);
    HandsOfOthersStay(j.hands, step.step, moves, user);
    HandStays(j.pools, moves, j.hands[user]);
    PoolsAfterMoves(j, step, j.hands[user].pool);
    if Releases(moves, j.hands[user]) {
      ReleasesItsOwn(j, step, j.hands[user]);
    }
  }

  lemma OthersKeepUser(j: Traffic, step: Step, user: User)
    requires Inv(j) && step.Table? && Enabled(j, step) && Acts(step.step) != Some(user)
    ensures UserInv(Apply(j, step), user)
  {
    assert UserInv(j, user);
    UsersStay(j.table, step.step, user);
    if InPool(j.table, user).Some? {
      OthersKeepConnection(j, step, user);
    }
  }

  lemma TableKeepsFits(j: Traffic, step: Step, p: PoolId)
    requires Inv(j) && step.Table? && Enabled(j, step) && p in Apply(j, step).pools && p !in j.cut
    ensures Fits(Apply(j, step).pools[p], Apply(j, step).table.probeReturns, p)
  {
    ReturnsAfter(j, step.step);
    MovesMade(j.pools, MovesOf(j, step), p);
    if p in j.pools {
      PoolsAfterMoves(j, step, p);
      OldPoolFits(j, step, p);
    } else {
      NewPoolFits(j, step.settings, step.built);
    }
  }

  lemma OldPoolFits(j: Traffic, step: Step, p: PoolId)
    requires Inv(j) && step.Table? && Enabled(j, step) && p in j.pools && p !in j.cut
    ensures var step' := StepIn(MovesOf(j, step), p);
            && (step'.Some? ==> P.Enabled(j.pools[p], step'.value))
            && Fits(After(j.pools[p], step'), j.table.probeReturns + Logged(j, step.step), p)
  {
    MovesMade(j.pools, MovesOf(j, step), p);
    StraysAreLogged(j, step, p);
    MoveKeepsFits(j.pools[p], j.table.probeReturns, StepIn(MovesOf(j, step), p), Logged(j, step.step), p);
  }

  lemma PoolsAfter(j: Traffic, step: Step, p: PoolId)
    requires step.Table? && Enabled(j, step)
    ensures p in Apply(j, step).pools <==> p in j.pools || (step.step.EndAdd? && p == j.table.nextPool)
    ensures Apply(j, step).table.nextPool == j.table.nextPool + if step.step.EndAdd? then 1 else 0
  {
    MovesMade(j.pools, MovesOf(j, step), p);
    if F.IsLoginStep(step.step) {
      FT.LoginStepKeepsTable(j.table, step.step);
    } else if !F.IsConfigStep(step.step) {
      FT.ProbeStepKeepsTable(j.table, step.step);
    }
  }

  lemma PanickedStays(table: F.SystemState, fstep: F.Step)
    requires F.Enabled(table, fstep) && AnyPanicked(table)
    ensures AnyPanicked(F.Apply(table, fstep))
  {
    var t :| t in table.probes && table.probes[t].Panicked?;
    if IsProbeStep(fstep) && fstep.t == t {
      assert false;
    } else {
      FT.ProbeUnmoved(table, fstep, t);
      assert F.Apply(table, fstep).probes[t].Panicked?;
    }
  }

  lemma TableKeepsNumbers(j: Traffic, step: Step)
    requires PoolsNumbered(j) && step.Table? && Enabled(j, step)
    ensures PoolsNumbered(Apply(j, step))
  {
    forall p: PoolId ensures p in Apply(j, step).pools <==> p < Apply(j, step).table.nextPool {
      PoolsAfter(j, step, p);
    }
  }

  lemma TableKeepsPools(j: Traffic, step: Step)
    requires Inv(j) && step.Table? && Enabled(j, step)
    ensures PoolsFit(Apply(j, step))
  {
    var j' := Apply(j, step);
    forall p | p in j'.pools && p !in j'.cut ensures Fits(j'.pools[p], j'.table.probeReturns, p) {
      TableKeepsFits(j, step, p);
    }
  }

  lemma TableKeepsUsers(j: Traffic, step: Step)
    requires Inv(j) && step.Table? && Enabled(j, step)
    ensures UsersInv(Apply(j, step))
  {
    forall user ensures UserInv(Apply(j, step), user) {
      if Acts(step.step) == Some(user) {
        ActorKeepsUser(j, step);
      } else {
        OthersKeepUser(j, step, user);
      }
    }
  }

  lemma {:induction false} TableKeepsInv(j: Traffic, step: Step)
    requires Inv(j) && step.Table? && Enabled(j, step)
    ensures Inv(Apply(j, step))
  {
    FT.ReachableNext(j.table, step.step);
    TableKeepsNumbers(j, step);
    TableKeepsPools(j, step);
    TableKeepsHands(j, step);
    TableKeepsUsers(j, step);
    if j.cut != {} {
      PanickedStays(j.table, step.step);
    }
  }

  // ---- Steps in one pool

  // What a step of one pool, or a drop there, leaves as it was.
  ghost predicate PoolChanges(j: Traffic, j': Traffic, p: PoolId) {
    && p in j.pools && p in j'.pools && j'.pools == j.pools[p := j'.pools[p]]
    && j' == j.(pools := j'.pools, shut := j'.shut, dropped := j'.dropped, cut := j'.cut) && j.cut <= j'.cut
  }

  lemma PoolChangeKeepsUsers(j: Traffic, j': Traffic, p: PoolId)
    requires UsersInv(j) && PoolChanges(j, j', p)
    requires forall user :: AtOperation(j.table, user) && HasConnection(j, user) ==> HasConnection(j', user)
    ensures UsersInv(j')
  {
    forall user ensures UserInv(j', user) {
      assert UserInv(j, user);
    }
  }

  lemma PoolChangeKeepsRest(j: Traffic, j': Traffic, p: PoolId)
    requires PoolsNumbered(j) && PoolsFit(j) && HandsInv(j) && PoolChanges(j, j', p)
    requires p !in j'.cut ==> Fits(j'.pools[p], j.table.probeReturns, p)
    requires forall t :: t in j.pools[p].tasks ==> t in j'.pools[p].tasks
    ensures PoolsNumbered(j') && PoolsFit(j') && HandsInv(j')
  {
    forall a | a in j.hands ensures Exists(j'.pools, j.hands[a]) {
      assert Exists(j.pools, j.hands[a]);
    }
  }

  lemma PoolChangeKeepsInv(j: Traffic, j': Traffic, p: PoolId)
    requires Inv(j) && PoolChanges(j, j', p)
    requires j'.cut != {} ==> AnyPanicked(j.table)
    requires p !in j'.cut ==> Fits(j'.pools[p], j.table.probeReturns, p)
    requires forall t :: t in j.pools[p].tasks ==> t in j'.pools[p].tasks
    requires forall user :: AtOperation(j.table, user) && HasConnection(j, user) ==> HasConnection(j', user)
    ensures Inv(j')
  {
    PoolChangeKeepsUsers(j, j', p);
    PoolChangeKeepsRest(j, j', p);
  }

  lemma WithinKeepsFits(s: P.PoolState, log: seq<F.HandBack>, p: PoolId, step: P.Step)
    requires Fits(s, log, p) && P.Enabled(s, step) && !step.StrayIn? && !step.StrayOut?
    ensures Fits(P.Apply(s, step), log, p)
  {
    assert !AnyInto([], p) && !AnyFrom([], p) && log + [] == log;
    MoveKeepsFits(s, log, Some(step), [], p);
  }

  lemma WithinKeepsConnection(j: Traffic, p: PoolId, poolStep: P.Step, j': Traffic, user: User)
    requires CanMove(j.pools, p, poolStep) && !poolStep.BeginReturn? && !poolStep.StrayOut?
    requires j' == j.(pools := j.pools[p := P.Apply(j.pools[p], poolStep)], shut := j'.shut)
    requires HasConnection(j, user)
    ensures HasConnection(j', user)
  {
    if j.hands[user].pool == p {
      TaskStays(j.pools[p], poolStep, j.hands[user].task);
    }
  }

  lemma WithinKeepsInv(j: Traffic, p: PoolId, poolStep: P.Step, j': Traffic)
    requires Inv(j) && CanMove(j.pools, p, poolStep)
    requires !poolStep.BeginReturn? && !poolStep.StrayIn? && !poolStep.StrayOut?
    requires j' == j.(pools := j.pools[p := P.Apply(j.pools[p], poolStep)], shut := j'.shut)
    ensures Inv(j')
  {
    if p !in j.cut {
      WithinKeepsFits(j.pools[p], j.table.probeReturns, p, poolStep);
    }
    forall t | t in j.pools[p].tasks ensures t in j'.pools[p].tasks {
      TaskStays(j.pools[p], poolStep, t);
    }
    forall user | AtOperation(j.table, user) && HasConnection(j, user) ensures HasConnection(j', user) {
      WithinKeepsConnection(j, p, poolStep, j', user);
    }
    PoolChangeKeepsInv(j, j', p);
  }

  lemma DroppedTask(s: P.PoolState, t: P.TaskId, point: Point)
    requires t in s.tasks && CanBeDropped(s, t, point)
    ensures AfterDrop(s, t, point).tasks == s.tasks[t := P.Finished]
  {
  }

  lemma DropKeepsInv(j: Traffic, step: Step)
    requires Inv(j) && step.Drop? && Enabled(j, step)
    ensures Inv(Apply(j, step))
  {
    var j' := Apply(j, step);
    if HasTask(j, step.t) {
      var hand := j.hands[ByProbe(step.t)];
      DroppedTask(j.pools[hand.pool], hand.task, step.point);
      forall user | AtOperation(j.table, user) && HasConnection(j, user) ensures HasConnection(j', user) {
        assert j.hands[user] != hand;
      }
      PoolChangeKeepsInv(j, j', hand.pool);
    } else {
      forall user ensures UserInv(j', user) {
        assert UserInv(j, user);
      }
    }
  }

  lemma {:induction false} StepKeepsInv(j: Traffic, step: Step)
    requires Inv(j) && Enabled(j, step)
    ensures Inv(Apply(j, step))
  {
    match step
    case Table(_, _, _, _) => TableKeepsInv(j, step);
    case Within(p, poolStep) => WithinKeepsInv(j, p, poolStep, Apply(j, step));
    case ShutDown(p, u) => WithinKeepsInv(j, p, P.Spawn(u, P.Await(P.Shutdown)), Apply(j, step));
    case Drop(_, _) => DropKeepsInv(j, step);
  }

  lemma {:induction false} RunKeepsInv(run: seq<Traffic>, i: nat)
    requires IsRun(run) && i < |run|
    ensures Inv(run[i])
  {
    if i == 0 {
      assert F.IsRun([F.INITIAL]) && [F.INITIAL][0] == F.INITIAL;
    } else {
      RunKeepsInv(run, i - 1);
      assert Next(run[i - 1], run[i - 1 + 1]);
      var step :| Enabled(run[i - 1], step) && run[i] == Apply(run[i - 1], step);
      StepKeepsInv(run[i - 1], step);
    }
  }

  lemma ReachableInv(j: Traffic)
    requires Reachable(j)
    ensures Inv(j)
  {
    var run: seq<Traffic> :| IsRun(run) && run[|run| - 1] == j;
    RunKeepsInv(run, |run| - 1);
  }

  lemma ReachableNext(j: Traffic, step: Step)
    requires Reachable(j) && Enabled(j, step)
    ensures Reachable(Apply(j, step))
  {
    var run: seq<Traffic> :| IsRun(run) && run[|run| - 1] == j;
    var longer := run + [Apply(j, step)];
    forall i | 0 <= i < |longer| - 1 ensures Next(longer[i], longer[i + 1]) {
      if i < |run| - 1 {
        assert Next(run[i], run[i + 1]);
      }
    }
    assert IsRun(longer) && longer[|longer| - 1] == Apply(j, step);
  }

  // ---- What holds of the pools in every run

  // No clear of the list came between a probe's take from, or return to, this pool and the other half.
  ghost predicate Undisturbed(table: F.SystemState, pool: PoolId) {
    forall i :: 0 <= i < |table.probeReturns| ==>
      var r := table.probeReturns[i]; r.issued == pool || r.to == Some(pool) ==> r.since == r.at
  }

  lemma LogExactlyWhenDisturbed(table: F.SystemState, pool: PoolId)
    requires F.Reachable(table)
    ensures !AnyInto(table.probeReturns, pool) && !AnyFrom(table.probeReturns, pool) <==> Undisturbed(table, pool)
  {
    forall i: nat | i < |table.probeReturns|
      ensures var r := table.probeReturns[i];
              StraysInto(r, pool) || StraysFrom(r, pool)
              <==> (r.issued == pool || r.to == Some(pool)) && r.since != r.at
    {
      FT.ReturnsGoHome(table, i);
    }
    if !AnyInto(table.probeReturns, pool) && !AnyFrom(table.probeReturns, pool) {
      forall i | 0 <= i < |table.probeReturns|
        ensures var r := table.probeReturns[i]; r.issued == pool || r.to == Some(pool) ==> r.since == r.at
      {
        assert !StraysInto(table.probeReturns[i], pool) && !StraysFrom(table.probeReturns[i], pool);
      }
    }
  }

  // A pool has had nothing foreign and lost nothing exactly when the list was never cleared under a
  // probe of it; unless a dropped probe had a task in it.
  lemma StraysExactlyWhenDisturbed(j: Traffic, p: PoolId)
    requires Reachable(j) && p in j.pools && p !in j.cut
    ensures !PT.HasForeign(j.pools[p].births) && j.pools[p].away == {} <==> Undisturbed(j.table, p)
  {
    ReachableInv(j);
    LogExactlyWhenDisturbed(j.table, p);
  }

  // As long as no probe has panicked, none was dropped.
  lemma CutNeedsPanic(j: Traffic)
    requires Reachable(j)
    ensures j.cut != {} ==> AnyPanicked(j.table)
  {
    ReachableInv(j);
  }

  // So a pool whose probes are neither disturbed nor dropped keeps all it promises: its connections
  // add up, and whoever sleeps has a true loop condition.
  lemma UndisturbedPoolIsSound(j: Traffic, p: PoolId)
    requires Reachable(j) && p in j.pools
    requires Undisturbed(j.table, p) && p !in j.cut
    ensures var s := j.pools[p];
            && P.Reachable(s) && PT.AllHome(s)
            && (s.filled ==> |s.q.queue| + |PI.Outstanding(s)| == s.q.size)
            && (s.mutex == None ==>
                  forall t :: t in s.tasks && s.tasks[t].Asleep? ==> P.MustWait(s.tasks[t].purpose, s.q))
  {
    var s := j.pools[p];
    ReachableInv(j);
    StraysExactlyWhenDisturbed(j, p);
    PT.NoTrafficMeansAllHome(s);
    PT.Conservation(s);
    if s.mutex == None {
      forall t | t in s.tasks && s.tasks[t].Asleep? ensures P.MustWait(s.tasks[t].purpose, s.q) {
        PT.NoLostWakeup(s, t);
      }
    }
  }

  // Two logins at their operations never have the same connection of a pool.
  lemma NoSharedConnection(j: Traffic, t: TaskId, u: TaskId)
    requires Reachable(j) && t in j.table.logins && u in j.table.logins && t != u
    requires j.table.logins[t].pc.Operating? && j.table.logins[u].pc.Operating?
    requires j.table.logins[t].pc.pool == j.table.logins[u].pc.pool && j.table.logins[t].pc.pool !in j.cut
    ensures HasConnection(j, ByLogin(t)) && HasConnection(j, ByLogin(u))
    ensures TaskOf(j, ByLogin(t)).value.handle.conn != TaskOf(j, ByLogin(u)).value.handle.conn
  {
    ReachableInv(j);
    var p := j.table.logins[t].pc.pool;
    LoginHasConnection(j, t);
    LoginHasConnection(j, u);
    assert Fits(j.pools[p], j.table.probeReturns, p);
    HoldersDiffer(j.pools[p], j.hands[ByLogin(t)].task, j.hands[ByLogin(u)].task);
  }

  lemma LoginHasConnection(j: Traffic, t: TaskId)
    requires Inv(j) && t in j.table.logins && j.table.logins[t].pc.Operating?
    ensures ByLogin(t) in j.hands && j.hands[ByLogin(t)].pool == j.table.logins[t].pc.pool
    ensures HasConnection(j, ByLogin(t))
  {
    assert UserInv(j, ByLogin(t));
  }

  lemma HoldersDiffer(s: P.PoolState, a: P.TaskId, b: P.TaskId)
    requires P.Reachable(s) && a in s.tasks && b in s.tasks && a != b
    requires s.tasks[a].Holding? && s.tasks[b].Holding?
    ensures s.tasks[a].handle.conn != s.tasks[b].handle.conn
  {
    PT.ReachableInv(s);
    assert PI.Holds(s, a, s.tasks[a].handle.conn) && PI.Holds(s, b, s.tasks[b].handle.conn);
  }

  lemma {:induction false} FreshTask(tasks: set<P.TaskId>) returns (u: P.TaskId)
    ensures forall t :: t in tasks ==> t < u
  {
    if tasks == {} {
      u := 0;
    } else {
      var t :| t in tasks;
      var v := FreshTask(tasks - {t});
      assert forall x :: x in tasks ==> x == t || x in tasks - {t};
      u := if v <= t then t + 1 else v;
    }
  }

  // No pool holds up a lookup, nor the return of a connection: the steps of the table that call a
  // pool are enabled here whenever they are in the table's own system.
  lemma CallsAreNotHeldUp(j: Traffic, fstep: F.Step) returns (u: P.TaskId)
    requires Reachable(j) && F.Enabled(j.table, fstep)
    requires fstep.FindServer? || fstep.ProbeTake? || fstep.ProbeLookup? || fstep.ProbeReturn?
    requires !fstep.FindServer? ==> fstep.t !in j.dropped
    requires fstep.ProbeReturn? ==> HasConnection(j, ByProbe(fstep.t))
    ensures Enabled(j, Table(fstep, u, ConnectionSettings(0, ""), 0))
  {
    var to := if fstep.FindServer? then LookedUp(j.table) else PoolAt(j.table, j.table.probes[fstep.t].copy.server.id);
    u := 0;
    if to.Some? {
      PoolsOfTableExist(j, to.value);
      u := FreshTask(j.pools[to.value].tasks.Keys);
    }
    if fstep.ProbeReturn? {
      var hand := j.hands[ByProbe(fstep.t)];
      assert CanMove(j.pools, hand.pool, P.StrayOut(hand.task));
      assert CanMove(j.pools, hand.pool, P.BeginReturn(hand.task));
    }
  }

  lemma PoolsOfTableExist(j: Traffic, p: PoolId)
    requires Reachable(j) && p in j.table.pools
    ensures p in j.pools
  {
    ReachableInv(j);
    FT.ReachableInv(j.table);
  }

  // ---- Shutdowns

  // Only pools that have been shut are shutting down, each by one task, and none of them is in the table.
  ghost predicate ShutInv(j: Traffic) {
    && (forall p :: p in j.shut ==> p in j.pools && p !in j.table.pools)
    && (forall p :: p in j.pools ==> OneShutdown(j.pools[p], p in j.shut))
  }

  ghost predicate OneShutdown(s: P.PoolState, shut: bool) {
    && (forall t :: t in s.tasks && PT.ShuttingDown(s.tasks[t]) ==> shut)
    && (forall t, u | t in s.tasks && u in s.tasks ::
          PT.ShuttingDown(s.tasks[t]) && PT.ShuttingDown(s.tasks[u]) ==> t == u)
  }

  lemma ShuttingDownAfter(s: P.PoolState, step: P.Step, t: P.TaskId)
    requires P.Enabled(s, step) && t in P.Apply(s, step).tasks && PT.ShuttingDown(P.Apply(s, step).tasks[t])
    ensures (t in s.tasks && PT.ShuttingDown(s.tasks[t])) || step == P.Spawn(t, P.Await(P.Shutdown))
  {
  }

  lemma StepKeepsOneShutdown(s: P.PoolState, step: P.Step, shut: bool)
    requires OneShutdown(s, shut) && P.Enabled(s, step)
    requires !(step.Spawn? && step.op == P.Await(P.Shutdown))
    ensures OneShutdown(P.Apply(s, step), shut)
  {
    var s' := P.Apply(s, step);
    forall t | t in s'.tasks && PT.ShuttingDown(s'.tasks[t]) ensures t in s.tasks && PT.ShuttingDown(s.tasks[t]) {
      ShuttingDownAfter(s, step, t);
    }
  }

  lemma MovesSpawnNoShutdown(j: Traffic, step: Step, p: PoolId)
    requires step.Table? && Enabled(j, step)
    ensures match StepIn(MovesOf(j, step), p) case Some(Spawn(_, op)) => op != P.Await(P.Shutdown) case _ => true
  {
  }

  lemma TablePoolsAfter(table: F.SystemState, fstep: F.Step)
    requires F.Enabled(table, fstep)
    ensures forall p :: p in F.Apply(table, fstep).pools ==> p in table.pools || (fstep.EndAdd? && p == table.nextPool)
  {
    if F.IsLoginStep(fstep) {
      FT.LoginStepKeepsTable(table, fstep);
    } else if !F.IsConfigStep(fstep) {
      FT.ProbeStepKeepsTable(table, fstep);
    }
  }

  lemma TableKeepsShutInv(j: Traffic, step: Step)
    requires Inv(j) && ShutInv(j) && step.Table? && Enabled(j, step)
    ensures ShutInv(Apply(j, step))
  {
    var j' := Apply(j, step);
    TablePoolsAfter(j.table, step.step);
    forall p | p in j'.shut ensures p in j'.pools && p !in j'.table.pools {
      PoolsAfter(j, step, p);
    }
    forall p | p in j'.pools ensures OneShutdown(j'.pools[p], p in j'.shut) {
      if p in j.pools {
        PoolsAfterMoves(j, step, p);
        MovesMade(j.pools, MovesOf(j, step), p);
        MovesSpawnNoShutdown(j, step, p);
        if StepIn(MovesOf(j, step), p).Some? {
          StepKeepsOneShutdown(j.pools[p], StepIn(MovesOf(j, step), p).value, p in j.shut);
        }
      } else {
        MovesMade(j.pools, MovesOf(j, step), p);
        assert j'.pools[p].tasks == map[];
      }
    }
  }

  lemma FirstShutdown(s: P.PoolState, u: P.TaskId)
    requires OneShutdown(s, false) && P.Enabled(s, P.Spawn(u, P.Await(P.Shutdown)))
    ensures OneShutdown(P.Apply(s, P.Spawn(u, P.Await(P.Shutdown))), true)
  {
    var s' := P.Apply(s, P.Spawn(u, P.Await(P.Shutdown)));
    forall t | t in s'.tasks && PT.ShuttingDown(s'.tasks[t]) ensures t == u {
      ShuttingDownAfter(s, P.Spawn(u, P.Await(P.Shutdown)), t);
    }
  }

  lemma DropKeepsOneShutdown(s: P.PoolState, t: P.TaskId, point: Point, shut: bool)
    requires OneShutdown(s, shut) && t in s.tasks && CanBeDropped(s, t, point)
    ensures OneShutdown(AfterDrop(s, t, point), shut)
  {
    DroppedTask(s, t, point);
  }

  lemma PoolChangeKeepsShutInv(j: Traffic, j': Traffic, p: PoolId)
    requires ShutInv(j) && PoolChanges(j, j', p) && j'.shut <= j.shut + {p}
    requires OneShutdown(j'.pools[p], p in j'.shut)
    requires j.shut <= j'.shut && (p in j'.shut ==> p !in j.table.pools)
    ensures ShutInv(j')
  {
    forall q | q in j'.pools ensures OneShutdown(j'.pools[q], q in j'.shut) {
      assert q != p ==> OneShutdown(j.pools[q], q in j.shut);
    }
  }

  lemma StepKeepsShutInv(j: Traffic, step: Step)
    requires Inv(j) && ShutInv(j) && Enabled(j, step)
    ensures ShutInv(Apply(j, step))
  {
    var j' := Apply(j, step);
    match step
    case Table(_, _, _, _) =>
      TableKeepsShutInv(j, step);
    case Within(p, poolStep) =>
      StepKeepsOneShutdown(j.pools[p], poolStep, p in j.shut);
      PoolChangeKeepsShutInv(j, j', p);
    case ShutDown(p, u) =>
      FirstShutdown(j.pools[p], u);
      PoolChangeKeepsShutInv(j, j', p);
    case Drop(t, point) =>
      if HasTask(j, t) {
        var hand := j.hands[ByProbe(t)];
        DropKeepsOneShutdown(j.pools[hand.pool], hand.task, point, hand.pool in j.shut);
        PoolChangeKeepsShutInv(j, j', hand.pool);
      }
  }

  lemma {:induction false} RunKeepsShutInv(run: seq<Traffic>, i: nat)
    requires IsRun(run) && i < |run|
    ensures ShutInv(run[i])
  {
    if i > 0 {
      RunKeepsShutInv(run, i - 1);
      RunKeepsInv(run, i - 1);
      assert Next(run[i - 1], run[i - 1 + 1]);
      var step :| Enabled(run[i - 1], step) && run[i] == Apply(run[i - 1], step);
      StepKeepsShutInv(run[i - 1], step);
    }
  }

  // In every run a pool that is being shut down has left the table, and one task does it; so the
  // shutdown of a pool has no other shutdown as a rival.
  lemma ShutdownIsLoneAndLate(j: Traffic, p: PoolId, t: P.TaskId)
    requires Reachable(j) && p in j.pools && t in j.pools[p].tasks && PT.ShuttingDown(j.pools[p].tasks[t])
    ensures p !in j.table.pools
    ensures forall u :: u in j.pools[p].tasks && PT.ShuttingDown(j.pools[p].tasks[u]) ==> u == t
  {
    var run: seq<Traffic> :| IsRun(run) && run[|run| - 1] == j;
    RunKeepsShutInv(run, |run| - 1);
    assert OneShutdown(j.pools[p], p in j.shut);
  }

  // So in every run, the shutdown of a filled pool whose probes are neither disturbed nor dropped
  // can complete, from wherever it stands and whoever has the mutex.
  lemma UndisturbedShutdownCanComplete(j: Traffic, p: PoolId, t: P.TaskId) returns (s': P.PoolState)
    requires Reachable(j) && p in j.pools && Undisturbed(j.table, p) && p !in j.cut && j.pools[p].filled
    requires t in j.pools[p].tasks && PT.ShuttingDown(j.pools[p].tasks[t])
    ensures P.Reachable(s') && PT.Leads(j.pools[p], s') && PT.ShutDown(s', t)
  {
    var s := j.pools[p];
    UndisturbedPoolIsSound(j, p);
    StraysExactlyWhenDisturbed(j, p);
    ShutdownIsLoneAndLate(j, p, t);
    PT.ReachableInv(s);
    forall u | u in s.tasks && s.tasks[u].Locked? ensures !s.tasks[u].op.HandIn? {
      assert PI.HandleBorn(s.births, s.tasks[u]);
    }
    PT.AllHomeCanShutDown(s, t);
    s' := PT.ShutdownCanComplete(s, t);
  }

  // ---- Statuses and pools

  lemma ResetTells(s: P.PoolState, t: P.TaskId, built: nat)
    requires P.Enabled(s, P.Reset(t, built))
    ensures var s' := P.Apply(s, P.Reset(t, built));
            && (s'.filled <==> built == s.tasks[t].op.settings.connectionPoolSize)
            && (s'.filled <==> |s'.q.queue| == s'.q.size) && s'.q.size == s.tasks[t].op.settings.connectionPoolSize
  {
  }

  lemma ResettingStep(j: Traffic, step: Step)
    requires step.Table? && step.step.ProbeReset? && Enabled(j, step) && UserInv(j, ByProbe(step.step.t))
    ensures var p := j.table.probes[step.step.t].pool;
            var t := j.hands[ByProbe(step.step.t)].task;
            && CanMove(j.pools, p, P.Reset(t, step.built))
            && Apply(j, step).pools == j.pools[p := P.Apply(j.pools[p], P.Reset(t, step.built))]
            && (step.step.failure.None? <==> step.built == j.pools[p].tasks[t].op.settings.connectionPoolSize)
  {
  }

  // The status that a probe has after a refresh tells whether the pool it refreshed is filled, and
  // so does that of a server that comes into the list.
  lemma RefreshTellsOfItsPool(j: Traffic, step: Step)
    requires Reachable(j) && step.Table? && step.step.ProbeReset? && Enabled(j, step)
    ensures var j' := Apply(j, step);
            var p := j.table.probes[step.step.t].pool;
            && p in j'.pools && (j'.pools[p].filled <==> |j'.pools[p].q.queue| == j'.pools[p].q.size)
            && step.step.t in j'.table.probes && j'.table.probes[step.step.t].Updating?
            && (j'.pools[p].filled <==> j'.table.probes[step.step.t].status == Healthy)
  {
    ReachableInv(j);
    var probe := j.table.probes[step.step.t];
    assert UserInv(j, ByProbe(step.step.t));
    ResettingStep(j, step);
    ResetTells(j.pools[probe.pool], j.hands[ByProbe(step.step.t)].task, step.built);
    FT.AfterRefresh(j.table, step.step.t, step.step.failure);
  }

  lemma AdditionTellsOfItsPool(j: Traffic, step: Step)
    requires Reachable(j) && step.Table? && step.step.EndAdd? && Enabled(j, step)
    ensures var j' := Apply(j, step);
            var n := |j.table.servers|;
            && |j'.table.servers| == |j'.table.pools| == n + 1 && j'.table.pools[n] in j'.pools
            && (j'.pools[j'.table.pools[n]].filled <==> j'.table.servers[n].status == Healthy)
  {
    ReachableInv(j);
    FT.TableFollowsConfiguration(j.table);
    FT.AddedServerStatus(j.table, step.step.failure);
  }

  // ---- Drops

  // What a refresh leaves behind that is stopped at a connection: while closing, connections that
  // are closed and still queued, in the old epoch; while opening, those it has opened, in the new one.
  lemma InterruptedRefresh(s: P.PoolState, t: P.TaskId, point: Point)
    requires P.Reachable(s) && t in s.tasks && s.tasks[t].Locked? && CanBeDropped(s, t, point)
    ensures var s' := AfterDrop(s, t, point);
            && s'.mutex == None
            && (point.Closing? ==>
                  && s'.q == s.q && s'.closeLog == s.closeLog + s.q.queue[..point.n]
                  && forall k :: 0 <= k < point.n ==> s'.q.queue[k] in s'.closeLog)
            && (point.Opening? ==>
                  && |s'.q.queue| == point.n < s'.q.size && s'.q.epoch == s.q.epoch + 1
                  && s'.closeLog == s.closeLog + s.q.queue
                  && forall k :: 0 <= k < point.n ==> s'.q.queue[k] >= |s.births|)
  {
    PT.ReachableInv(s);
    if point.Closing? {
      forall k | 0 <= k < point.n ensures s.q.queue[k] in AfterDrop(s, t, point).closeLog {
        assert s.q.queue[k] == s.q.queue[..point.n][k];
      }
    }
  }

  // A dropped task loses its connection: it is in no queue and with no task, and is not closed.
  lemma DropLosesConnection(s: P.PoolState, t: P.TaskId, point: Point)
    requires P.Reachable(s) && t in s.tasks && CanBeDropped(s, t, point) && PI.Held(s.tasks[t]).Some?
    ensures var s', c := AfterDrop(s, t, point), PI.Held(s.tasks[t]).value.conn;
            && c in s'.away && c !in s'.q.queue && c !in s'.closeLog && (forall u :: !PI.Holds(s', u, c))
            && s'.lost == s.lost + (if PI.HoldsCurrent(s.tasks[t], s.q.epoch) then 1 else 0)
  {
    PT.ReachableInv(s);
    var c := PI.Held(s.tasks[t]).value.conn;
    assert PI.Holds(s, t, c);
    forall u ensures !PI.Holds(AfterDrop(s, t, point), u, c) {
      assert u != t ==> (PI.Holds(AfterDrop(s, t, point), u, c) ==> PI.Holds(s, u, c));
    }
  }

  // A drop makes a sleeper's condition false with no notification to come exactly when it stops a
  // refresh that has opened some, but not all, of its connections, while a taker sleeps.
  lemma DropLosesWakeupExactlyWhen(s: P.PoolState, t: P.TaskId, point: Point, u: P.TaskId)
    requires t in s.tasks && CanBeDropped(s, t, point)
    requires u in s.tasks && u != t && s.tasks[u].Asleep? && P.MustWait(s.tasks[u].purpose, s.q)
    ensures var s' := AfterDrop(s, t, point);
            s'.tasks[u].Asleep? && !P.MustWait(s'.tasks[u].purpose, s'.q) && !PI.NotifierActive(s')
            <==> s.tasks[t].Locked? && point.Opening? && point.n > 0 && s.tasks[u].purpose == P.Take
  {
    DroppedTask(s, t, point);
  }
}
