/**
 What holds in every reachable state, and along every run, of a connection pool; with what
 connections gone astray do to it, and exactly when.
 */
module PoolTheorems {
  import opened Wrappers
  import opened ConnectionQueues
  import opened PoolProtocol
  import opened PoolInvariants

  lemma {:induction false} RunKeepsInv(run: seq<PoolState>, i: nat)
    requires IsRun(run) && i < |run|
    ensures Inv(run[i])
  {
    if i == 0 {
      var settings: ConnectionSettings, built: nat :|
        built <= settings.connectionPoolSize && run[0] == Init(settings, built);
      InitInv(settings, built);
    } else {
      RunKeepsInv(run, i - 1);
      assert Next(run[i - 1], run[i - 1 + 1]);
      var step :| Enabled(run[i - 1], step) && run[i] == Apply(run[i - 1], step);
      StepKeepsInv(run[i - 1], step);
    }
  }

  lemma ReachableInv(s: PoolState)
    requires Reachable(s)
    ensures Inv(s)
  {
    var run: seq<PoolState> :| IsRun(run) && run[|run| - 1] == s;
    RunKeepsInv(run, |run| - 1);
  }

  lemma ReachableNext(s: PoolState, step: Step)
    requires Reachable(s) && Enabled(s, step)
    ensures Reachable(Apply(s, step))
  {
    var run: seq<PoolState> :| IsRun(run) && run[|run| - 1] == s;
    var longer := run + [Apply(s, step)];
    forall i | 0 <= i < |longer| - 1 ensures Next(longer[i], longer[i + 1]) {
      if i < |run| - 1 {
        assert Next(run[i], run[i + 1]);
      }
    }
    assert IsRun(longer) && longer[|longer| - 1] == Apply(s, step);
  }

  // ---- Strays and losses

  // Since the most recent reset, no connection of another pool came in and none of this one left.
  predicate AllHome(s: PoolState) {
    s.strayed == 0 && s.lost == 0
  }

  ghost predicate HasForeign(births: seq<Birth>) {
    exists c: ConnId :: c < |births| && births[c].Foreign?
  }

  // What was put in had come from elsewhere, and what was lost went away.
  ghost predicate StrayInv(s: PoolState) {
    (s.strayed > 0 ==> HasForeign(s.births)) && (s.lost > 0 ==> s.away != {})
  }

  lemma StepKeepsStrayInv(s: PoolState, step: Step)
    requires BirthInv(s) && StrayInv(s) && Enabled(s, step)
    ensures StrayInv(Apply(s, step))
  {
    var s' := Apply(s, step);
    if step.PutBack? && s.tasks[step.t].op.HandIn? {
      assert HandleBorn(s.births, s.tasks[step.t]);
      assert s'.births[s.tasks[step.t].op.handle.conn].Foreign?;
    } else if HasForeign(s.births) {
      var c: ConnId :| c < |s.births| && s.births[c].Foreign?;
      assert s'.births[c].Foreign?;
    }
  }

  lemma {:induction false} RunKeepsStrayInv(run: seq<PoolState>, i: nat)
    requires IsRun(run) && i < |run|
    ensures StrayInv(run[i])
  {
    if i > 0 {
      RunKeepsStrayInv(run, i - 1);
      RunKeepsInv(run, i - 1);
      assert Next(run[i - 1], run[i - 1 + 1]);
      var step :| Enabled(run[i - 1], step) && run[i] == Apply(run[i - 1], step);
      StepKeepsStrayInv(run[i - 1], step);
    }
  }

  // A pool to which no foreign connection came and from which none went away has all at home.
  lemma NoTrafficMeansAllHome(s: PoolState)
    requires Reachable(s)
    ensures !HasForeign(s.births) && s.away == {} ==> AllHome(s)
  {
    var run: seq<PoolState> :| IsRun(run) && run[|run| - 1] == s;
    RunKeepsStrayInv(run, |run| - 1);
  }

  // ---- Conservation and ownership

  // Queued and outstanding connections are those the pool built, plus what strayed in, less what
  // was lost.  They add up to the size exactly when as many strayed in as were lost.
  lemma Conservation(s: PoolState)
    requires Reachable(s)
    ensures |s.q.queue| + |Outstanding(s)| + s.lost == s.stock + s.strayed
    ensures s.filled ==> s.stock == s.q.size
    ensures s.filled ==> (|s.q.queue| + |Outstanding(s)| == s.q.size <==> s.strayed == s.lost)
    ensures !s.filled && AllHome(s) ==> |s.q.queue| + |Outstanding(s)| == 0
    ensures s.strayed <= s.lost ==> |s.q.queue| + |Outstanding(s)| <= s.q.size
  {
    ReachableInv(s);
  }

  ghost function Holders(s: PoolState, c: ConnId): set<TaskId> {
    set t | t in s.tasks && Holds(s, t, c)
  }

  lemma {:induction false} DistinctCount(ids: seq<ConnId>, c: ConnId)
    requires Distinct(ids)
    ensures multiset(ids)[c] == if c in ids then 1 else 0
  {
    if ids != [] {
      var last := |ids| - 1;
      assert ids == ids[..last] + [ids[last]];
      DistinctCount(ids[..last], c);
    }
  }

  // Every connection that was ever here is exactly once queued, held by a task, closed or away.
  lemma ExactlyOnePlace(s: PoolState, c: ConnId)
    requires Reachable(s) && c < |s.births|
    ensures multiset(s.q.queue)[c] + |Holders(s, c)| + multiset(s.closeLog)[c] + (if c in s.away then 1 else 0) == 1
  {
    ReachableInv(s);
    assert Placed(s, c);
    DistinctCount(s.q.queue, c);
    DistinctCount(s.closeLog, c);
    if t: TaskId :| Holds(s, t, c) {
      assert Holders(s, c) == {t};
    } else {
      assert Holders(s, c) == {};
    }
  }

  // Connections leave in the order they came, and each came to the pool in the current epoch: it
  // was built by the latest reset, unless it strayed in.
  lemma TakeIsFreshAndFair(s: PoolState, t: TaskId)
    requires Reachable(s) && Enabled(s, TakeOut(t))
    ensures s.departures < |s.arrivals|
    ensures var c := s.arrivals[s.departures];
            && Apply(s, TakeOut(t)).tasks[t] == Holding(Handle(c, s.q.epoch))
            && c < |s.births| && c !in s.closeLog && c !in s.away
            && s.births[c] == (if s.births[c].Home? then Home(s.q.epoch, s.settings) else Foreign(s.q.epoch))
            && (s.strayed == 0 ==> s.births[c].Home?)
  {
    ReachableInv(s);
    var last := |s.q.queue| - 1;
    assert s.q.queue[last] == s.arrivals[s.departures];
    assert Current(s, s.q.queue[last]);
  }

  lemma RefillFills(s: PoolState, settings: ConnectionSettings)
    ensures var n := settings.connectionPoolSize;
            var s' := AfterRefill(s, settings, n);
            && |s'.q.queue| == s'.q.size == n && s'.q.epoch == s.q.epoch + 1 && s'.filled
            && |s'.births| == |s.births| + n
            && (forall k :: 0 <= k < n ==> s'.q.queue[k] == |s.births| + n - 1 - k)
            && (forall c :: |s.births| <= c < |s'.births| ==> s'.births[c] == Home(s'.q.epoch, settings))
            && s'.closeLog == s.closeLog + s.q.queue
  {
  }

  // A refresh that builds all its connections fills the queue with them and nothing else, in the
  // order in which they were built, closes what was queued before, and goes on to notify.
  lemma SuccessfulResetFills(s: PoolState, t: TaskId)
    requires Reachable(s) && t in s.tasks && s.tasks[t].Locked? && s.tasks[t].op.Refresh?
    ensures var settings := s.tasks[t].op.settings;
            var n := settings.connectionPoolSize;
            var s' := Apply(s, Reset(t, n));
            && |s'.q.queue| == s'.q.size == n && s'.q.epoch == s.q.epoch + 1 && s'.filled && NotifierActive(s')
            && |s'.births| == |s.births| + n
            && (forall k :: 0 <= k < n ==> s'.q.queue[k] == |s.births| + n - 1 - k)
            && (forall c :: |s.births| <= c < |s'.births| ==> s'.births[c] == Home(s'.q.epoch, settings))
            && s'.closeLog == s.closeLog + s.q.queue
  {
    RefillFills(s, s.tasks[t].op.settings);
    ResetEndsNotifying(s, t);
  }

  lemma ResetEndsNotifying(s: PoolState, t: TaskId)
    requires Reachable(s) && t in s.tasks && s.tasks[t].Locked? && s.tasks[t].op.Refresh?
    ensures var settings := s.tasks[t].op.settings;
            var s' := Apply(s, Reset(t, settings.connectionPoolSize));
            && NotifierActive(s')
            && s' == AfterRefill(s, settings, settings.connectionPoolSize).(tasks := s.tasks[t := Notifying])
  {
    ReachableInv(s);
  }

  // A partly built pool is closed again in full.
  lemma FailedResetClosesAll(s: PoolState, t: TaskId, built: nat, c: ConnId)
    requires Reachable(s) && Enabled(s, Reset(t, built)) && built < s.tasks[t].op.settings.connectionPoolSize
    requires c in s.q.queue || |s.births| <= c < |s.births| + built
    ensures var s' := Apply(s, Reset(t, built));
            s'.q.queue == [] && |s'.births| == |s.births| + built && multiset(s'.closeLog)[c] == 1
  {
    var s' := Apply(s, Reset(t, built));
    var batch := Batch(|s.births|, built);
    if c !in s.q.queue {
      assert batch[|s.births| + built - 1 - c] == c;
    }
    assert s'.closeLog == s.closeLog + (s.q.queue + batch);
    assert c in s.q.queue + batch;
    ReachableInv(s);
    StepKeepsUniqueInv(s, Reset(t, built));
    DistinctCount(s'.closeLog, c);
  }

  // And nobody is told: the mutex is free, and every other task stands where it stood.
  lemma FailedResetIsSilent(s: PoolState, t: TaskId, built: nat)
    requires Enabled(s, Reset(t, built)) && built < s.tasks[t].op.settings.connectionPoolSize
    ensures var s' := Apply(s, Reset(t, built));
            && s'.mutex == None && !NotifierActive(s') && !s'.filled && s'.tasks[t].Finished?
            && forall u :: u in s.tasks && u != t ==> s'.tasks[u] == s.tasks[u]
  {
  }

  // What lets a shutdown through: as many connections strayed in as are out or lost.
  lemma ShutdownGoesExactlyWhen(s: PoolState)
    requires Reachable(s) && s.filled
    ensures !MustWait(Shutdown, s.q) <==> |Outstanding(s)| + s.lost == s.strayed
    ensures AllHome(s) ==> (!MustWait(Shutdown, s.q) <==> Outstanding(s) == {})
  {
    ReachableInv(s);
  }

  // A completed shutdown of a filled pool leaves no connection of the current epoch outstanding
  // exactly when strays and losses balance; when nothing strayed in, all of that epoch are closed.
  lemma ShutdownClosesEpoch(s: PoolState, t: TaskId)
    requires Reachable(s) && Enabled(s, CloseAll(t))
    ensures var s' := Apply(s, CloseAll(t));
            && s'.q.queue == []
            && (s.filled ==> (Outstanding(s') == {} <==> s.strayed == s.lost))
            && (s.strayed == 0 ==>
                  && Outstanding(s') == {}
                  && forall c :: 0 <= c < |s'.births| && s'.births[c] == Home(s'.q.epoch, s'.settings) ==>
                                   c in s'.closeLog)
  {
    var s' := Apply(s, CloseAll(t));
    ReachableInv(s);
    ReachableNext(s, CloseAll(t));
    ReachableInv(s');
    OutstandingAfter(s, CloseAll(t));
    if s.strayed == 0 {
      forall c | 0 <= c < |s'.births| && s'.births[c] == Home(s'.q.epoch, s'.settings) ensures c in s'.closeLog {
        BuiltIsSomewhere(s', c);
      }
    }
  }

  // A connection built by the latest reset that is neither queued nor closed is lost or out.
  lemma BuiltIsSomewhere(s: PoolState, c: ConnId)
    requires Inv(s) && c < |s.births| && s.births[c] == Home(s.q.epoch, s.settings)
    ensures c in s.q.queue || c in s.closeLog || s.lost > 0 || Outstanding(s) != {}
  {
    assert Placed(s, c);
    if t: TaskId :| Holds(s, t, c) {
      assert HandleBorn(s.births, s.tasks[t]);
      assert t in Outstanding(s);
    }
  }

  // ---- Along a run

  lemma StepIsMonotone(s: PoolState, step: Step)
    requires Enabled(s, step)
    ensures s.closeLog <= Apply(s, step).closeLog && s.births <= Apply(s, step).births
    ensures Apply(s, step).q.epoch == if step.Reset? then s.q.epoch + 1 else s.q.epoch
  {
  }

  lemma {:induction false} RunIsMonotone(run: seq<PoolState>, i: nat, j: nat)
    requires IsRun(run) && i <= j < |run|
    ensures run[i].closeLog <= run[j].closeLog && run[i].births <= run[j].births
    ensures run[i].q.epoch <= run[j].q.epoch
    decreases j
  {
    if i < j {
      RunIsMonotone(run, i, j - 1);
      assert Next(run[j - 1], run[j - 1 + 1]);
      var step :| Enabled(run[j - 1], step) && run[j] == Apply(run[j - 1], step);
      StepIsMonotone(run[j - 1], step);
    }
  }

  // Once closed, a connection is never queued or held again.
  lemma ClosedStaysClosed(run: seq<PoolState>, i: nat, j: nat, c: ConnId)
    requires IsRun(run) && i <= j < |run| && c in run[i].closeLog
    ensures c !in run[j].q.queue && forall t :: !Holds(run[j], t, c)
  {
    RunIsMonotone(run, i, j);
    RunKeepsInv(run, j);
    assert run[i].closeLog == run[j].closeLog[..|run[i].closeLog|];
  }

  // A connection that a task has from before a refresh, taken here or handed in with an older
  // epoch, never enters the queue after it.
  lemma StaleNeverReenters(run: seq<PoolState>, i: nat, j: nat, k: nat, t: TaskId)
    requires IsRun(run) && i < j <= k < |run|
    requires t in run[i].tasks && Held(run[i].tasks[t]).Some?
    requires Held(run[i].tasks[t]).value.epoch < run[j].q.epoch
    ensures Held(run[i].tasks[t]).value.conn !in run[k].q.queue
  {
    var h := Held(run[i].tasks[t]).value;
    RunKeepsInv(run, i);
    RunKeepsInv(run, k);
    RunIsMonotone(run, i, k);
    RunIsMonotone(run, j, k);
    assert HandleBorn(run[i].births, run[i].tasks[t]);
    assert run[i].births[h.conn] == run[k].births[h.conn];
  }

  // ---- Waiting

  // A taker that sleeps has an empty queue; so a shutdown has a missing connection, unless
  // something strayed in.
  lemma NoLostWakeup(s: PoolState, t: TaskId)
    requires Reachable(s) && s.mutex == None
    requires t in s.tasks && s.tasks[t].Asleep?
    ensures s.tasks[t].purpose == Take || s.strayed == 0 ==> MustWait(s.tasks[t].purpose, s.q)
  {
    ReachableInv(s);
  }

  // The one step that makes a sleeper's condition false with no notification to come: a take from
  // a queue that is longer than the pool by one, while a shutdown sleeps.
  lemma WakeupLostExactlyWhen(s: PoolState, step: Step, u: TaskId)
    requires Reachable(s) && Enabled(s, step)
    requires u in s.tasks && s.tasks[u].Asleep? && MustWait(s.tasks[u].purpose, s.q)
    ensures var s' := Apply(s, step);
            s'.tasks[u].Asleep? && !MustWait(s'.tasks[u].purpose, s'.q) && !NotifierActive(s')
            <==> step.TakeOut? && s.tasks[u].purpose == Shutdown && |s.q.queue| == s.q.size + 1
    ensures |s.q.queue| > s.q.size ==> s.strayed > s.lost
  {
    ReachableInv(s);
  }

  // A sleeper waits for a connection that is out exactly when not all that the pool should have is
  // queued; with all at home, when the pool is filled and not of size 0.
  lemma BlockingJustified(s: PoolState, t: TaskId)
    requires Reachable(s) && s.mutex == None
    requires t in s.tasks && s.tasks[t].Asleep?
    ensures Outstanding(s) != {} <==> |s.q.queue| + s.lost < s.stock + s.strayed
    ensures AllHome(s) ==> (Outstanding(s) != {} <==> s.filled && s.q.size >= 1)
  {
    ReachableInv(s);
  }

  // Giving back a connection of the current epoch, and then notifying, leaves nobody asleep.
  lemma {:induction false} ReturnWakesEverySleeper(s: PoolState, t: TaskId)
    requires Reachable(s) && Enabled(s, PutBack(t))
    ensures var s1 := Apply(s, PutBack(t));
            && s1.q.queue != [] && Enabled(s1, NotifyAll(t))
            && var s2 := Apply(s1, NotifyAll(t));
            && s2.mutex == None
            && forall u :: u in s.tasks && s.tasks[u].Asleep? ==> s2.tasks[u] == Woken(s.tasks[u].purpose)
  {
  }

  // What somebody outside decides: that a new task arrives, or that a holder has done its work.
  predicate FromOutside(step: Step) {
    step.Spawn? || step.StrayIn? || step.BeginReturn? || step.StrayOut?
  }

  // Nothing else can happen.
  ghost predicate Quiescent(s: PoolState) {
    forall step :: Enabled(s, step) ==> FromOutside(step)
  }

  // The task in the critical section can always go on.
  lemma CriticalTaskMoves(s: PoolState, t: TaskId)
    requires MutexInv(s) && s.mutex == Some(t)
    ensures exists step :: Enabled(s, step) && !FromOutside(step)
  {
    var step := match s.tasks[t]
      case Registered(_) => Release(t)
      case Locked(Refresh(_)) => Reset(t, 0)
      case Locked(Return(h)) => if h.epoch == s.q.epoch then PutBack(t) else Discard(t)
      case Locked(HandIn(h)) => if h.epoch == s.q.epoch then PutBack(t) else Discard(t)
      case Locked(Await(Take)) => if MustWait(Take, s.q) then Register(t) else TakeOut(t)
      case Locked(Await(Shutdown)) => if MustWait(Shutdown, s.q) then Register(t) else CloseAll(t)
      case _ => NotifyAll(t);
    assert Enabled(s, step);
  }

  lemma QuiescentShape(s: PoolState)
    requires Reachable(s) && Quiescent(s)
    ensures s.mutex == None
    ensures forall t :: t in s.tasks ==> s.tasks[t].Asleep? || s.tasks[t].Holding? || s.tasks[t].Finished?
  {
    ReachableInv(s);
    if s.mutex.Some? {
      CriticalTaskMoves(s, s.mutex.value);
    } else {
      forall t | t in s.tasks ensures s.tasks[t].Asleep? || s.tasks[t].Holding? || s.tasks[t].Finished? {
        assert !Enabled(s, Acquire(t)) && !Enabled(s, Relock(t));
      }
    }
  }

  lemma RestIsQuiescent(s: PoolState)
    requires s.mutex == None
    requires forall t :: t in s.tasks ==> s.tasks[t].Asleep? || s.tasks[t].Holding? || s.tasks[t].Finished?
    ensures Quiescent(s)
  {
    forall step | Enabled(s, step) ensures FromOutside(step) {
      if !step.Spawn? && !step.StrayIn? {
        assert step.t in s.tasks;
      }
    }
  }

  // When nothing moves and somebody sleeps, a holder of a current connection is at work exactly
  // when not all that the pool should have is queued.  With all at home there is no deadlock.
  lemma RestingSleeperHasHolder(s: PoolState, t: TaskId)
    requires Reachable(s) && Quiescent(s)
    requires t in s.tasks && s.tasks[t].Asleep?
    ensures HasHolder(s) <==> |s.q.queue| + s.lost < s.stock + s.strayed
    ensures AllHome(s) && s.filled && s.q.size >= 1 ==> HasHolder(s)
  {
    QuiescentShape(s);
    BlockingJustified(s, t);
    forall u | u in Outstanding(s) ensures HasHolder(s) {
      assert s.tasks[u].Holding?;
    }
    if u :| u in s.tasks && s.tasks[u].Holding? && s.tasks[u].handle.epoch == s.q.epoch {
      assert u in Outstanding(s);
    }
  }

  ghost predicate HasHolder(s: PoolState) {
    exists u :: u in s.tasks && s.tasks[u].Holding? && s.tasks[u].handle.epoch == s.q.epoch
  }

  // ---- What can still happen

  // A run that the tasks that are there make from `s` to `s'`, if they get the mutex.
  ghost predicate Leads(s: PoolState, s': PoolState) {
    exists run: seq<PoolState> :: IsPath(run) && run[0] == s && run[|run| - 1] == s'
  }

  ghost predicate IsPath(run: seq<PoolState>) {
    run != [] && forall i :: 0 <= i < |run| - 1 ==> OwnStep(run[i], run[i + 1])
  }

  ghost predicate OwnStep(s: PoolState, s': PoolState) {
    exists step :: Enabled(s, step) && s' == Apply(s, step) && !step.Spawn? && !step.StrayIn? && !step.StrayOut?
  }

  lemma LeadsNowhere(s: PoolState)
    ensures Leads(s, s)
  {
    assert IsPath([s]) && [s][0] == s;
  }

  lemma LeadsNext(s: PoolState, m: PoolState, step: Step)
    requires Leads(s, m) && Enabled(m, step) && !step.Spawn? && !step.StrayIn? && !step.StrayOut?
    ensures Leads(s, Apply(m, step))
  {
    var run: seq<PoolState> :| IsPath(run) && run[0] == s && run[|run| - 1] == m;
    var longer := run + [Apply(m, step)];
    forall i | 0 <= i < |longer| - 1 ensures OwnStep(longer[i], longer[i + 1]) {
      if i < |run| - 1 {
        assert OwnStep(run[i], run[i + 1]);
      }
    }
    assert IsPath(longer) && longer[0] == s && longer[|longer| - 1] == Apply(m, step);
  }

  lemma {:induction false} LeadsReachable(s: PoolState, s': PoolState)
    requires Reachable(s) && Leads(s, s')
    ensures Reachable(s')
  {
    var run: seq<PoolState> :| IsPath(run) && run[0] == s && run[|run| - 1] == s';
    PathReachable(run, |run| - 1);
  }

  lemma {:induction false} PathReachable(run: seq<PoolState>, i: nat)
    requires IsPath(run) && Reachable(run[0]) && i < |run|
    ensures Reachable(run[i])
  {
    if i > 0 {
      PathReachable(run, i - 1);
      assert OwnStep(run[i - 1], run[i - 1 + 1]);
      var step :| Enabled(run[i - 1], step) && run[i] == Apply(run[i - 1], step);
      ReachableNext(run[i - 1], step);
    }
  }

  // What is left after `u` has handed back its connection: everybody else stands where they stood,
  // but for those it woke.
  predicate HandedBack(s: PoolState, s': PoolState, u: TaskId) {
    && u in s.tasks && Issued(s.tasks[u]).Some?
    && var h := Issued(s.tasks[u]).value;
       s' == s.(q := AfterPut(s.q, h.conn),
                tasks := (map v | v in s.tasks :: Awaken(s.tasks[v]))[u := Finished],
                arrivals := s.arrivals + [h.conn])
  }

  lemma PutBackEnds(s0: PoolState, s: PoolState, u: TaskId) returns (s': PoolState)
    requires Leads(s0, s) && s.mutex == None && u in s.tasks
    requires match s.tasks[u] case Acquiring(Return(h)) => h.epoch == s.q.epoch case _ => false
    ensures Leads(s0, s') && HandedBack(s, s', u)
  {
    var h := s.tasks[u].op.handle;
    var s1 := Apply(s, Acquire(u));
    LeadsNext(s0, s, Acquire(u));
    var s2 := Apply(s1, PutBack(u));
    LeadsNext(s0, s1, PutBack(u));
    assert s2 == s.(q := AfterPut(s.q, h.conn), mutex := Some(u), tasks := s.tasks[u := Notifying],
                    arrivals := s.arrivals + [h.conn]);
    s' := Apply(s2, NotifyAll(u));
    LeadsNext(s0, s2, NotifyAll(u));
    assert s'.tasks == (map v | v in s.tasks :: Awaken(s.tasks[v]))[u := Finished];
  }

  lemma HandedBackOutstanding(s: PoolState, s': PoolState, u: TaskId)
    requires HandedBack(s, s', u)
    ensures Outstanding(s') == Outstanding(s) - {u}
  {
    assert forall v :: v in s'.tasks && v != u ==> Issued(s'.tasks[v]) == Issued(s.tasks[v]);
  }

  lemma BegunIsHandedBack(s: PoolState, s': PoolState, u: TaskId)
    requires Enabled(s, BeginReturn(u)) && HandedBack(Apply(s, BeginReturn(u)), s', u)
    ensures HandedBack(s, s', u)
  {
    var s1 := Apply(s, BeginReturn(u));
    assert (map v | v in s1.tasks :: Awaken(s1.tasks[v]))[u := Finished]
        == (map v | v in s.tasks :: Awaken(s.tasks[v]))[u := Finished];
  }

  // Whoever has a current connection out can hand it back next.
  lemma HandBackEnds(s: PoolState, u: TaskId) returns (s': PoolState)
    requires Reachable(s) && s.mutex == None && u in Outstanding(s)
    ensures Leads(s, s') && HandedBack(s, s', u)
  {
    LeadsNowhere(s);
    if s.tasks[u].Holding? {
      var s1 := Apply(s, BeginReturn(u));
      LeadsNext(s, s, BeginReturn(u));
      s' := PutBackEnds(s, s1, u);
      BegunIsHandedBack(s, s', u);
    } else {
      ReachableInv(s);
      s' := PutBackEnds(s, s, u);
    }
  }

  // A woken taker that finds the queue not empty goes on.
  lemma WokenTakerGoesOn(s: PoolState, t: TaskId) returns (s': PoolState)
    requires s.mutex == None && t in s.tasks && s.tasks[t] == Woken(Take) && s.q.queue != []
    ensures s' == s.(q := AfterTake(s.q), departures := s.departures + 1,
                     tasks := s.tasks[t := Holding(Handle(s.q.queue[|s.q.queue| - 1], s.q.epoch))])
    ensures Leads(s, s')
  {
    LeadsNowhere(s);
    var s1 := Apply(s, Relock(t));
    LeadsNext(s, s, Relock(t));
    var s2 := Apply(s1, Acquire(t));
    LeadsNext(s, s1, Acquire(t));
    assert s2 == s.(mutex := Some(t), tasks := s.tasks[t := Locked(Await(Take))]);
    s' := Apply(s2, TakeOut(t));
    LeadsNext(s, s2, TakeOut(t));
    assert s'.tasks == s.tasks[t := Holding(Handle(s.q.queue[|s.q.queue| - 1], s.q.epoch))];
  }

  lemma LeadsOn(a: PoolState, b: PoolState, c: PoolState)
    requires Leads(a, b) && Leads(b, c)
    ensures Leads(a, c)
  {
    var first: seq<PoolState> :| IsPath(first) && first[0] == a && first[|first| - 1] == b;
    var second: seq<PoolState> :| IsPath(second) && second[0] == b && second[|second| - 1] == c;
    var run := first + second[1..];
    forall i | 0 <= i < |run| - 1 ensures OwnStep(run[i], run[i + 1]) {
      if i < |first| - 1 {
        assert OwnStep(first[i], first[i + 1]);
      } else {
        var k := i - (|first| - 1);
        assert OwnStep(second[k], second[k + 1]);
      }
    }
    assert IsPath(run) && run[0] == a && run[|run| - 1] == c;
  }

  // One hand-over is enough: a sleeping taker can get that very connection, with nobody else having
  // moved.
  lemma {:induction false} SleeperCanBeServed(s: PoolState, t: TaskId, u: TaskId) returns (s': PoolState)
    requires Reachable(s) && s.mutex == None
    requires t in s.tasks && s.tasks[t] == Asleep(Take) && u in Outstanding(s)
    ensures Reachable(s') && Leads(s, s')
    ensures t in s'.tasks && s'.tasks[t] == Holding(Issued(s.tasks[u]).value)
    ensures forall v :: v in s.tasks && v != t && v != u ==> v in s'.tasks && s'.tasks[v] == Awaken(s.tasks[v])
  {
    NoLostWakeup(s, t);
    var back := HandBackEnds(s, u);
    assert back.tasks[t] == Woken(Take);
    assert back.q.queue == [Issued(s.tasks[u]).value.conn];
    s' := WokenTakerGoesOn(back, t);
    LeadsOn(s, back, s');
    LeadsReachable(s, s');
  }

  // A shutdown that has not returned, wherever it stands.
  predicate ShuttingDown(task: Task) {
    match task
    case Acquiring(op) => op == Await(Shutdown)
    case Locked(op) => op == Await(Shutdown)
    case Registered(purpose) => purpose == Shutdown
    case Asleep(purpose) => purpose == Shutdown
    case Woken(purpose) => purpose == Shutdown
    case _ => false
  }

  // Nobody but `t` is about to close the queue, nor to put a foreign connection into it.
  predicate NoRival(s: PoolState, t: TaskId) {
    forall u :: u in s.tasks && u != t && s.tasks[u].Locked? ==>
      && s.tasks[u].op != Await(Shutdown)
      && (s.tasks[u].op.HandIn? ==> s.tasks[u].op.handle.epoch != s.q.epoch)
  }

  // What a shutdown needs in order to complete: strays and losses balance, and if it sleeps, its
  // condition is true or it is about to be notified.
  ghost predicate CanShutDown(s: PoolState, t: TaskId) {
    && Reachable(s) && s.filled && s.strayed == s.lost && NoRival(s, t)
    && t in s.tasks && ShuttingDown(s.tasks[t])
    && (s.tasks[t].Asleep? ==> MustWait(Shutdown, s.q) || NotifierActive(s))
  }

  lemma AllHomeCanShutDown(s: PoolState, t: TaskId)
    requires Reachable(s) && s.filled && AllHome(s) && NoRival(s, t)
    requires t in s.tasks && ShuttingDown(s.tasks[t])
    ensures CanShutDown(s, t)
  {
    ReachableInv(s);
  }

  predicate ShutDown(s: PoolState, t: TaskId) {
    t in s.tasks && s.tasks[t].Finished? && s.q.queue == [] && Outstanding(s) == {}
  }

  // What the holder of the mutex does next; a refresh opens all its connections.
  function CriticalStep(s: PoolState, u: TaskId): Step
    requires u in s.tasks
  {
    match s.tasks[u]
    case Registered(_) => Release(u)
    case Locked(Refresh(settings)) => Reset(u, settings.connectionPoolSize)
    case Locked(Await(purpose)) =>
      if MustWait(purpose, s.q) then Register(u) else if purpose == Take then TakeOut(u) else CloseAll(u)
    case Locked(op) => if op.handle.epoch == s.q.epoch then PutBack(u) else Discard(u)
    case _ => NotifyAll(u)
  }

  // The holder of the mutex goes on, unless it is the shutdown itself about to end.
  predicate GoesOn(s: PoolState, t: TaskId, u: TaskId) {
    && u in s.tasks && InCritical(s.tasks[u]) && s.mutex == Some(u)
    && t in s.tasks && !(u == t && s.tasks[t].Locked? && !MustWait(Shutdown, s.q))
  }

  lemma CriticalStepFrees(s: PoolState, t: TaskId, u: TaskId)
    requires GoesOn(s, t, u)
    ensures Enabled(s, CriticalStep(s, u))
    ensures var s' := Apply(s, CriticalStep(s, u));
            s'.mutex == None || (s.tasks[u].Locked? && s'.mutex == Some(u) && !s'.tasks[u].Locked?)
  {
  }

  lemma CriticalStepKeepsBalance(s: PoolState, t: TaskId, u: TaskId)
    requires GoesOn(s, t, u) && Enabled(s, CriticalStep(s, u)) && MutexInv(s)
    requires s.filled && s.strayed == s.lost && NoRival(s, t) && ShuttingDown(s.tasks[t])
    ensures var s' := Apply(s, CriticalStep(s, u));
            s'.filled && s'.strayed == s'.lost && NoRival(s', t)
  {
    var s' := Apply(s, CriticalStep(s, u));
    assert forall v :: v in s'.tasks && s'.tasks[v].Locked? ==> v in s.tasks && s.tasks[v].Locked? && v != u;
  }

  lemma CriticalStepKeepsShutdown(s: PoolState, t: TaskId, u: TaskId)
    requires GoesOn(s, t, u) && Enabled(s, CriticalStep(s, u)) && MutexInv(s) && WakeInv(s)
    requires ShuttingDown(s.tasks[t]) && (s.tasks[t].Asleep? ==> MustWait(Shutdown, s.q) || NotifierActive(s))
    requires |s.q.queue| <= s.q.size
    ensures var s' := Apply(s, CriticalStep(s, u));
            && t in s'.tasks && ShuttingDown(s'.tasks[t])
            && (s'.tasks[t].Asleep? ==> MustWait(Shutdown, s'.q) || NotifierActive(s'))
  {
  }

  lemma CriticalStepKeeps(s: PoolState, t: TaskId, u: TaskId)
    requires CanShutDown(s, t) && GoesOn(s, t, u)
    ensures Enabled(s, CriticalStep(s, u)) && CanShutDown(Apply(s, CriticalStep(s, u)), t)
  {
    ReachableInv(s);
    CriticalStepFrees(s, t, u);
    Conservation(s);
    CriticalStepKeepsBalance(s, t, u);
    CriticalStepKeepsShutdown(s, t, u);
    ReachableNext(s, CriticalStep(s, u));
  }

  // From wherever it stands, a shutdown can complete: whoever has the mutex goes on, the holders of
  // current connections hand back, and then it goes on itself.
  lemma {:induction false} ShutdownCanComplete(s: PoolState, t: TaskId) returns (s': PoolState)
    requires CanShutDown(s, t)
    ensures Reachable(s') && Leads(s, s') && ShutDown(s', t)
    decreases s.mutex.Some?, s.mutex.Some? && s.mutex.value in s.tasks && s.tasks[s.mutex.value].Locked?
  {
    ReachableInv(s);
    if s.mutex == None {
      s' := FreeShutdownCompletes(s, t);
    } else if s.mutex == Some(t) && s.tasks[t].Locked? && !MustWait(Shutdown, s.q) {
      s' := LockedShutdownCompletes(s, t);
    } else {
      var step := CriticalStep(s, s.mutex.value);
      CriticalStepFrees(s, t, s.mutex.value);
      CriticalStepKeeps(s, t, s.mutex.value);
      var next := Apply(s, step);
      s' := ShutdownCanComplete(next, t);
      LeadsNowhere(s);
      LeadsNext(s, s, step);
      LeadsOn(s, next, s');
    }
  }

  lemma LockedShutdownCompletes(s: PoolState, t: TaskId) returns (s': PoolState)
    requires Reachable(s) && s.filled && s.strayed == s.lost
    requires t in s.tasks && s.tasks[t] == Locked(Await(Shutdown)) && !MustWait(Shutdown, s.q)
    ensures Reachable(s') && Leads(s, s') && ShutDown(s', t)
  {
    ReachableInv(s);
    OutstandingAfter(s, CloseAll(t));
    LeadsNowhere(s);
    LeadsNext(s, s, CloseAll(t));
    s' := Apply(s, CloseAll(t));
    ReachableNext(s, CloseAll(t));
  }

  // The same with the mutex free, one holder after the other.
  lemma {:induction false} FreeShutdownCompletes(s: PoolState, t: TaskId) returns (s': PoolState)
    requires CanShutDown(s, t) && s.mutex == None
    ensures Reachable(s') && Leads(s, s') && ShutDown(s', t)
    decreases |Outstanding(s)|
  {
    ReachableInv(s);
    if u :| u in Outstanding(s) {
      var back := HandBackEnds(s, u);
      LeadsReachable(s, back);
      HandedBackOutstanding(s, back, u);
      HandedBackKeeps(s, back, t, u);
      s' := FreeShutdownCompletes(back, t);
      LeadsOn(s, back, s');
    } else {
      ShutdownGoesExactlyWhen(s);
      var locked := ShutdownGetsMutex(s, t);
      LeadsReachable(s, locked);
      s' := LockedShutdownCompletes(locked, t);
      LeadsOn(s, locked, s');
    }
  }

  lemma HandedBackKeeps(s: PoolState, s': PoolState, t: TaskId, u: TaskId)
    requires CanShutDown(s, t) && s.mutex == None && u in Outstanding(s)
    requires HandedBack(s, s', u) && Reachable(s')
    ensures CanShutDown(s', t)
  {
    ReachableInv(s');
    assert t != u;
  }

  lemma ShutdownGetsMutex(s: PoolState, t: TaskId) returns (s': PoolState)
    requires s.mutex == None && t in s.tasks
    requires s.tasks[t] == Woken(Shutdown) || s.tasks[t] == Acquiring(Await(Shutdown))
    ensures Leads(s, s')
    ensures s' == s.(mutex := Some(t), tasks := s.tasks[t := Locked(Await(Shutdown))])
  {
    LeadsNowhere(s);
    var s1 := s;
    if s.tasks[t].Woken? {
      s1 := Apply(s, Relock(t));
      LeadsNext(s, s, Relock(t));
    }
    s' := Apply(s1, Acquire(t));
    LeadsNext(s, s1, Acquire(t));
    assert s'.tasks == s.tasks[t := Locked(Await(Shutdown))];
  }

  // ---- Runs in which the pool fails

  // A task that finds its loop condition true falls asleep.
  lemma FallsAsleep(s: PoolState, t: TaskId, purpose: Purpose)
    requires Reachable(s) && s.mutex == None && MustWait(purpose, s.q) && t !in s.tasks
    ensures Reachable(s.(tasks := s.tasks[t := Asleep(purpose)]))
  {
    var locked := NewlyLocked(s, t, Await(purpose));
    LockedFallsAsleep(locked, t, purpose);
    assert locked.tasks[t := Asleep(purpose)] == s.tasks[t := Asleep(purpose)];
  }

  lemma LockedFallsAsleep(s: PoolState, t: TaskId, purpose: Purpose)
    requires Reachable(s) && t in s.tasks && s.tasks[t] == Locked(Await(purpose)) && MustWait(purpose, s.q)
    ensures Reachable(s.(mutex := None, tasks := s.tasks[t := Asleep(purpose)]))
  {
    var s1 := Apply(s, Register(t));
    ReachableNext(s, Register(t));
    var s2 := Apply(s1, Release(t));
    ReachableNext(s1, Release(t));
    assert s2.tasks == s.tasks[t := Asleep(purpose)];
  }

  // A new taker that finds the queue not empty, and a new shutdown that need not wait.
  lemma TakesAtOnce(s: PoolState, t: TaskId) returns (s': PoolState)
    requires Reachable(s) && s.mutex == None && t !in s.tasks && s.q.queue != []
    ensures Reachable(s')
    ensures s' == s.(q := AfterTake(s.q), departures := s.departures + 1,
                     tasks := s.tasks[t := Holding(Handle(s.q.queue[|s.q.queue| - 1], s.q.epoch))])
  {
    var s1 := NewlyLocked(s, t, Await(Take));
    s' := Apply(s1, TakeOut(t));
    ReachableNext(s1, TakeOut(t));
    assert s'.tasks == s.tasks[t := Holding(Handle(s.q.queue[|s.q.queue| - 1], s.q.epoch))];
  }

  lemma ShutsDownAtOnce(s: PoolState, t: TaskId) returns (s': PoolState)
    requires Reachable(s) && s.mutex == None && t !in s.tasks && !MustWait(Shutdown, s.q)
    ensures Reachable(s') && s'.mutex == None && s'.q == s.q.(queue := []) && s'.tasks == s.tasks[t := Finished]
    ensures AllHome(s) ==> AllHome(s')
  {
    var s1 := NewlyLocked(s, t, Await(Shutdown));
    s' := Apply(s1, CloseAll(t));
    ReachableNext(s1, CloseAll(t));
  }

  lemma NewlyLocked(s: PoolState, t: TaskId, op: Op) returns (s': PoolState)
    requires Reachable(s) && s.mutex == None && t !in s.tasks && !HandsBack(op)
    ensures Reachable(s') && s' == s.(mutex := Some(t), tasks := s.tasks[t := Locked(op)])
  {
    var s1 := Apply(s, Spawn(t, op));
    ReachableNext(s, Spawn(t, op));
    s' := Apply(s1, Acquire(t));
    ReachableNext(s1, Acquire(t));
    assert s'.tasks == s.tasks[t := Locked(op)];
  }

  lemma NewPool(settings: ConnectionSettings) returns (s: PoolState)
    requires settings.connectionPoolSize == 1
    ensures Reachable(s) && s == Init(settings, 1)
    ensures s.q == QueueState([0], 1, 1) && s.mutex == None && s.tasks == map[] && s.filled && AllHome(s)
    ensures s.births == [Home(1, settings)] && s.away == {}
  {
    s := Init(settings, 1);
    assert IsRun([s]) && [s][0] == s;
    assert s.q.queue == Batch(0, 1) == [0];
  }

  // Without a filled pool there need not be anybody to wait for: a taker that comes after a
  // completed shutdown sleeps with nothing out, in a state where no task can move.
  lemma LateTakerIsStranded(settings: ConnectionSettings) returns (s: PoolState)
    requires settings.connectionPoolSize == 1
    ensures Reachable(s) && Quiescent(s) && AllHome(s)
    ensures 1 in s.tasks && s.tasks[1] == Asleep(Take) && Outstanding(s) == {}
  {
    var s0 := NewPool(settings);
    var closed := ShutsDownAtOnce(s0, 0);
    assert closed.tasks == map[0 := Finished];
    FallsAsleep(closed, 1, Take);
    s := closed.(tasks := closed.tasks[1 := Asleep(Take)]);
    assert s.tasks == map[0 := Finished, 1 := Asleep(Take)];
    RestIsQuiescent(s);
  }

  // Nor after a refresh that failed: it notifies nobody, and no connection that was out counts.
  lemma FailedRefreshStrandsTaker(settings: ConnectionSettings) returns (s: PoolState)
    requires settings.connectionPoolSize == 1
    ensures Reachable(s) && Quiescent(s) && AllHome(s)
    ensures 1 in s.tasks && s.tasks[1] == Asleep(Take) && Outstanding(s) == {}
  {
    var waiting := TakenAndAsleep(settings);
    s := RefreshFails(waiting, settings);
    RestIsQuiescent(s);
  }

  lemma RefreshFails(s: PoolState, settings: ConnectionSettings) returns (s': PoolState)
    requires settings.connectionPoolSize == 1 && Reachable(s) && s.mutex == None && s.q == QueueState([], 1, 1)
    requires s.tasks == map[0 := Holding(Handle(0, 1)), 1 := Asleep(Take)]
    ensures Reachable(s') && s'.mutex == None && AllHome(s') && Outstanding(s') == {}
    ensures s'.tasks == map[0 := Holding(Handle(0, 1)), 1 := Asleep(Take), 2 := Finished]
  {
    var locked := NewlyLocked(s, 2, Refresh(settings));
    s' := Apply(locked, Reset(2, 0));
    ReachableNext(locked, Reset(2, 0));
    assert s'.tasks == map[0 := Holding(Handle(0, 1)), 1 := Asleep(Take), 2 := Finished];
    assert s'.q.epoch == 2;
  }

  lemma TakenAndAsleep(settings: ConnectionSettings) returns (s: PoolState)
    requires settings.connectionPoolSize == 1
    ensures Reachable(s) && s.mutex == None && s.q == QueueState([], 1, 1)
    ensures s.tasks == map[0 := Holding(Handle(0, 1)), 1 := Asleep(Take)]
  {
    var s0 := NewPool(settings);
    var taken := TakesAtOnce(s0, 0);
    assert taken.tasks == map[0 := Holding(Handle(0, 1))];
    FallsAsleep(taken, 1, Take);
    s := taken.(tasks := taken.tasks[1 := Asleep(Take)]);
    assert s.tasks == map[0 := Holding(Handle(0, 1)), 1 := Asleep(Take)];
  }

  // Nor with a filled one: a connection that goes astray is never replaced, and the shutdown of its pool
  // sleeps with nothing out.
  lemma LossBlocksShutdown(settings: ConnectionSettings) returns (s: PoolState)
    requires settings.connectionPoolSize == 1
    ensures Reachable(s) && Quiescent(s) && s.filled && |s.q.queue| < s.q.size
    ensures s.away == {0} && !HasForeign(s.births)
    ensures 1 in s.tasks && s.tasks[1] == Asleep(Shutdown) && Outstanding(s) == {}
  {
    var left := LosingPool(settings);
    FallsAsleep(left, 1, Shutdown);
    s := left.(tasks := left.tasks[1 := Asleep(Shutdown)]);
    assert s.tasks == map[0 := Finished, 1 := Asleep(Shutdown)];
    RestIsQuiescent(s);
  }

  lemma LosingPool(settings: ConnectionSettings) returns (s: PoolState)
    requires settings.connectionPoolSize == 1
    ensures Reachable(s) && s.mutex == None && s.tasks == map[0 := Finished]
    ensures s.q == QueueState([], 1, 1) && s.filled && s.away == {0} && s.births == [Home(1, settings)]
  {
    var s0 := NewPool(settings);
    var taken := TakesAtOnce(s0, 0);
    assert taken.tasks == map[0 := Holding(Handle(0, 1))];
    s := Apply(taken, StrayOut(0));
    ReachableNext(taken, StrayOut(0));
    assert s.tasks == map[0 := Finished];
  }

  // A connection of another pool, issued in an epoch of the same number, is put into the queue.
  lemma StrayIsPutIn(settings: ConnectionSettings) returns (s: PoolState)
    requires settings.connectionPoolSize == 1
    ensures Reachable(s) && s.q == QueueState([1, 0], 1, 1) && s.mutex == None && s.filled
    ensures s.tasks == map[0 := Finished] && s.births == [Home(1, settings), Foreign(1)] && s.away == {}
  {
    var s0 := NewPool(settings);
    var s1 := Apply(s0, StrayIn(0, 1));
    ReachableNext(s0, StrayIn(0, 1));
    var s2 := Apply(s1, Acquire(0));
    ReachableNext(s1, Acquire(0));
    assert s2.tasks == map[0 := Locked(HandIn(Handle(1, 1)))];
    s := StrayedAndNotified(s2);
  }

  lemma StrayedAndNotified(s: PoolState) returns (s': PoolState)
    requires Reachable(s) && s.q == QueueState([0], 1, 1) && s.tasks == map[0 := Locked(HandIn(Handle(1, 1)))]
    ensures Reachable(s') && s'.q == QueueState([1, 0], 1, 1) && s'.mutex == None && s'.filled == s.filled
    ensures s'.tasks == map[0 := Finished] && s'.births == s.births && s'.away == s.away
  {
    var s1 := Apply(s, PutBack(0));
    ReachableNext(s, PutBack(0));
    assert s1.tasks == map[0 := Notifying] && s1.q.queue == [1, 0];
    s' := Apply(s1, NotifyAll(0));
    ReachableNext(s1, NotifyAll(0));
    assert s'.tasks == map[0 := Finished];
  }

  // What a stray does to a pool of size 1: with all connections in the queue, the shutdown sleeps;
  // a take then makes its condition false, and nobody tells it; the next taker is given the
  // connection of the other pool's server.
  lemma StrayBreaksThePool(settings: ConnectionSettings)
    returns (resting: PoolState, missed: PoolState, foreign: PoolState)
    requires settings.connectionPoolSize == 1
    ensures Reachable(resting) && Quiescent(resting) && resting.filled
    ensures 1 in resting.tasks && resting.tasks[1] == Asleep(Shutdown)
    ensures Outstanding(resting) == {} && |resting.q.queue| > resting.q.size && resting.away == {}
    ensures Reachable(missed) && missed.mutex == None
    ensures 1 in missed.tasks && missed.tasks[1] == Asleep(Shutdown) && !MustWait(Shutdown, missed.q)
    ensures Reachable(foreign) && 3 in foreign.tasks && foreign.tasks[3] == Holding(Handle(1, foreign.q.epoch))
    ensures foreign.births == [Home(1, settings), Foreign(1)]
  {
    var s := StrayIsPutIn(settings);
    FallsAsleep(s, 1, Shutdown);
    resting := s.(tasks := s.tasks[1 := Asleep(Shutdown)]);
    assert resting.tasks == map[0 := Finished, 1 := Asleep(Shutdown)];
    RestIsQuiescent(resting);
    missed := TakesAtOnce(resting, 2);
    assert missed.q.queue == [1];
    foreign := TakesAtOnce(missed, 3);
  }
}
