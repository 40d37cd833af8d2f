/**
 What every step of the pool protocol keeps.  The invariant has six parts; each is shown to be
 kept on its own, with the others as its hypothesis.
 */
module PoolInvariants {
  import opened Wrappers
  import opened ConnectionQueues
  import opened PoolProtocol

  predicate InCritical(task: Task) {
    task.Locked? || task.Registered? || task.Notifying?
  }

  // The handle a task got from this pool and has not handed over yet.
  function Issued(task: Task): Option<Handle> {
    match task
    case Holding(h) => Some(h)
    case Acquiring(Return(h)) => Some(h)
    case Locked(Return(h)) => Some(h)
    case _ => None
  }

  // The handle a task owns, from here or from another pool.
  function Held(task: Task): Option<Handle> {
    match task
    case Acquiring(HandIn(h)) => Some(h)
    case Locked(HandIn(h)) => Some(h)
    case _ => Issued(task)
  }

  ghost predicate Holds(s: PoolState, t: TaskId, c: ConnId) {
    t in s.tasks && Held(s.tasks[t]).Some? && Held(s.tasks[t]).value.conn == c
  }

  predicate HoldsCurrent(task: Task, epoch: nat) {
    Issued(task).Some? && Issued(task).value.epoch == epoch
  }

  // The tasks that have a connection of the current epoch out.
  function Outstanding(s: PoolState): set<TaskId> {
    set t | t in s.tasks && HoldsCurrent(s.tasks[t], s.q.epoch)
  }

  predicate Distinct(ids: seq<ConnId>) {
    forall i, j :: 0 <= i < j < |ids| ==> ids[i] != ids[j]
  }

  // The mutex is held by exactly the task inside its critical section.
  ghost predicate MutexInv(s: PoolState) {
    && (forall t :: t in s.tasks && InCritical(s.tasks[t]) ==> s.mutex == Some(t))
    && (s.mutex.Some? ==> s.mutex.value in s.tasks && InCritical(s.tasks[s.mutex.value]))
  }

  // Queued and held connections came to the pool in the epoch that their place names, and to it
  // from elsewhere only if something strayed in.
  ghost predicate BirthInv(s: PoolState) {
    && PlacesInv(s)
    && forall t :: t in s.tasks ==> HandleBorn(s.births, s.tasks[t]) && HandleCurrent(s, s.tasks[t])
  }

  // The part of it that is not about tasks.
  ghost predicate PlacesInv(s: PoolState) {
    && s.q.size == s.settings.connectionPoolSize
    && (forall c :: 0 <= c < |s.births| ==> BirthKnown(s, s.births[c]))
    && (forall i :: 0 <= i < |s.q.queue| ==> Current(s, s.q.queue[i]))
    && (forall i :: 0 <= i < |s.closeLog| ==> s.closeLog[i] < |s.births|)
    && (forall c :: c in s.away ==> c < |s.births| && (s.births[c] == Home(s.q.epoch, s.settings) ==> s.lost > 0))
  }

  predicate BirthKnown(s: PoolState, birth: Birth) {
    birth.Home? ==> birth.epoch <= s.q.epoch && (birth.epoch == s.q.epoch ==> birth.settings == s.settings)
  }

  predicate Current(s: PoolState, c: ConnId) {
    c < |s.births| && s.births[c].epoch == s.q.epoch && (s.births[c].Foreign? ==> s.strayed > 0)
  }

  predicate HandleBorn(births: seq<Birth>, task: Task) {
    match Held(task)
    case Some(h) =>
      && h.conn < |births| && births[h.conn].epoch == h.epoch
      && (Issued(task).None? ==> births[h.conn].Foreign?)
    case None => true
  }

  predicate HandleCurrent(s: PoolState, task: Task) {
    match Issued(task)
    case Some(h) => h.epoch <= s.q.epoch && (h.epoch == s.q.epoch ==> Current(s, h.conn))
    case None => true
  }

  // No connection is in two places.
  ghost predicate UniqueInv(s: PoolState) {
    && PlacedOnce(s.q.queue, s.closeLog, s.away)
    && (forall t, c :: Holds(s, t, c) ==> c !in s.q.queue && c !in s.closeLog && c !in s.away)
    && (forall t, u, c :: Holds(s, t, c) && Holds(s, u, c) ==> t == u)
  }

  ghost predicate PlacedOnce(queue: seq<ConnId>, closeLog: seq<ConnId>, away: set<ConnId>) {
    && Distinct(queue)
    && Distinct(closeLog)
    && (forall i, j :: 0 <= i < |queue| && 0 <= j < |closeLog| ==> queue[i] != closeLog[j])
    && (forall c :: c in away ==> c !in queue && c !in closeLog)
  }

  // No connection is lost.
  ghost predicate Placed(s: PoolState, c: ConnId) {
    c in s.q.queue || c in s.closeLog || c in s.away || exists t :: Holds(s, t, c)
  }

  ghost predicate PlacedInv(s: PoolState) {
    forall c :: 0 <= c < |s.births| ==> Placed(s, c)
  }

  // Conservation.
  ghost predicate CountInv(s: PoolState) {
    && |s.q.queue| + |Outstanding(s)| + s.lost == s.stock + s.strayed
    && (if s.filled then s.stock == s.q.size else s.stock <= 0)
  }

  // Whoever sleeps, or is about to, has a true loop condition or a notification on its way; for a
  // shutdown, unless something strayed in.
  ghost predicate NotifierActive(s: PoolState) {
    s.mutex.Some? && s.mutex.value in s.tasks && s.tasks[s.mutex.value].Notifying?
  }

  ghost predicate WakeInv(s: PoolState) {
    && (forall t :: t in s.tasks && s.tasks[t].Registered? ==> MustWait(s.tasks[t].purpose, s.q))
    && (NotifierActive(s) ||
        forall t :: t in s.tasks && s.tasks[t].Asleep? ==> StillWaits(s, s.tasks[t].purpose))
  }

  predicate StillWaits(s: PoolState, purpose: Purpose) {
    MustWait(purpose, s.q) || (purpose == Shutdown && s.strayed > 0)
  }

  // The queue is the arrivals that have not departed, the most recent first.
  ghost predicate FifoInv(s: PoolState) {
    && |s.q.queue| + s.departures == |s.arrivals|
    && forall i :: 0 <= i < |s.q.queue| ==> s.q.queue[i] == s.arrivals[|s.arrivals| - 1 - i]
  }

  ghost predicate Inv(s: PoolState) {
    MutexInv(s) && BirthInv(s) && UniqueInv(s) && PlacedInv(s) && CountInv(s) && WakeInv(s) && FifoInv(s)
  }

  // ---- The initial state

  lemma InitPlaced(settings: ConnectionSettings, built: nat)
    requires built <= settings.connectionPoolSize
    ensures PlacedInv(Init(settings, built))
  {
    forall c | 0 <= c < built ensures c in Batch(0, built) {
      assert Batch(0, built)[built - 1 - c] == c;
    }
  }

  lemma InitInv(settings: ConnectionSettings, built: nat)
    requires built <= settings.connectionPoolSize
    ensures Inv(Init(settings, built))
  {
    var s := Init(settings, built);
    assert Outstanding(s) == {};
    assert FifoInv(s) && BirthInv(s);
    InitPlaced(settings, built);
    assert UniqueInv(s);
  }

  // ---- Each part is kept by each step

  lemma StepKeepsMutexInv(s: PoolState, step: Step)
    requires MutexInv(s) && Enabled(s, step)
    ensures MutexInv(Apply(s, step))
  {
  }

  // How a step changes who holds which connection.
  lemma HoldsAfter(s: PoolState, step: Step, t: TaskId, c: ConnId)
    requires Enabled(s, step)
    ensures Holds(Apply(s, step), t, c) <==>
            match step
            case TakeOut(u) => if t == u then c == s.q.queue[|s.q.queue| - 1] else Holds(s, t, c)
            case PutBack(u) => t != u && Holds(s, t, c)
            case Discard(u) => t != u && Holds(s, t, c)
            case StrayIn(u, _) => if t == u then c == |s.births| else Holds(s, t, c)
            case StrayOut(u) => t != u && Holds(s, t, c)
            case _ => Holds(s, t, c)
  {
  }

  lemma ResetKeepsPlaces(s: PoolState, settings: ConnectionSettings, built: nat)
    requires PlacesInv(s) && built <= settings.connectionPoolSize
    ensures PlacesInv(AfterRefill(s, settings, built))
  {
    var s' := AfterRefill(s, settings, built);
    assert forall i :: 0 <= i < |s'.q.queue| ==> |s.births| <= s'.q.queue[i] < |s'.births|;
    assert forall c :: |s.births| <= c < |s'.births| ==> s'.births[c] == Home(s'.q.epoch, settings);
    assert forall i :: 0 <= i < |s'.closeLog| ==> s'.closeLog[i] < |s'.births|;
  }

  // A task keeps its handle, gives it up, or has just taken it.
  lemma HeldAfter(s: PoolState, step: Step, t: TaskId)
    requires Enabled(s, step) && t in s.tasks
    ensures var task, task' := s.tasks[t], Apply(s, step).tasks[t];
            || (Held(task') == Held(task) && Issued(task') == Issued(task))
            || (Held(task') == None && Issued(task') == None)
            || (step == TakeOut(t) && task' == Holding(Handle(s.q.queue[|s.q.queue| - 1], s.q.epoch)))
  {
  }

  lemma StepKeepsHandleBorn(s: PoolState, step: Step, t: TaskId)
    requires BirthInv(s) && Enabled(s, step) && t in Apply(s, step).tasks
    ensures HandleBorn(Apply(s, step).births, Apply(s, step).tasks[t])
  {
    if t in s.tasks {
      assert HandleBorn(s.births, s.tasks[t]);
      HeldAfter(s, step, t);
    }
  }

  lemma StepKeepsHandleCurrent(s: PoolState, step: Step, t: TaskId)
    requires BirthInv(s) && Enabled(s, step) && t in Apply(s, step).tasks
    ensures HandleCurrent(Apply(s, step), Apply(s, step).tasks[t])
  {
    if t in s.tasks {
      assert HandleBorn(s.births, s.tasks[t]) && HandleCurrent(s, s.tasks[t]);
      HeldAfter(s, step, t);
    }
  }

  lemma StepKeepsPlaces(s: PoolState, step: Step)
    requires BirthInv(s) && Enabled(s, step)
    ensures PlacesInv(Apply(s, step))
  {
    if step.Reset? {
      ResetKeepsPlaces(s, s.tasks[step.t].op.settings, step.built);
    } else if step.PutBack? || step.Discard? || step.StrayOut? {
      assert HandleBorn(s.births, s.tasks[step.t]) && HandleCurrent(s, s.tasks[step.t]);
    }
  }

  lemma StepKeepsBirthInv(s: PoolState, step: Step)
    requires BirthInv(s) && Enabled(s, step)
    ensures BirthInv(Apply(s, step))
  {
    var s' := Apply(s, step);
    StepKeepsPlaces(s, step);
    forall t | t in s'.tasks ensures HandleBorn(s'.births, s'.tasks[t]) && HandleCurrent(s', s'.tasks[t]) {
      StepKeepsHandleBorn(s, step, t);
      StepKeepsHandleCurrent(s, step, t);
    }
  }

  lemma StepKeepsFifoInv(s: PoolState, step: Step)
    requires FifoInv(s) && Enabled(s, step)
    ensures FifoInv(Apply(s, step))
  {
  }

  // Neither the queue nor the close log gains a connection that a task holds after the step.
  lemma HeldIsApart(s: PoolState, step: Step, t: TaskId, c: ConnId)
    requires BirthInv(s) && UniqueInv(s) && Enabled(s, step)
    requires Holds(Apply(s, step), t, c)
    ensures c !in Apply(s, step).q.queue && c !in Apply(s, step).closeLog && c !in Apply(s, step).away
  {
    HoldsAfter(s, step, t, c);
    if step.TakeOut? {
      var last := |s.q.queue| - 1;
      if t == step.t {
        assert s.q.queue[last] == c;
      }
    } else if step.PutBack? || step.Discard? {
      assert Holds(s, step.t, s.tasks[step.t].op.handle.conn);
    } else if step.StrayOut? {
      assert Holds(s, step.t, s.tasks[step.t].handle.conn);
    } else if step.Reset? {
      assert forall b :: b in Batch(|s.births|, step.built) ==> b >= |s.births|;
    }
  }

  lemma ResetKeepsApart(s: PoolState, settings: ConnectionSettings, built: nat)
    requires PlacesInv(s) && UniqueInv(s) && built <= settings.connectionPoolSize
    ensures var s' := AfterRefill(s, settings, built); PlacedOnce(s'.q.queue, s'.closeLog, s'.away)
  {
    assert forall i :: 0 <= i < built ==> Batch(|s.births|, built)[i] == |s.births| + built - 1 - i;
  }

  lemma StepKeepsApart(s: PoolState, step: Step)
    requires BirthInv(s) && UniqueInv(s) && Enabled(s, step)
    ensures var s' := Apply(s, step); PlacedOnce(s'.q.queue, s'.closeLog, s'.away)
  {
    if step.Reset? {
      ResetKeepsApart(s, s.tasks[step.t].op.settings, step.built);
    } else if step.PutBack? || step.Discard? {
      assert Holds(s, step.t, s.tasks[step.t].op.handle.conn);
    } else if step.StrayOut? {
      assert Holds(s, step.t, s.tasks[step.t].handle.conn);
    }
  }

  lemma StepKeepsUniqueInv(s: PoolState, step: Step)
    requires BirthInv(s) && UniqueInv(s) && Enabled(s, step)
    ensures UniqueInv(Apply(s, step))
  {
    var s' := Apply(s, step);
    StepKeepsApart(s, step);
    forall t, c | Holds(s', t, c) ensures c !in s'.q.queue && c !in s'.closeLog && c !in s'.away {
      HeldIsApart(s, step, t, c);
    }
    forall t, u, c | Holds(s', t, c) && Holds(s', u, c) ensures t == u {
      HoldsAfter(s, step, t, c);
      HoldsAfter(s, step, u, c);
    }
  }

  lemma StepKeepsPlacedInv(s: PoolState, step: Step)
    requires BirthInv(s) && PlacedInv(s) && Enabled(s, step)
    ensures PlacedInv(Apply(s, step))
  {
    var s' := Apply(s, step);
    forall c | 0 <= c < |s'.births| ensures Placed(s', c) {
      if c < |s.births| {
        assert Placed(s, c);
        StepKeepsPlaced(s, step, c);
      } else {
        NewConnectionPlaced(s, step, c);
      }
    }
  }

  lemma StepKeepsPlaced(s: PoolState, step: Step, c: ConnId)
    requires Enabled(s, step) && Placed(s, c)
    ensures Placed(Apply(s, step), c)
  {
    var s' := Apply(s, step);
    if t :| Holds(s, t, c) {
      if !step.PutBack? && !step.Discard? && !step.StrayOut? {
        assert Holds(s', t, c);
      } else if t != step.t {
        assert Holds(s', t, c);
      }
    } else if step.TakeOut? && c in s.q.queue {
      var last := |s.q.queue| - 1;
      if c == s.q.queue[last] {
        assert Holds(s', step.t, c);
      } else {
        assert c in s.q.queue[..last];
      }
    }
  }

  lemma NewConnectionPlaced(s: PoolState, step: Step, c: ConnId)
    requires Enabled(s, step) && |s.births| <= c < |Apply(s, step).births|
    ensures Placed(Apply(s, step), c)
  {
    var first := |s.births|;
    if step.StrayIn? {
      assert Holds(Apply(s, step), step.t, c);
    } else {
      assert Batch(first, step.built)[first + step.built - 1 - c] == c;
    }
  }

  // How a step changes the set of current-epoch holders, and their number.
  function HoldersAfter(s: PoolState, step: Step): set<TaskId> {
    match step
    case TakeOut(t) => Outstanding(s) + {t}
    case PutBack(t) => Outstanding(s) - {t}
    case StrayOut(t) => Outstanding(s) - {t}
    case Reset(_, _) => {}
    case _ => Outstanding(s)
  }

  lemma OutstandingAfter(s: PoolState, step: Step)
    requires BirthInv(s) && Enabled(s, step)
    ensures Outstanding(Apply(s, step)) == HoldersAfter(s, step)
  {
    forall t ensures t in Outstanding(Apply(s, step)) <==> t in HoldersAfter(s, step) {
      if t in s.tasks {
        HeldAfter(s, step, t);
      }
    }
  }

  function Gain(s: PoolState, step: Step): int
    requires Enabled(s, step)
  {
    match step
    case TakeOut(_) => 1
    case PutBack(t) => if s.tasks[t].op.Return? then -1 else 0
    case StrayOut(t) => if s.tasks[t].handle.epoch == s.q.epoch then -1 else 0
    case Reset(_, _) => -|Outstanding(s)|
    case _ => 0
  }

  lemma SizeWithout(ids: set<TaskId>, t: TaskId)
    ensures |ids - {t}| == |ids| - if t in ids then 1 else 0
  {
    if t !in ids {
      assert ids - {t} == ids;
    }
  }

  lemma CountHoldersAfter(s: PoolState, step: Step)
    requires Enabled(s, step)
    ensures |HoldersAfter(s, step)| == |Outstanding(s)| + Gain(s, step)
  {
    SizeWithout(Outstanding(s), step.t);
    assert step.t in s.tasks ==> (step.t in Outstanding(s) <==> HoldsCurrent(s.tasks[step.t], s.q.epoch));
  }

  lemma StepKeepsCountInv(s: PoolState, step: Step)
    requires BirthInv(s) && CountInv(s) && Enabled(s, step)
    ensures CountInv(Apply(s, step))
  {
    OutstandingAfter(s, step);
    CountHoldersAfter(s, step);
  }

  lemma StepKeepsWakeInv(s: PoolState, step: Step)
    requires MutexInv(s) && CountInv(s) && WakeInv(s) && Enabled(s, step)
    ensures WakeInv(Apply(s, step))
  {
  }

  lemma StepKeepsInv(s: PoolState, step: Step)
    requires Inv(s) && Enabled(s, step)
    ensures Inv(Apply(s, step))
  {
    StepKeepsMutexInv(s, step);
    StepKeepsBirthInv(s, step);
    StepKeepsUniqueInv(s, step);
    StepKeepsPlacedInv(s, step);
    StepKeepsCountInv(s, step);
    StepKeepsWakeInv(s, step);
    StepKeepsFifoInv(s, step);
  }
}
