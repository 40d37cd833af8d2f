/**
 The result cell of a synchronous submit (Notify in src/vkldap/scheduler.rs): one notifier, one
 waiter, a mutex and a condition variable that may wake the waiter for no reason.  And the cells of
 all the synchronous submits of one scheduler together.
 */
module OneShot {
  import opened Wrappers
  import Scheduler

  // `Gone`: the task panicked, and never notifies.
  datatype Notifier = Pending | NotifyWants | NotifyLocked | Stored | Notified | Gone

  datatype Waiter<+V> = WaitWants | WaitLocked | Asleep | Woken | Got(value: V)

  datatype Owner = ByNotifier | ByWaiter

  datatype Cell<V> = Cell(
    content: Option<V>,
    mutex: Option<Owner>,
    notifier: Notifier,
    waiter: Waiter<V>
  )

  datatype CellStep =
    | NotifyPanic    // the task panics before it is done
    | NotifyBegin    // the task is done, notify is called
    | NotifyLock
    | NotifyStore
    | NotifyOne      // wakes the waiter if it sleeps; the mutex is released on return
    | WaitLock
    | WaitSleep      // releases the mutex and sleeps, in one
    | WaitSpurious
    | WaitRelock
    | WaitTake

  predicate CellEnabled<V>(c: Cell<V>, step: CellStep) {
    match step
    case NotifyPanic => c.notifier.Pending?
    case NotifyBegin => c.notifier.Pending?
    case NotifyLock => c.notifier.NotifyWants? && c.mutex == None
    case NotifyStore => c.notifier.NotifyLocked?
    case NotifyOne => c.notifier.Stored?
    case WaitLock => c.waiter.WaitWants? && c.mutex == None
    case WaitSleep => c.waiter.WaitLocked? && c.content.None?
    case WaitSpurious => c.waiter.Asleep?
    case WaitRelock => c.waiter.Woken? && c.mutex == None
    case WaitTake => c.waiter.WaitLocked? && c.content.Some?
  }

  function CellApply<V>(c: Cell<V>, step: CellStep, result: V): Cell<V>
    requires CellEnabled(c, step)
  {
    match step
    case NotifyPanic => c.(notifier := Gone)
    case NotifyBegin => c.(notifier := NotifyWants)
    case NotifyLock => c.(notifier := NotifyLocked, mutex := Some(ByNotifier))
    case NotifyStore => c.(notifier := Stored, content := Some(result))
    case NotifyOne => c.(notifier := Notified, mutex := None, waiter := if c.waiter.Asleep? then Woken else c.waiter)
    case WaitLock => c.(waiter := WaitLocked, mutex := Some(ByWaiter))
    case WaitSleep => c.(waiter := Asleep, mutex := None)
    case WaitSpurious => c.(waiter := Woken)
    case WaitRelock => c.(waiter := WaitLocked, mutex := Some(ByWaiter))
    case WaitTake => c.(waiter := Got(c.content.value), mutex := None, content := None)
  }

  function NewCell<V>(): Cell<V> { Cell(None, None, Pending, WaitWants) }

  ghost predicate CellInv<V>(c: Cell<V>, result: V) {
    && !((c.notifier.NotifyLocked? || c.notifier.Stored?) && c.waiter.WaitLocked?)
    && c.mutex == (if c.notifier.NotifyLocked? || c.notifier.Stored? then Some(ByNotifier)
                   else if c.waiter.WaitLocked? then Some(ByWaiter) else None)
    && (c.content.Some? ==> c.content.value == result && (c.notifier.Stored? || c.notifier.Notified?))
    && (c.waiter.Got? ==> c.waiter.value == result && c.notifier.Notified?)
    && (c.notifier.Stored? ==> c.content.Some?)
    // After the notification the value is in the cell or with the waiter, and nobody sleeps.
    && (c.notifier.Notified? ==> (c.content.Some? <==> !c.waiter.Got?) && !c.waiter.Asleep?)
  }

  lemma CellStepKeepsInv<V>(c: Cell<V>, step: CellStep, result: V)
    requires CellInv(c, result) && CellEnabled(c, step)
    ensures CellInv(CellApply(c, step, result), result)
  {
  }

  // The waiter's own steps once the notification is over.
  function Remaining<V>(c: Cell<V>): seq<CellStep> {
    match c.waiter
    case WaitWants => [WaitLock, WaitTake]
    case Woken => [WaitRelock, WaitTake]
    case WaitLocked => [WaitTake]
    case Asleep => [WaitSpurious, WaitRelock, WaitTake]
    case Got(_) => []
  }

  function CellExec<V>(c: Cell<V>, steps: seq<CellStep>, result: V): Option<Cell<V>>
    decreases |steps|
  {
    if steps == [] then Some(c)
    else if CellEnabled(c, steps[0]) then CellExec(CellApply(c, steps[0], result), steps[1..], result)
    else None
  }

  // No notification is lost, also one that comes before the wait: when it is over, the waiter
  // needs no other wake-up to end with the value.
  lemma NotifiedWaiterFinishes<V>(c: Cell<V>, result: V)
    requires CellInv(c, result) && c.notifier.Notified?
    ensures !c.waiter.Asleep?
    ensures var c' := CellExec(c, Remaining(c), result);
            c'.Some? && c'.value.waiter == Got(result)
  {
    if c.waiter.WaitWants? || c.waiter.Woken? {
      var step := Remaining(c)[0];
      var c1 := CellApply(c, step, result);
      assert Remaining(c)[1..] == [WaitTake];
      assert CellExec(c1, [WaitTake], result) == Some(CellApply(c1, WaitTake, result));
    } else if c.waiter.WaitLocked? {
      assert CellExec(c, [WaitTake], result) == Some(CellApply(c, WaitTake, result));
    }
  }

  // ---- All synchronous submits of a scheduler

  // `cells[t]` is the cell of client `t`; its task yields `results(t)`.
  datatype SyncState<V> = SyncState(scheduler: Scheduler.SchedulerState, cells: map<Scheduler.ClientId, Cell<V>>)

  datatype SyncStep =
    | OfScheduler(step: Scheduler.Step)
    | OfCell(t: Scheduler.ClientId, cellStep: CellStep)

  predicate IsNotifierStep(step: CellStep) {
    step.NotifyPanic? || step.NotifyBegin? || step.NotifyLock? || step.NotifyStore? || step.NotifyOne?
  }

  // A task notifies after it was dispatched; a client waits after its submission.
  predicate SyncEnabled<V>(s: SyncState<V>, step: SyncStep) {
    match step
    case OfScheduler(step) => Scheduler.Enabled(s.scheduler, step)
    case OfCell(t, cellStep) =>
      && t in s.cells && CellEnabled(s.cells[t], cellStep)
      && (if IsNotifierStep(cellStep) then t in s.scheduler.dispatched
          else t in s.scheduler.clients && s.scheduler.clients[t].Submitted?)
  }

  function SyncApply<V>(s: SyncState<V>, step: SyncStep, results: Scheduler.ClientId -> V): SyncState<V>
    requires SyncEnabled(s, step)
  {
    match step
    case OfScheduler(step) =>
      s.(scheduler := Scheduler.Apply(s.scheduler, step),
         cells := if step.SpawnSubmit? || step.SpawnUnasked? then s.cells[step.t := NewCell()] else s.cells)
    case OfCell(t, cellStep) => s.(cells := s.cells[t := CellApply(s.cells[t], cellStep, results(t))])
  }

  ghost predicate SyncInv<V>(s: SyncState<V>, results: Scheduler.ClientId -> V) {
    && Scheduler.Inv(s.scheduler)
    && (forall t :: t in s.cells ==> t in s.scheduler.clients)
    && (forall t :: t in s.cells ==>
          && CellInv(s.cells[t], results(t))
          && (!s.cells[t].notifier.Pending? ==> t in s.scheduler.dispatched))
  }

  lemma SchedulerStepKeepsCells<V>(s: SyncState<V>, step: Scheduler.Step, results: Scheduler.ClientId -> V)
    requires SyncInv(s, results) && SyncEnabled(s, OfScheduler(step))
    ensures SyncInv(SyncApply(s, OfScheduler(step), results), results)
  {
    var s' := SyncApply(s, OfScheduler(step), results);
    Scheduler.StepKeepsInv(s.scheduler, step);
    Scheduler.DispatchedGrows(s.scheduler, step);
    Scheduler.ClientsGrow(s.scheduler, step);
    forall t | t in s'.cells
      ensures t in s'.scheduler.clients && CellInv(s'.cells[t], results(t))
           && (!s'.cells[t].notifier.Pending? ==> t in s'.scheduler.dispatched)
    {
      if t in s.cells && s'.cells[t] == s.cells[t] {
        assert CellInv(s.cells[t], results(t));
      } else {
        assert s'.cells[t] == NewCell();
      }
    }
  }

  lemma {:induction false} SyncStepKeepsInv<V>(s: SyncState<V>, step: SyncStep, results: Scheduler.ClientId -> V)
    requires SyncInv(s, results) && SyncEnabled(s, step)
    ensures SyncInv(SyncApply(s, step, results), results)
  {
    match step
    case OfScheduler(st) => SchedulerStepKeepsCells(s, st, results);
    case OfCell(t, cellStep) => CellStepKeepsInv(s.cells[t], cellStep, results(t));
  }

  function SyncRun<V>(steps: seq<SyncStep>, results: Scheduler.ClientId -> V): Option<SyncState<V>> {
    if steps == [] then Some(SyncState(Scheduler.INITIAL, map[]))
    else
      var last := |steps| - 1;
      match SyncRun(steps[..last], results)
      case None => None
      case Some(s) => if SyncEnabled(s, steps[last]) then Some(SyncApply(s, steps[last], results)) else None
  }

  lemma {:induction false} SyncRunKeepsInv<V>(steps: seq<SyncStep>, results: Scheduler.ClientId -> V)
    requires SyncRun(steps, results).Some?
    ensures SyncInv(SyncRun(steps, results).value, results)
  {
    if steps != [] {
      var last := |steps| - 1;
      SyncRunKeepsInv(steps[..last], results);
      SyncStepKeepsInv(SyncRun(steps[..last], results).value, steps[last], results);
    }
  }

  // In every run, a synchronous submit that returns a result returns that of its own task, which
  // was accepted and dispatched; and once the task has notified, its client is not asleep.
  lemma SyncSubmitReturnsOwnResult<V>(steps: seq<SyncStep>, results: Scheduler.ClientId -> V, t: Scheduler.ClientId)
    requires SyncRun(steps, results).Some?
    requires t in SyncRun(steps, results).value.cells
    ensures var s := SyncRun(steps, results).value;
            && (s.cells[t].waiter.Got? ==>
                  s.cells[t].waiter.value == results(t) && t in s.scheduler.dispatched && t in s.scheduler.accepted)
            && (s.cells[t].notifier.Notified? ==> !s.cells[t].waiter.Asleep?)
  {
    SyncRunKeepsInv(steps, results);
  }

  // A synchronous submit whose task panics never returns: from then on, in every run, its client
  // has no value and can do nothing but sleep again.
  lemma {:induction false} PanickedSubmitNeverReturns<V>(steps: seq<SyncStep>, results: Scheduler.ClientId -> V,
                                                         t: Scheduler.ClientId, i: nat)
    requires i <= |steps| && SyncRun(steps, results).Some? && SyncRun(steps[..i], results).Some?
    requires t in SyncRun(steps[..i], results).value.cells
    requires SyncRun(steps[..i], results).value.cells[t].notifier.Gone?
    ensures var s := SyncRun(steps, results).value;
            && t in s.cells && s.cells[t].notifier.Gone? && !s.cells[t].waiter.Got?
            && !SyncEnabled(s, OfCell(t, WaitTake))
            && forall step :: IsNotifierStep(step) ==> !SyncEnabled(s, OfCell(t, step))
    decreases |steps|
  {
    if i < |steps| {
      var last := |steps| - 1;
      assert steps[..last][..i] == steps[..i];
      PanickedSubmitNeverReturns(steps[..last], results, t, i);
      SyncRunKeepsInv(steps[..last], results);
      GoneStays(SyncRun(steps[..last], results).value, steps[last], results, t);
    } else {
      assert steps[..i] == steps;
    }
    SyncRunKeepsInv(steps, results);
    GoneIsStuck(SyncRun(steps, results).value, results, t);
  }

  lemma GoneStays<V>(s: SyncState<V>, step: SyncStep, results: Scheduler.ClientId -> V, t: Scheduler.ClientId)
    requires SyncInv(s, results) && SyncEnabled(s, step) && t in s.cells && s.cells[t].notifier.Gone?
    ensures var s' := SyncApply(s, step, results); t in s'.cells && s'.cells[t].notifier.Gone?
  {
  }

  lemma GoneIsStuck<V>(s: SyncState<V>, results: Scheduler.ClientId -> V, t: Scheduler.ClientId)
    requires SyncInv(s, results) && t in s.cells && s.cells[t].notifier.Gone?
    ensures !s.cells[t].waiter.Got? && !SyncEnabled(s, OfCell(t, WaitTake))
    ensures forall step :: IsNotifierStep(step) ==> !SyncEnabled(s, OfCell(t, step))
  {
    assert CellInv(s.cells[t], results(t));
  }
}
