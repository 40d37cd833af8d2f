/**
 The job scheduler (src/vkldap/scheduler.rs): submitters under the read lock, one stop under the
 write lock, the channel between them and the loop that dispatches jobs, as a step system.

 A client submits one job, known by the client's own number.  Most clients first ask whether the
 scheduler is ready, under a read lock of their own, as the callers in src/vkldap/mod.rs do.  The
 thread of the failure detector does not (src/vkldap/failure_detector.rs:102); it is started after
 the scheduler (src/lib.rs:27-28).
 */
module Scheduler {
  import opened Wrappers

  type ClientId = nat

  datatype Job = Shutdown | Task(id: ClientId)

  // The receive loop on a channel that holds these messages: what it dispatches before it
  // returns, and whether a shutdown made it return.
  method SchedulerLoop(messages: seq<Job>) returns (dispatched: seq<ClientId>, stopped: bool)
    ensures stopped <==> Shutdown in messages
    ensures dispatched == TasksBeforeShutdown(messages)
  {
    dispatched := [];
    var i := 0;
    while i < |messages|
      invariant i <= |messages| && Shutdown !in messages[..i]
      invariant dispatched + TasksBeforeShutdown(messages[i..]) == TasksBeforeShutdown(messages)
    {
      assert messages[i..][1..] == messages[i + 1..];
      match messages[i] {
        case Shutdown => return dispatched, true;
        case Task(id) => dispatched := dispatched + [id];
      }
      i := i + 1;
    }
    stopped := false;
  }

  function TasksBeforeShutdown(messages: seq<Job>): seq<ClientId> {
    if messages == [] || messages[0].Shutdown? then []
    else [messages[0].id] + TasksBeforeShutdown(messages[1..])
  }

  datatype Client =
    | Checking      // submitter: about to ask whether the scheduler is ready
    | NotReady      // was told no
    | WantRead      // was told yes or did not ask, waits for the read lock
    | Reading       // holds the read lock, about to send
    | Sent          // holds the read lock, the job is in the channel
    | Submitted     // read lock released
    | SendFailed
    | WantWrite     // stop: waits for the write lock
    | Writing       // holds the write lock
    | ShutdownSent  // holds the write lock, the shutdown message is in the channel
    | Joining       // holds the write lock, the state is taken
    | Stopped
    | Crashed       // unwrapped a missing state or a poisoned lock

  datatype SchedulerState = SchedulerState(
    launched: bool,          // the scheduler has been started
    ready: bool,             // Scheduler.state is set
    channel: seq<Job>,
    running: bool,           // the loop holds the receiver
    readers: set<ClientId>,
    writer: Option<ClientId>,
    poisoned: bool,
    clients: map<ClientId, Client>,
    // History:
    accepted: seq<ClientId>,
    dispatched: seq<ClientId>
  )

  const INITIAL := SchedulerState(false, false, [], false, {}, None, false, map[], [], [])

  datatype Step =
    | Launch
    | Receive
    | SpawnSubmit(t: ClientId)
    | SpawnUnasked(t: ClientId) // a submitter that does not ask
    | SpawnStop(t: ClientId)
    | Check(t: ClientId)
    | AcquireRead(t: ClientId)
    | Send(t: ClientId)
    | ReleaseRead(t: ClientId)
    | AcquireWrite(t: ClientId)
    | SendShutdown(t: ClientId)
    | TakeState(t: ClientId)
    | Join(t: ClientId)

  predicate Enabled(s: SchedulerState, step: Step) {
    match step
    case Launch => !s.ready && !s.running && s.writer == None && s.readers == {} && !s.poisoned
    case Receive => s.running && s.channel != []
    case SpawnSubmit(t) => t !in s.clients
    case SpawnUnasked(t) => t !in s.clients && s.launched
    case SpawnStop(t) => t !in s.clients
    case _ => step.t in s.clients && ClientEnabled(s, step, s.clients[step.t])
  }

  predicate ClientEnabled(s: SchedulerState, step: Step, client: Client) {
    match step
    case Check(_) => client.Checking? && s.writer == None
    case AcquireRead(_) => client.WantRead? && s.writer == None
    case Send(_) => client.Reading?
    case ReleaseRead(_) => client.Sent?
    case AcquireWrite(_) => client.WantWrite? && s.writer == None && s.readers == {}
    case SendShutdown(_) => client.Writing?
    case TakeState(_) => client.ShutdownSent?
    case Join(_) => client.Joining? && !s.running
    case _ => false
  }

  function Move(s: SchedulerState, t: ClientId, client: Client): SchedulerState {
    s.(clients := s.clients[t := client])
  }

  function Apply(s: SchedulerState, step: Step): SchedulerState
    requires Enabled(s, step)
  {
    match step
    case Launch => s.(launched := true, ready := true, channel := [], running := true)
    case Receive =>
      (match s.channel[0]
       // Returning drops the receiver, and with it whatever is still in the channel.
       case Shutdown => s.(running := false, channel := [])
       case Task(id) => s.(channel := s.channel[1..], dispatched := s.dispatched + [id]))
    case SpawnSubmit(t) => Move(s, t, Checking)
    case SpawnUnasked(t) => Move(s, t, WantRead)
    case SpawnStop(t) => Move(s, t, WantWrite)
    case Check(t) => Move(s, t, if s.poisoned then Crashed else if s.ready then WantRead else NotReady)
    case AcquireRead(t) =>
      if s.poisoned then Move(s, t, Crashed) else Move(s, t, Reading).(readers := s.readers + {t})
    case Send(t) =>
      if !s.ready then Move(s, t, Crashed).(readers := s.readers - {t})
      else if !s.running then Move(s, t, SendFailed).(readers := s.readers - {t})
      else Move(s, t, Sent).(channel := s.channel + [Task(t)], accepted := s.accepted + [t])
    case ReleaseRead(t) => Move(s, t, Submitted).(readers := s.readers - {t})
    case AcquireWrite(t) =>
      if s.poisoned then Move(s, t, Crashed) else Move(s, t, Writing).(writer := Some(t))
    case SendShutdown(t) =>
      if !s.ready then Move(s, t, Crashed).(writer := None, poisoned := true)
      else if !s.running then Move(s, t, SendFailed).(writer := None)
      else Move(s, t, ShutdownSent).(channel := s.channel + [Shutdown])
    case TakeState(t) => Move(s, t, Joining).(ready := false)
    case Join(t) => Move(s, t, Stopped).(writer := None)
  }

  // ---- What every step keeps

  predicate HoldsWrite(client: Client) {
    client.Writing? || client.ShutdownSent? || client.Joining?
  }

  ghost predicate LockInv(s: SchedulerState) {
    && (forall t :: t in s.readers <==> t in s.clients && HoldsRead(s.clients[t]))
    && (forall t :: t in s.clients && HoldsWrite(s.clients[t]) ==> s.writer == Some(t))
    && (s.writer.Some? ==>
          s.writer.value in s.clients && HoldsWrite(s.clients[s.writer.value]) && s.readers == {})
  }

  // A shutdown message has been sent and its sender has not returned.
  ghost predicate Closing(s: SchedulerState) {
    s.writer.Some? && s.writer.value in s.clients
    && (s.clients[s.writer.value].ShutdownSent? || s.clients[s.writer.value].Joining?)
  }

  predicate OnlyTasks(channel: seq<Job>) {
    forall i :: 0 <= i < |channel| ==> channel[i].Task?
  }

  ghost predicate ChannelInv(s: SchedulerState) {
    && (!s.running ==> s.channel == [])
    && (!Closing(s) ==> OnlyTasks(s.channel) && s.ready == s.running)
    && (Closing(s) && s.running ==>
          s.channel != [] && s.channel[|s.channel| - 1].Shutdown? && OnlyTasks(s.channel[..|s.channel| - 1]))
    && (Closing(s) ==> s.ready == s.clients[s.writer.value].ShutdownSent?)
    && (forall t :: t in s.clients ==> !s.clients[t].SendFailed?)
  }

  // The accepted jobs are the dispatched ones and then those in the channel.
  ghost predicate JobsInv(s: SchedulerState) {
    && s.accepted == s.dispatched + TasksBeforeShutdown(s.channel)
    && (forall t :: t in s.accepted <==> t in s.clients && (s.clients[t].Sent? || s.clients[t].Submitted?))
    && (forall i, j :: 0 <= i < j < |s.accepted| ==> s.accepted[i] != s.accepted[j])
  }

  ghost predicate Inv(s: SchedulerState) {
    LockInv(s) && ChannelInv(s) && JobsInv(s) && StopInv(s)
  }

  // No client is forgotten, and no dispatch undone.
  lemma DispatchedGrows(s: SchedulerState, step: Step)
    requires Enabled(s, step)
    ensures s.dispatched <= Apply(s, step).dispatched
  {
  }

  lemma ClientsGrow(s: SchedulerState, step: Step)
    requires Enabled(s, step)
    ensures forall t :: t in s.clients ==> t in Apply(s, step).clients
    ensures step.SpawnSubmit? || step.SpawnUnasked? ==> step.t in Apply(s, step).clients
  {
  }

  // A step changes the standing of no client but its own.
  lemma OthersStay(s: SchedulerState, step: Step, u: ClientId)
    requires Enabled(s, step) && (step.Launch? || step.Receive? || u != step.t)
    ensures u in Apply(s, step).clients <==> u in s.clients
    ensures u in s.clients ==> Apply(s, step).clients[u] == s.clients[u]
  {
  }

  lemma OtherReadersStay(s: SchedulerState, step: Step, u: ClientId)
    requires Enabled(s, step) && (step.Launch? || step.Receive? || u != step.t)
    ensures u in Apply(s, step).readers <==> u in s.readers
  {
  }

  predicate HoldsRead(client: Client) {
    client.Reading? || client.Sent?
  }

  // A client's own step takes or gives up a lock together with its standing.
  lemma OwnLocks(s: SchedulerState, step: Step)
    requires LockInv(s) && Enabled(s, step) && !step.Launch? && !step.Receive?
    ensures var s' := Apply(s, step);
            && step.t in s'.clients
            && (step.t in s'.readers <==> HoldsRead(s'.clients[step.t]))
            && (HoldsWrite(s'.clients[step.t]) ==> s'.writer == Some(step.t))
  {
  }

  // The writer changes only by the writer's own step, and then nobody reads.
  lemma WriterAfter(s: SchedulerState, step: Step)
    requires LockInv(s) && Enabled(s, step) && !step.Launch? && !step.Receive?
    ensures var s' := Apply(s, step);
            || s'.writer == s.writer
            || (s.writer == Some(step.t) && s'.writer == None)
            || (s.writer == None && s'.writer == Some(step.t) && s'.readers == {} && HoldsWrite(s'.clients[step.t]))
    ensures s.writer.Some? && s.writer.value != step.t ==> Apply(s, step).readers == {}
    ensures s.writer == Some(step.t) && Apply(s, step).writer == s.writer ==>
              HoldsWrite(Apply(s, step).clients[step.t]) && Apply(s, step).readers == {}
  {
  }

  lemma {:induction false} StepKeepsLockInv(s: SchedulerState, step: Step)
    requires LockInv(s) && Enabled(s, step)
    ensures LockInv(Apply(s, step))
  {
    if step.Launch? || step.Receive? {
      return;
    }
    var s' := Apply(s, step);
    OwnLocks(s, step);
    WriterAfter(s, step);
    forall u ensures u in s'.readers <==> u in s'.clients && HoldsRead(s'.clients[u]) {
      if u != step.t {
        OthersStay(s, step, u);
        OtherReadersStay(s, step, u);
      }
    }
    forall u | u in s'.clients && HoldsWrite(s'.clients[u]) ensures s'.writer == Some(u) {
      if u != step.t {
        OthersStay(s, step, u);
      }
    }
    if s'.writer.Some? && s'.writer.value != step.t {
      OthersStay(s, step, s'.writer.value);
    }
  }

  lemma ReceiveKeepsChannelInv(s: SchedulerState)
    requires ChannelInv(s) && Enabled(s, Receive)
    ensures ChannelInv(Apply(s, Receive))
  {
    if Closing(s) {
      assert forall i :: 0 <= i < |s.channel| - 1 ==> s.channel[..|s.channel| - 1][i] == s.channel[i];
    }
  }

  // The steps that change neither the channel nor whether it is closing.
  predicate LeavesChannel(step: Step) {
    step.SpawnSubmit? || step.SpawnUnasked? || step.SpawnStop? || step.Check? || step.AcquireRead? || step.ReleaseRead?
    || step.AcquireWrite?
  }

  lemma OthersKeepChannelInv(s: SchedulerState, step: Step)
    requires LockInv(s) && ChannelInv(s) && Enabled(s, step) && LeavesChannel(step)
    ensures ChannelInv(Apply(s, step))
  {
    var s' := Apply(s, step);
    assert (s'.ready, s'.channel, s'.running) == (s.ready, s.channel, s.running);
    assert Closing(s') <==> Closing(s);
    forall u | u in s'.clients ensures !s'.clients[u].SendFailed? {
      if u != step.t {
        OthersStay(s, step, u);
      }
    }
  }

  lemma SendKeepsChannelInv(s: SchedulerState, step: Step)
    requires LockInv(s) && ChannelInv(s) && Enabled(s, step) && step.Send?
    ensures ChannelInv(Apply(s, step))
  {
  }

  lemma StopKeepsChannelInv(s: SchedulerState, step: Step)
    requires LockInv(s) && ChannelInv(s) && Enabled(s, step)
    requires step.SendShutdown? || step.TakeState? || step.Join?
    ensures ChannelInv(Apply(s, step))
  {
    if step.SendShutdown? && s.ready && s.running {
      assert (s.channel + [Shutdown])[..|s.channel|] == s.channel;
    }
  }

  lemma {:induction false} StepKeepsChannelInv(s: SchedulerState, step: Step)
    requires LockInv(s) && ChannelInv(s) && Enabled(s, step)
    ensures ChannelInv(Apply(s, step))
  {
    if step.Receive? {
      ReceiveKeepsChannelInv(s);
    } else if LeavesChannel(step) {
      OthersKeepChannelInv(s, step);
    } else if step.Send? {
      SendKeepsChannelInv(s, step);
    } else if !step.Launch? {
      StopKeepsChannelInv(s, step);
    }
  }

  lemma {:induction false} TasksOneMore(channel: seq<Job>, job: Job)
    requires OnlyTasks(channel)
    ensures TasksBeforeShutdown(channel + [job]) ==
            TasksBeforeShutdown(channel) + match job case Shutdown => [] case Task(id) => [id]
  {
    if channel == [] {
      assert channel + [job] == [job] && [job][1..] == [];
    } else {
      TasksOneMore(channel[1..], job);
      assert (channel + [job])[1..] == channel[1..] + [job];
    }
  }

  // The history of the jobs matches the channel.
  lemma StepKeepsJobOrder(s: SchedulerState, step: Step)
    requires LockInv(s) && ChannelInv(s) && Enabled(s, step)
    requires s.accepted == s.dispatched + TasksBeforeShutdown(s.channel)
    ensures var s' := Apply(s, step);
            s'.accepted == s'.dispatched + TasksBeforeShutdown(s'.channel)
  {
    if step.Send? && s.ready && s.running {
      TasksOneMore(s.channel, Task(step.t));
    } else if step.SendShutdown? && s.ready && s.running {
      TasksOneMore(s.channel, Shutdown);
    }
  }

  predicate IsAccepted(client: Client) {
    client.Sent? || client.Submitted?
  }

  lemma AcceptedAfter(s: SchedulerState, step: Step)
    requires ChannelInv(s) && Enabled(s, step)
    ensures Apply(s, step).accepted == s.accepted + if step.Send? && s.ready && s.running then [step.t] else []
  {
  }

  // Only a send makes a client accepted, and no client stops being so.
  lemma OwnAcceptance(s: SchedulerState, step: Step)
    requires Enabled(s, step) && !step.Launch? && !step.Receive?
    ensures var s' := Apply(s, step);
            step.t in s'.clients && IsAccepted(s'.clients[step.t])
            <==> (step.Send? && s.ready && s.running) || (step.t in s.clients && IsAccepted(s.clients[step.t]))
    ensures step.Send? ==> !IsAccepted(s.clients[step.t])
  {
  }

  lemma StepKeepsAcceptance(s: SchedulerState, step: Step, u: ClientId)
    requires ChannelInv(s) && Enabled(s, step)
    requires u in s.accepted <==> u in s.clients && IsAccepted(s.clients[u])
    ensures var s' := Apply(s, step); u in s'.accepted <==> u in s'.clients && IsAccepted(s'.clients[u])
  {
    AcceptedAfter(s, step);
    if step.Launch? || step.Receive? || u != step.t {
      OthersStay(s, step, u);
    } else {
      OwnAcceptance(s, step);
    }
  }

  lemma {:induction false} StepKeepsJobsInv(s: SchedulerState, step: Step)
    requires LockInv(s) && ChannelInv(s) && JobsInv(s) && Enabled(s, step)
    ensures JobsInv(Apply(s, step))
  {
    var s' := Apply(s, step);
    StepKeepsJobOrder(s, step);
    AcceptedAfter(s, step);
    if step.Send? {
      OwnAcceptance(s, step);
    }
    forall u ensures u in s'.accepted <==> u in s'.clients && IsAccepted(s'.clients[u]) {
      StepKeepsAcceptance(s, step, u);
    }
  }

  ghost predicate AnyStopped(s: SchedulerState) {
    exists u :: u in s.clients && s.clients[u].Stopped?
  }

  // Once the scheduler has been started the state can only go missing by a stop, also between a
  // client's question and its send; and a client that crashed met such a state, or a lock that a
  // stop had poisoned.
  ghost predicate StopInv(s: SchedulerState) {
    && (s.launched ==> s.ready || AnyStopped(s) || Closing(s))
    && forall t :: t in s.clients ==> StopKnown(s, s.clients[t])
  }

  ghost predicate StopKnown(s: SchedulerState, client: Client) {
    match client
    case WantRead => s.ready || AnyStopped(s) || Closing(s)
    case Reading => s.ready || AnyStopped(s)
    case Crashed => s.poisoned || AnyStopped(s)
    case _ => true
  }

  lemma StoppedStays(s: SchedulerState, step: Step)
    requires AnyStopped(s) && Enabled(s, step)
    ensures AnyStopped(Apply(s, step))
  {
    var u :| u in s.clients && s.clients[u].Stopped?;
    assert u in Apply(s, step).clients && Apply(s, step).clients[u].Stopped?;
  }

  lemma StepKeepsLaunched(s: SchedulerState, step: Step)
    requires LockInv(s) && ChannelInv(s) && StopInv(s) && Enabled(s, step)
    ensures var s' := Apply(s, step); s'.launched ==> s'.ready || AnyStopped(s') || Closing(s')
  {
    if AnyStopped(s) {
      StoppedStays(s, step);
    } else if step.Join? {
      assert Apply(s, step).clients[step.t].Stopped?;
    }
  }

  lemma StepKeepsStopKnown(s: SchedulerState, step: Step, t: ClientId)
    requires LockInv(s) && ChannelInv(s) && StopInv(s) && Enabled(s, step) && t in Apply(s, step).clients
    ensures StopKnown(Apply(s, step), Apply(s, step).clients[t])
  {
    var s' := Apply(s, step);
    if AnyStopped(s) {
      StoppedStays(s, step);
    } else if step.Join? {
      assert s'.clients[step.t].Stopped?;
    }
    if !step.Launch? && !step.Receive? && t != step.t {
      OthersStay(s, step, t);
    }
    assert t in s.clients ==> StopKnown(s, s.clients[t]);
  }

  lemma StepKeepsInv(s: SchedulerState, step: Step)
    requires Inv(s) && Enabled(s, step)
    ensures Inv(Apply(s, step))
  {
    StepKeepsLockInv(s, step);
    StepKeepsChannelInv(s, step);
    StepKeepsJobsInv(s, step);
    StepKeepsLaunched(s, step);
    forall t | t in Apply(s, step).clients ensures StopKnown(Apply(s, step), Apply(s, step).clients[t]) {
      StepKeepsStopKnown(s, step, t);
    }
  }

  // ---- Runs

  ghost predicate Next(s: SchedulerState, s': SchedulerState) {
    exists step :: Enabled(s, step) && s' == Apply(s, step)
  }

  ghost predicate IsRun(run: seq<SchedulerState>) {
    && run != []
    && run[0] == INITIAL
    && forall i :: 0 <= i < |run| - 1 ==> Next(run[i], run[i + 1])
  }

  ghost predicate Reachable(s: SchedulerState) {
    exists run: seq<SchedulerState> :: IsRun(run) && run[|run| - 1] == s
  }

  lemma {:induction false} RunKeepsInv(run: seq<SchedulerState>, i: nat)
    requires IsRun(run) && i < |run|
    ensures Inv(run[i])
  {
    if i > 0 {
      RunKeepsInv(run, i - 1);
      assert Next(run[i - 1], run[i - 1 + 1]);
      var step :| Enabled(run[i - 1], step) && run[i] == Apply(run[i - 1], step);
      StepKeepsInv(run[i - 1], step);
    }
  }

  lemma ReachableInv(s: SchedulerState)
    requires Reachable(s)
    ensures Inv(s)
  {
    var run: seq<SchedulerState> :| IsRun(run) && run[|run| - 1] == s;
    RunKeepsInv(run, |run| - 1);
  }

  lemma ReachableNext(s: SchedulerState, step: Step)
    requires Reachable(s) && Enabled(s, step)
    ensures Reachable(Apply(s, step))
  {
    var run: seq<SchedulerState> :| IsRun(run) && run[|run| - 1] == s;
    var longer := run + [Apply(s, step)];
    forall i | 0 <= i < |longer| - 1 ensures Next(longer[i], longer[i + 1]) {
      if i < |run| - 1 {
        assert Next(run[i], run[i + 1]);
      }
    }
    assert IsRun(longer) && longer[|longer| - 1] == Apply(s, step);
  }

  // Shutdown is the last message of its channel, whatever the submitters do.
  lemma ShutdownIsLast(s: SchedulerState, i: nat)
    requires Reachable(s) && i < |s.channel| && s.channel[i].Shutdown?
    ensures i == |s.channel| - 1
  {
    ReachableInv(s);
    if Closing(s) {
      assert forall j :: 0 <= j < |s.channel| - 1 ==> s.channel[..|s.channel| - 1][j] == s.channel[j];
    }
  }

  // Jobs are dispatched in the order they were accepted, each at most once; a send under the read
  // lock never fails.
  lemma DispatchOrder(s: SchedulerState)
    requires Reachable(s)
    ensures s.dispatched <= s.accepted
    ensures forall i, j :: 0 <= i < j < |s.dispatched| ==> s.dispatched[i] != s.dispatched[j]
    ensures forall t :: t in s.clients ==> !s.clients[t].SendFailed?
  {
    ReachableInv(s);
  }

  // When stop returns, every accepted job has been dispatched, the channel is empty and the
  // scheduler is not ready.
  lemma StopDrains(s: SchedulerState, t: ClientId)
    requires Reachable(s) && Enabled(s, Join(t))
    ensures var s' := Apply(s, Join(t));
            s'.channel == [] && !s'.ready && !s'.running && s'.dispatched == s'.accepted
  {
    ReachableInv(s);
  }

  // The answer to the question whether the scheduler is ready is true at that moment, and a client
  // goes on exactly if it is yes.
  lemma CheckIsTrue(s: SchedulerState, t: ClientId)
    requires Reachable(s) && Enabled(s, Check(t)) && !s.poisoned
    ensures Apply(s, Check(t)).clients[t] == WantRead <==> s.ready
    ensures Apply(s, Check(t)).clients[t] == NotReady <==> !s.ready
    ensures s.ready <==> s.running
  {
    ReachableInv(s);
  }

  // And then, unless a stop comes first, its job is accepted and next in line.
  lemma SubmitCanFinish(s: SchedulerState, t: ClientId) returns (s': SchedulerState)
    requires Reachable(s) && t in s.clients && s.clients[t].WantRead?
    requires s.ready && s.writer == None && !s.poisoned
    ensures Reachable(s') && t in s'.clients && s'.clients[t] == Submitted
    ensures s'.accepted == s.accepted + [t] && s'.channel == s.channel + [Task(t)] && s'.dispatched == s.dispatched
    ensures s'.readers == s.readers && s'.ready
  {
    ReachableInv(s);
    var s1 := Apply(s, AcquireRead(t));
    ReachableNext(s, AcquireRead(t));
    var s2 := Apply(s1, Send(t));
    ReachableNext(s1, Send(t));
    s' := Apply(s2, ReleaseRead(t));
    ReachableNext(s2, ReleaseRead(t));
  }

  // A client that was told "ready" can still crash at its send, exactly when the state is missing;
  // then a stop has come and gone since.
  lemma LateSubmitCrashes(s: SchedulerState, t: ClientId)
    requires Reachable(s) && Enabled(s, Send(t))
    ensures Apply(s, Send(t)).clients[t].Crashed? <==> !s.ready
    ensures !s.ready ==> AnyStopped(s)
    ensures s.ready ==> Apply(s, Send(t)).accepted == s.accepted + [t]
  {
    ReachableInv(s);
    assert StopKnown(s, s.clients[t]);
  }

  // In every run, whoever crashes does so after a completed stop, or on a poisoned lock.
  lemma CrashHasItsReasons(s: SchedulerState, t: ClientId)
    requires Reachable(s) && t in s.clients && s.clients[t].Crashed?
    ensures s.poisoned || AnyStopped(s)
  {
    ReachableInv(s);
    assert StopKnown(s, s.clients[t]);
  }

  // On a poisoned lock whoever asks, submits or stops next crashes, and nobody else does there.
  lemma PoisonedLockCrashes(s: SchedulerState, step: Step)
    requires Reachable(s) && Enabled(s, step)
    requires step.Check? || step.AcquireRead? || step.AcquireWrite?
    ensures Apply(s, step).clients[step.t].Crashed? <==> s.poisoned
    ensures s.poisoned ==> Apply(s, step) == s.(clients := s.clients[step.t := Crashed])
  {
  }

  // A stop poisons the lock exactly when it meets a missing state.
  lemma PoisonedExactlyWhen(s: SchedulerState, step: Step)
    requires Reachable(s) && Enabled(s, step) && !s.poisoned
    ensures Apply(s, step).poisoned <==> step.SendShutdown? && !s.ready
    ensures Apply(s, step).poisoned ==> Apply(s, step).clients[step.t].Crashed?
  {
    ReachableInv(s);
  }

  // ---- A stop can finish

  // A run in which nothing moves but the receive loop and the stop of client `t`.
  ghost predicate Leads(s: SchedulerState, s': SchedulerState, t: ClientId) {
    exists run: seq<SchedulerState> :: IsPath(run, t) && run[0] == s && run[|run| - 1] == s'
  }

  ghost predicate IsPath(run: seq<SchedulerState>, t: ClientId) {
    run != [] && forall i :: 0 <= i < |run| - 1 ==> StopStep(run[i], run[i + 1], t)
  }

  ghost predicate StopStep(s: SchedulerState, s': SchedulerState, t: ClientId) {
    exists step: Step ::
      (step.Receive? || step == TakeState(t) || step == Join(t)) && Enabled(s, step) && s' == Apply(s, step)
  }

  lemma LeadsNowhere(s: SchedulerState, t: ClientId)
    ensures Leads(s, s, t)
  {
    assert IsPath([s], t) && [s][0] == s;
  }

  lemma LeadsFirst(s: SchedulerState, step: Step, s': SchedulerState, t: ClientId)
    requires (step.Receive? || step == TakeState(t) || step == Join(t)) && Enabled(s, step)
    requires Leads(Apply(s, step), s', t)
    ensures Leads(s, s', t)
  {
    var run: seq<SchedulerState> :| IsPath(run, t) && run[0] == Apply(s, step) && run[|run| - 1] == s';
    var longer := [s] + run;
    forall i | 0 <= i < |longer| - 1 ensures StopStep(longer[i], longer[i + 1], t) {
      if i == 0 {
        assert StopStep(s, run[0], t);
      } else {
        assert StopStep(run[i - 1], run[i - 1 + 1], t);
      }
    }
    assert IsPath(longer, t) && longer[0] == s && longer[|longer| - 1] == s';
  }

  // A stop that has sent its message can always finish: the loop drains the channel.
  lemma {:induction false} StopCanFinish(s: SchedulerState, t: ClientId) returns (s': SchedulerState)
    requires Reachable(s) && t in s.clients && (s.clients[t].ShutdownSent? || s.clients[t].Joining?)
    ensures Reachable(s') && Leads(s, s', t)
    ensures t in s'.clients && s'.clients[t].Stopped? && s'.writer == None
    ensures s'.accepted == s.accepted == s'.dispatched && s'.channel == []
    decreases s.running, |s.channel|, s.ready
  {
    ReachableInv(s);
    var step := if s.running then Receive else if s.clients[t].ShutdownSent? then TakeState(t) else Join(t);
    var next := Apply(s, step);
    ReachableNext(s, step);
    if step.Join? {
      StopDrains(s, t);
      s' := next;
      LeadsNowhere(s', t);
    } else {
      s' := StopCanFinish(next, t);
    }
    LeadsFirst(s, step, s', t);
  }

  lemma LateSubmitIsPossible() returns (s: SchedulerState)
    ensures Reachable(s) && Enabled(s, Send(0)) && !s.ready
  {
    var s0 := INITIAL;
    assert IsRun([s0]) && [s0][0] == s0;
    var s1 := Apply(s0, Launch);
    ReachableNext(s0, Launch);
    var s2 := Apply(s1, SpawnSubmit(0));
    ReachableNext(s1, SpawnSubmit(0));
    var s3 := Apply(s2, Check(0));
    ReachableNext(s2, Check(0));
    var s9 := StopBy(s3, 1);
    s := Apply(s9, AcquireRead(0));
    ReachableNext(s9, AcquireRead(0));
  }

  // A client that stops a scheduler at rest, in two halves.
  lemma StopBy(s: SchedulerState, t: ClientId) returns (last: SchedulerState)
    requires Reachable(s) && s.ready && s.running && s.channel == []
    requires s.writer == None && s.readers == {} && !s.poisoned && t !in s.clients
    ensures Reachable(last)
    ensures last == s.(ready := false, running := false, clients := s.clients[t := Stopped])
  {
    var half := BeginStop(s, t);
    last := EndStop(half, t);
    assert half.clients[t := Stopped] == s.clients[t := Stopped];
  }

  lemma BeginStop(s: SchedulerState, t: ClientId) returns (half: SchedulerState)
    requires Reachable(s) && s.ready && s.running && s.channel == []
    requires s.writer == None && s.readers == {} && !s.poisoned && t !in s.clients
    ensures Reachable(half)
    ensures half == s.(clients := s.clients[t := ShutdownSent], writer := Some(t), channel := [Shutdown])
  {
    var s1 := Apply(s, SpawnStop(t));
    ReachableNext(s, SpawnStop(t));
    var s2 := Apply(s1, AcquireWrite(t));
    ReachableNext(s1, AcquireWrite(t));
    half := Apply(s2, SendShutdown(t));
    ReachableNext(s2, SendShutdown(t));
    assert half.clients == s.clients[t := ShutdownSent];
  }

  lemma EndStop(s: SchedulerState, t: ClientId) returns (last: SchedulerState)
    requires Reachable(s) && s.running && s.channel == [Shutdown]
    requires t in s.clients && s.clients[t] == ShutdownSent && s.writer == Some(t)
    ensures Reachable(last)
    ensures last == s.(ready := false, running := false, channel := [], writer := None,
                       clients := s.clients[t := Stopped])
  {
    var s1 := Apply(s, Receive);
    ReachableNext(s, Receive);
    var s2 := Apply(s1, TakeState(t));
    ReachableNext(s1, TakeState(t));
    last := Apply(s2, Join(t));
    ReachableNext(s2, Join(t));
    assert last.clients == s.clients[t := Stopped];
  }
}
