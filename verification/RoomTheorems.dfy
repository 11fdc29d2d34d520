/**
 What holds in every reachable state of the room session, over all interleavings of its threads.
 */
module RoomTheorems {
  import opened Options
  import opened RoomProtocol
  import opened RoomInvariant

  // ----- one step -----

  lemma WorkerKeeps(s: State, a: Answer)
    requires Inv(s) && s.workerCall.NoCall? && WorkerNext(s, a).Some?
    ensures Inv(WorkerNext(s, a).value)
  {
    hide Inv, JoinNext, PollNext, LeaveNext;
    match s.worker {
      case JoinStart => JoinBegins(s, a);
      case CreateHost => JoinBegins(s, a);
      case ClearImmediate => JoinResolves(s, a);
      case Resolve => JoinResolves(s, a);
      case Connect => JoinConnects(s, a);
      case Service => JoinConnects(s, a);
      case StartLoop => JoinStartsLoop(s, a);
      case SendJoinRequest => JoinSendsRequest(s, a);
      case SendGameInfo => JoinSendsGameInfo(s, a);
      case Report(_, _) => RunReports(s, a);
      case Poll => RunPolls(s, a);
      case PollConnected => RunPolls(s, a);
      case PollDeadline => RunPolls(s, a);
      case Timeout => RunRecordsError(s, a);
      case Catch => RunRecordsError(s, a);
      case LeaveStart(_) => LeaveBegins(s);
      case LeaveJoin(_) => LeaveJoins(s);
      case LeaveDestroy(_) => LeaveDestroys(s);
      case LeaveClear(_) => LeaveClears(s);
      case Publish => RunEnds(s);
      case StoreFinished => RunEnds(s);
      case _ =>
    }
  }

  lemma LoopKeeps(s: State, e: NetEvent)
    requires Inv(s) && s.loopCall.NoCall? && LoopNext(s, e).Some?
    ensures Inv(LoopNext(s, e).value)
  {
    NoLoopNoStep(s, e);
    hide Inv, LoopNext;
    match s.loop {
      case LoopCheck => LoopEnters(s, e);
      case LoopLock => LoopEnters(s, e);
      case LoopService => LoopHandles(s, e);
      case LoopThenError(_) => LoopReports(s, e);
      case LoopSwap => LoopSwaps(s, e);
      case LoopSend => LoopSends(s, e);
      case LoopUnlock => LoopUnlocks(s, e);
      case LoopDisconnect => LoopCloses(s, e);
      case LoopClose => LoopCloses(s, e);
      case _ =>
    }
  }

  lemma NoLoopNoStep(s: State, e: NetEvent)
    requires s.loopCall.NoCall? && LoopNext(s, e).Some?
    ensures !s.loop.NoLoop? && !s.loop.LoopExited?
  {
  }

  lemma CallKeeps(s: State, t: Thread)
    requires t != Api && Inv(s) && CallNext(s, t).Some?
    ensures Inv(CallNext(s, t).value)
  {
    NoCallNoStep(s, t);
    hide Inv, CallNext;
    match CallOf(s, t) {
      case SetCheck(_) => CallSets(s, t);
      case SetStore(_) => CallSets(s, t);
      case SetLoad => CallInvokes(s, t);
      case InvokeLock(_) => CallInvokes(s, t);
      case CallbackLock(_) => CallbackEnters(s, t);
      case CallbackCheck(_) => CallbackEnters(s, t);
      case CallbackWrite(_) => CallbackWrites(s, t);
      case CallbackUnlock => CallReturns(s, t);
      case InvokeUnlock => CallReturns(s, t);
      case NoCall =>
    }
  }

  lemma NoCallNoStep(s: State, t: Thread)
    requires t != Api && CallNext(s, t).Some?
    ensures !CallOf(s, t).NoCall?
  {
  }

  lemma ApiKeeps(s: State, a: Answer)
    requires Inv(s) && ApiNext(s, a).Some?
    ensures Inv(ApiNext(s, a).value)
  {
    hide Inv, LifecycleNext, JoinRoomNext, LeaveRoomNext;
    match s.api {
      case InitMember => InitializeSteps(s, a);
      case InitBind => InitializeSteps(s, a);
      case InitFailed => InitializeSteps(s, a);
      case StopWorker(_) => WorkerStops(s, a);
      case AwaitWorker(_) => WorkerAwaits(s, a);
      case PublishReady => LifecyclePublishes(s, a);
      case PublishStopped(_) => LifecyclePublishes(s, a);
      case Unbind => ShutdownReleases(s, a);
      case ResetMember => ShutdownReleases(s, a);
      case CheckReady => JoinChecks(s, a);
      case CheckFinished => JoinChecks(s, a);
      case ReapWorker => JoinReaps(s, a);
      case ClearCancel => JoinReaps(s, a);
      case PublishJoining => JoinPublishes(s, a);
      case ClearFinished => JoinPublishes(s, a);
      case Spawn => JoinSpawns(s, a);
      case SpawnFailed => JoinSpawnFails(s, a);
      case PublishSpawnFailed => JoinSpawnFails(s, a);
      case LeaveLock => LeaveRoomChecks(s);
      case LeaveCheck => LeaveRoomChecks(s);
      case LeaveWrite => LeaveRoomWrites(s);
      case LeaveUnlock => LeaveRoomWrites(s);
      case Free =>
    }
  }

  /** Whatever any thread does next, the invariant survives it. */
  lemma StepKeepsInv(s: State, a: Action)
    requires Inv(s) && Step(s, a).Some?
    ensures Inv(Step(s, a).value)
  {
    hide Inv, ApiStart, ApiNext, WorkerNext, LoopNext, CallNext, Push;
    match a {
      case Begin(op) =>
        match op {
          case Initialize => InitializeBegins(s, op);
          case GameReady => InitializeBegins(s, op);
          case GameStopped => StopBegins(s, op);
          case Shutdown => StopBegins(s, op);
          case JoinRoom => RoomCallBegins(s, op);
          case LeaveRoom => RoomCallBegins(s, op);
        }
      case ApiMoves(answer) => ApiKeeps(s, answer);
      case WorkerMoves(answer) => if s.workerCall.NoCall? { WorkerKeeps(s, answer); } else { CallKeeps(s, Worker); }
      case LoopMoves(event) => if s.loopCall.NoCall? { LoopKeeps(s, event); } else { CallKeeps(s, Loop); }
      case EmulationPushes(p) => EmulationKeeps(s, p);
    }
  }

  // ----- all runs -----

  /** The state after a sequence of actions, if all of them are possible in turn. */
  function After(s: State, actions: seq<Action>): (r: Option<State>)
    decreases actions
  {
    if actions == [] then Some(s)
    else
      match Step(s, actions[0])
      case None => None
      case Some(next) => After(next, actions[1..])
  }

  ghost predicate Reachable(s: State) {
    exists actions :: After(Initial(), actions) == Some(s)
  }

  lemma {:induction false} RunKeepsInv(s: State, actions: seq<Action>)
    requires Inv(s) && After(s, actions).Some?
    ensures Inv(After(s, actions).value)
    decreases actions
  {
    hide Inv, Step;
    if actions != [] {
      StepKeepsInv(s, actions[0]);
      RunKeepsInv(Step(s, actions[0]).value, actions[1..]);
    }
  }

  lemma ReachableInv(s: State)
    requires Reachable(s)
    ensures Inv(s)
  {
    hide Inv, After;
    var actions :| After(Initial(), actions) == Some(s);
    InitialInv();
    RunKeepsInv(Initial(), actions);
  }

  lemma {:induction false} AfterConcat(s: State, xs: seq<Action>, ys: seq<Action>)
    requires After(s, xs).Some?
    ensures After(s, xs + ys) == After(After(s, xs).value, ys)
    decreases xs
  {
    hide Step;
    if xs == [] {
      assert xs + ys == ys;
    } else {
      assert (xs + ys)[1..] == xs[1..] + ys;
      AfterConcat(Step(s, xs[0]).value, xs[1..], ys);
    }
  }

  lemma ReachableNext(s: State, a: Action)
    requires Reachable(s) && Step(s, a).Some?
    ensures Reachable(Step(s, a).value)
  {
    hide Step;
    var actions :| After(Initial(), actions) == Some(s);
    AfterConcat(Initial(), actions, [a]);
    assert [a][1..] == [];
  }

  // ----- safety -----

  /** No run terminates the process by a misused thread, follows a null pointer or frees what is in use. */
  lemma NeverFaults(s: State)
    requires Reachable(s)
    ensures !s.fault
  {
    ReachableInv(s);
  }

  /** Once the snapshot says idle or offline, the transport is gone and nobody is left in the member list. */
  lemma IdleMeansReleased(s: State)
    requires Reachable(s) && (s.session.snapshot.state == ShownIdle || s.session.snapshot.state == Offline)
    ensures s.loop.NoLoop? && !s.room.client && !s.room.server && s.room.state == Idle
    ensures s.session.snapshot.members == []
  {
    ReachableInv(s);
    hide LockInv, MemberInv, FinishedInv, CancelInv, QueueInv, CallInv;
  }

  /** Between two calls of the session's functions, `finished` means that no room is shown. */
  lemma FinishedMeansQuiet(s: State)
    requires Reachable(s) && s.api.Free? && s.session.finished
    ensures s.session.snapshot.members == [] && !ShowsSession(s.session.snapshot.state)
    ensures s.loop.NoLoop? && !s.room.client && !s.room.server && s.room.state == Idle
  {
    ReachableInv(s);
    hide LockInv, MemberInv, CancelInv, QueueInv, CallInv;
  }

  /** A network thread exists only inside a `Run` that has not stored `finished`, and it always has its transport. */
  lemma LoopOnlyWithinRun(s: State)
    requires Reachable(s) && !s.loop.NoLoop?
    ensures Busy(s.worker) && !s.session.finished && s.room.client
    ensures !s.loop.LoopExited? ==> s.room.server
  {
    ReachableInv(s);
    hide LockInv, MemberInv, StateInv, SnapshotInv, CancelInv, QueueInv;
  }

  /** `Leave` returns with the member idle, no thread, no transport and nothing queued. */
  lemma LeaveReturnsClean(s: State)
    requires Reachable(s) && s.worker.LeaveClear? && s.workerCall.NoCall?
    ensures var t := LeaveNext(s).value;
            && t.room.state == Idle && t.loop.NoLoop? && !t.room.client && !t.room.server
            && t.queue == Queue([], [], [], [])
  {
    ReachableInv(s);
    hide LockInv, MemberInv, SnapshotInv, FinishedInv, CancelInv;
  }

  /** The peer receives what was queued since the last clear: in order, nothing lost, nothing twice. */
  lemma PacketsInOrder(s: State)
    requires Reachable(s)
    ensures s.queue.sent <= s.queue.pushed
    ensures s.queue.pushed[|s.queue.sent|..] == s.queue.batch + s.queue.sendList
    ensures !s.loop.LoopSend? ==> s.queue.pushed == s.queue.sent + s.queue.sendList
  {
    hide *;
    ReachableInv(s);
    QueueKept(s);
    QueueInParts(s.queue, s.loop.LoopSend?);
  }

  lemma QueueKept(s: State)
    requires Inv(s)
    ensures QueueInv(s.queue, s.loop.LoopSend?)
  {
    hide LockInv, CallInv, TransportInv, MemberInv, StateInv, SnapshotInv, FinishedInv, CancelInv, QueueInv;
  }

  lemma QueueInParts(q: Queue, sending: bool)
    requires QueueInv(q, sending)
    ensures q.sent <= q.pushed && q.pushed[|q.sent|..] == q.batch + q.sendList
    ensures !sending ==> q.pushed == q.sent + q.sendList
  {
    assert q.pushed == q.sent + (q.batch + q.sendList);
  }

  // ----- nothing reappears after a leave -----

  predicate LeaveReturns(s: State, a: Action) {
    a.ApiMoves? && s.api.LeaveUnlock?
  }

  /** A later join passes its `ready` and `finished` checks. */
  predicate AcceptsJoin(s: State, a: Action) {
    a.ApiMoves? && s.api.CheckFinished? && s.session.finished
  }

  predicate NoJoinAccepted(s: State, actions: seq<Action>)
    decreases actions
  {
    actions != [] ==>
      && !AcceptsJoin(s, actions[0])
      && (Step(s, actions[0]).Some? ==> NoJoinAccepted(Step(s, actions[0]).value, actions[1..]))
  }

  /** Cancelled, no room shown, and no callback already past its check of `cancel`. */
  predicate Quiet(s: State) {
    && s.session.cancel && !ShowsSession(s.session.snapshot.state) && !JoinAccepted(s.api)
    && !s.workerCall.CallbackWrite? && !s.loopCall.CallbackWrite?
  }

  lemma QuietWorker(s: State, a: Answer)
    requires Quiet(s) && s.workerCall.NoCall? && WorkerNext(s, a).Some?
    ensures Quiet(WorkerNext(s, a).value)
  {
    hide Quiet, JoinNext, PollNext, LeaveNext;
    if InJoin(s.worker) {
      QuietJoin(s, a);
    } else if InPoll(s.worker) {
      QuietPoll(s, a);
    } else {
      QuietLeave(s);
    }
  }

  lemma QuietJoin(s: State, a: Answer)
    requires Quiet(s) && s.workerCall.NoCall? && InJoin(s.worker) && JoinNext(s, a).Some?
    ensures Quiet(JoinNext(s, a).value)
  {
  }

  lemma QuietPoll(s: State, a: Answer)
    requires Quiet(s) && s.workerCall.NoCall? && InPoll(s.worker) && PollNext(s, a).Some?
    ensures Quiet(PollNext(s, a).value)
  {
  }

  lemma QuietLeave(s: State)
    requires Quiet(s) && s.workerCall.NoCall? && InLeave(s.worker) && LeaveNext(s).Some?
    ensures Quiet(LeaveNext(s).value)
  {
  }

  lemma QuietApi(s: State, a: Answer)
    requires Quiet(s) && ApiNext(s, a).Some? && !AcceptsJoin(s, ApiMoves(a))
    ensures Quiet(ApiNext(s, a).value)
  {
    hide Quiet, LifecycleNext, JoinRoomNext, LeaveRoomNext;
    if InLifecycle(s.api) {
      QuietLifecycle(s, a);
    } else if InJoinRoom(s.api) {
      QuietRefusal(s, a);
    } else {
      QuietLeaveRoom(s);
    }
  }

  lemma QuietLifecycle(s: State, a: Answer)
    requires Quiet(s) && InLifecycle(s.api) && LifecycleNext(s, a).Some?
    ensures Quiet(LifecycleNext(s, a).value)
  {
  }

  lemma QuietRefusal(s: State, a: Answer)
    requires Quiet(s) && InJoinRoom(s.api) && JoinRoomNext(s, a).Some? && !AcceptsJoin(s, ApiMoves(a))
    ensures Quiet(JoinRoomNext(s, a).value)
  {
  }

  lemma QuietLeaveRoom(s: State)
    requires Quiet(s) && InLeaveRoom(s.api) && LeaveRoomNext(s).Some?
    ensures Quiet(LeaveRoomNext(s).value)
  {
  }

  lemma QuietKept(s: State, a: Action)
    requires Quiet(s) && Step(s, a).Some? && !AcceptsJoin(s, a)
    ensures Quiet(Step(s, a).value)
  {
    hide JoinNext, PollNext, LeaveNext, LifecycleNext, JoinRoomNext, LeaveRoomNext, Quiet;
    match a {
      case Begin(op) => QuietBegins(s, op);
      case ApiMoves(answer) => QuietApi(s, answer);
      case WorkerMoves(answer) => if s.workerCall.NoCall? { QuietWorker(s, answer); } else { QuietCall(s, Worker); }
      case LoopMoves(event) => if s.loopCall.NoCall? { QuietLoop(s, event); } else { QuietCall(s, Loop); }
      case EmulationPushes(p) => QuietPush(s, p);
    }
  }

  lemma QuietBegins(s: State, op: Op)
    requires Quiet(s) && s.api.Free?
    ensures Quiet(ApiStart(s, op))
  {
  }

  lemma QuietCall(s: State, t: Thread)
    requires Quiet(s) && t != Api && CallNext(s, t).Some?
    ensures Quiet(CallNext(s, t).value)
  {
  }

  lemma QuietLoop(s: State, e: NetEvent)
    requires Quiet(s) && s.loopCall.NoCall? && LoopNext(s, e).Some?
    ensures Quiet(LoopNext(s, e).value)
  {
  }

  lemma QuietPush(s: State, p: Packet)
    requires Quiet(s)
    ensures Quiet(Push(s, p))
  {
  }

  lemma {:induction false} QuietRun(s: State, actions: seq<Action>)
    requires Quiet(s) && NoJoinAccepted(s, actions) && After(s, actions).Some?
    ensures Quiet(After(s, actions).value)
    decreases actions
  {
    hide Quiet, Step, AcceptsJoin;
    if actions != [] {
      QuietKept(s, actions[0]);
      QuietRun(Step(s, actions[0]).value, actions[1..]);
    }
  }

  /**
   After `retro_azahar_room_leave` returns, no continuation shows a room as joining or joined until a
   later join is accepted, whatever callbacks were in flight.
   */
  lemma NothingReappearsAfterLeave(s: State, a: Action, later: seq<Action>)
    requires Reachable(s) && LeaveReturns(s, a) && Step(s, a).Some?
    requires NoJoinAccepted(Step(s, a).value, later) && After(Step(s, a).value, later).Some?
    ensures !ShowsSession(After(Step(s, a).value, later).value.session.snapshot.state)
  {
    ReachableInv(s);
    LeaveReturnIsQuiet(s, a);
    QuietRun(Step(s, a).value, later);
  }

  lemma LeaveReturnIsQuiet(s: State, a: Action)
    requires Inv(s) && LeaveReturns(s, a) && Step(s, a).Some?
    ensures Quiet(Step(s, a).value)
  {
    hide CallInv, TransportInv, MemberInv, StateInv, SnapshotInv, FinishedInv, QueueInv;
  }
}
