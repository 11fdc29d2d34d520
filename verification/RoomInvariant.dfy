/**
 The inductive invariant of the room session: it holds initially and every step of every thread
 keeps it.
 */
module RoomInvariant {
  import opened Options
  import opened RoomProtocol

  // ----- who holds what -----

  predicate HoldsCallback(c: Call) {
    c.CallbackLock? || c.CallbackCheck? || c.CallbackWrite? || c.CallbackUnlock? || c.InvokeUnlock?
  }

  predicate HoldsSnapshot(c: Call) {
    c.CallbackCheck? || c.CallbackWrite? || c.CallbackUnlock?
  }

  predicate ApiHoldsSnapshot(pc: ApiPc) {
    pc.LeaveCheck? || pc.LeaveWrite? || pc.LeaveUnlock?
  }

  predicate HoldsNetwork(pc: LoopPc) {
    pc.LoopService? || pc.LoopThenError? || pc.LoopSwap? || pc.LoopSend? || pc.LoopUnlock?
  }

  /** Each mutex is owned by exactly the thread that is inside its critical section. */
  predicate LockInv(k: Locks, worker: Call, loop: Call, api: bool, network: bool) {
    && (k.callback == Some(Worker) <==> HoldsCallback(worker))
    && (k.callback == Some(Loop) <==> HoldsCallback(loop))
    && k.callback != Some(Api)
    && (k.snapshot == Some(Worker) <==> HoldsSnapshot(worker))
    && (k.snapshot == Some(Loop) <==> HoldsSnapshot(loop))
    && (k.snapshot == Some(Api) <==> api)
    && (k.network <==> network)
  }

  // ----- which threads exist, and what they may use -----

  /** The parts of `Run` during which a network thread may exist. */
  predicate MayHaveLoop(pc: WorkerPc) {
    || pc.SendJoinRequest? || pc.SendGameInfo? || pc.Poll? || pc.PollConnected? || pc.PollDeadline?
    || pc.Timeout? || pc.Catch? || pc == LeaveStart(ToPublish) || pc == LeaveJoin(ToPublish)
  }

  /** The points at which the worker may be inside `SetState` or `Invoke`. */
  predicate MayCall(pc: WorkerPc) {
    pc.Resolve? || pc.Report? || pc.LeaveJoin? || pc == LeaveStart(ToPoll) || pc.Poll?
  }

  predicate CallInv(worker: WorkerPc, workerCall: Call, loop: LoopPc, loopCall: Call) {
    && (!loop.NoLoop? ==> MayHaveLoop(worker))
    && (!workerCall.NoCall? ==> MayCall(worker))
    && (!workerCall.NoCall? && !loop.NoLoop? ==> worker.LeaveJoin?)
    && (!loopCall.NoCall? ==> loop.LoopSwap? || loop.LoopThenError?)
  }

  /** The parts of `Run` that own no transport: before it is created and after it is destroyed. */
  predicate NoTransport(pc: WorkerPc) {
    || pc.NoWorker? || pc.JoinStart? || pc.CreateHost? || pc.LeaveClear?
    || pc.Publish? || pc.StoreFinished? || pc.Exited?
  }

  predicate NeedsHost(pc: WorkerPc) {
    pc.ClearImmediate? || pc.Resolve? || pc.Connect? || pc.Service? || pc.StartLoop?
  }

  predicate NeedsPeer(pc: WorkerPc) {
    pc.Service? || pc.StartLoop?
  }

  predicate TransportInv(worker: WorkerPc, loop: LoopPc, client: bool, server: bool) {
    && (!loop.NoLoop? ==> client)
    && (!loop.NoLoop? && !loop.LoopExited? ==> server)
    && (NoTransport(worker) ==> !client && !server)
    && (NeedsHost(worker) ==> client)
    && (NeedsPeer(worker) ==> server)
  }

  // ----- the member -----

  /** A join in progress that has passed its `ready` and `finished` checks. */
  predicate JoinAccepted(pc: ApiPc) {
    || pc.ReapWorker? || pc.ClearCancel? || pc.PublishJoining? || pc.ClearFinished? || pc.Spawn?
    || pc.SpawnFailed? || pc.PublishSpawnFailed?
  }

  /** The operation has waited for the worker, so there is none. */
  predicate WorkerAwaited(pc: ApiPc) {
    || pc.PublishReady? || pc.PublishStopped? || pc.Unbind? || pc.ResetMember?
    || (JoinAccepted(pc) && !pc.ReapWorker?)
  }

  predicate Stopping(pc: ApiPc) {
    || (pc.StopWorker? && !pc.op.GameReady?) || (pc.AwaitWorker? && !pc.op.GameReady?)
    || pc.PublishStopped? || pc.Unbind? || pc.ResetMember?
  }

  /** The session member exists, with its callbacks bound, whenever anything uses it. */
  predicate MemberInv(member: bool, bound: bool, ready: bool, worker: bool, api: ApiPc) {
    && (worker || ready ==> member && bound)
    && (bound ==> member)
    && (WorkerAwaited(api) ==> !worker)
    && (Stopping(api) ==> !ready)
    && (api.CheckFinished? || JoinAccepted(api) ==> ready)
    && (api == StopWorker(GameReady) || api == AwaitWorker(GameReady) ==> bound)
    && (api.Unbind? || api.InitBind? ==> member)
    && (api.InitMember? || api.InitBind? || api.InitFailed? || api.ResetMember? ==> !bound)
  }

  // ----- the member state -----

  /** After these points of `Run`, without a network thread, the member is idle. */
  predicate LeftIdle(pc: WorkerPc, c: Call) {
    || NoTransport(pc) || pc.LeaveDestroy?
    || (pc.LeaveJoin? && !c.SetCheck? && !c.SetStore?)
  }

  predicate StateInv(state: MemberState, worker: WorkerPc, workerCall: Call, loop: LoopPc) {
    && (loop.LoopDisconnect? || loop.LoopClose? || loop.LoopExited? ==> state == Idle)
    && (loop.NoLoop? && LeftIdle(worker, workerCall) ==> state == Idle)
    && (worker.LeaveJoin? && (workerCall.SetCheck? || workerCall.SetStore?) ==> workerCall.target == Idle)
  }

  // ----- the snapshot -----

  /** The worker is running and has not yet published that it is done. */
  predicate Busy(pc: WorkerPc) {
    !pc.NoWorker? && !pc.StoreFinished? && !pc.Exited?
  }

  predicate Unfinished(pc: WorkerPc) {
    !pc.NoWorker? && !pc.Exited?
  }

  predicate ShowsSession(shown: Shown) {
    shown == ShownJoining || shown == ShownJoined
  }

  predicate JoinPublished(pc: ApiPc) {
    pc.ClearFinished? || pc.Spawn? || pc.SpawnFailed? || pc.PublishSpawnFailed?
  }

  predicate SnapshotInv(snapshot: Snapshot, busy: bool, published: bool) {
    && (busy ==> snapshot.state == Leaving || ShowsSession(snapshot.state))
    && (!busy && !published ==> !ShowsSession(snapshot.state) && snapshot.members == [])
    && (published ==> snapshot.state == ShownJoining && snapshot.members == [])
    && |snapshot.members| <= MAX_MEMBERS
  }

  predicate FinishedInv(finished: bool, unfinished: bool, api: ApiPc) {
    finished <==> !unfinished && !api.Spawn? && !api.SpawnFailed?
  }

  predicate CancelInv(cancel: bool, shown: Shown, api: ApiPc) {
    && (api.LeaveLock? || ApiHoldsSnapshot(api) || api.AwaitWorker? ==> cancel)
    && (api.LeaveUnlock? ==> !ShowsSession(shown))
  }

  // ----- the send list -----

  predicate QueueInv(q: Queue, sending: bool) {
    && q.pushed == q.sent + q.batch + q.sendList
    && (q.batch != [] ==> sending)
  }

  predicate Inv(s: State) {
    && LockInv(s.locks, s.workerCall, s.loopCall, ApiHoldsSnapshot(s.api), HoldsNetwork(s.loop))
    && CallInv(s.worker, s.workerCall, s.loop, s.loopCall)
    && TransportInv(s.worker, s.loop, s.room.client, s.room.server)
    && MemberInv(s.session.member, s.session.bound, s.session.ready, !s.worker.NoWorker?, s.api)
    && StateInv(s.room.state, s.worker, s.workerCall, s.loop)
    && SnapshotInv(s.session.snapshot, Busy(s.worker), JoinPublished(s.api))
    && FinishedInv(s.session.finished, Unfinished(s.worker), s.api)
    && CancelInv(s.session.cancel, s.session.snapshot.state, s.api)
    && QueueInv(s.queue, s.loop.LoopSend?)
    && !s.fault
  }

  lemma InitialInv()
    ensures Inv(Initial())
  {
    hide LockInv, CallInv, TransportInv, MemberInv, StateInv;
    InitialThreads();
  }

  lemma InitialThreads()
    ensures var s := Initial();
            && LockInv(s.locks, s.workerCall, s.loopCall, ApiHoldsSnapshot(s.api), HoldsNetwork(s.loop))
            && CallInv(s.worker, s.workerCall, s.loop, s.loopCall)
            && TransportInv(s.worker, s.loop, s.room.client, s.room.server)
            && MemberInv(s.session.member, s.session.bound, s.session.ready, !s.worker.NoWorker?, s.api)
            && StateInv(s.room.state, s.worker, s.workerCall, s.loop)
  {
  }

  // ----- the worker -----

  lemma JoinBegins(s: State, a: Answer)
    requires Inv(s) && s.workerCall.NoCall? && (s.worker.JoinStart? || s.worker.CreateHost?) && JoinNext(s, a).Some?
    ensures Inv(JoinNext(s, a).value)
  {
    hide SnapshotInv, FinishedInv, CancelInv, QueueInv;
  }

  lemma JoinResolves(s: State, a: Answer)
    requires Inv(s) && s.workerCall.NoCall? && (s.worker.ClearImmediate? || s.worker.Resolve?) && JoinNext(s, a).Some?
    ensures Inv(JoinNext(s, a).value)
  {
    hide MemberInv, SnapshotInv, FinishedInv, CancelInv, QueueInv;
  }

  lemma JoinConnects(s: State, a: Answer)
    requires Inv(s) && s.workerCall.NoCall? && (s.worker.Connect? || s.worker.Service?) && JoinNext(s, a).Some?
    ensures Inv(JoinNext(s, a).value)
  {
    hide MemberInv, SnapshotInv, FinishedInv, CancelInv, QueueInv;
  }

  lemma JoinStartsLoop(s: State, a: Answer)
    requires Inv(s) && s.workerCall.NoCall? && s.worker.StartLoop? && JoinNext(s, a).Some?
    ensures Inv(JoinNext(s, a).value)
  {
    hide MemberInv, SnapshotInv, FinishedInv, CancelInv, QueueInv;
  }

  lemma JoinSendsRequest(s: State, a: Answer)
    requires Inv(s) && s.workerCall.NoCall? && s.worker.SendJoinRequest? && JoinNext(s, a).Some?
    ensures Inv(JoinNext(s, a).value)
  {
    hide LockInv, MemberInv, SnapshotInv, FinishedInv, CancelInv, QueueInv;
    PushedAtTheEnd(s, JOIN_REQUEST);
  }

  lemma JoinSendsGameInfo(s: State, a: Answer)
    requires Inv(s) && s.workerCall.NoCall? && s.worker.SendGameInfo? && JoinNext(s, a).Some?
    ensures Inv(JoinNext(s, a).value)
  {
    hide LockInv, MemberInv, SnapshotInv, FinishedInv, CancelInv, QueueInv;
    PushedAtTheEnd(s, GAME_INFO);
  }

  lemma PushedAtTheEnd(s: State, p: Packet)
    requires QueueInv(s.queue, s.loop.LoopSend?)
    ensures QueueInv(Push(s, p).queue, s.loop.LoopSend?)
  {
    var q := s.queue;
    assert q.sent + q.batch + (q.sendList + [p]) == q.sent + q.batch + q.sendList + [p];
  }

  lemma RunReports(s: State, a: Answer)
    requires Inv(s) && s.workerCall.NoCall? && s.worker.Report? && PollNext(s, a).Some?
    ensures Inv(PollNext(s, a).value)
  {
    hide MemberInv, SnapshotInv, FinishedInv, CancelInv, QueueInv;
  }

  lemma RunPolls(s: State, a: Answer)
    requires Inv(s) && s.workerCall.NoCall? && (s.worker.Poll? || s.worker.PollConnected? || s.worker.PollDeadline?)
        && PollNext(s, a).Some?
    ensures Inv(PollNext(s, a).value)
  {
    hide LockInv, MemberInv, SnapshotInv, FinishedInv, CancelInv, QueueInv;
  }

  lemma RunRecordsError(s: State, a: Answer)
    requires Inv(s) && s.workerCall.NoCall? && (s.worker.Timeout? || s.worker.Catch?) && PollNext(s, a).Some?
    ensures Inv(PollNext(s, a).value)
  {
    hide LockInv, MemberInv, FinishedInv, CancelInv, QueueInv;
  }

  lemma LeaveBegins(s: State)
    requires Inv(s) && s.workerCall.NoCall? && s.worker.LeaveStart? && LeaveNext(s).Some?
    ensures Inv(LeaveNext(s).value)
  {
    hide SnapshotInv, FinishedInv, CancelInv, QueueInv;
  }

  lemma LeaveJoins(s: State)
    requires Inv(s) && s.workerCall.NoCall? && s.worker.LeaveJoin? && LeaveNext(s).Some?
    ensures Inv(LeaveNext(s).value)
  {
    hide MemberInv, SnapshotInv, FinishedInv, CancelInv;
  }

  lemma LeaveDestroys(s: State)
    requires Inv(s) && s.workerCall.NoCall? && s.worker.LeaveDestroy? && LeaveNext(s).Some?
    ensures Inv(LeaveNext(s).value)
  {
    hide LockInv, MemberInv, SnapshotInv, FinishedInv, CancelInv, QueueInv;
  }

  lemma LeaveClears(s: State)
    requires Inv(s) && s.workerCall.NoCall? && s.worker.LeaveClear? && LeaveNext(s).Some?
    ensures Inv(LeaveNext(s).value)
  {
    hide MemberInv, SnapshotInv, FinishedInv, CancelInv;
  }

  lemma RunEnds(s: State)
    requires Inv(s) && s.workerCall.NoCall? && (s.worker.Publish? || s.worker.StoreFinished?) && LeaveNext(s).Some?
    ensures Inv(LeaveNext(s).value)
  {
    hide LockInv, QueueInv;
  }

  // ----- the network thread -----

  lemma LoopEnters(s: State, e: NetEvent)
    requires Inv(s) && s.loopCall.NoCall? && (s.loop.LoopCheck? || s.loop.LoopLock?) && LoopNext(s, e).Some?
    ensures Inv(LoopNext(s, e).value)
  {
    hide MemberInv, SnapshotInv, FinishedInv, CancelInv, QueueInv;
  }

  lemma LoopHandles(s: State, e: NetEvent)
    requires Inv(s) && s.loopCall.NoCall? && s.loop.LoopService? && LoopNext(s, e).Some?
    ensures Inv(LoopNext(s, e).value)
  {
    hide MemberInv, SnapshotInv, FinishedInv, CancelInv, QueueInv;
  }

  lemma LoopReports(s: State, e: NetEvent)
    requires Inv(s) && s.loopCall.NoCall? && s.loop.LoopThenError? && LoopNext(s, e).Some?
    ensures Inv(LoopNext(s, e).value)
  {
    hide MemberInv, SnapshotInv, FinishedInv, CancelInv, QueueInv;
  }

  lemma LoopSwaps(s: State, e: NetEvent)
    requires Inv(s) && s.loopCall.NoCall? && s.loop.LoopSwap? && LoopNext(s, e).Some?
    ensures Inv(LoopNext(s, e).value)
  {
    hide LockInv, MemberInv, SnapshotInv, FinishedInv, CancelInv;
  }

  lemma LoopUnlocks(s: State, e: NetEvent)
    requires Inv(s) && s.loopCall.NoCall? && s.loop.LoopUnlock? && LoopNext(s, e).Some?
    ensures Inv(LoopNext(s, e).value)
  {
    hide MemberInv, SnapshotInv, FinishedInv, CancelInv, QueueInv;
  }

  lemma LoopCloses(s: State, e: NetEvent)
    requires Inv(s) && s.loopCall.NoCall? && (s.loop.LoopDisconnect? || s.loop.LoopClose?) && LoopNext(s, e).Some?
    ensures Inv(LoopNext(s, e).value)
  {
    hide LockInv, MemberInv, SnapshotInv, FinishedInv, CancelInv, QueueInv;
  }

  lemma LoopSends(s: State, e: NetEvent)
    requires Inv(s) && s.loopCall.NoCall? && s.loop.LoopSend? && LoopNext(s, e).Some?
    ensures Inv(LoopNext(s, e).value)
  {
    hide LockInv, MemberInv, SnapshotInv, FinishedInv, CancelInv, QueueInv;
    HandOver(s.queue);
  }

  lemma HandOver(q: Queue)
    requires QueueInv(q, true)
    ensures q.batch == [] ==> QueueInv(q, false)
    ensures q.batch != [] ==> QueueInv(q.(sent := q.sent + [q.batch[0]], batch := q.batch[1..]), true)
  {
    if q.batch != [] {
      assert q.sent + q.batch == (q.sent + [q.batch[0]]) + q.batch[1..];
    }
  }

  // ----- SetState, Invoke and the callbacks -----

  lemma CallSets(s: State, t: Thread)
    requires t != Api && Inv(s) && (CallOf(s, t).SetCheck? || CallOf(s, t).SetStore?) && CallNext(s, t).Some?
    ensures Inv(CallNext(s, t).value)
  {
    hide TransportInv, MemberInv, SnapshotInv, FinishedInv, CancelInv, QueueInv;
  }

  lemma CallInvokes(s: State, t: Thread)
    requires t != Api && Inv(s) && (CallOf(s, t).SetLoad? || CallOf(s, t).InvokeLock?) && CallNext(s, t).Some?
    ensures Inv(CallNext(s, t).value)
  {
    hide TransportInv, MemberInv, SnapshotInv, FinishedInv, CancelInv, QueueInv;
  }

  lemma CallbackEnters(s: State, t: Thread)
    requires t != Api && Inv(s) && (CallOf(s, t).CallbackLock? || CallOf(s, t).CallbackCheck?) && CallNext(s, t).Some?
    ensures Inv(CallNext(s, t).value)
  {
    hide TransportInv, MemberInv, SnapshotInv, FinishedInv, CancelInv, QueueInv;
  }

  lemma CallbackWrites(s: State, t: Thread)
    requires t != Api && Inv(s) && CallOf(s, t).CallbackWrite? && CallNext(s, t).Some?
    ensures Inv(CallNext(s, t).value)
  {
    hide TransportInv, FinishedInv, QueueInv;
  }

  lemma CallReturns(s: State, t: Thread)
    requires t != Api && Inv(s) && (CallOf(s, t).CallbackUnlock? || CallOf(s, t).InvokeUnlock?) && CallNext(s, t).Some?
    ensures Inv(CallNext(s, t).value)
  {
    hide TransportInv, MemberInv, SnapshotInv, FinishedInv, CancelInv, QueueInv;
  }

  // ----- the session's C functions -----

  lemma InitializeBegins(s: State, op: Op)
    requires Inv(s) && s.api.Free? && (op.Initialize? || op.GameReady?)
    ensures Inv(ApiStart(s, op))
  {
    hide LockInv, CallInv, TransportInv, StateInv, SnapshotInv, QueueInv;
  }

  lemma StopBegins(s: State, op: Op)
    requires Inv(s) && s.api.Free? && (op.GameStopped? || op.Shutdown?)
    ensures Inv(ApiStart(s, op))
  {
    hide LockInv, CallInv, TransportInv, StateInv, SnapshotInv, QueueInv;
  }

  lemma RoomCallBegins(s: State, op: Op)
    requires Inv(s) && s.api.Free? && (op.JoinRoom? || op.LeaveRoom?)
    ensures Inv(ApiStart(s, op))
  {
    hide LockInv, CallInv, TransportInv, StateInv, SnapshotInv, QueueInv;
  }

  lemma InitializeSteps(s: State, a: Answer)
    requires Inv(s) && (s.api.InitMember? || s.api.InitBind? || s.api.InitFailed?) && LifecycleNext(s, a).Some?
    ensures Inv(LifecycleNext(s, a).value)
  {
    hide LockInv, CallInv, TransportInv, StateInv, QueueInv;
  }

  lemma WorkerStops(s: State, a: Answer)
    requires Inv(s) && s.api.StopWorker? && LifecycleNext(s, a).Some?
    ensures Inv(LifecycleNext(s, a).value)
  {
    hide LockInv, CallInv, TransportInv, StateInv, SnapshotInv, QueueInv;
  }

  lemma WorkerAwaits(s: State, a: Answer)
    requires Inv(s) && s.api.AwaitWorker? && LifecycleNext(s, a).Some?
    ensures Inv(LifecycleNext(s, a).value)
  {
    hide LockInv, QueueInv;
  }

  lemma LifecyclePublishes(s: State, a: Answer)
    requires Inv(s) && (s.api.PublishReady? || s.api.PublishStopped?) && LifecycleNext(s, a).Some?
    ensures Inv(LifecycleNext(s, a).value)
  {
    hide LockInv, CallInv, TransportInv, StateInv, QueueInv;
  }

  lemma ShutdownReleases(s: State, a: Answer)
    requires Inv(s) && (s.api.Unbind? || s.api.ResetMember?) && LifecycleNext(s, a).Some?
    ensures Inv(LifecycleNext(s, a).value)
  {
    hide LockInv, TransportInv, SnapshotInv;
  }

  lemma JoinChecks(s: State, a: Answer)
    requires Inv(s) && (s.api.CheckReady? || s.api.CheckFinished?) && JoinRoomNext(s, a).Some?
    ensures Inv(JoinRoomNext(s, a).value)
  {
    hide LockInv, CallInv, TransportInv, StateInv, SnapshotInv, QueueInv;
  }

  lemma JoinReaps(s: State, a: Answer)
    requires Inv(s) && (s.api.ReapWorker? || s.api.ClearCancel?) && JoinRoomNext(s, a).Some?
    ensures Inv(JoinRoomNext(s, a).value)
  {
    hide LockInv, QueueInv;
  }

  lemma JoinPublishes(s: State, a: Answer)
    requires Inv(s) && (s.api.PublishJoining? || s.api.ClearFinished?) && JoinRoomNext(s, a).Some?
    ensures Inv(JoinRoomNext(s, a).value)
  {
    hide LockInv, CallInv, TransportInv, StateInv, QueueInv;
  }

  lemma JoinSpawns(s: State, a: Answer)
    requires Inv(s) && s.api.Spawn? && JoinRoomNext(s, a).Some?
    ensures Inv(JoinRoomNext(s, a).value)
  {
    hide LockInv, QueueInv;
  }

  lemma JoinSpawnFails(s: State, a: Answer)
    requires Inv(s) && (s.api.SpawnFailed? || s.api.PublishSpawnFailed?) && JoinRoomNext(s, a).Some?
    ensures Inv(JoinRoomNext(s, a).value)
  {
    hide LockInv, CallInv, TransportInv, StateInv, QueueInv;
  }

  lemma LeaveRoomChecks(s: State)
    requires Inv(s) && (s.api.LeaveLock? || s.api.LeaveCheck?) && LeaveRoomNext(s).Some?
    ensures Inv(LeaveRoomNext(s).value)
  {
    hide CallInv, TransportInv, StateInv, QueueInv;
  }

  lemma LeaveRoomWrites(s: State)
    requires Inv(s) && (s.api.LeaveWrite? || s.api.LeaveUnlock?) && LeaveRoomNext(s).Some?
    ensures Inv(LeaveRoomNext(s).value)
  {
    hide CallInv, TransportInv, StateInv, QueueInv;
  }

  // ----- the emulation thread -----

  lemma EmulationKeeps(s: State, p: Packet)
    requires Inv(s)
    ensures Inv(Push(s, p))
  {
    hide LockInv, CallInv, TransportInv, MemberInv, StateInv, SnapshotInv, FinishedInv, CancelInv, QueueInv;
    PushedAtTheEnd(s, p);
  }
}
