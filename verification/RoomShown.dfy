/**
 What the snapshot shows: the state, the error and the members that the interface promises, in every reachable state
 and for every event of the network, over all interleavings.
 */
module RoomShown {
  import opened Options
  import opened RoomProtocol
  import opened RoomInvariant
  import opened RoomTheorems
  import opened RoomLeaving

  predicate InRoom(m: MemberState) {
    m == Joined || m == Moderator
  }

  /** A callback with this event is on its way. */
  predicate Carries(c: Call, e: Event) {
    (c.InvokeLock? || c.CallbackLock? || c.CallbackCheck? || c.CallbackWrite?) && c.event == e
  }

  /** A callback that says that the room was joined is on its way. */
  predicate Announces(c: Call) {
    Carries(c, StateEvent(Joined)) || Carries(c, StateEvent(Moderator))
  }

  // ----- an invariant of what is shown -----

  /** A member that joined, and was not cancelled, is shown as joined or about to be. */
  predicate JoinedInv(s: State) {
    && (InRoom(s.room.state) && !s.session.cancel ==>
          Display(s) == ShownJoined || s.loopCall.SetLoad? || Announces(s.loopCall))
    && (s.workerCall.SetCheck? || s.workerCall.SetStore? ==> !InRoom(s.workerCall.target))
  }

  /** The network thread has been started and has not dropped the members it knows. */
  predicate Listening(pc: LoopPc) {
    !pc.NoLoop? && !pc.LoopClose? && !pc.LoopExited?
  }

  /** `Join` is never restarted from a connection that is still open. */
  predicate Restarts(pc: WorkerPc) {
    (pc.LeaveStart? || pc.LeaveJoin? || pc.LeaveDestroy? || pc.LeaveClear?) && pc.ret.ToCreateHost?
  }

  /** The members shown are those the network thread knows, or a callback is about to show them. */
  predicate MembersInv(s: State) {
    && (Listening(s.loop) && !s.session.cancel ==>
          s.session.snapshot.members == Truncated(s.room.information) || Carries(s.loopCall, RoomEvent))
    && (!Listening(s.loop) ==> s.room.information == [])
    && (s.loop.NoLoop? && InJoin(s.worker) && !s.session.cancel ==> s.session.snapshot.members == [])
    && !Carries(s.workerCall, RoomEvent) && !Restarts(s.worker)
  }

  /** A stop of the session that has not published it yet. */
  predicate StopsSession(pc: ApiPc) {
    ((pc.StopWorker? || pc.AwaitWorker?) && !pc.op.GameReady?) || pc.PublishStopped?
  }

  /** Offline is shown exactly without a ready game. */
  predicate OfflineInv(s: State) {
    && (Display(s) == Offline ==> !s.session.ready || s.api.PublishReady?)
    && (Display(s) != Offline || !s.worker.NoWorker? || s.api.LeaveWrite? ==> s.session.ready || StopsSession(s.api))
    && (s.api.PublishReady? ==> s.session.ready)
    && (s.api.LeaveWrite? ==> !s.worker.NoWorker?)
    && (s.api.LeaveCheck? && !s.session.finished ==> !s.worker.NoWorker?)
  }

  /** The worker has asked to join, and the network thread has been told to send it. */
  predicate HasAsked(pc: WorkerPc) {
    pc.SendGameInfo? || pc.Poll? || pc.PollConnected? || pc.PollDeadline? || pc.Timeout?
  }

  predicate RequestInv(s: State) {
    && (HasAsked(s.worker) && !s.loop.NoLoop? ==> JOIN_REQUEST in s.queue.pushed)
    && (s.api.ClearFinished? || s.api.Spawn? || s.api.SpawnFailed? ==> s.session.snapshot.error == 0)
  }

  predicate Shows(s: State) {
    JoinedInv(s) && MembersInv(s) && OfflineInv(s) && RequestInv(s)
  }

  lemma InitialShows()
    ensures Shows(Initial())
  {
  }

  lemma JoinKeepsJoined(s: State, a: Answer)
    requires Inv(s) && Shows(s) && s.workerCall.NoCall? && InJoin(s.worker) && JoinNext(s, a).Some?
    ensures JoinedInv(JoinNext(s, a).value)
  {
    hide Truncated, LockInv, TransportInv, QueueInv, CancelInv, FinishedInv,
        SnapshotInv, MembersInv, OfflineInv, RequestInv;
  }

  lemma JoinKeepsMembers(s: State, a: Answer)
    requires Inv(s) && Shows(s) && s.workerCall.NoCall? && InJoin(s.worker) && JoinNext(s, a).Some?
    ensures MembersInv(JoinNext(s, a).value)
  {
    hide Truncated, LockInv, TransportInv, MemberInv, QueueInv, CancelInv, FinishedInv, SnapshotInv, StateInv,
        JoinedInv, OfflineInv, RequestInv, JoinNext;
    if s.loop.NoLoop? {
      ConnectingKeepsMembers(s, a);
    } else {
      RequestingKeepsMembers(s, a);
    }
  }

  lemma ConnectingKeepsMembers(s: State, a: Answer)
    requires MembersInv(s) && s.loop.NoLoop? && s.loopCall.NoCall? && s.workerCall.NoCall?
    requires InJoin(s.worker) && JoinNext(s, a).Some?
    ensures MembersInv(JoinNext(s, a).value)
  {
    EmptyShown();
    hide Truncated;
  }

  lemma EmptyShown()
    ensures Truncated([]) == []
  {
  }

  lemma RequestingKeepsMembers(s: State, a: Answer)
    requires MembersInv(s) && !s.loop.NoLoop? && s.workerCall.NoCall?
    requires (s.worker.SendJoinRequest? || s.worker.SendGameInfo?) && JoinNext(s, a).Some?
    ensures MembersInv(JoinNext(s, a).value)
  {
    hide Truncated;
  }

  lemma JoinKeepsOffline(s: State, a: Answer)
    requires Inv(s) && Shows(s) && s.workerCall.NoCall? && InJoin(s.worker) && JoinNext(s, a).Some?
    ensures OfflineInv(JoinNext(s, a).value)
  {
    hide Inv, JoinedInv, MembersInv, RequestInv;
  }

  lemma JoinKeepsRequests(s: State, a: Answer)
    requires Inv(s) && Shows(s) && s.workerCall.NoCall? && InJoin(s.worker) && JoinNext(s, a).Some?
    ensures RequestInv(JoinNext(s, a).value)
  {
    hide Truncated, LockInv, TransportInv, QueueInv, CancelInv, FinishedInv,
        StateInv, SnapshotInv, JoinedInv, MembersInv, OfflineInv;
  }

  lemma JoinKeepsShown(s: State, a: Answer)
    requires Inv(s) && Shows(s) && s.workerCall.NoCall? && InJoin(s.worker) && JoinNext(s, a).Some?
    ensures Shows(JoinNext(s, a).value)
  {
    hide Inv, JoinedInv, MembersInv, OfflineInv, RequestInv, JoinNext, LoopNext, CallNext;
    JoinKeepsJoined(s, a);
    JoinKeepsMembers(s, a);
    JoinKeepsOffline(s, a);
    JoinKeepsRequests(s, a);
  }

  lemma PollKeepsSession(s: State, a: Answer)
    requires Inv(s) && Shows(s) && s.workerCall.NoCall? && InPoll(s.worker) && PollNext(s, a).Some?
    ensures JoinedInv(PollNext(s, a).value) && MembersInv(PollNext(s, a).value)
  {
    hide Truncated, LockInv, TransportInv, QueueInv, CancelInv, FinishedInv,
        OfflineInv, RequestInv;
  }

  lemma PollKeepsOffline(s: State, a: Answer)
    requires Inv(s) && Shows(s) && s.workerCall.NoCall? && InPoll(s.worker) && PollNext(s, a).Some?
    ensures OfflineInv(PollNext(s, a).value) && RequestInv(PollNext(s, a).value)
  {
    hide Truncated, LockInv, TransportInv, QueueInv, CancelInv, FinishedInv, StateInv,
        JoinedInv, MembersInv;
  }

  lemma PollKeepsShown(s: State, a: Answer)
    requires Inv(s) && Shows(s) && s.workerCall.NoCall? && InPoll(s.worker) && PollNext(s, a).Some?
    ensures Shows(PollNext(s, a).value)
  {
    hide Inv, JoinedInv, MembersInv, OfflineInv, RequestInv, LeaveNext, LifecycleNext, PollNext;
    PollKeepsSession(s, a);
    PollKeepsOffline(s, a);
  }

  lemma LeaveKeepsJoined(s: State)
    requires Inv(s) && JoinedInv(s) && s.workerCall.NoCall? && InLeave(s.worker) && LeaveNext(s).Some?
    ensures JoinedInv(LeaveNext(s).value)
  {
    hide Truncated, LockInv, TransportInv, MemberInv, QueueInv, CancelInv, FinishedInv, SnapshotInv;
  }

  lemma LeaveKeepsMembers(s: State)
    requires Inv(s) && MembersInv(s) && s.workerCall.NoCall? && InLeave(s.worker) && LeaveNext(s).Some?
    ensures MembersInv(LeaveNext(s).value)
  {
    hide Truncated, LockInv, TransportInv, MemberInv, StateInv, QueueInv, CancelInv, FinishedInv, SnapshotInv;
  }

  lemma LeaveKeepsOffline(s: State)
    requires Inv(s) && Shows(s) && s.workerCall.NoCall? && InLeave(s.worker) && LeaveNext(s).Some?
    ensures OfflineInv(LeaveNext(s).value) && RequestInv(LeaveNext(s).value)
  {
    hide Truncated, LockInv, TransportInv, QueueInv, CancelInv, FinishedInv, StateInv,
        JoinedInv, MembersInv;
  }

  lemma LeaveKeepsShown(s: State)
    requires Inv(s) && Shows(s) && s.workerCall.NoCall? && InLeave(s.worker) && LeaveNext(s).Some?
    ensures Shows(LeaveNext(s).value)
  {
    hide Inv, JoinedInv, MembersInv, OfflineInv, RequestInv, LeaveNext, LifecycleNext, PollNext;
    LeaveKeepsJoined(s);
    LeaveKeepsMembers(s);
    LeaveKeepsOffline(s);
  }

  lemma LoopKeepsJoined(s: State, e: NetEvent)
    requires Inv(s) && Shows(s) && s.loopCall.NoCall? && LoopNext(s, e).Some?
    ensures JoinedInv(LoopNext(s, e).value)
  {
    hide Inv, MembersInv, OfflineInv, RequestInv;
  }

  lemma LoopKeepsMembers(s: State, e: NetEvent)
    requires Inv(s) && Shows(s) && s.loopCall.NoCall? && LoopNext(s, e).Some?
    ensures MembersInv(LoopNext(s, e).value)
  {
    hide Inv, LoopNext, JoinedInv, OfflineInv, RequestInv, Truncated;
    if s.loop.LoopService? {
      DispatchKeepsMembers(s, e);
    } else {
      LoopMovesKeepMembers(s, e);
    }
  }

  lemma DispatchKeepsMembers(s: State, e: NetEvent)
    requires MembersInv(s) && s.loopCall.NoCall? && s.loop.LoopService? && LoopNext(s, e).Some?
    ensures MembersInv(LoopNext(s, e).value)
  {
    hide Truncated, InJoin;
  }

  lemma LoopMovesKeepMembers(s: State, e: NetEvent)
    requires MembersInv(s) && s.loopCall.NoCall? && !s.loop.LoopService? && LoopNext(s, e).Some?
    ensures MembersInv(LoopNext(s, e).value)
  {
    hide Truncated, InJoin, Dispatch;
  }

  lemma LoopKeepsOffline(s: State, e: NetEvent)
    requires Inv(s) && Shows(s) && s.loopCall.NoCall? && LoopNext(s, e).Some?
    ensures OfflineInv(LoopNext(s, e).value)
  {
    hide Inv, JoinedInv, MembersInv, RequestInv;
  }

  lemma LoopKeepsRequests(s: State, e: NetEvent)
    requires Inv(s) && Shows(s) && s.loopCall.NoCall? && LoopNext(s, e).Some?
    ensures RequestInv(LoopNext(s, e).value)
  {
    hide Inv, JoinedInv, MembersInv, OfflineInv;
  }

  lemma LoopKeepsShown(s: State, e: NetEvent)
    requires Inv(s) && Shows(s) && s.loopCall.NoCall? && LoopNext(s, e).Some?
    ensures Shows(LoopNext(s, e).value)
  {
    hide Inv, JoinedInv, MembersInv, OfflineInv, RequestInv, JoinNext, LoopNext, CallNext;
    LoopKeepsJoined(s, e);
    LoopKeepsMembers(s, e);
    LoopKeepsOffline(s, e);
    LoopKeepsRequests(s, e);
  }

  /** What a step inside `SetState` or `Invoke` leaves alone. */
  lemma CallFrame(s: State, t: Thread)
    requires t != Api && CallNext(s, t).Some?
    ensures var n := CallNext(s, t).value;
            && n.loop == s.loop && n.worker == s.worker && n.api == s.api && n.queue == s.queue
            && (if t.Loop? then n.workerCall == s.workerCall else n.loopCall == s.loopCall)
  {
    hide Written, Truncated;
  }

  lemma CallFrameWithin(s: State, t: Thread)
    requires t != Api && CallNext(s, t).Some?
    ensures var n := CallNext(s, t).value;
            && n.session.cancel == s.session.cancel && n.session.ready == s.session.ready
            && n.session.finished == s.session.finished && n.room.information == s.room.information
  {
    hide CallNext;
    CallKeepsSession(s, t);
    CallKeepsInformation(s, t);
  }

  lemma CallKeepsSession(s: State, t: Thread)
    requires t != Api && CallNext(s, t).Some?
    ensures var n := CallNext(s, t).value.session;
            n.cancel == s.session.cancel && n.ready == s.session.ready && n.finished == s.session.finished
  {
    hide CallNext;
    if t.Loop? {
      LoopCallKeepsSession(s);
    } else {
      WorkerCallKeepsSession(s);
    }
  }

  lemma LoopCallKeepsSession(s: State)
    requires CallNext(s, Loop).Some?
    ensures var n := CallNext(s, Loop).value.session;
            n.cancel == s.session.cancel && n.ready == s.session.ready && n.finished == s.session.finished
  {
    hide Written, Truncated;
  }

  lemma WorkerCallKeepsSession(s: State)
    requires CallNext(s, Worker).Some?
    ensures var n := CallNext(s, Worker).value.session;
            n.cancel == s.session.cancel && n.ready == s.session.ready && n.finished == s.session.finished
  {
    hide Written, Truncated;
  }

  lemma CallKeepsInformation(s: State, t: Thread)
    requires t != Api && CallNext(s, t).Some?
    ensures CallNext(s, t).value.room.information == s.room.information
  {
    hide Written, Truncated;
  }

  /** Only a store changes the state of the member, and only a callback's write the snapshot. */
  lemma CallWrites(s: State, t: Thread)
    requires t != Api && CallNext(s, t).Some?
    ensures var c, n := CallOf(s, t), CallNext(s, t).value;
            && (c.SetStore? ==> n.room.state == c.target && CallOf(n, t).SetLoad?)
            && (!c.SetStore? ==> n.room.state == s.room.state)
            && n.session.snapshot == if c.CallbackWrite?
                then Written(s.session.snapshot, c.event, s.room.information)
                else s.session.snapshot
  {
    hide Written, Truncated;
  }

  /** A callback is on its way from the load of the state to its write, unless it is cancelled. */
  lemma CallCarries(s: State, t: Thread, e: Event)
    requires t != Api && CallNext(s, t).Some?
    ensures var c, d := CallOf(s, t), CallOf(CallNext(s, t).value, t);
            && (Carries(d, e) ==> Carries(c, e) || (c.SetLoad? && e == StateEvent(s.room.state)))
            && (c.SetLoad? ==> Carries(d, StateEvent(s.room.state)))
            && (Carries(c, e) && !s.session.cancel && s.session.bound && !e.OtherEvent? ==>
                  Carries(d, e) || c == CallbackWrite(e))
            && (d.SetCheck? || d.SetStore? ==> c.SetCheck? && d.target == c.target)
            && (c.SetStore? <==> d.SetLoad?)
            && (c.SetCheck? ==> d == if s.room.state != c.target then SetStore(c.target) else NoCall)
  {
    hide Written, Truncated;
  }

  lemma CalledWithin(s: State, t: Thread)
    requires Inv(s) && t != Api && !CallOf(s, t).NoCall?
    ensures s.session.bound && !s.worker.NoWorker? && (t.Loop? ==> Listening(s.loop))
  {
    hide LockInv, TransportInv, QueueInv, CancelInv, FinishedInv, SnapshotInv, StateInv;
  }

  lemma NoCallNoMove(s: State, t: Thread)
    requires t != Api && CallNext(s, t).Some?
    ensures !CallOf(s, t).NoCall?
  {
  }

  lemma CallKeepsJoined(s: State, t: Thread)
    requires Inv(s) && Shows(s) && t != Api && CallNext(s, t).Some?
    ensures JoinedInv(CallNext(s, t).value)
  {
    hide Inv, CallNext, Truncated, MembersInv, OfflineInv, RequestInv, Carries;
    NoCallNoMove(s, t);
    CalledWithin(s, t);
    CallFrame(s, t);
    CallFrameWithin(s, t);
    CallWrites(s, t);
    CallCarries(s, t, StateEvent(Joined));
    CallCarries(s, t, StateEvent(Moderator));
  }

  lemma CallKeepsMembers(s: State, t: Thread)
    requires Inv(s) && Shows(s) && t != Api && CallNext(s, t).Some?
    ensures MembersInv(CallNext(s, t).value)
  {
    hide Inv, CallNext, Truncated, JoinedInv, OfflineInv, RequestInv, Carries;
    NoCallNoMove(s, t);
    CalledWithin(s, t);
    CallFrame(s, t);
    CallFrameWithin(s, t);
    CallWrites(s, t);
    CallCarries(s, t, RoomEvent);
    if CallOf(s, t).CallbackWrite? {
      WrittenMembers(s, t);
    }
  }

  /** Only the callback for the members writes members. */
  lemma WrittenMembers(s: State, t: Thread)
    requires t != Api && CallOf(s, t).CallbackWrite?
    ensures Carries(CallOf(s, t), CallOf(s, t).event)
    ensures var snapshot := Written(s.session.snapshot, CallOf(s, t).event, s.room.information);
            if CallOf(s, t).event.RoomEvent? then snapshot.members == Truncated(s.room.information)
            else snapshot.members == s.session.snapshot.members
  {
    hide Truncated;
  }

  lemma CallKeepsOffline(s: State, t: Thread)
    requires Inv(s) && Shows(s) && t != Api && CallNext(s, t).Some?
    ensures OfflineInv(CallNext(s, t).value)
  {
    hide Inv, CallNext, Truncated, JoinedInv, MembersInv, RequestInv;
    NoCallNoMove(s, t);
    CalledWithin(s, t);
    CallFrame(s, t);
    CallFrameWithin(s, t);
    CallWrites(s, t);
  }

  lemma CallKeepsRequests(s: State, t: Thread)
    requires Inv(s) && Shows(s) && t != Api && CallNext(s, t).Some?
    ensures RequestInv(CallNext(s, t).value)
  {
    hide LockInv, CallInv, TransportInv, StateInv, SnapshotInv, FinishedInv, CancelInv, QueueInv, CallNext, Truncated,
        JoinedInv, MembersInv, OfflineInv;
    NoCallNoMove(s, t);
    CalledWithin(s, t);
    CallFrame(s, t);
    CallFrameWithin(s, t);
  }

  lemma CallKeepsShown(s: State, t: Thread)
    requires Inv(s) && Shows(s) && t != Api && CallNext(s, t).Some?
    ensures Shows(CallNext(s, t).value)
  {
    hide Inv, JoinedInv, MembersInv, OfflineInv, RequestInv, CallNext;
    CallKeepsJoined(s, t);
    CallKeepsMembers(s, t);
    CallKeepsOffline(s, t);
    CallKeepsRequests(s, t);
  }

  lemma LifecycleKeepsSession(s: State, a: Answer)
    requires Inv(s) && Shows(s) && InLifecycle(s.api) && LifecycleNext(s, a).Some?
    ensures JoinedInv(LifecycleNext(s, a).value) && MembersInv(LifecycleNext(s, a).value)
  {
    hide Truncated, LockInv, TransportInv, QueueInv, CancelInv, FinishedInv,
        OfflineInv, RequestInv;
  }

  lemma LifecycleKeepsOffline(s: State, a: Answer)
    requires Inv(s) && Shows(s) && InLifecycle(s.api) && LifecycleNext(s, a).Some?
    ensures OfflineInv(LifecycleNext(s, a).value) && RequestInv(LifecycleNext(s, a).value)
  {
    hide Truncated, LockInv, TransportInv, QueueInv, CancelInv, FinishedInv, StateInv,
        JoinedInv, MembersInv;
  }

  lemma LifecycleKeepsShown(s: State, a: Answer)
    requires Inv(s) && Shows(s) && InLifecycle(s.api) && LifecycleNext(s, a).Some?
    ensures Shows(LifecycleNext(s, a).value)
  {
    hide Inv, JoinedInv, MembersInv, OfflineInv, RequestInv, LeaveNext, LifecycleNext, PollNext;
    LifecycleKeepsSession(s, a);
    LifecycleKeepsOffline(s, a);
  }

  lemma JoinRoomKeepsShown(s: State, a: Answer)
    requires Inv(s) && Shows(s) && InJoinRoom(s.api) && JoinRoomNext(s, a).Some?
    ensures Shows(JoinRoomNext(s, a).value)
  {
    hide Truncated, LockInv, TransportInv, QueueInv, CancelInv, FinishedInv;
  }

  lemma LeaveRoomKeepsShown(s: State)
    requires Inv(s) && Shows(s) && InLeaveRoom(s.api) && LeaveRoomNext(s).Some?
    ensures Shows(LeaveRoomNext(s).value)
  {
    hide LockInv, TransportInv, QueueInv;
  }

  lemma BeginKeepsShown(s: State, op: Op)
    requires Inv(s) && Shows(s) && s.api.Free?
    ensures Shows(ApiStart(s, op))
  {
    hide Truncated, LockInv, TransportInv, QueueInv, CancelInv, FinishedInv;
  }

  lemma PushKeepsShown(s: State, p: Packet)
    requires Shows(s)
    ensures Shows(Push(s, p))
  {
  }

  lemma StepKeepsShown(s: State, a: Action)
    requires Inv(s) && Shows(s) && Step(s, a).Some?
    ensures Shows(Step(s, a).value)
  {
    hide Inv, Shows, JoinNext, PollNext, LeaveNext, LifecycleNext, JoinRoomNext, LeaveRoomNext, LoopNext, CallNext,
        ApiStart, Push;
    match a {
      case Begin(op) => BeginKeepsShown(s, op);
      case ApiMoves(answer) =>
        if InLifecycle(s.api) { LifecycleKeepsShown(s, answer); }
        else if InJoinRoom(s.api) { JoinRoomKeepsShown(s, answer); }
        else { LeaveRoomKeepsShown(s); }
      case WorkerMoves(answer) =>
        if !s.workerCall.NoCall? { CallKeepsShown(s, Worker); }
        else if InJoin(s.worker) { JoinKeepsShown(s, answer); }
        else if InPoll(s.worker) { PollKeepsShown(s, answer); }
        else { LeaveKeepsShown(s); }
      case LoopMoves(event) =>
        if s.loopCall.NoCall? { LoopKeepsShown(s, event); } else { CallKeepsShown(s, Loop); }
      case EmulationPushes(p) => PushKeepsShown(s, p);
    }
  }

  lemma {:induction false} RunKeepsShown(s: State, actions: seq<Action>)
    requires Inv(s) && Shows(s) && After(s, actions).Some?
    ensures Shows(After(s, actions).value)
    decreases actions
  {
    hide Inv, Shows, Step;
    if actions != [] {
      StepKeepsInv(s, actions[0]);
      StepKeepsShown(s, actions[0]);
      RunKeepsShown(Step(s, actions[0]).value, actions[1..]);
    }
  }

  lemma ReachableShows(s: State)
    requires Reachable(s)
    ensures Shows(s)
  {
    hide Inv, Shows, After;
    var actions :| After(Initial(), actions) == Some(s);
    InitialInv();
    InitialShows();
    RunKeepsShown(Initial(), actions);
  }

  // ----- what is shown in every reachable state -----

  /** A member that has joined, and was not cancelled, is shown as joined once its callback is through. */
  lemma JoinedIsShown(s: State)
    requires Reachable(s) && InRoom(s.room.state) && !s.session.cancel && s.loopCall.NoCall?
    ensures Display(s) == ShownJoined
  {
    ReachableShows(s);
  }

  /** The members shown are the first 254 the network thread knows, each by the first 20 characters of its name. */
  lemma MembersAreShown(s: State)
    requires Reachable(s) && Listening(s.loop) && !s.session.cancel && s.loopCall.NoCall?
    ensures var members, known := s.session.snapshot.members, s.room.information;
            && |members| == (if |known| <= 254 then |known| else 254)
            && forall i :: 0 <= i < |members| ==> members[i] == if |known[i]| <= 20 then known[i] else known[i][..20]
  {
    ReachableShows(s);
    hide JoinedInv, OfflineInv, RequestInv;
  }

  /** Between two calls of the session's functions the state that is shown tells whether a game is ready, and a run. */
  lemma ShownExactly(s: State)
    requires Reachable(s) && s.api.Free?
    ensures !s.session.ready <==> Display(s) == Offline
    ensures s.session.ready && !Busy(s.worker) ==> Display(s) == ShownIdle || Display(s) == Leaving
    ensures s.session.ready && Busy(s.worker) ==>
              Display(s) == ShownJoining || Display(s) == ShownJoined || (Display(s) == Leaving && s.session.cancel)
  {
    ReachableInv(s);
    ReachableShows(s);
    ReachableHeld(s);
    hide LockInv, CallInv, TransportInv, StateInv, FinishedInv, CancelInv, QueueInv, JoinedInv, MembersInv, RequestInv;
  }

  /** A join starts from a clean snapshot: joining, no error and no members. */
  lemma JoinStartsClean(s: State)
    requires Reachable(s) && (s.api.ClearFinished? || s.api.Spawn? || s.api.SpawnFailed?)
    ensures s.session.snapshot == Snapshot(ShownJoining, 0, [])
  {
    ReachableInv(s);
    ReachableShows(s);
    hide LockInv, CallInv, TransportInv, StateInv, FinishedInv, CancelInv, QueueInv, JoinedInv, MembersInv, OfflineInv;
  }

  /** While a run polls its connection, the request to join was given to the peer or waits for it in order. */
  lemma RequestIsQueued(s: State)
    requires Reachable(s) && HasAsked(s.worker) && !s.loop.NoLoop?
    ensures JOIN_REQUEST in s.queue.sent || JOIN_REQUEST in s.queue.batch || JOIN_REQUEST in s.queue.sendList
  {
    ReachableShows(s);
    hide JoinedInv, MembersInv, OfflineInv;
    PushedIsQueued(s, JOIN_REQUEST);
  }

  /** What was queued since the last clear was handed over, or is being handed over, or still waits. */
  lemma PushedIsQueued(s: State, p: Packet)
    requires Reachable(s) && p in s.queue.pushed
    ensures p in s.queue.sent || p in s.queue.batch || p in s.queue.sendList
  {
    hide *;
    PacketsInOrder(s);
    var q := s.queue;
    InOnePart(q.pushed, q.sent, q.batch, q.sendList, p);
  }

  lemma InOnePart(all: seq<Packet>, a: seq<Packet>, b: seq<Packet>, c: seq<Packet>, p: Packet)
    requires a <= all && all[|a|..] == b + c && p in all
    ensures p in a || p in b || p in c
  {
    assert all == a + (b + c);
  }
}
