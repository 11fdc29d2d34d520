/**
 What the host is told: while a run polls a live connection, the game of the session was announced, because a member
 that has fallen idle does not come back before the worker leaves.
 */
module RoomGame {
  import opened Options
  import opened RoomProtocol
  import opened RoomInvariant
  import opened RoomTheorems
  import opened RoomShown

  /** The worker has started the network thread and has not begun to leave. */
  predicate Attends(pc: WorkerPc) {
    pc.SendJoinRequest? || HasAsked(pc) || pc.Catch?
  }

  /** As long as the worker attends, the member does not come back from idle, and its game was announced. */
  predicate GameInv(s: State) {
    && (Attends(s.worker) && (s.loop.LoopLock? || s.loop.LoopService?) ==> Connected(s.room.state))
    && (Attends(s.worker) && (s.loopCall.SetCheck? || s.loopCall.SetStore?) && InRoom(s.loopCall.target) ==>
          Connected(s.room.state))
    && (s.loopCall.SetCheck? || s.loopCall.SetStore? ==> s.loopCall.target != Joining)
    && (HasAsked(s.worker) && !s.worker.SendGameInfo? && !s.loop.NoLoop? && Connected(s.room.state) ==>
          GAME_INFO in s.queue.pushed)
  }

  lemma InitialGame()
    ensures GameInv(Initial())
  {
  }

  lemma WorkerKeepsGame(s: State, a: Answer)
    requires Inv(s) && GameInv(s) && s.workerCall.NoCall? && WorkerNext(s, a).Some?
    ensures GameInv(WorkerNext(s, a).value)
  {
    hide JoinNext, PollNext, LeaveNext, GameInv;
    if InJoin(s.worker) {
      JoinKeepsGame(s, a);
    } else if InPoll(s.worker) {
      PollKeepsGame(s, a);
    } else {
      LeaveKeepsGame(s);
    }
  }

  lemma JoinKeepsGame(s: State, a: Answer)
    requires Inv(s) && GameInv(s) && s.workerCall.NoCall? && InJoin(s.worker) && JoinNext(s, a).Some?
    ensures GameInv(JoinNext(s, a).value)
  {
    hide LockInv, TransportInv, MemberInv, StateInv, SnapshotInv, FinishedInv, CancelInv, QueueInv, InRoom;
  }

  lemma PollKeepsGame(s: State, a: Answer)
    requires Inv(s) && GameInv(s) && s.workerCall.NoCall? && InPoll(s.worker) && PollNext(s, a).Some?
    ensures GameInv(PollNext(s, a).value)
  {
    hide LockInv, TransportInv, MemberInv, StateInv, SnapshotInv, FinishedInv, CancelInv, QueueInv, InRoom;
  }

  lemma LeaveKeepsGame(s: State)
    requires Inv(s) && GameInv(s) && s.workerCall.NoCall? && InLeave(s.worker) && LeaveNext(s).Some?
    ensures GameInv(LeaveNext(s).value)
  {
    hide LockInv, TransportInv, MemberInv, StateInv, SnapshotInv, FinishedInv, CancelInv, QueueInv, InRoom;
  }

  lemma LoopKeepsGame(s: State, e: NetEvent)
    requires GameInv(s) && s.loopCall.NoCall? && LoopNext(s, e).Some?
    ensures GameInv(LoopNext(s, e).value)
  {
    hide Truncated;
  }

  lemma CallKeepsGame(s: State, t: Thread)
    requires Inv(s) && GameInv(s) && t != Api && CallNext(s, t).Some?
    ensures GameInv(CallNext(s, t).value)
  {
    hide LockInv, TransportInv, MemberInv, StateInv, SnapshotInv, FinishedInv, CancelInv, QueueInv, CallNext;
    NoCallNoMove(s, t);
    CallFrame(s, t);
    CallWrites(s, t);
    CallCarries(s, t, RoomEvent);
  }

  lemma ApiKeepsGame(s: State, a: Answer)
    requires Inv(s) && GameInv(s) && ApiNext(s, a).Some?
    ensures GameInv(ApiNext(s, a).value)
  {
    hide JoinRoomNext, LeaveRoomNext, LifecycleNext, GameInv;
    if InLifecycle(s.api) {
      LifecycleKeepsGame(s, a);
    } else if InJoinRoom(s.api) {
      JoinRoomKeepsGame(s, a);
    } else {
      LeaveRoomKeepsGame(s);
    }
  }

  lemma LifecycleKeepsGame(s: State, a: Answer)
    requires Inv(s) && GameInv(s) && InLifecycle(s.api) && LifecycleNext(s, a).Some?
    ensures GameInv(LifecycleNext(s, a).value)
  {
    hide LockInv, TransportInv, StateInv, SnapshotInv, FinishedInv, CancelInv, QueueInv, InRoom;
  }

  lemma JoinRoomKeepsGame(s: State, a: Answer)
    requires GameInv(s) && InJoinRoom(s.api) && JoinRoomNext(s, a).Some?
    ensures GameInv(JoinRoomNext(s, a).value)
  {
    hide InRoom;
  }

  lemma LeaveRoomKeepsGame(s: State)
    requires GameInv(s) && InLeaveRoom(s.api) && LeaveRoomNext(s).Some?
    ensures GameInv(LeaveRoomNext(s).value)
  {
    hide InRoom;
  }

  lemma BeginKeepsGame(s: State, op: Op)
    requires GameInv(s) && s.api.Free?
    ensures GameInv(ApiStart(s, op))
  {
    hide InRoom;
  }

  lemma PushKeepsGame(s: State, p: Packet)
    requires GameInv(s)
    ensures GameInv(Push(s, p))
  {
    hide InRoom;
  }

  lemma StepKeepsGame(s: State, a: Action)
    requires Inv(s) && GameInv(s) && Step(s, a).Some?
    ensures GameInv(Step(s, a).value)
  {
    hide Inv, GameInv, WorkerNext, LoopNext, CallNext, ApiNext, ApiStart, Push;
    match a {
      case Begin(op) => BeginKeepsGame(s, op);
      case ApiMoves(answer) => ApiKeepsGame(s, answer);
      case WorkerMoves(answer) =>
        if s.workerCall.NoCall? { WorkerKeepsGame(s, answer); } else { CallKeepsGame(s, Worker); }
      case LoopMoves(event) =>
        if s.loopCall.NoCall? { LoopKeepsGame(s, event); } else { CallKeepsGame(s, Loop); }
      case EmulationPushes(p) => PushKeepsGame(s, p);
    }
  }

  lemma {:induction false} RunKeepsGame(s: State, actions: seq<Action>)
    requires Inv(s) && GameInv(s) && After(s, actions).Some?
    ensures GameInv(After(s, actions).value)
    decreases actions
  {
    hide Inv, GameInv, Step;
    if actions != [] {
      StepKeepsInv(s, actions[0]);
      StepKeepsGame(s, actions[0]);
      RunKeepsGame(Step(s, actions[0]).value, actions[1..]);
    }
  }

  /** While a run polls a connection that is alive, the game was given to the peer or waits for it. */
  lemma GameIsQueued(s: State)
    requires Reachable(s) && Connected(s.room.state) && !s.loop.NoLoop?
    requires HasAsked(s.worker) && !s.worker.SendGameInfo?
    ensures GAME_INFO in s.queue.sent || GAME_INFO in s.queue.batch || GAME_INFO in s.queue.sendList
  {
    hide Inv, After;
    var actions :| After(Initial(), actions) == Some(s);
    InitialInv();
    InitialGame();
    RunKeepsGame(Initial(), actions);
    PushedIsQueued(s, GAME_INFO);
  }
}
