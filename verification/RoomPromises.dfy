/**
 That what happens is shown: every answer of the host and every failure of a run reaches the snapshot, in every
 interleaving, unless the session is cancelled; and joined is shown only after the host's answer.
 */
module RoomPromises {
  import opened Options
  import opened RoomProtocol
  import opened RoomInvariant
  import opened RoomTheorems
  import opened RoomLeaving
  import opened RoomShown

  /** What a thread is bound to show. */
  datatype Promise = ShowError(value: nat) | ShowMembers(peers: seq<Peer>) | ShowJoined

  predicate Kept(p: Promise, snapshot: Snapshot) {
    match p
    case ShowError(value) => snapshot.error == value
    case ShowMembers(peers) => snapshot.members == Truncated(peers)
    case ShowJoined => snapshot.state == ShownJoined
  }

  /** A cancelled session shows nothing more, and one that is being left need not show that it was joined. */
  predicate Excused(p: Promise, s: State) {
    s.session.cancel || (p.ShowJoined? && InLeave(s.worker))
  }

  /** At some point of the run the promise is kept, or excused. */
  predicate Sometime(s: State, actions: seq<Action>, p: Promise)
    decreases actions
  {
    || Kept(p, s.session.snapshot) || Excused(p, s)
    || (actions != [] && Step(s, actions[0]).Some? && Sometime(Step(s, actions[0]).value, actions[1..], p))
  }

  /** The worker is on its way to an error. */
  predicate WillFail(pc: WorkerPc, value: nat) {
    || (pc.Report? && value == pc.code + 1)
    || ((pc.LeaveStart? || pc.LeaveJoin? || pc.LeaveDestroy? || pc.LeaveClear?) && pc.ret.ToGiveUp?
        && value == COULD_NOT_CONNECT + 1)
    || (pc.Catch? && value == INTERNAL_ERROR)
    || (pc.Timeout? && value == HANDSHAKE_TIMEOUT)
  }

  predicate OwesError(s: State, t: Thread, value: nat) {
    value > 0 && (
      || Carries(CallOf(s, t), ErrorEvent(value - 1))
      || (t.Loop? && s.loop == LoopThenError(value - 1))
      || (t.Worker? && WillFail(s.worker, value)))
  }

  predicate OwesJoined(s: State) {
    || ((s.loopCall.SetCheck? || s.loopCall.SetStore?) && InRoom(s.loopCall.target))
    || (s.loopCall.SetLoad? && InRoom(s.room.state))
    || Announces(s.loopCall)
  }

  /** The thread has not shown it yet, but will. */
  predicate Owes(s: State, t: Thread, p: Promise) {
    match p
    case ShowError(value) => OwesError(s, t, value)
    case ShowMembers(peers) => t.Loop? && Carries(s.loopCall, RoomEvent) && s.room.information == peers
    case ShowJoined => t.Loop? && OwesJoined(s)
  }

  // ----- one step -----

  /** What a step may do to a promise. */
  predicate Honoured(s: State, t: Thread, p: Promise) {
    Owes(s, t, p) || Kept(p, s.session.snapshot) || Excused(p, s)
  }

  lemma OwnCallHonours(s: State, t: Thread, p: Promise)
    requires Inv(s) && Shows(s) && t != Api && Owes(s, t, p) && !Excused(p, s) && CallNext(s, t).Some?
    ensures Honoured(CallNext(s, t).value, t, p)
  {
    hide Inv, CallNext, Truncated, MembersInv, OfflineInv, RequestInv, InLeave;
    NoCallNoMove(s, t);
    CalledWithin(s, t);
    CallFrame(s, t);
    CallFrameWithin(s, t);
    CallWrites(s, t);
    CallCarries(s, t, RoomEvent);
    CallCarries(s, t, StateEvent(Joined));
    CallCarries(s, t, StateEvent(Moderator));
    if p.ShowError? {
      CallCarries(s, t, ErrorEvent(p.value - 1));
    }
  }

  lemma LoopHonours(s: State, p: Promise, e: NetEvent)
    requires s.loopCall.NoCall? && Owes(s, Loop, p) && LoopNext(s, e).Some?
    ensures Owes(LoopNext(s, e).value, Loop, p)
  {
    hide Truncated, InRoom;
  }

  lemma WorkerHonours(s: State, p: Promise, a: Answer)
    requires s.workerCall.NoCall? && Owes(s, Worker, p) && WorkerNext(s, a).Some?
    ensures Honoured(WorkerNext(s, a).value, Worker, p)
  {
    hide Truncated, InRoom, JoinNext;
  }

  /** What a thread owes is its own: no step of another thread takes it away, except by leaving. */
  lemma WorkerSparesLoop(s: State, p: Promise, a: Answer)
    requires Inv(s) && s.workerCall.NoCall? && Owes(s, Loop, p) && WorkerNext(s, a).Some?
    ensures Owes(WorkerNext(s, a).value, Loop, p)
  {
    hide LockInv, TransportInv, MemberInv, StateInv, SnapshotInv, FinishedInv, CancelInv, QueueInv, Truncated, InRoom,
        JoinNext, PollNext, LeaveNext;
    OwingLoop(s, p);
    WorkerLeavesLoop(s, a);
  }

  lemma OwingLoop(s: State, p: Promise)
    requires Inv(s) && Owes(s, Loop, p)
    ensures !s.loop.NoLoop? && !s.loop.LoopExited?
  {
    hide LockInv, TransportInv, MemberInv, StateInv, SnapshotInv, FinishedInv, CancelInv, QueueInv, InRoom;
  }

  lemma WorkerLeavesLoop(s: State, a: Answer)
    requires Inv(s) && s.workerCall.NoCall? && WorkerNext(s, a).Some? && !s.loop.NoLoop? && !s.loop.LoopExited?
    ensures SameLoop(s, WorkerNext(s, a).value)
  {
    hide Inv, JoinNext, PollNext, LeaveNext, SameLoop;
    if InJoin(s.worker) {
      JoinLeavesLoop(s, a);
    } else if InPoll(s.worker) {
      PollLeavesLoop(s, a);
    } else {
      LeaveLeavesLoop(s);
    }
  }

  predicate SameLoop(s: State, n: State) {
    n.loop == s.loop && n.loopCall == s.loopCall && n.room.state == s.room.state
    && n.room.information == s.room.information
  }

  lemma JoinLeavesLoop(s: State, a: Answer)
    requires Inv(s) && s.workerCall.NoCall? && InJoin(s.worker) && JoinNext(s, a).Some? && !s.loop.NoLoop?
    ensures SameLoop(s, JoinNext(s, a).value)
  {
    hide LockInv, TransportInv, MemberInv, StateInv, SnapshotInv, FinishedInv, CancelInv, QueueInv;
  }

  lemma PollLeavesLoop(s: State, a: Answer)
    requires s.workerCall.NoCall? && InPoll(s.worker) && PollNext(s, a).Some?
    ensures SameLoop(s, PollNext(s, a).value)
  {
  }

  lemma LeaveLeavesLoop(s: State)
    requires s.workerCall.NoCall? && InLeave(s.worker) && LeaveNext(s).Some? && !s.loop.NoLoop? && !s.loop.LoopExited?
    ensures SameLoop(s, LeaveNext(s).value)
  {
  }

  lemma WorkerCallSparesLoop(s: State, p: Promise)
    requires Inv(s) && Owes(s, Loop, p) && CallNext(s, Worker).Some?
    ensures Owes(CallNext(s, Worker).value, Loop, p) || Excused(p, CallNext(s, Worker).value)
  {
    hide LockInv, TransportInv, MemberInv, StateInv, SnapshotInv, FinishedInv, CancelInv, QueueInv, CallNext, InRoom;
    NoCallNoMove(s, Worker);
    OwingLoop(s, p);
    CallFrame(s, Worker);
    CallFrameWithin(s, Worker);
    CallWrites(s, Worker);
  }

  lemma LoopSparesWorker(s: State, p: Promise, a: Action)
    requires a.LoopMoves? && Owes(s, Worker, p) && Step(s, a).Some?
    ensures Owes(Step(s, a).value, Worker, p)
  {
    hide CallNext, LoopNext;
    if s.loopCall.NoCall? {
      LoopLeavesWorker(s, a.event);
    } else {
      CallFrame(s, Loop);
    }
  }

  lemma LoopLeavesWorker(s: State, e: NetEvent)
    requires s.loopCall.NoCall? && LoopNext(s, e).Some?
    ensures LoopNext(s, e).value.worker == s.worker && LoopNext(s, e).value.workerCall == s.workerCall
  {
    hide Truncated;
  }

  lemma ApiSpares(s: State, t: Thread, p: Promise, a: Answer)
    requires Inv(s) && t != Api && Owes(s, t, p) && ApiNext(s, a).Some?
    ensures Owes(ApiNext(s, a).value, t, p)
  {
    hide LockInv, TransportInv, CallInv, StateInv, SnapshotInv, FinishedInv, CancelInv, QueueInv, Owes, ApiNext;
    ApiLeavesThreads(s, a);
    SameOwed(s, ApiNext(s, a).value, t, p);
  }

  lemma ApiLeavesThreadsLifecycle(s: State, a: Answer)
    requires Inv(s) && InLifecycle(s.api) && LifecycleNext(s, a).Some?
    ensures var n := LifecycleNext(s, a).value;
            && n.loop == s.loop && n.loopCall == s.loopCall && n.workerCall == s.workerCall && n.room == s.room
            && (n.worker == s.worker || s.worker.NoWorker? || s.worker.Exited?)
  {
    hide LockInv, TransportInv, CallInv, StateInv, SnapshotInv, FinishedInv, CancelInv, QueueInv;
  }

  lemma ApiLeavesThreadsJoinRoom(s: State, a: Answer)
    requires Inv(s) && InJoinRoom(s.api) && JoinRoomNext(s, a).Some?
    ensures var n := JoinRoomNext(s, a).value;
            && n.loop == s.loop && n.loopCall == s.loopCall && n.workerCall == s.workerCall && n.room == s.room
            && (n.worker == s.worker || s.worker.NoWorker? || s.worker.Exited?)
  {
    hide LockInv, TransportInv, CallInv, StateInv, SnapshotInv, FinishedInv, CancelInv, QueueInv;
  }

  lemma ApiLeavesThreadsLeaveRoom(s: State)
    requires Inv(s) && InLeaveRoom(s.api) && LeaveRoomNext(s).Some?
    ensures var n := LeaveRoomNext(s).value;
            && n.loop == s.loop && n.loopCall == s.loopCall && n.workerCall == s.workerCall && n.room == s.room
            && (n.worker == s.worker || s.worker.NoWorker? || s.worker.Exited?)
  {
    hide LockInv, TransportInv, CallInv, StateInv, SnapshotInv, FinishedInv, CancelInv, QueueInv;
  }

  lemma ApiLeavesThreads(s: State, a: Answer)
    requires Inv(s) && ApiNext(s, a).Some?
    ensures var n := ApiNext(s, a).value;
            && n.loop == s.loop && n.loopCall == s.loopCall && n.workerCall == s.workerCall && n.room == s.room
            && (n.worker == s.worker || s.worker.NoWorker? || s.worker.Exited?)
  {
    hide LockInv, TransportInv, CallInv, StateInv, SnapshotInv, FinishedInv, CancelInv, QueueInv,
        LifecycleNext, JoinRoomNext, LeaveRoomNext;
    if InLifecycle(s.api) {
      ApiLeavesThreadsLifecycle(s, a);
    } else if InJoinRoom(s.api) {
      ApiLeavesThreadsJoinRoom(s, a);
    } else {
      ApiLeavesThreadsLeaveRoom(s);
    }
  }

  lemma SameOwed(s: State, n: State, t: Thread, p: Promise)
    requires t != Api && Owes(s, t, p) && n.room == s.room
    requires n.loop == s.loop && n.loopCall == s.loopCall && n.workerCall == s.workerCall
    requires n.worker == s.worker || s.worker.NoWorker? || s.worker.Exited?
    ensures Owes(n, t, p)
  {
    hide InRoom;
  }

  lemma OthersHonour(s: State, t: Thread, p: Promise, a: Action)
    requires Inv(s) && t != Api && Owes(s, t, p) && Step(s, a).Some?
    requires !(t.Loop? && a.LoopMoves?) && !(t.Worker? && a.WorkerMoves?)
    ensures Owes(Step(s, a).value, t, p) || Excused(p, Step(s, a).value)
  {
    hide Inv, Owes, Excused, ApiNext, WorkerNext, LoopNext, CallNext;
    match a {
      case Begin(op) => SameOwed(s, ApiStart(s, op), t, p);
      case ApiMoves(answer) => ApiSpares(s, t, p, answer);
      case WorkerMoves(answer) =>
        if s.workerCall.NoCall? { WorkerSparesLoop(s, p, answer); } else { WorkerCallSparesLoop(s, p); }
      case LoopMoves(_) => LoopSparesWorker(s, p, a);
      case EmulationPushes(packet) => SameOwed(s, Push(s, packet), t, p);
    }
  }

  lemma StepHonours(s: State, t: Thread, p: Promise, a: Action)
    requires Inv(s) && Shows(s) && t != Api && Owes(s, t, p) && !Excused(p, s) && Step(s, a).Some?
    ensures Honoured(Step(s, a).value, t, p)
  {
    hide Inv, Shows, Owes, Kept, Excused, WorkerNext, LoopNext, CallNext;
    if t.Loop? && a.LoopMoves? {
      if s.loopCall.NoCall? { LoopHonours(s, p, a.event); } else { OwnCallHonours(s, t, p); }
    } else if t.Worker? && a.WorkerMoves? {
      if s.workerCall.NoCall? { WorkerHonours(s, p, a.answer); } else { OwnCallHonours(s, t, p); }
    } else {
      OthersHonour(s, t, p, a);
    }
  }

  // ----- whole runs -----

  /** In every run after which a thread owes nothing any more, what it owed was shown or excused. */
  lemma {:induction false} PromiseIsKept(s: State, t: Thread, p: Promise, actions: seq<Action>)
    requires Inv(s) && Shows(s) && t != Api && Honoured(s, t, p)
    requires After(s, actions).Some? && !Owes(After(s, actions).value, t, p)
    ensures Sometime(s, actions, p)
    decreases actions
  {
    hide Inv, Shows, Owes, Kept, Excused, Step;
    if !Kept(p, s.session.snapshot) && !Excused(p, s) {
      StepHonours(s, t, p, actions[0]);
      StepKeepsInv(s, actions[0]);
      StepKeepsShown(s, actions[0]);
      PromiseIsKept(Step(s, actions[0]).value, t, p, actions[1..]);
    }
  }

  /** The errors of the interface are those of the member plus one. */
  const SHOWN_LOST: nat := 1
  const SHOWN_UNKNOWN: nat := 3
  const SHOWN_COULD_NOT_CONNECT: nat := 9
  const SHOWN_INTERNAL: nat := 100
  const SHOWN_TIMEOUT: nat := 101

  /** What the snapshot is to show of an event of the network. */
  function Promised(e: NetEvent, state: MemberState): Option<Promise> {
    match e
    case Information(peers) => Some(ShowMembers(peers))
    case JoinSuccess(_) => Some(ShowJoined)
    case Rejected(code) => Some(ShowError(code + 1))
    case Complaint(code) => Some(ShowError(code + 1))
    case Disconnected => if InRoom(state) then Some(ShowError(SHOWN_LOST)) else None
    case Nothing => None
    case OtherPacket => None
  }

  /**
   Every answer of the host is shown: in every run after which the network thread is through with it, the snapshot
   showed it at some point, unless the session was cancelled, or left before it had joined.
   */
  lemma AnswersAreShown(s: State, e: NetEvent, actions: seq<Action>)
    requires Reachable(s) && s.loop.LoopService? && s.loopCall.NoCall? && Promised(e, s.room.state).Some?
    requires Step(s, LoopMoves(e)).Some? && After(Step(s, LoopMoves(e)).value, actions).Some?
    requires var t := After(Step(s, LoopMoves(e)).value, actions).value; t.loopCall.NoCall? && !t.loop.LoopThenError?
    ensures Sometime(Step(s, LoopMoves(e)).value, actions, Promised(e, s.room.state).value)
  {
    hide Inv, Shows, Step, After;
    var n, p := Step(s, LoopMoves(e)).value, Promised(e, s.room.state).value;
    ReachableInv(s);
    ReachableShows(s);
    StepKeepsInv(s, LoopMoves(e));
    StepKeepsShown(s, LoopMoves(e));
    DispatchOwes(s, e);
    PromiseIsKept(n, Loop, p, actions);
  }

  lemma DispatchOwes(s: State, e: NetEvent)
    requires s.loop.LoopService? && s.loopCall.NoCall? && Promised(e, s.room.state).Some?
    requires Step(s, LoopMoves(e)).Some?
    ensures Owes(Step(s, LoopMoves(e)).value, Loop, Promised(e, s.room.state).value)
  {
    hide Truncated;
  }

  /** What the snapshot is to show when a step of a run fails. */
  function FailureOf(s: State, a: Answer): Option<nat> {
    match s.worker
    case CreateHost => if a.Throw? then Some(SHOWN_INTERNAL)
                       else if s.room.client || a.Yes? then None else Some(SHOWN_UNKNOWN)
    case Resolve => if a.Yes? then None else Some(SHOWN_COULD_NOT_CONNECT)
    case Connect => if a.Yes? then None else Some(SHOWN_UNKNOWN)
    case Service => if s.session.cancel || a.Again? || a.Yes? then None else Some(SHOWN_COULD_NOT_CONNECT)
    case StartLoop => if a.Throw? then Some(SHOWN_INTERNAL) else None
    case SendJoinRequest => if a.Throw? then Some(SHOWN_INTERNAL) else None
    case SendGameInfo => if a.Throw? then Some(SHOWN_INTERNAL) else None
    case PollDeadline => if s.room.state == Joining && a.Yes? then Some(SHOWN_TIMEOUT) else None
    case _ => None
  }

  /** Every failure of a run is shown before the run is over, unless the session was cancelled. */
  lemma FailuresAreShown(s: State, a: Answer, actions: seq<Action>)
    requires Reachable(s) && s.workerCall.NoCall? && FailureOf(s, a).Some? && Step(s, WorkerMoves(a)).Some?
    requires After(Step(s, WorkerMoves(a)).value, actions).Some?
    requires var t := After(Step(s, WorkerMoves(a)).value, actions).value;
             t.workerCall.NoCall? && t.worker.StoreFinished?
    ensures Sometime(Step(s, WorkerMoves(a)).value, actions, ShowError(FailureOf(s, a).value))
  {
    hide Inv, Shows, Step, After;
    var n := Step(s, WorkerMoves(a)).value;
    ReachableInv(s);
    ReachableShows(s);
    StepKeepsInv(s, WorkerMoves(a));
    StepKeepsShown(s, WorkerMoves(a));
    FailureOwes(s, a);
    PromiseIsKept(n, Worker, ShowError(FailureOf(s, a).value), actions);
  }

  lemma FailureOwes(s: State, a: Answer)
    requires s.workerCall.NoCall? && FailureOf(s, a).Some? && Step(s, WorkerMoves(a)).Some?
    ensures Owes(Step(s, WorkerMoves(a)).value, Worker, ShowError(FailureOf(s, a).value))
  {
    hide Truncated;
  }

  // ----- joined is shown only after the host's answer -----

  /** The host has not answered that the join succeeded. */
  predicate Unanswered(s: State) {
    && Display(s) != ShownJoined && !InRoom(s.room.state) && !OwesJoined(s)
    && !Announces(s.workerCall)
    && (s.workerCall.SetCheck? || s.workerCall.SetStore? ==> !InRoom(s.workerCall.target))
  }

  predicate Answers(s: State, a: Action) {
    a.LoopMoves? && s.loop.LoopService? && s.loopCall.NoCall? && a.event.JoinSuccess?
  }

  lemma AnswerlessCall(s: State, t: Thread)
    requires Unanswered(s) && t != Api && CallNext(s, t).Some?
    ensures Unanswered(CallNext(s, t).value)
  {
    hide CallNext, Truncated;
    CallFrame(s, t);
    CallWrites(s, t);
    CallCarries(s, t, StateEvent(Joined));
    CallCarries(s, t, StateEvent(Moderator));
  }

  lemma AnswerlessLoop(s: State, e: NetEvent)
    requires Unanswered(s) && s.loopCall.NoCall? && LoopNext(s, e).Some? && !Answers(s, LoopMoves(e))
    ensures Unanswered(LoopNext(s, e).value)
  {
    hide Truncated;
  }

  lemma AnswerlessWorkerJoin(s: State, a: Answer)
    requires Unanswered(s) && s.workerCall.NoCall? && InJoin(s.worker) && JoinNext(s, a).Some?
    ensures Unanswered(JoinNext(s, a).value)
  {
    hide Truncated;
  }

  lemma AnswerlessWorkerPoll(s: State, a: Answer)
    requires Unanswered(s) && s.workerCall.NoCall? && InPoll(s.worker) && PollNext(s, a).Some?
    ensures Unanswered(PollNext(s, a).value)
  {
    hide Truncated;
  }

  lemma AnswerlessWorkerLeave(s: State)
    requires Unanswered(s) && s.workerCall.NoCall? && InLeave(s.worker) && LeaveNext(s).Some?
    ensures Unanswered(LeaveNext(s).value)
  {
    hide Truncated;
  }

  lemma AnswerlessWorker(s: State, a: Answer)
    requires Unanswered(s) && s.workerCall.NoCall? && WorkerNext(s, a).Some?
    ensures Unanswered(WorkerNext(s, a).value)
  {
    hide Truncated, JoinNext, PollNext, LeaveNext;
    if InJoin(s.worker) {
      AnswerlessWorkerJoin(s, a);
    } else if InPoll(s.worker) {
      AnswerlessWorkerPoll(s, a);
    } else {
      AnswerlessWorkerLeave(s);
    }
  }

  lemma AnswerlessApiLifecycle(s: State, a: Answer)
    requires Unanswered(s) && InLifecycle(s.api) && LifecycleNext(s, a).Some?
    ensures Unanswered(LifecycleNext(s, a).value)
  {
    hide Truncated;
  }

  lemma AnswerlessApiJoinRoom(s: State, a: Answer)
    requires Unanswered(s) && InJoinRoom(s.api) && JoinRoomNext(s, a).Some?
    ensures Unanswered(JoinRoomNext(s, a).value)
  {
    hide Truncated;
  }

  lemma AnswerlessApiLeaveRoom(s: State)
    requires Unanswered(s) && InLeaveRoom(s.api) && LeaveRoomNext(s).Some?
    ensures Unanswered(LeaveRoomNext(s).value)
  {
    hide Truncated;
  }

  lemma AnswerlessApi(s: State, a: Answer)
    requires Unanswered(s) && ApiNext(s, a).Some?
    ensures Unanswered(ApiNext(s, a).value)
  {
    hide Truncated, LifecycleNext, JoinRoomNext, LeaveRoomNext;
    if InLifecycle(s.api) {
      AnswerlessApiLifecycle(s, a);
    } else if InJoinRoom(s.api) {
      AnswerlessApiJoinRoom(s, a);
    } else {
      AnswerlessApiLeaveRoom(s);
    }
  }

  lemma AnswerlessStep(s: State, a: Action)
    requires Unanswered(s) && Step(s, a).Some? && !Answers(s, a)
    ensures Unanswered(Step(s, a).value)
  {
    hide Unanswered, WorkerNext, ApiNext, LoopNext, CallNext;
    match a {
      case Begin(op) => AnswerlessBegin(s, op);
      case ApiMoves(answer) => AnswerlessApi(s, answer);
      case WorkerMoves(answer) =>
        if s.workerCall.NoCall? { AnswerlessWorker(s, answer); } else { AnswerlessCall(s, Worker); }
      case LoopMoves(e) =>
        if s.loopCall.NoCall? { AnswerlessLoop(s, e); } else { AnswerlessCall(s, Loop); }
      case EmulationPushes(p) => AnswerlessPush(s, p);
    }
  }

  lemma AnswerlessBegin(s: State, op: Op)
    requires Unanswered(s) && s.api.Free?
    ensures Unanswered(ApiStart(s, op))
  {
  }

  lemma AnswerlessPush(s: State, p: Packet)
    requires Unanswered(s)
    ensures Unanswered(Push(s, p))
  {
  }

  /** Whether the host has answered since a join last began, in a run from `s` where `before` tells it. */
  predicate Answered(s: State, actions: seq<Action>, before: bool)
    requires After(s, actions).Some?
    decreases actions
  {
    if actions == [] then before
    else Answered(Step(s, actions[0]).value, actions[1..], Answers(s, actions[0]) || (before && !s.api.PublishJoining?))
  }

  lemma {:induction false} AnsweredRun(s: State, actions: seq<Action>, before: bool)
    requires Reachable(s) && After(s, actions).Some? && (before || Unanswered(s))
    ensures Answered(s, actions, before) || Unanswered(After(s, actions).value)
    decreases actions
  {
    hide Step, Unanswered, Answers;
    if actions != [] {
      var a, n := actions[0], Step(s, actions[0]).value;
      ReachableNext(s, a);
      if s.api.PublishJoining? {
        ReachableInv(s);
        JoiningIsUnanswered(s);
      }
      if !Answers(s, a) && (!before || s.api.PublishJoining?) {
        AnswerlessStep(s, a);
      }
      AnsweredRun(n, actions[1..], Answers(s, a) || (before && !s.api.PublishJoining?));
    }
  }

  /** When a join begins no thread is left that could say it had joined. */
  lemma JoiningIsUnanswered(s: State)
    requires Reachable(s) && s.api.PublishJoining?
    ensures Unanswered(s)
  {
    ReachableInv(s);
    hide LockInv, TransportInv, FinishedInv, CancelInv, QueueInv;
  }

  /** After any run, joined is shown only if the host has answered the join that last began. */
  lemma JoinedOnlyWhenAnswered(actions: seq<Action>)
    requires After(Initial(), actions).Some? && Display(After(Initial(), actions).value) == ShownJoined
    ensures Answered(Initial(), actions, false)
  {
    hide Step;
    assert After(Initial(), []) == Some(Initial());
    AnsweredRun(Initial(), actions, false);
  }
}
