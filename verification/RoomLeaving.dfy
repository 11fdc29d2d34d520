/**
 How long the snapshot shows that the room is being left. The header of the interface promises until the cleanup
 completes; this module says exactly when that fails.
 */
module RoomLeaving {
  import opened Options
  import opened RoomProtocol
  import opened RoomInvariant
  import opened RoomTheorems

  /** The snapshot still says leaving although `Run` has released everything and published idle. */
  predicate StaleLeaving(s: State) {
    s.session.snapshot.state == Leaving && !Busy(s.worker)
  }

  predicate AtRest(shown: Shown) {
    shown == ShownIdle || shown == Offline
  }

  function Display(s: State): Shown {
    s.session.snapshot.state
  }

  /** `retro_azahar_room_leave` writes LEAVING over a snapshot that shows no session. */
  predicate WritesLate(s: State, a: Action) {
    a.ApiMoves? && s.api.LeaveWrite? && AtRest(Display(s))
  }

  /** What the leave function sees in its critical section tells whether its write comes after the cleanup. */
  lemma LateExactlyAtRest(s: State)
    requires Reachable(s) && s.api.LeaveWrite? && Display(s) != Leaving
    ensures !Busy(s.worker) <==> AtRest(Display(s))
  {
    ReachableInv(s);
    hide LockInv, CallInv, TransportInv, MemberInv, StateInv, FinishedInv, CancelInv, QueueInv;
  }

  // ----- one step -----

  /** A step shows LEAVING only by the write of a leave, and while LEAVING stays nobody starts or ends a session. */
  predicate ShowsHonestly(s: State, t: State, a: Action) {
    && (Display(t) == Leaving && Display(s) != Leaving ==> a.ApiMoves? && s.api.LeaveWrite? && t.worker == s.worker)
    && (Display(t) == Leaving && Display(s) == Leaving ==> (Busy(t.worker) <==> Busy(s.worker)))
  }

  lemma StepShowsHonestly(s: State, a: Action)
    requires Inv(s) && Step(s, a).Some?
    ensures ShowsHonestly(s, Step(s, a).value, a)
  {
    hide Inv, JoinNext, PollNext, LeaveNext, LifecycleNext, JoinRoomNext, LeaveRoomNext, LoopNext, CallNext, ApiStart,
        ShowsHonestly, Push;
    match a {
      case Begin(op) => BeginShows(s, op);
      case ApiMoves(answer) =>
        if InLifecycle(s.api) { LifecycleShows(s, answer); }
        else if InJoinRoom(s.api) { JoinRoomShows(s, answer); }
        else { LeaveRoomShows(s, answer); }
      case WorkerMoves(answer) =>
        if !s.workerCall.NoCall? { CallShows(s, Worker, a); }
        else if InJoin(s.worker) { JoinShows(s, answer); }
        else if InPoll(s.worker) { PollShows(s, answer); }
        else { LeaveShows(s, answer); }
      case LoopMoves(event) =>
        if s.loopCall.NoCall? { LoopShows(s, event); } else { CallShows(s, Loop, a); }
      case EmulationPushes(p) => PushShows(s, p);
    }
  }

  lemma BeginShows(s: State, op: Op)
    requires s.api.Free?
    ensures ShowsHonestly(s, ApiStart(s, op), Begin(op))
  {
  }

  lemma LifecycleShows(s: State, a: Answer)
    requires Inv(s) && InLifecycle(s.api) && LifecycleNext(s, a).Some?
    ensures ShowsHonestly(s, LifecycleNext(s, a).value, ApiMoves(a))
  {
    hide Inv;
  }

  lemma JoinRoomShows(s: State, a: Answer)
    requires Inv(s) && InJoinRoom(s.api) && JoinRoomNext(s, a).Some?
    ensures ShowsHonestly(s, JoinRoomNext(s, a).value, ApiMoves(a))
  {
    hide LockInv, CallInv, TransportInv, MemberInv, StateInv, FinishedInv, CancelInv, QueueInv;
  }

  lemma LeaveRoomShows(s: State, a: Answer)
    requires InLeaveRoom(s.api) && LeaveRoomNext(s).Some?
    ensures ShowsHonestly(s, LeaveRoomNext(s).value, ApiMoves(a))
  {
  }

  lemma JoinShows(s: State, a: Answer)
    requires InJoin(s.worker) && JoinNext(s, a).Some?
    ensures ShowsHonestly(s, JoinNext(s, a).value, WorkerMoves(a))
  {
  }

  lemma PollShows(s: State, a: Answer)
    requires InPoll(s.worker) && PollNext(s, a).Some?
    ensures ShowsHonestly(s, PollNext(s, a).value, WorkerMoves(a))
  {
  }

  lemma LeaveShows(s: State, a: Answer)
    requires InLeave(s.worker) && LeaveNext(s).Some?
    ensures ShowsHonestly(s, LeaveNext(s).value, WorkerMoves(a))
  {
  }

  lemma LoopShows(s: State, e: NetEvent)
    requires s.loopCall.NoCall? && LoopNext(s, e).Some?
    ensures ShowsHonestly(s, LoopNext(s, e).value, LoopMoves(e))
  {
  }

  lemma CallShows(s: State, t: Thread, a: Action)
    requires t != Api && CallNext(s, t).Some?
    ensures ShowsHonestly(s, CallNext(s, t).value, a)
  {
  }

  lemma PushShows(s: State, p: Packet)
    ensures ShowsHonestly(s, Push(s, p), EmulationPushes(p))
  {
  }

  /** LEAVING outlives the cleanup by exactly this step: a leave that writes it over a snapshot at rest. */
  lemma LeavingOutlivesCleanupExactly(s: State, a: Action)
    requires Reachable(s) && Step(s, a).Some? && !StaleLeaving(s)
    ensures StaleLeaving(Step(s, a).value) <==> WritesLate(s, a)
  {
    hide Inv, ApiNext, ApiStart, WorkerNext, LoopNext, CallNext, Push;
    ReachableInv(s);
    StepShowsHonestly(s, a);
    if a.ApiMoves? && s.api.LeaveWrite? {
      LeaveWriteShown(s, a.answer);
      if Display(s) != Leaving { LateExactlyAtRest(s); }
    }
  }

  lemma LeaveWriteShown(s: State, a: Answer)
    requires s.api.LeaveWrite?
    ensures ApiNext(s, a).Some? && Display(ApiNext(s, a).value) == Leaving && ApiNext(s, a).value.worker == s.worker
  {
  }

  // ----- all runs -----

  /** What the snapshot showed before it last changed. */
  function ShownBefore(s: State, actions: seq<Action>, before: Shown): (shown: Shown)
    requires After(s, actions).Some?
    decreases actions
  {
    if actions == [] then before
    else
      var next := Step(s, actions[0]).value;
      ShownBefore(next, actions[1..], if Display(next) != Display(s) then Display(s) else before)
  }

  /** In the state of a session, what LEAVING replaced tells whether the cleanup was already done. */
  predicate Told(s: State, before: Shown) {
    Display(s) == Leaving ==> (AtRest(before) <==> !Busy(s.worker))
  }

  lemma ToldNext(s: State, a: Action, before: Shown)
    requires Reachable(s) && Step(s, a).Some? && Told(s, before)
    ensures Told(Step(s, a).value, if Display(Step(s, a).value) != Display(s) then Display(s) else before)
  {
    hide Inv, Step;
    ReachableInv(s);
    StepShowsHonestly(s, a);
    if s.api.LeaveWrite? && Display(s) != Leaving { LateExactlyAtRest(s); }
  }

  lemma {:induction false} ToldAfter(s: State, actions: seq<Action>, before: Shown)
    requires Reachable(s) && Told(s, before) && After(s, actions).Some?
    ensures Told(After(s, actions).value, ShownBefore(s, actions, before))
    decreases actions
  {
    hide Step, Told;
    if actions != [] {
      var next := Step(s, actions[0]).value;
      ToldNext(s, actions[0], before);
      ReachableNext(s, actions[0]);
      ToldAfter(next, actions[1..], if Display(next) != Display(s) then Display(s) else before);
    }
  }

  /**
   After any run, LEAVING is shown with the cleanup already done if and only if the last change of the snapshot's state
   was from idle or offline to LEAVING: whoever watches the snapshot can tell.
   */
  lemma StaleExactlyAfterLateWrite(actions: seq<Action>)
    requires After(Initial(), actions).Some?
    ensures var s := After(Initial(), actions).value;
            StaleLeaving(s) <==> Display(s) == Leaving && AtRest(ShownBefore(Initial(), actions, Offline))
  {
    hide Step, ShownBefore;
    assert After(Initial(), []) == Some(Initial());
    ToldAfter(Initial(), actions, Offline);
  }

  // ----- LEAVING is not withdrawn early -----

  /** While leaving is shown of a running session, it is cancelled and no callback is about to write the snapshot. */
  predicate Held(s: State) {
    Display(s) == Leaving && Busy(s.worker) ==>
      s.session.cancel && !s.workerCall.CallbackWrite? && !s.loopCall.CallbackWrite?
  }

  /** What a step may do to a session being left: `Held` stays, and LEAVING goes only when the worker publishes. */
  predicate HoldsOn(s: State, t: State) {
    && Held(t)
    && (Display(s) == Leaving && Busy(s.worker) && Busy(t.worker) ==> Display(t) == Leaving)
  }

  lemma InitiallyHeld()
    ensures Held(Initial())
  {
  }

  lemma StepHoldsOn(s: State, a: Action)
    requires Inv(s) && Held(s) && Step(s, a).Some?
    ensures HoldsOn(s, Step(s, a).value)
  {
    hide Inv, Held, JoinNext, PollNext, LeaveNext, LifecycleNext, JoinRoomNext, LeaveRoomNext, LoopNext, CallNext,
        ApiStart, HoldsOn, Push;
    match a {
      case Begin(op) => BeginHolds(s, op);
      case ApiMoves(answer) =>
        if InLifecycle(s.api) { LifecycleHolds(s, answer); }
        else if InJoinRoom(s.api) { JoinRoomHolds(s, answer); }
        else { LeaveRoomHolds(s); }
      case WorkerMoves(answer) =>
        if !s.workerCall.NoCall? { CallHolds(s, Worker); }
        else if InJoin(s.worker) { JoinHolds(s, answer); }
        else if InPoll(s.worker) { PollHolds(s, answer); }
        else { LeaveHolds(s); }
      case LoopMoves(event) =>
        if s.loopCall.NoCall? { LoopHolds(s, event); } else { CallHolds(s, Loop); }
      case EmulationPushes(p) => PushHolds(s, p);
    }
  }

  lemma BeginHolds(s: State, op: Op)
    requires Held(s) && s.api.Free?
    ensures HoldsOn(s, ApiStart(s, op))
  {
  }

  lemma LifecycleHolds(s: State, a: Answer)
    requires Inv(s) && Held(s) && InLifecycle(s.api) && LifecycleNext(s, a).Some?
    ensures HoldsOn(s, LifecycleNext(s, a).value)
  {
    hide LockInv, CallInv, TransportInv, StateInv, SnapshotInv, FinishedInv, CancelInv, QueueInv;
  }

  lemma JoinRoomHolds(s: State, a: Answer)
    requires Inv(s) && Held(s) && InJoinRoom(s.api) && JoinRoomNext(s, a).Some?
    ensures HoldsOn(s, JoinRoomNext(s, a).value)
  {
    hide LockInv, CallInv, TransportInv, StateInv, FinishedInv, CancelInv, QueueInv;
  }

  lemma LeaveRoomHolds(s: State)
    requires Inv(s) && Held(s) && InLeaveRoom(s.api) && LeaveRoomNext(s).Some?
    ensures HoldsOn(s, LeaveRoomNext(s).value)
  {
    hide CallInv, TransportInv, MemberInv, StateInv, SnapshotInv, FinishedInv, QueueInv;
  }

  lemma JoinHolds(s: State, a: Answer)
    requires Held(s) && InJoin(s.worker) && s.workerCall.NoCall? && JoinNext(s, a).Some?
    ensures HoldsOn(s, JoinNext(s, a).value)
  {
  }

  lemma PollHolds(s: State, a: Answer)
    requires Held(s) && InPoll(s.worker) && s.workerCall.NoCall? && PollNext(s, a).Some?
    ensures HoldsOn(s, PollNext(s, a).value)
  {
  }

  lemma LeaveHolds(s: State)
    requires Held(s) && InLeave(s.worker) && s.workerCall.NoCall? && LeaveNext(s).Some?
    ensures HoldsOn(s, LeaveNext(s).value)
  {
  }

  lemma LoopHolds(s: State, e: NetEvent)
    requires Held(s) && s.loopCall.NoCall? && LoopNext(s, e).Some?
    ensures HoldsOn(s, LoopNext(s, e).value)
  {
  }

  lemma CallHolds(s: State, t: Thread)
    requires Inv(s) && Held(s) && t != Api && CallNext(s, t).Some?
    ensures HoldsOn(s, CallNext(s, t).value)
  {
    hide Inv;
  }

  lemma PushHolds(s: State, p: Packet)
    requires Held(s)
    ensures HoldsOn(s, Push(s, p))
  {
  }

  lemma {:induction false} RunHolds(s: State, actions: seq<Action>)
    requires Inv(s) && Held(s) && After(s, actions).Some?
    ensures Held(After(s, actions).value)
    decreases actions
  {
    hide Inv, Held, Step;
    if actions != [] {
      StepKeepsInv(s, actions[0]);
      StepHoldsOn(s, actions[0]);
      RunHolds(Step(s, actions[0]).value, actions[1..]);
    }
  }

  lemma ReachableHeld(s: State)
    requires Reachable(s)
    ensures Held(s)
  {
    hide Inv, Held, After;
    var actions :| After(Initial(), actions) == Some(s);
    InitialInv();
    InitiallyHeld();
    RunHolds(Initial(), actions);
  }

  /** The worker's step that shows the room idle again, after the member's leave has released everything. */
  predicate Publishes(s: State, a: Action) {
    a.WorkerMoves? && s.workerCall.NoCall? && s.worker.Publish?
  }

  /** LEAVING is taken back only by the step with which the worker publishes that everything is released. */
  lemma LeavingEndsWithCleanup(s: State, a: Action)
    requires Reachable(s) && Display(s) == Leaving && Busy(s.worker) && Step(s, a).Some?
    ensures var t := Step(s, a).value;
            Display(t) != Leaving <==> Publishes(s, a)
  {
    hide Inv, Held, Step;
    ReachableInv(s);
    ReachableHeld(s);
    StepHoldsOn(s, a);
    BusyUntilPublish(s, a);
  }

  lemma BusyUntilPublish(s: State, a: Action)
    requires Inv(s) && Busy(s.worker) && Step(s, a).Some?
    ensures var t := Step(s, a).value;
            && (!Busy(t.worker) <==> Publishes(s, a))
            && (!Busy(t.worker) ==> Display(t) == ShownIdle)
  {
    hide Inv, JoinNext, PollNext, LeaveNext, ApiNext, LoopNext, CallNext, ApiStart, Push, Busy;
    match a {
      case Begin(op) => BeginKeepsWorker(s, op);
      case ApiMoves(answer) => ApiKeepsBusy(s, answer);
      case WorkerMoves(answer) =>
        if !s.workerCall.NoCall? { CallKeepsWorker(s, Worker); } else { WorkerKeepsBusy(s, answer); }
      case LoopMoves(event) =>
        if s.loopCall.NoCall? { LoopKeepsWorker(s, event); } else { CallKeepsWorker(s, Loop); }
      case EmulationPushes(p) => PushKeepsWorker(s, p);
    }
  }

  lemma BeginKeepsWorker(s: State, op: Op)
    requires s.api.Free?
    ensures ApiStart(s, op).worker == s.worker
  {
  }

  lemma ApiKeepsBusy(s: State, a: Answer)
    requires Inv(s) && Busy(s.worker) && ApiNext(s, a).Some?
    ensures ApiNext(s, a).value.worker == s.worker
  {
    hide LockInv, CallInv, TransportInv, StateInv, SnapshotInv, FinishedInv, CancelInv, QueueInv;
  }

  lemma WorkerKeepsBusy(s: State, a: Answer)
    requires Busy(s.worker) && s.workerCall.NoCall? && WorkerNext(s, a).Some?
    ensures !Busy(WorkerNext(s, a).value.worker) <==> s.worker.Publish?
    ensures s.worker.Publish? ==> Display(WorkerNext(s, a).value) == ShownIdle
  {
  }

  lemma CallKeepsWorker(s: State, t: Thread)
    requires t != Api && CallNext(s, t).Some?
    ensures CallNext(s, t).value.worker == s.worker
  {
  }

  lemma LoopKeepsWorker(s: State, e: NetEvent)
    requires s.loopCall.NoCall? && LoopNext(s, e).Some?
    ensures LoopNext(s, e).value.worker == s.worker
  {
  }

  lemma PushKeepsWorker(s: State, p: Packet)
    ensures Push(s, p).worker == s.worker
  {
  }

  /** The worker does not publish along the run. */
  predicate NoPublish(s: State, actions: seq<Action>)
    decreases actions
  {
    actions != [] && Step(s, actions[0]).Some? ==>
      && !Publishes(s, actions[0])
      && NoPublish(Step(s, actions[0]).value, actions[1..])
  }

  /**
   From the write of a leave on, LEAVING is shown in every state until the worker publishes: it lasts at least as long
   as the cleanup does.
   */
  lemma {:induction false} LeavingLastsThroughCleanup(s: State, actions: seq<Action>)
    requires Reachable(s) && Display(s) == Leaving && Busy(s.worker)
    requires After(s, actions).Some? && NoPublish(s, actions)
    ensures Display(After(s, actions).value) == Leaving && Busy(After(s, actions).value.worker)
    decreases actions
  {
    hide Step, Inv;
    if actions != [] {
      ReachableInv(s);
      LeavingEndsWithCleanup(s, actions[0]);
      BusyUntilPublish(s, actions[0]);
      ReachableNext(s, actions[0]);
      LeavingLastsThroughCleanup(Step(s, actions[0]).value, actions[1..]);
    }
  }
}
