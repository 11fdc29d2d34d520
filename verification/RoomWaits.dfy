/**
 Who waits for whom in the room session: every chain of waits ends in a thread that can move, so there is no deadlock.
 */
module RoomWaits {
  import opened Options
  import opened RoomProtocol
  import opened RoomInvariant
  import opened RoomTheorems

  // ----- every wait ends -----

  predicate Underway(s: State, t: Thread) {
    match t
    case Api => !s.api.Free?
    case Worker => !s.worker.NoWorker? && !s.worker.Exited?
    case Loop => !s.loop.NoLoop? && !s.loop.LoopExited?
  }

  /** The thread's next step, with the answers of an environment that goes on. */
  function Next(t: Thread): (a: Action) {
    match t
    case Api => ApiMoves(Yes)
    case Worker => WorkerMoves(Yes)
    case Loop => LoopMoves(Nothing)
  }

  predicate CanMove(s: State, t: Thread) {
    Step(s, Next(t)).Some?
  }

  function CallWaitsFor(s: State, c: Call): (owner: Option<Thread>) {
    if c.InvokeLock? then s.locks.callback else if c.CallbackLock? then s.locks.snapshot else None
  }

  predicate ApiLocksSnapshot(pc: ApiPc) {
    || pc.InitFailed? || pc.PublishReady? || pc.PublishStopped? || pc.PublishJoining? || pc.PublishSpawnFailed?
    || pc.LeaveLock?
  }

  /** The owner of the mutex, or the thread to be joined, that keeps a thread from going on. */
  function WaitsFor(s: State, t: Thread): (owner: Option<Thread>) {
    match t
    case Api =>
      if s.api.InitBind? || s.api.Unbind? then s.locks.callback
      else if ApiLocksSnapshot(s.api) then s.locks.snapshot
      else if (s.api.AwaitWorker? || s.api.ReapWorker?) && Underway(s, Worker) then Some(Worker)
      else None
    case Worker =>
      if !s.workerCall.NoCall? then CallWaitsFor(s, s.workerCall)
      else if s.worker.LeaveJoin? && Underway(s, Loop) then Some(Loop)
      else if s.worker.Timeout? || s.worker.Catch? || s.worker.Publish? then s.locks.snapshot
      else None
    case Loop => CallWaitsFor(s, s.loopCall)
  }

  /** Following the waits from `t`, at most `hops` of them, one comes to a thread that can move. */
  predicate MovesWithin(s: State, t: Thread, hops: nat)
    decreases hops
  {
    || CanMove(s, t)
    || (hops > 0 && WaitsFor(s, t).Some? && MovesWithin(s, WaitsFor(s, t).value, hops - 1))
  }

  lemma ThreeThreads(owner: Option<Thread>)
    ensures owner.None? || owner == Some(Api) || owner == Some(Worker) || owner == Some(Loop)
  {
    match owner {
      case None =>
      case Some(t) => assert t.Api? || t.Worker? || t.Loop?;
    }
  }

  /** The owner of `snapshot_mutex` never waits. */
  lemma SnapshotOwnerMoves(s: State)
    requires Inv(s) && s.locks.snapshot.Some?
    ensures CanMove(s, s.locks.snapshot.value)
  {
    hide CallInv, TransportInv, MemberInv, StateInv, SnapshotInv, FinishedInv, CancelInv, QueueInv;
    ThreeThreads(s.locks.snapshot);
  }

  /** The owner of `callback_mutex` waits for `snapshot_mutex` at most. */
  lemma CallbackOwnerMoves(s: State)
    requires Inv(s) && s.locks.callback.Some?
    ensures MovesWithin(s, s.locks.callback.value, 1)
  {
    hide CallInv, TransportInv, MemberInv, StateInv, SnapshotInv, FinishedInv, CancelInv, QueueInv, CanMove;
    ThreeThreads(s.locks.callback);
    var owner := s.locks.callback.value;
    if CallOf(s, owner).CallbackLock? && s.locks.snapshot.Some? {
      SnapshotOwnerMoves(s);
    } else {
      HolderMoves(s, owner);
    }
  }

  lemma HolderMoves(s: State, t: Thread)
    requires t != Api && HoldsCallback(CallOf(s, t)) && (CallOf(s, t).CallbackLock? ==> s.locks.snapshot.None?)
    ensures CanMove(s, t)
  {
  }

  /** Unless the frontend is writing the snapshot, the owner of `callback_mutex` does not wait at all. */
  lemma CallbackOwnerFree(s: State)
    requires Inv(s) && s.locks.callback.Some? && !ApiHoldsSnapshot(s.api)
    ensures CanMove(s, s.locks.callback.value)
  {
    hide CallInv, TransportInv, MemberInv, StateInv, SnapshotInv, FinishedInv, CancelInv, QueueInv, CanMove;
    ThreeThreads(s.locks.callback);
    ThreeThreads(s.locks.snapshot);
    HolderMoves(s, s.locks.callback.value);
  }

  /** Inside a call, a thread waits for the owner of the next mutex or can move. */
  lemma CallWaits(s: State, t: Thread)
    requires t != Api && !CallOf(s, t).NoCall? && !CanMove(s, t)
    ensures WaitsFor(s, t).Some?
    ensures WaitsFor(s, t) == s.locks.callback || WaitsFor(s, t) == s.locks.snapshot
  {
  }

  lemma CallEnds(s: State, t: Thread)
    requires Inv(s) && t != Api && !CallOf(s, t).NoCall?
    ensures MovesWithin(s, t, 2)
    ensures !ApiHoldsSnapshot(s.api) ==> MovesWithin(s, t, 1)
  {
    hide Inv, CanMove, WaitsFor;
    if !CanMove(s, t) {
      CallWaits(s, t);
      if WaitsFor(s, t) == s.locks.callback {
        CallbackOwnerMoves(s);
        if !ApiHoldsSnapshot(s.api) { CallbackOwnerFree(s); }
      } else {
        SnapshotOwnerMoves(s);
      }
    }
  }

  lemma LoopWaits(s: State)
    requires Inv(s) && Underway(s, Loop)
    ensures MovesWithin(s, Loop, 2)
    ensures !ApiHoldsSnapshot(s.api) ==> MovesWithin(s, Loop, 1)
    ensures s.workerCall.NoCall? && !ApiHoldsSnapshot(s.api) ==> CanMove(s, Loop)
    ensures s.workerCall.NoCall? ==> MovesWithin(s, Loop, 1)
  {
    hide TransportInv, MemberInv, StateInv, SnapshotInv, FinishedInv, CancelInv, QueueInv, CanMove, MovesWithin;
    if s.loopCall.NoCall? {
      LoopStepMoves(s);
    } else {
      CallEnds(s, Loop);
      if s.workerCall.NoCall? { AloneInCall(s); }
    }
  }

  lemma LoopStepMoves(s: State)
    requires Inv(s) && Underway(s, Loop) && s.loopCall.NoCall?
    ensures CanMove(s, Loop) && MovesWithin(s, Loop, 1) && MovesWithin(s, Loop, 2)
  {
    hide CallInv, TransportInv, MemberInv, StateInv, SnapshotInv, FinishedInv, CancelInv, QueueInv;
  }

  /** While the worker is in no call, the network thread can be kept waiting by the frontend alone. */
  lemma AloneInCall(s: State)
    requires Inv(s) && !s.loopCall.NoCall? && s.workerCall.NoCall?
    ensures !ApiHoldsSnapshot(s.api) ==> CanMove(s, Loop)
    ensures MovesWithin(s, Loop, 1)
  {
    hide CallInv, TransportInv, MemberInv, StateInv, SnapshotInv, FinishedInv, CancelInv, QueueInv;
    ThreeThreads(s.locks.callback);
    ThreeThreads(s.locks.snapshot);
    if s.locks.snapshot.Some? { SnapshotOwnerMoves(s); }
  }

  lemma WorkerWaits(s: State)
    requires Inv(s) && Underway(s, Worker)
    ensures MovesWithin(s, Worker, 2)
    ensures !ApiHoldsSnapshot(s.api) ==> MovesWithin(s, Worker, 1)
  {
    hide Inv, MovesWithin, CanMove;
    if !s.workerCall.NoCall? {
      CallEnds(s, Worker);
    } else {
      if s.locks.snapshot.Some? { SnapshotOwnerMoves(s); }
      if Underway(s, Loop) { LoopWaits(s); }
      WorkerStepWaits(s);
    }
  }

  lemma WorkerStepWaits(s: State)
    requires Underway(s, Worker) && s.workerCall.NoCall?
    requires s.locks.snapshot.Some? ==> CanMove(s, s.locks.snapshot.value)
    requires Underway(s, Loop) ==> MovesWithin(s, Loop, 1)
    requires Underway(s, Loop) && !ApiHoldsSnapshot(s.api) ==> CanMove(s, Loop)
    ensures MovesWithin(s, Worker, 2)
    ensures !ApiHoldsSnapshot(s.api) ==> MovesWithin(s, Worker, 1)
  {
    hide CanMove, WaitsFor;
    if !CanMove(s, Worker) { WorkerMovesOrWaits(s); }
  }

  lemma WorkerMovesOrWaits(s: State)
    requires Underway(s, Worker) && s.workerCall.NoCall? && !CanMove(s, Worker)
    ensures WaitsFor(s, Worker).Some?
    ensures WaitsFor(s, Worker) == s.locks.snapshot || (WaitsFor(s, Worker) == Some(Loop) && Underway(s, Loop))
  {
  }

  lemma ApiMovesOrWaits(s: State)
    requires Underway(s, Api) && !CanMove(s, Api)
    ensures WaitsFor(s, Api).Some? && !ApiHoldsSnapshot(s.api)
    ensures || WaitsFor(s, Api) == s.locks.snapshot
            || WaitsFor(s, Api) == s.locks.callback
            || (WaitsFor(s, Api) == Some(Worker) && Underway(s, Worker))
  {
  }

  /**
   Every wait ends: from any unfinished thread, in any reachable state, at most two waits (for the owner of a mutex or
   for a thread to be joined) lead to a thread that can move. So no thread waits for itself, directly or through others.
   */
  lemma EveryWaitEnds(s: State, t: Thread)
    requires Reachable(s) && Underway(s, t)
    ensures MovesWithin(s, t, 2)
  {
    hide Inv, CanMove, WaitsFor, MovesWithin;
    ReachableInv(s);
    match t {
      case Loop => LoopWaits(s);
      case Worker => WorkerWaits(s);
      case Api => ApiWaits(s);
    }
  }

  lemma ApiWaits(s: State)
    requires Inv(s) && Underway(s, Api)
    ensures MovesWithin(s, Api, 2)
  {
    hide Inv, CanMove, WaitsFor;
    if !CanMove(s, Api) {
      ApiMovesOrWaits(s);
      if WaitsFor(s, Api) == s.locks.snapshot {
        SnapshotOwnerMoves(s);
      } else if WaitsFor(s, Api) == s.locks.callback {
        CallbackOwnerMoves(s);
      } else {
        WorkerWaits(s);
      }
    }
  }

  // ----- no deadlock -----

  lemma {:induction false} MoverFound(s: State, t: Thread, hops: nat) returns (u: Thread)
    requires MovesWithin(s, t, hops)
    ensures CanMove(s, u)
    decreases hops
  {
    hide CanMove, WaitsFor;
    if CanMove(s, t) {
      u := t;
    } else {
      u := MoverFound(s, WaitsFor(s, t).value, hops - 1);
    }
  }

  /** In every reachable state with an unfinished thread, one of the threads can go on. */
  lemma NoDeadlock(s: State, t: Thread) returns (u: Thread)
    requires Reachable(s) && Underway(s, t)
    ensures CanMove(s, u)
  {
    hide CanMove, MovesWithin;
    EveryWaitEnds(s, t);
    u := MoverFound(s, t, 2);
  }
}
