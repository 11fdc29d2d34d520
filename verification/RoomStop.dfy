/**
 When the functions that stop the game's session return: they raise `cancel` and join the worker, which in turn leaves
 the room.
 */
module RoomStop {
  import opened Options
  import opened RoomProtocol
  import opened RoomInvariant
  import opened RoomTheorems
  import opened RoomWaits
  import opened RoomReturn

  // ----- how far a cancelled worker is from its end -----

  function LeaveRank(pc: WorkerPc): (n: nat)
    requires pc.LeaveStart? || pc.LeaveJoin? || pc.LeaveDestroy? || pc.LeaveClear?
  {
    (match pc.ret case ToPublish => 3 case ToPoll => 8 case ToGiveUp => 9 case ToCreateHost => 17)
    + if pc.LeaveStart? then 3 else if pc.LeaveJoin? then 2 else if pc.LeaveDestroy? then 1 else 0
  }

  /** The steps a cancelled worker still takes outside of calls. */
  function WorkerRank(pc: WorkerPc): (n: nat) {
    match pc
    case NoWorker => 0
    case Exited => 0
    case StoreFinished => 1
    case Publish => 2
    case Poll => 7
    case Timeout => 7
    case Catch => 7
    case PollDeadline => 8
    case PollConnected => 9
    case SendGameInfo => 8
    case SendJoinRequest => 9
    case StartLoop => 10
    case Report(_, leave) => if leave then 12 else 8
    case Service => 12
    case Connect => 13
    case Resolve => 14
    case ClearImmediate => 15
    case CreateHost => 16
    case JoinStart => 21
    case _ => LeaveRank(pc)
  }

  /** A call takes fewer than ten steps. */
  function WorkerLeft(s: State): (n: nat) {
    10 * WorkerRank(s.worker) + CallRank(s.workerCall)
  }

  lemma JoinDescends(s: State, a: Answer)
    requires s.session.cancel && s.workerCall.NoCall? && InJoin(s.worker) && JoinNext(s, a).Some?
    ensures WorkerLeft(JoinNext(s, a).value) < WorkerLeft(s)
    ensures !s.worker.StartLoop? ==> JoinNext(s, a).value.loop == s.loop && !JoinNext(s, a).value.worker.StartLoop?
    ensures JoinNext(s, a).value.queue.batch == s.queue.batch
  {
  }

  lemma PollDescends(s: State, a: Answer)
    requires s.session.cancel && s.workerCall.NoCall? && InPoll(s.worker) && PollNext(s, a).Some?
    ensures WorkerLeft(PollNext(s, a).value) < WorkerLeft(s)
    ensures PollNext(s, a).value.loop == s.loop && !PollNext(s, a).value.worker.StartLoop?
    ensures PollNext(s, a).value.queue == s.queue
  {
  }

  lemma LeaveDescends(s: State)
    requires s.workerCall.NoCall? && InLeave(s.worker) && LeaveNext(s).Some?
    ensures WorkerLeft(LeaveNext(s).value) < WorkerLeft(s)
    ensures LeaveNext(s).value.loop == (if s.worker.LeaveJoin? then NoLoop else s.loop)
    ensures !LeaveNext(s).value.worker.StartLoop? && LeaveNext(s).value.queue.batch == s.queue.batch
  {
  }

  lemma CallOfWorker(s: State)
    requires CallNext(s, Worker).Some?
    ensures var t := CallNext(s, Worker).value;
            && WorkerLeft(t) < WorkerLeft(s) && t.worker == s.worker && t.loop == s.loop && t.loopCall == s.loopCall
            && t.queue == s.queue
  {
  }

  /** Once cancelled, every step of the worker is one of finitely many that are left, whatever the network answers. */
  lemma CancelledDescends(s: State, a: Action)
    requires s.session.cancel && a.WorkerMoves? && Step(s, a).Some?
    ensures WorkerLeft(Step(s, a).value) < WorkerLeft(s)
  {
    hide JoinNext, PollNext, LeaveNext, CallNext, WorkerLeft;
    if !s.workerCall.NoCall? {
      CallOfWorker(s);
    } else if InJoin(s.worker) {
      JoinDescends(s, a.answer);
    } else if InPoll(s.worker) {
      PollDescends(s, a.answer);
    } else {
      LeaveDescends(s);
    }
  }

  // ----- runs during which a function waits for the worker -----

  /** The actions are possible in turn, and the caller stays where it is. */
  predicate Stays(s: State, actions: seq<Action>)
    decreases actions
  {
    actions != [] ==>
      && Step(s, actions[0]).Some? && Step(s, actions[0]).value.api == s.api
      && Stays(Step(s, actions[0]).value, actions[1..])
  }

  function WorkerSteps(actions: seq<Action>): (n: nat) {
    if actions == [] then 0 else (if actions[0].WorkerMoves? then 1 else 0) + WorkerSteps(actions[1..])
  }

  /** The other threads leave the worker and its call alone while it exists. */
  lemma OthersSpareWorker(s: State, a: Action)
    requires Inv(s) && s.api.AwaitWorker? && !a.WorkerMoves? && Step(s, a).Some? && Step(s, a).value.api == s.api
    ensures Step(s, a).value.worker == s.worker && Step(s, a).value.workerCall == s.workerCall
    ensures a.LoopMoves? || a.EmulationPushes?
  {
    hide Inv, LoopNext, CallNext;
    if a.LoopMoves? { NetworkSparesWorker(s, a); }
  }

  lemma NetworkSparesWorker(s: State, a: Action)
    requires a.LoopMoves? && Step(s, a).Some?
    ensures Step(s, a).value.worker == s.worker && Step(s, a).value.workerCall == s.workerCall
  {
  }

  /** While a function waits for the worker, the worker makes at most the steps it had left. */
  lemma {:induction false} StoppedWorkerEnds(s: State, actions: seq<Action>)
    requires Inv(s) && s.api.AwaitWorker? && Stays(s, actions)
    ensures After(s, actions).Some? && Inv(After(s, actions).value) && After(s, actions).value.api == s.api
    ensures WorkerSteps(actions) + WorkerLeft(After(s, actions).value) <= WorkerLeft(s)
    decreases actions
  {
    hide Step, Inv, WorkerLeft;
    if actions != [] {
      var a, t := actions[0], Step(s, actions[0]).value;
      StepKeepsInv(s, a);
      if a.WorkerMoves? {
        AwaitIsCancelled(s);
        CancelledDescends(s, a);
      } else {
        OthersSpareWorker(s, a);
        SameWorkerLeft(s, t);
      }
      StoppedWorkerEnds(t, actions[1..]);
    }
  }

  lemma SameWorkerLeft(s: State, t: State)
    requires t.worker == s.worker && t.workerCall == s.workerCall
    ensures WorkerLeft(t) == WorkerLeft(s)
  {
  }

  lemma AwaitIsCancelled(s: State)
    requires Inv(s) && s.api.AwaitWorker?
    ensures s.session.cancel
  {
    hide LockInv, CallInv, TransportInv, MemberInv, StateInv, SnapshotInv, FinishedInv, QueueInv;
  }

  // ----- when the wait ends -----

  /** The worker and the network thread can only get nearer to their ends. */
  predicate Winding(s: State) {
    || (Leaves(s) && s.room.state == Idle && !MayReconnect(s))
    || (s.loop.NoLoop? && !s.worker.StartLoop?)
  }

  function WorkAhead(s: State): (n: nat) {
    WorkerLeft(s) + StepsLeft(s)
  }

  function Moved(a: Action): (n: nat) {
    if a.WorkerMoves? || a.LoopMoves? then 1 else 0
  }

  lemma WindNetwork(s: State, a: Action)
    requires Inv(s) && Winding(s) && a.LoopMoves? && Step(s, a).Some?
    ensures Winding(Step(s, a).value) && WorkAhead(Step(s, a).value) < WorkAhead(s)
  {
    hide Inv, Leaves, MayReconnect, StepsLeft, WorkerLeft, LoopNext, CallNext;
    NetworkExists(s, a);
    NetworkStaysAway(s, a);
    NetworkDescends(s, a);
    NetworkSparesWorker(s, a);
    SameWorkerLeft(s, Step(s, a).value);
    SameLeaves(s, Step(s, a).value);
  }

  lemma SameLeaves(s: State, t: State)
    requires t.worker == s.worker && t.workerCall == s.workerCall && Leaves(s)
    ensures Leaves(t)
  {
  }

  lemma NetworkExists(s: State, a: Action)
    requires Inv(s) && a.LoopMoves? && Step(s, a).Some?
    ensures !s.loop.NoLoop?
  {
    hide LockInv, TransportInv, MemberInv, StateInv, SnapshotInv, FinishedInv, CancelInv, QueueInv;
  }

  lemma WindCall(s: State)
    requires Winding(s) && CallNext(s, Worker).Some?
    ensures Winding(CallNext(s, Worker).value) && WorkAhead(CallNext(s, Worker).value) < WorkAhead(s)
  {
    hide CallNext, WorkerLeft, CallRank, LoopRank;
    CallOfWorker(s);
    if Leaves(s) { WorkerCallKeeps(s); }
  }

  lemma WindWorker(s: State, a: Answer)
    requires Inv(s) && Winding(s) && s.session.cancel && s.workerCall.NoCall? && WorkerNext(s, a).Some?
    ensures Winding(WorkerNext(s, a).value) && WorkAhead(WorkerNext(s, a).value) < WorkAhead(s)
  {
    hide Inv, JoinNext, PollNext, LeaveNext, WorkerLeft, MayReconnect;
    NetworkGone(s);
    if InJoin(s.worker) {
      JoinDescends(s, a);
      WorkerSparesCall(s, a);
    } else if InPoll(s.worker) {
      PollDescends(s, a);
      WorkerSparesCall(s, a);
    } else {
      LeaveDescends(s);
      WorkerSparesCall(s, a);
    }
  }

  lemma WorkerSparesCall(s: State, a: Answer)
    requires s.workerCall.NoCall? && WorkerNext(s, a).Some?
    ensures WorkerNext(s, a).value.loopCall == s.loopCall
    ensures s.worker.LeaveJoin? ==> s.loop.NoLoop? || s.loop.LoopExited?
  {
  }

  /** A network thread that has ended, or does not exist, is in no call and has nothing to send. */
  lemma NetworkGone(s: State)
    requires Inv(s)
    ensures s.loop.NoLoop? || s.loop.LoopExited? ==> s.loopCall.NoCall? && s.queue.batch == []
  {
    hide LockInv, TransportInv, MemberInv, StateInv, SnapshotInv, FinishedInv, CancelInv;
  }

  lemma WindPush(s: State, p: Packet)
    requires Winding(s)
    ensures Winding(Push(s, p)) && WorkAhead(Push(s, p)) <= WorkAhead(s) + 1
  {
  }

  lemma WindStep(s: State, a: Action)
    requires Inv(s) && Winding(s) && s.api.AwaitWorker? && Step(s, a).Some? && Step(s, a).value.api == s.api
    ensures Winding(Step(s, a).value) && Moved(a) + WorkAhead(Step(s, a).value) <= WorkAhead(s) + Pushed(a)
  {
    hide Inv, Winding, WorkAhead, LoopNext, CallNext, WorkerNext, Push;
    AwaitIsCancelled(s);
    match a {
      case LoopMoves(_) => WindNetwork(s, a);
      case WorkerMoves(answer) => if s.workerCall.NoCall? { WindWorker(s, answer); } else { WindCall(s); }
      case EmulationPushes(p) => WindPush(s, p);
      case _ => OthersSpareWorker(s, a);
    }
  }

  lemma {:induction false} WindRun(s: State, actions: seq<Action>)
    requires Inv(s) && Winding(s) && s.api.AwaitWorker? && Stays(s, actions)
    ensures WorkerSteps(actions) + NetworkSteps(actions) <= WorkAhead(s) + Pushes(actions)
    decreases actions
  {
    hide Step, Inv, Winding, WorkAhead;
    if actions != [] {
      StepKeepsInv(s, actions[0]);
      WindStep(s, actions[0]);
      WindRun(Step(s, actions[0]).value, actions[1..]);
    }
  }

  /** However long the function waits, worker and network make at most `bound` steps, and one for each packet pushed. */
  ghost predicate StopBounds(s: State, bound: nat) {
    forall actions :: Stays(s, actions) ==> WorkerSteps(actions) + NetworkSteps(actions) <= bound + Pushes(actions)
  }

  lemma {:induction false} BackgroundStays(s: State, actions: seq<Action>)
    requires Waits(s, actions) && Background(actions)
    ensures Stays(s, actions)
    decreases actions
  {
    hide Step;
    if actions != [] {
      BackgroundSparesApi(s, actions[0]);
      BackgroundStays(Step(s, actions[0]).value, actions[1..]);
    }
  }

  /**
   A function that waits for a worker which is itself waiting in leave, past its idle store, waits for a bounded number
   of steps if and only if the network thread can no longer reconnect.
   */
  lemma StopReturnsExactly(s: State)
    requires Reachable(s) && s.api.AwaitWorker? && Leaves(s) && s.room.state == Idle
    ensures (exists bound: nat :: StopBounds(s, bound)) <==> !MayReconnect(s)
  {
    hide Inv, Leaves, MayReconnect, Stays, Waits, WorkAhead;
    ReachableInv(s);
    if MayReconnect(s) {
      forall bound: nat ensures !StopBounds(s, bound) {
        var long := LongWait(s, bound + 1);
        BackgroundStays(s, long);
      }
    } else {
      forall actions | Stays(s, actions)
        ensures WorkerSteps(actions) + NetworkSteps(actions) <= WorkAhead(s) + Pushes(actions)
      {
        WindRun(s, actions);
      }
      assert StopBounds(s, WorkAhead(s));
    }
  }

  /** At every point of the wait the function can go on, or following the waits leads to a thread that can move. */
  lemma StopProceeds(s: State, actions: seq<Action>)
    requires Reachable(s) && s.api.AwaitWorker? && Stays(s, actions)
    ensures After(s, actions).Some?
    ensures var t := After(s, actions).value;
            && MovesWithin(t, Api, 2)
            && (CanMove(t, Api) <==> !Underway(t, Worker))
            && WorkerSteps(actions) + WorkerLeft(t) <= WorkerLeft(s)
  {
    hide Inv, MovesWithin, CanMove, WorkerLeft, Stays;
    ReachableInv(s);
    StoppedWorkerEnds(s, actions);
    var t := After(s, actions).value;
    ApiWaits(t);
    AwaitEnabled(t);
  }

  lemma AwaitEnabled(s: State)
    requires s.api.AwaitWorker?
    ensures CanMove(s, Api) <==> !Underway(s, Worker)
  {
  }
}
