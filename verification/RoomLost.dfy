/**
 When a run ends by itself: once the member has fallen idle, because the connection was refused or lost, the worker has
 only so many steps left before it has released everything.
 */
module RoomLost {
  import opened Options
  import opened RoomProtocol
  import opened RoomInvariant
  import opened RoomTheorems
  import opened RoomReturn
  import opened RoomShown
  import opened RoomStop

  /** The worker is past `Join` and has not finished. */
  predicate Ending(pc: WorkerPc) {
    (InPoll(pc) || InLeave(pc)) && !Restarts(pc)
  }

  function ReturnRank(ret: Return): (n: nat) {
    match ret case ToPublish => 3 case ToPoll => 9 case _ => 10
  }

  function LostRank(pc: WorkerPc): (n: nat) {
    match pc
    case StoreFinished => 1
    case Publish => 2
    case Timeout => 7
    case Catch => 7
    case PollConnected => 7
    case Poll => 8
    case PollDeadline => 9
    case Report(_, leave) => if leave then 13 else 9
    case LeaveStart(ret) => ReturnRank(ret) + 3
    case LeaveJoin(ret) => ReturnRank(ret) + 2
    case LeaveDestroy(ret) => ReturnRank(ret) + 1
    case LeaveClear(ret) => ReturnRank(ret)
    case _ => 0
  }

  /** The steps the worker of an idle member has left; a call takes fewer than ten. */
  function LostLeft(s: State): (n: nat) {
    if Ending(s.worker) then 10 * LostRank(s.worker) + CallRank(s.workerCall) else 0
  }

  lemma IdlePolls(s: State, a: Answer)
    requires s.room.state == Idle && s.workerCall.NoCall? && InPoll(s.worker) && PollNext(s, a).Some?
    ensures LostLeft(PollNext(s, a).value) < LostLeft(s)
  {
  }

  lemma IdleLeaves(s: State)
    requires s.workerCall.NoCall? && InLeave(s.worker) && !Restarts(s.worker) && LeaveNext(s).Some?
    ensures LostLeft(LeaveNext(s).value) < LostLeft(s)
  {
  }

  lemma IdleCalls(s: State)
    requires Ending(s.worker) && CallNext(s, Worker).Some?
    ensures LostLeft(CallNext(s, Worker).value) < LostLeft(s)
  {
    hide LostRank, Ending;
  }

  /** While the member is idle, every step of the worker brings its end nearer. */
  lemma IdleDescends(s: State, a: Action)
    requires s.room.state == Idle && Ending(s.worker) && a.WorkerMoves? && Step(s, a).Some?
    ensures LostLeft(Step(s, a).value) < LostLeft(s)
  {
    hide PollNext, LeaveNext, CallNext, LostLeft;
    if !s.workerCall.NoCall? {
      IdleCalls(s);
    } else if InPoll(s.worker) {
      IdlePolls(s, a.answer);
    } else {
      IdleLeaves(s);
    }
  }

  /** The member is idle and the worker not at its end, at each step of the run. */
  predicate StaysIdle(s: State, actions: seq<Action>)
    decreases actions
  {
    actions != [] ==>
      && s.room.state == Idle && Ending(s.worker) && Step(s, actions[0]).Some?
      && StaysIdle(Step(s, actions[0]).value, actions[1..])
  }

  lemma OthersSpare(s: State, a: Action)
    requires Inv(s) && Ending(s.worker) && !a.WorkerMoves? && Step(s, a).Some?
    ensures LostLeft(Step(s, a).value) == LostLeft(s)
  {
    hide Inv, LoopNext, CallNext, ApiNext, LostLeft;
    match a {
      case Begin(op) => SameWorker(s, ApiStart(s, op));
      case ApiMoves(answer) =>
        ApiSparesWorker(s, answer);
        SameWorker(s, ApiNext(s, answer).value);
      case LoopMoves(_) =>
        NetworkSparesWorker(s, a);
        SameWorker(s, Step(s, a).value);
      case EmulationPushes(p) => SameWorker(s, Push(s, p));
    }
  }

  lemma SameWorker(s: State, t: State)
    requires t.worker == s.worker && t.workerCall == s.workerCall
    ensures LostLeft(t) == LostLeft(s)
  {
  }

  lemma ApiSparesWorker(s: State, a: Answer)
    requires Inv(s) && Ending(s.worker) && ApiNext(s, a).Some?
    ensures ApiNext(s, a).value.worker == s.worker && ApiNext(s, a).value.workerCall == s.workerCall
  {
    hide LockInv, TransportInv, CallInv, StateInv, SnapshotInv, FinishedInv, CancelInv, QueueInv;
  }

  /** Once the member has fallen idle, the worker makes at most the steps it has left: it does not poll for ever. */
  lemma {:induction false} LostRunEnds(s: State, actions: seq<Action>)
    requires Inv(s) && StaysIdle(s, actions)
    ensures After(s, actions).Some?
    ensures WorkerSteps(actions) + LostLeft(After(s, actions).value) <= LostLeft(s)
    decreases actions
  {
    hide Inv, Step, LostLeft;
    if actions != [] {
      var a, t := actions[0], Step(s, actions[0]).value;
      StepKeepsInv(s, a);
      if a.WorkerMoves? {
        IdleDescends(s, a);
      } else {
        OthersSpare(s, a);
      }
      LostRunEnds(t, actions[1..]);
    }
  }
}
