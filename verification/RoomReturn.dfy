/**
 When the member's leave returns. It waits for the network thread to end, and the network thread ends unless it stores,
 after leave has stored idle, that it is connected.
 */
module RoomReturn {
  import opened Options
  import opened RoomProtocol
  import opened RoomInvariant
  import opened RoomTheorems
  import opened RoomWaits

  /** The worker is inside `Leave`, past its store of the idle state, and waits for the network thread. */
  predicate Leaves(s: State) {
    s.worker.LeaveJoin? && !s.workerCall.SetCheck? && !s.workerCall.SetStore?
  }

  /** The network thread stores a state other than idle. */
  predicate LateStore(s: State, a: Action) {
    a.LoopMoves? && s.loopCall.SetStore? && s.loopCall.target != Idle
  }

  // ----- how far the network thread is from its end -----

  function CallRank(c: Call): (n: nat) {
    match c
    case SetCheck(_) => 9
    case SetStore(_) => 8
    case SetLoad => 7
    case InvokeLock(_) => 6
    case CallbackLock(_) => 5
    case CallbackCheck(_) => 4
    case CallbackWrite(_) => 3
    case CallbackUnlock => 2
    case InvokeUnlock => 1
    case NoCall => 0
  }

  function LoopRank(pc: LoopPc): (n: nat) {
    match pc
    case LoopLock => 24
    case LoopService => 23
    case LoopThenError(_) => 13
    case LoopSwap => 6
    case LoopSend => 5
    case LoopUnlock => 4
    case LoopCheck => 3
    case LoopDisconnect => 2
    case LoopClose => 1
    case LoopExited => 0
    case NoLoop => 0
  }

  /** The network thread has yet to take over the send list in this round. */
  predicate BeforeSwap(pc: LoopPc) {
    pc.LoopLock? || pc.LoopService? || pc.LoopThenError? || pc.LoopSwap?
  }

  /** The steps the network thread has left while the state is idle, with one for each packet it still sends. */
  function StepsLeft(s: State): (n: nat) {
    LoopRank(s.loop) + CallRank(s.loopCall) + |s.queue.batch| + if BeforeSwap(s.loop) then |s.queue.sendList| else 0
  }

  lemma LoopDescends(s: State, e: NetEvent)
    requires Inv(s) && Leaves(s) && s.room.state == Idle && s.loopCall.NoCall? && LoopNext(s, e).Some?
    ensures var t := LoopNext(s, e).value;
            t.room.state == Idle && t.worker == s.worker && t.workerCall == s.workerCall && StepsLeft(t) < StepsLeft(s)
  {
    hide Inv, LoopNext, StepsLeft;
    NothingInHand(s);
    if s.loop.LoopService? { ServiceDescends(s, e); } else { RoundDescends(s, e); }
  }

  lemma NothingInHand(s: State)
    requires Inv(s)
    ensures s.queue.batch != [] ==> s.loop.LoopSend?
  {
    hide LockInv, CallInv, TransportInv, MemberInv, StateInv, SnapshotInv, FinishedInv, CancelInv;
  }

  lemma ServiceDescends(s: State, e: NetEvent)
    requires s.room.state == Idle && s.loopCall.NoCall? && s.loop.LoopService? && LoopNext(s, e).Some?
    ensures var t := LoopNext(s, e).value;
            t.room.state == Idle && t.worker == s.worker && t.workerCall == s.workerCall && StepsLeft(t) < StepsLeft(s)
  {
  }

  lemma RoundDescends(s: State, e: NetEvent)
    requires s.room.state == Idle && s.loopCall.NoCall? && !s.loop.LoopService? && LoopNext(s, e).Some?
    requires s.queue.batch != [] ==> s.loop.LoopSend?
    ensures var t := LoopNext(s, e).value;
            t.room.state == Idle && t.worker == s.worker && t.workerCall == s.workerCall && StepsLeft(t) < StepsLeft(s)
  {
  }

  lemma CallDescends(s: State)
    requires Leaves(s) && s.room.state == Idle && !(s.loopCall.SetStore? && s.loopCall.target != Idle)
    requires CallNext(s, Loop).Some?
    ensures var t := CallNext(s, Loop).value;
            t.room.state == Idle && t.worker == s.worker && t.workerCall == s.workerCall && StepsLeft(t) < StepsLeft(s)
  {
  }

  /** While leave waits, each step of the network thread but a late store keeps the state idle and leads to its end. */
  lemma NetworkDescends(s: State, a: Action)
    requires Inv(s) && Leaves(s) && s.room.state == Idle && a.LoopMoves? && Step(s, a).Some? && !LateStore(s, a)
    ensures var t := Step(s, a).value;
            t.room.state == Idle && t.worker == s.worker && t.workerCall == s.workerCall && StepsLeft(t) < StepsLeft(s)
  {
    hide Inv, Leaves, LoopNext, CallNext, StepsLeft;
    if s.loopCall.NoCall? {
      LoopDescends(s, a.event);
    } else {
      CallDescends(s);
    }
  }

  /** The parts of the session that the other threads leave alone while leave waits. */
  predicate SameNetwork(s: State, t: State) {
    && t.loop == s.loop && t.loopCall == s.loopCall && t.queue.batch == s.queue.batch
    && t.room == s.room && Leaves(t)
  }

  lemma WorkerCallKeeps(s: State)
    requires Leaves(s) && CallNext(s, Worker).Some?
    ensures SameNetwork(s, CallNext(s, Worker).value) && CallNext(s, Worker).value.queue == s.queue
    ensures CallNext(s, Worker).value.worker == s.worker
    ensures CallRank(CallNext(s, Worker).value.workerCall) < CallRank(s.workerCall)
  {
  }

  lemma ApiSpares(s: State, a: Answer)
    requires Inv(s) && Leaves(s) && ApiNext(s, a).Some? && ApiNext(s, a).value.worker == s.worker
    ensures SameNetwork(s, ApiNext(s, a).value) && ApiNext(s, a).value.queue == s.queue
  {
    hide LockInv, CallInv, TransportInv, StateInv, SnapshotInv, FinishedInv, CancelInv, QueueInv;
  }

  lemma BeginSpares(s: State, op: Op)
    requires Leaves(s) && s.api.Free?
    ensures SameNetwork(s, ApiStart(s, op)) && ApiStart(s, op).queue == s.queue
  {
  }

  lemma PushSpares(s: State, p: Packet)
    requires Leaves(s)
    ensures SameNetwork(s, Push(s, p)) && |Push(s, p).queue.sendList| == |s.queue.sendList| + 1
  {
  }

  function Pushed(a: Action): (n: nat) {
    if a.EmulationPushes? then 1 else 0
  }

  /** No other thread touches the network thread or the state; a pushed packet adds a step. */
  lemma OthersSpare(s: State, a: Action)
    requires Inv(s) && Leaves(s) && !a.LoopMoves? && Step(s, a).Some? && Step(s, a).value.worker == s.worker
    ensures SameNetwork(s, Step(s, a).value) && StepsLeft(Step(s, a).value) <= StepsLeft(s) + Pushed(a)
  {
    hide Inv, Leaves, ApiStart, ApiNext, CallNext, WorkerNext, Push;
    match a {
      case Begin(op) => BeginSpares(s, op);
      case ApiMoves(answer) => ApiSpares(s, answer);
      case WorkerMoves(answer) =>
        if s.workerCall.NoCall? { LeaveJoinStays(s, answer); } else { WorkerCallKeeps(s); }
      case EmulationPushes(p) => PushSpares(s, p);
    }
  }

  lemma LeaveJoinStays(s: State, a: Answer)
    requires Leaves(s) && s.workerCall.NoCall? && WorkerNext(s, a).Some?
    ensures WorkerNext(s, a).value.worker != s.worker
  {
  }

  // ----- runs during which leave waits -----

  /** The actions are possible in turn, and the worker stays where it is. */
  predicate Waits(s: State, actions: seq<Action>)
    decreases actions
  {
    actions != [] ==>
      && Step(s, actions[0]).Some? && Step(s, actions[0]).value.worker == s.worker
      && Waits(Step(s, actions[0]).value, actions[1..])
  }

  /** One of the actions is a late store. */
  predicate StoresLate(s: State, actions: seq<Action>)
    requires Waits(s, actions)
    decreases actions
  {
    actions != [] && (LateStore(s, actions[0]) || StoresLate(Step(s, actions[0]).value, actions[1..]))
  }

  function NetworkSteps(actions: seq<Action>): (n: nat) {
    if actions == [] then 0 else (if actions[0].LoopMoves? then 1 else 0) + NetworkSteps(actions[1..])
  }

  function Pushes(actions: seq<Action>): (n: nat) {
    if actions == [] then 0 else Pushed(actions[0]) + Pushes(actions[1..])
  }

  /** Without a late store the network thread makes at most the steps it had left, and one for each pushed packet. */
  lemma {:induction false} NetworkEnds(s: State, actions: seq<Action>)
    requires Inv(s) && Leaves(s) && s.room.state == Idle && Waits(s, actions) && !StoresLate(s, actions)
    ensures After(s, actions).Some?
    ensures var t := After(s, actions).value;
            && Inv(t) && Leaves(t) && t.room.state == Idle
            && NetworkSteps(actions) + StepsLeft(t) <= StepsLeft(s) + Pushes(actions)
    decreases actions
  {
    hide Step, Inv, StepsLeft, LateStore;
    if actions != [] {
      var a, t := actions[0], Step(s, actions[0]).value;
      StepKeepsInv(s, a);
      if a.LoopMoves? { NetworkDescends(s, a); } else { OthersSpare(s, a); }
      NetworkEnds(t, actions[1..]);
    }
  }

  /** Once the network thread has ended and the worker's own callback has returned, leave can go on. */
  lemma JoinEnabled(s: State)
    requires Leaves(s) && s.workerCall.NoCall? && !Underway(s, Loop)
    ensures Step(s, WorkerMoves(Yes)).Some? && Step(s, WorkerMoves(Yes)).value.worker == LeaveDestroy(s.worker.ret)
  {
  }

  // ----- a leave that waits: a late join success -----

  /** The worker waits in `Leave` for a network thread that believes it is connected. */
  predicate WaitsForConnectedLoop(s: State) {
    && s.worker.LeaveJoin? && s.workerCall.NoCall?
    && s.loop.LoopCheck? && s.loopCall.NoCall? && Connected(s.room.state)
    && s.queue.batch == [] && s.queue.sendList == [] && !s.locks.network && s.room.client
  }

  /** One silent round of the network loop. */
  const SILENT_ROUND: seq<Action> := [LoopMoves(Nothing), LoopMoves(Nothing), LoopMoves(Nothing),
                                      LoopMoves(Nothing), LoopMoves(Nothing), LoopMoves(Nothing)]

  /** From such a state the network thread can run round after round without ever ending the wait. */
  lemma LeaveCanWaitForever(s: State)
    requires WaitsForConnectedLoop(s)
    ensures After(s, SILENT_ROUND) == Some(s)
    ensures Step(s, WorkerMoves(Yes)) == None
  {
    var s1 := s.(loop := LoopLock);
    var s2 := s1.(locks := s1.locks.(network := true), loop := LoopService);
    OneMore(s, LoopMoves(Nothing), s1, SILENT_ROUND);
    OneMore(s1, LoopMoves(Nothing), s2, SILENT_ROUND[1..]);
    SilentService(s, s2);
  }

  lemma SilentService(s: State, s2: State)
    requires WaitsForConnectedLoop(s)
    requires s2 == s.(locks := s.locks.(network := true), loop := LoopService)
    ensures After(s2, SILENT_ROUND[2..]) == Some(s)
  {
    var s3 := s2.(loop := LoopSwap);
    var s4 := s3.(loop := LoopSend);
    var s5 := s4.(loop := LoopUnlock);
    OneMore(s2, LoopMoves(Nothing), s3, SILENT_ROUND[2..]);
    OneMore(s3, LoopMoves(Nothing), s4, SILENT_ROUND[3..]);
    OneMore(s4, LoopMoves(Nothing), s5, SILENT_ROUND[4..]);
    OneMore(s5, LoopMoves(Nothing), s, SILENT_ROUND[5..]);
  }

  lemma OneMore(s: State, a: Action, t: State, actions: seq<Action>)
    requires actions != [] && actions[0] == a && Step(s, a) == Some(t)
    ensures After(s, actions) == After(t, actions[1..])
    ensures |actions| == 1 ==> After(s, actions) == Some(t)
  {
    hide Step;
  }

  /** Only the network thread can bring the state back from idle while `Leave` waits for it. */
  lemma OnlyLateStoreReconnects(s: State, a: Action)
    requires Step(s, a).Some? && Leaves(s) && s.room.state == Idle && Step(s, a).value.worker == s.worker
    ensures Step(s, a).value.room.state != Idle <==> LateStore(s, a)
  {
  }

  // ----- when a late store can still come -----

  /**
   The network thread has a state other than idle in hand, or is past its check of the state in this round, has not yet
   handled the round's event, and knows the members, so that it would believe a join success.
   */
  predicate MayReconnect(s: State) {
    || ((s.loopCall.SetCheck? || s.loopCall.SetStore?) && s.loopCall.target != Idle)
    || ((s.loop.LoopLock? || s.loop.LoopService?) && s.room.information != [])
  }

  lemma NetworkStaysAway(s: State, a: Action)
    requires Inv(s) && Leaves(s) && s.room.state == Idle && !MayReconnect(s) && a.LoopMoves? && Step(s, a).Some?
    ensures !LateStore(s, a) && !MayReconnect(Step(s, a).value)
  {
    hide Inv, Leaves, LoopNext, CallNext, MayReconnect;
    if s.loopCall.NoCall? {
      LoopStaysAway(s, a.event);
    } else {
      InCallAfterService(s);
      CallStaysAway(s);
    }
  }

  lemma InCallAfterService(s: State)
    requires Inv(s) && !s.loopCall.NoCall?
    ensures s.loop.LoopSwap? || s.loop.LoopThenError?
  {
    hide LockInv, TransportInv, MemberInv, StateInv, SnapshotInv, FinishedInv, CancelInv, QueueInv;
  }

  lemma LoopStaysAway(s: State, e: NetEvent)
    requires s.room.state == Idle && !MayReconnect(s) && s.loopCall.NoCall? && LoopNext(s, e).Some?
    ensures !MayReconnect(LoopNext(s, e).value)
  {
  }

  lemma CallStaysAway(s: State)
    requires !MayReconnect(s) && (s.loop.LoopSwap? || s.loop.LoopThenError?) && CallNext(s, Loop).Some?
    ensures !(s.loopCall.SetStore? && s.loopCall.target != Idle) && !MayReconnect(CallNext(s, Loop).value)
  {
  }

  lemma {:induction false} NoStoreWithout(s: State, actions: seq<Action>)
    requires Inv(s) && Leaves(s) && s.room.state == Idle && !MayReconnect(s) && Waits(s, actions)
    ensures !StoresLate(s, actions)
    decreases actions
  {
    hide Step, Inv, LateStore, MayReconnect;
    if actions != [] {
      var a, t := actions[0], Step(s, actions[0]).value;
      StepKeepsInv(s, a);
      if a.LoopMoves? {
        NetworkStaysAway(s, a);
        NetworkDescends(s, a);
      } else {
        OthersSpare(s, a);
        SparedStaysAway(s, t, a);
      }
      NoStoreWithout(t, actions[1..]);
    }
  }

  lemma SparedStaysAway(s: State, t: State, a: Action)
    requires SameNetwork(s, t) && !a.LoopMoves? && !MayReconnect(s)
    ensures !LateStore(s, a) && !MayReconnect(t)
  {
  }

  // ----- a late store, and a wait without end -----

  /** The event with which the network thread reconnects. */
  function Reconnecting(s: State): (a: Action) {
    if s.loop.LoopService? then LoopMoves(JoinSuccess(false)) else LoopMoves(Nothing)
  }

  lemma ReconnectStep(s: State)
    requires Inv(s) && Leaves(s) && s.room.state == Idle && MayReconnect(s)
    ensures Step(s, Reconnecting(s)).Some?
    ensures !LateStore(s, Reconnecting(s)) ==> MayReconnect(Step(s, Reconnecting(s)).value)
  {
    hide TransportInv, MemberInv, StateInv, SnapshotInv, FinishedInv, CancelInv, QueueInv;
  }

  /** Connected again, with nothing left from before: the network thread is on its way to a silent round. */
  predicate Settling(s: State) {
    && Leaves(s) && Connected(s.room.state) && !s.loopCall.SetCheck? && !s.loopCall.SetStore?
    && (|| s.loop.LoopThenError? || s.loop.LoopSwap?
        || ((s.loop.LoopSend? || s.loop.LoopUnlock? || s.loop.LoopCheck?) && s.queue.sendList == []))
  }

  lemma LateStoreSettles(s: State, a: Action)
    requires Inv(s) && Leaves(s) && LateStore(s, a) && Step(s, a).Some?
    ensures Settling(Step(s, a).value) && Step(s, a).value.worker == s.worker
  {
    hide LockInv, TransportInv, MemberInv, StateInv, SnapshotInv, FinishedInv, CancelInv, QueueInv;
  }

  /** Nothing but the worker and the network thread moves. */
  predicate Background(actions: seq<Action>) {
    forall a :: a in actions ==> a.WorkerMoves? || a.LoopMoves?
  }

  lemma BackgroundSparesApi(s: State, a: Action)
    requires (a.WorkerMoves? || a.LoopMoves?) && Step(s, a).Some?
    ensures Step(s, a).value.api == s.api
  {
  }

  lemma {:induction false} Reconnect(s: State) returns (actions: seq<Action>)
    requires Inv(s) && Leaves(s) && s.room.state == Idle && MayReconnect(s)
    ensures Waits(s, actions) && StoresLate(s, actions) && Pushes(actions) == 0
    ensures After(s, actions).Some? && Settling(After(s, actions).value) && Inv(After(s, actions).value)
    ensures Background(actions) && After(s, actions).value.api == s.api
    decreases StepsLeft(s)
  {
    hide Step, Inv, LateStore, MayReconnect, Settling, StepsLeft;
    var a := Reconnecting(s);
    ReconnectStep(s);
    StepKeepsInv(s, a);
    BackgroundSparesApi(s, a);
    var t := Step(s, a).value;
    var rest: seq<Action> := [];
    if LateStore(s, a) {
      LateStoreSettles(s, a);
    } else {
      NetworkDescends(s, a);
      rest := Reconnect(t);
    }
    actions := [a] + rest;
    assert actions[1..] == rest;
  }

  function ApiRank(pc: ApiPc): (n: nat) {
    match pc
    case LeaveCheck => 3
    case LeaveWrite => 2
    case LeaveUnlock => 1
    case _ => 0
  }

  function StepsToSettle(s: State): (n: nat) {
    StepsLeft(s) + CallRank(s.workerCall) + ApiRank(s.api)
  }

  lemma ApiSettles(s: State)
    requires Inv(s) && Settling(s) && ApiHoldsSnapshot(s.api)
    ensures Step(s, ApiMoves(Yes)).Some?
    ensures var t := Step(s, ApiMoves(Yes)).value;
            Settling(t) && t.worker == s.worker && StepsToSettle(t) < StepsToSettle(s)
  {
    hide Inv;
  }

  lemma WorkerSettles(s: State)
    requires Settling(s) && !s.workerCall.NoCall? && CanMove(s, Worker)
    ensures var t := Step(s, WorkerMoves(Yes)).value;
            Settling(t) && t.worker == s.worker && StepsToSettle(t) < StepsToSettle(s)
  {
    hide CallNext, CallRank, LoopRank;
    WorkerCallKeeps(s);
    WorkerCallSparesApi(s);
  }

  lemma WorkerCallSparesApi(s: State)
    requires CallNext(s, Worker).Some?
    ensures CallNext(s, Worker).value.api == s.api
  {
  }

  lemma CallSettles(s: State)
    requires Settling(s) && !s.loopCall.NoCall? && CanMove(s, Loop)
    ensures var t := Step(s, LoopMoves(Nothing)).value;
            Settling(t) && t.worker == s.worker && StepsToSettle(t) < StepsToSettle(s)
  {
    hide CallNext, LoopRank;
    LoopCallKeeps(s);
  }

  /** Past the store, a call of the network thread touches neither the worker nor the queue. */
  lemma LoopCallKeeps(s: State)
    requires Settling(s) && CallNext(s, Loop).Some?
    ensures var t := CallNext(s, Loop).value;
            && t.worker == s.worker && t.workerCall == s.workerCall && t.api == s.api && t.loop == s.loop
            && t.queue == s.queue && t.room == s.room
            && CallRank(t.loopCall) < CallRank(s.loopCall) && !t.loopCall.SetCheck? && !t.loopCall.SetStore?
  {
  }

  lemma LoopSettles(s: State)
    requires Inv(s) && Settling(s) && s.loopCall.NoCall? && !s.loop.LoopCheck?
    ensures Step(s, LoopMoves(Nothing)).Some?
    ensures var t := Step(s, LoopMoves(Nothing)).value;
            Settling(t) && t.worker == s.worker && StepsToSettle(t) < StepsToSettle(s)
  {
    hide LockInv, CallInv, TransportInv, MemberInv, StateInv, SnapshotInv, FinishedInv, CancelInv;
  }

  /** With the frontend out of the way, a thread inside a call can move, or the one it waits for can. */
  lemma SomeCallMoves(s: State)
    requires Inv(s) && !ApiHoldsSnapshot(s.api) && (!s.workerCall.NoCall? || !s.loopCall.NoCall?)
    ensures (!s.workerCall.NoCall? && CanMove(s, Worker)) || (!s.loopCall.NoCall? && CanMove(s, Loop))
  {
    hide CallInv, TransportInv, MemberInv, StateInv, SnapshotInv, FinishedInv, CancelInv, QueueInv;
    ThreeThreads(s.locks.callback);
    ThreeThreads(s.locks.snapshot);
  }

  lemma Settled(s: State)
    requires Inv(s) && Settling(s) && s.workerCall.NoCall? && s.loopCall.NoCall? && s.loop.LoopCheck?
    ensures WaitsForConnectedLoop(s)
  {
    hide CallInv, MemberInv, StateInv, SnapshotInv, FinishedInv, CancelInv;
  }

  lemma SettleStep(s: State) returns (a: Action)
    requires Inv(s) && Settling(s) && !WaitsForConnectedLoop(s)
    ensures Step(s, a).Some? && Pushed(a) == 0
    ensures !ApiHoldsSnapshot(s.api) ==> a.WorkerMoves? || a.LoopMoves?
    ensures var t := Step(s, a).value; Settling(t) && t.worker == s.worker && StepsToSettle(t) < StepsToSettle(s)
  {
    hide Inv, Settling, StepsToSettle, WaitsForConnectedLoop, Step;
    if ApiHoldsSnapshot(s.api) {
      ApiSettles(s);
      a := ApiMoves(Yes);
    } else if !s.workerCall.NoCall? || !s.loopCall.NoCall? {
      SomeCallMoves(s);
      if !s.workerCall.NoCall? && CanMove(s, Worker) {
        WorkerSettles(s);
        a := WorkerMoves(Yes);
      } else {
        CallSettles(s);
        a := LoopMoves(Nothing);
      }
    } else {
      if s.loop.LoopCheck? { Settled(s); }
      LoopSettles(s);
      a := LoopMoves(Nothing);
    }
  }

  lemma {:induction false} Settle(s: State) returns (actions: seq<Action>)
    requires Inv(s) && Settling(s)
    ensures Waits(s, actions) && Pushes(actions) == 0
    ensures After(s, actions).Some? && WaitsForConnectedLoop(After(s, actions).value)
    ensures !ApiHoldsSnapshot(s.api) ==> Background(actions)
    decreases StepsToSettle(s)
  {
    hide Step, Inv, Settling, StepsToSettle, WaitsForConnectedLoop;
    if WaitsForConnectedLoop(s) {
      actions := [];
    } else {
      var a := SettleStep(s);
      StepKeepsInv(s, a);
      if !ApiHoldsSnapshot(s.api) { BackgroundSparesApi(s, a); }
      var rest := Settle(Step(s, a).value);
      actions := [a] + rest;
      assert actions[1..] == rest;
    }
  }

  // ----- silent rounds without end -----

  lemma NetworkKeepsWorker(s: State, a: Action)
    requires a.LoopMoves? && Step(s, a).Some?
    ensures Step(s, a).value.worker == s.worker
  {
  }

  lemma {:induction false} NetworkOnly(s: State, actions: seq<Action>)
    requires (forall a :: a in actions ==> a.LoopMoves?) && After(s, actions).Some?
    ensures Waits(s, actions) && NetworkSteps(actions) == |actions| && Pushes(actions) == 0
    decreases actions
  {
    hide Step;
    if actions != [] {
      NetworkKeepsWorker(s, actions[0]);
      NetworkOnly(Step(s, actions[0]).value, actions[1..]);
    }
  }

  lemma {:induction false} WaitsLonger(s: State, xs: seq<Action>, ys: seq<Action>)
    requires Waits(s, xs) && After(s, xs).Some? && Waits(After(s, xs).value, ys)
    ensures Waits(s, xs + ys)
    ensures NetworkSteps(xs + ys) == NetworkSteps(xs) + NetworkSteps(ys) && Pushes(xs + ys) == Pushes(xs) + Pushes(ys)
    decreases xs
  {
    hide Step;
    if xs == [] {
      assert xs + ys == ys;
    } else {
      assert (xs + ys)[1..] == xs[1..] + ys;
      WaitsLonger(Step(s, xs[0]).value, xs[1..], ys);
    }
  }

  /** Leave can be kept waiting for as many rounds as one likes. */
  lemma {:induction false} SilentRounds(s: State, n: nat) returns (actions: seq<Action>)
    requires WaitsForConnectedLoop(s)
    ensures Waits(s, actions) && NetworkSteps(actions) >= n && Pushes(actions) == 0 && Background(actions)
    decreases n
  {
    hide Step, WaitsForConnectedLoop;
    if n == 0 {
      actions := [];
    } else {
      LeaveCanWaitForever(s);
      RoundIsNetwork();
      NetworkOnly(s, SILENT_ROUND);
      var rest := SilentRounds(s, n - 1);
      WaitsLonger(s, SILENT_ROUND, rest);
      actions := SILENT_ROUND + rest;
    }
  }

  lemma RoundIsNetwork()
    ensures |SILENT_ROUND| == 6 && forall a :: a in SILENT_ROUND ==> a.LoopMoves?
  {
  }

  // ----- when leave returns -----

  /** However long leave waits, the network thread makes at most `bound` steps, and one for each packet pushed. */
  ghost predicate Bounds(s: State, bound: nat) {
    forall actions :: Waits(s, actions) ==> NetworkSteps(actions) <= bound + Pushes(actions)
  }

  ghost predicate CanStoreLate(s: State) {
    exists actions :: Waits(s, actions) && StoresLate(s, actions)
  }

  lemma QuietBounds(s: State)
    requires Inv(s) && Leaves(s) && s.room.state == Idle && !MayReconnect(s)
    ensures Bounds(s, StepsLeft(s)) && !CanStoreLate(s)
  {
    hide Inv, Leaves, MayReconnect, StepsLeft, Waits, StoresLate;
    forall actions | Waits(s, actions)
      ensures !StoresLate(s, actions) && NetworkSteps(actions) <= StepsLeft(s) + Pushes(actions)
    {
      NoStoreWithout(s, actions);
      NetworkEnds(s, actions);
    }
  }

  /** A run of any length during which leave waits for a network thread that has reconnected. */
  lemma LongWait(s: State, n: nat) returns (actions: seq<Action>)
    requires Inv(s) && Leaves(s) && s.room.state == Idle && MayReconnect(s)
    ensures Waits(s, actions) && NetworkSteps(actions) >= n && Pushes(actions) == 0
    ensures !ApiHoldsSnapshot(s.api) ==> Background(actions)
  {
    hide Inv, Leaves, MayReconnect, StepsLeft, Waits, StoresLate, Settling, WaitsForConnectedLoop;
    var first := Reconnect(s);
    var t := After(s, first).value;
    var second := Settle(t);
    var rounds := SilentRounds(After(t, second).value, n);
    WaitsLonger(t, second, rounds);
    WaitsLonger(s, first, second + rounds);
    actions := first + (second + rounds);
  }

  lemma ReconnectUnbounded(s: State, bound: nat)
    requires Inv(s) && Leaves(s) && s.room.state == Idle && MayReconnect(s)
    ensures !Bounds(s, bound) && CanStoreLate(s)
  {
    hide Inv, Leaves, MayReconnect, StepsLeft, Waits, StoresLate, Settling;
    var first := Reconnect(s);
    var long := LongWait(s, bound + 1);
  }

  /**
   Once leave has stored idle, its wait for the network thread is bounded if and only if no store of another state can
   follow, and a state tells which it is: a late store can come exactly if the network thread may reconnect.
   */
  lemma LeaveReturnsExactly(s: State)
    requires Reachable(s) && Leaves(s) && s.room.state == Idle
    ensures (exists bound: nat :: Bounds(s, bound)) <==> !CanStoreLate(s)
    ensures CanStoreLate(s) <==> MayReconnect(s)
  {
    hide Inv, Leaves, MayReconnect, Bounds, CanStoreLate;
    ReachableInv(s);
    if MayReconnect(s) {
      forall bound: nat ensures !Bounds(s, bound) {
        ReconnectUnbounded(s, bound);
      }
      ReconnectUnbounded(s, 0);
    } else {
      QuietBounds(s);
    }
  }

  /**
   Where no late store can come, a wait goes on only while it gets nearer to its end: the network thread still has steps
   left and is kept from them by no more than two others, or it has ended and the worker can go on from the join.
   */
  lemma QuietLeaveProceeds(s: State, actions: seq<Action>)
    requires Reachable(s) && Leaves(s) && s.room.state == Idle && !MayReconnect(s) && Waits(s, actions)
    ensures After(s, actions).Some?
    ensures var t := After(s, actions).value;
            if Underway(t, Loop) then
              MovesWithin(t, Loop, 2) && NetworkSteps(actions) < StepsLeft(s) + Pushes(actions)
            else
              MovesWithin(t, Worker, 2) && (t.workerCall.NoCall? ==> Step(t, WorkerMoves(Yes)).Some?)
  {
    hide Inv, MayReconnect, StepsLeft, StoresLate, MovesWithin, Waits, Step;
    ReachableInv(s);
    NoStoreWithout(s, actions);
    NetworkEnds(s, actions);
    var t := After(s, actions).value;
    if Underway(t, Loop) {
      LoopWaits(t);
      UnderwayHasSteps(t);
    } else {
      WorkerWaits(t);
      if t.workerCall.NoCall? { JoinEnabled(t); }
    }
  }

  lemma UnderwayHasSteps(s: State)
    requires Underway(s, Loop)
    ensures StepsLeft(s) > 0
  {
  }
}
