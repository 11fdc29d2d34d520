/**
 The room session as a transition system.

 Four kinds of thread share the session: the callers of the session's C functions (serialized by
 `api_mutex`, so at most one is inside at a time), the worker running `Run`, the network thread
 running `MemberLoop`, and the emulation thread that pushes packets.  Every step below is one
 access to shared state; between any two steps any other thread may move.
 */
module RoomProtocol {
  import opened Options

  /** The state of the room member. */
  datatype MemberState = Idle | Joining | Joined | Moderator

  /** The state published in the snapshot. */
  datatype Shown = Offline | ShownIdle | ShownJoining | ShownJoined | Leaving

  type Peer = string
  type Packet = nat

  datatype Snapshot = Snapshot(state: Shown, error: nat, members: seq<Peer>)

  const MAX_MEMBERS: nat := 254
  const MAX_NAME: nat := 20
  const INTERNAL_ERROR: nat := 100
  const HANDSHAKE_TIMEOUT: nat := 101

  datatype Thread = Api | Worker | Loop

  datatype Event = StateEvent(state: MemberState) | ErrorEvent(code: nat) | RoomEvent | OtherEvent

  /** Inside `SetState` and `Invoke`, which the worker and the network thread both call. */
  datatype Call =
    | NoCall
    | SetCheck(target: MemberState)
    | SetStore(target: MemberState)
    | SetLoad
    | InvokeLock(event: Event)
    | CallbackLock(event: Event)
    | CallbackCheck(event: Event)
    | CallbackWrite(event: Event)
    | CallbackUnlock
    | InvokeUnlock

  /** Where `RoomMember::Leave` returns to. */
  datatype Return = ToCreateHost | ToPoll | ToGiveUp | ToPublish

  /** `Run`, with `RoomMember::Join` and `RoomMember::Leave` inlined. */
  datatype WorkerPc =
    | NoWorker
    | JoinStart
    | CreateHost
    | ClearImmediate
    | Resolve
    | Connect
    | Service
    | StartLoop
    | SendJoinRequest
    | SendGameInfo
    | Report(code: nat, leave: bool)
    | Poll
    | PollConnected
    | PollDeadline
    | Timeout
    | Catch
    | LeaveStart(ret: Return)
    | LeaveJoin(ret: Return)
    | LeaveDestroy(ret: Return)
    | LeaveClear(ret: Return)
    | Publish
    | StoreFinished
    | Exited

  datatype LoopPc =
    | NoLoop
    | LoopCheck
    | LoopLock
    | LoopService
    | LoopThenError(code: nat)
    | LoopSwap
    | LoopSend
    | LoopUnlock
    | LoopDisconnect
    | LoopClose
    | LoopExited

  datatype Op = Initialize | GameReady | GameStopped | Shutdown | JoinRoom | LeaveRoom

  datatype ApiPc =
    | Free
    | InitMember
    | InitBind
    | InitFailed
    | StopWorker(op: Op)
    | AwaitWorker(op: Op)
    | PublishReady
    | PublishStopped(op: Op)
    | Unbind
    | ResetMember
    | CheckReady
    | CheckFinished
    | ReapWorker
    | ClearCancel
    | PublishJoining
    | ClearFinished
    | Spawn
    | SpawnFailed
    | PublishSpawnFailed
    | LeaveLock
    | LeaveCheck
    | LeaveWrite
    | LeaveUnlock

  /** The globals of the session file, except its threads and mutexes. */
  datatype Session = Session(member: bool, bound: bool, ready: bool, cancel: bool, finished: bool, snapshot: Snapshot)

  /** The fields of the room member, except its thread, its mutexes and its send list. */
  datatype Room = Room(state: MemberState, immediate: bool, client: bool, server: bool, information: seq<Peer>)

  /**
   The send list and the packets the network thread has taken from it but not handed over.
   `pushed` and `sent` record what was queued, and what the peer was given, since the last clear.
   */
  datatype Queue = Queue(sendList: seq<Packet>, batch: seq<Packet>, pushed: seq<Packet>, sent: seq<Packet>)

  /** Owners of `callback_mutex`, `snapshot_mutex` and `network_mutex`; `api_mutex` is free when `api` is. */
  datatype Locks = Locks(callback: Option<Thread>, snapshot: Option<Thread>, network: bool)

  /**
   `worker` is `NoWorker` exactly when the `std::thread` object is not joinable, and `loop` is `NoLoop`
   exactly when `loop_thread` is null.  `fault` records that a step called `std::terminate`, used a null
   pointer, or destroyed what another thread still uses.
   */
  datatype State = State(api: ApiPc, worker: WorkerPc, workerCall: Call, loop: LoopPc, loopCall: Call,
                         session: Session, room: Room, queue: Queue, locks: Locks, fault: bool)

  function Initial(): (s: State) {
    State(Free, NoWorker, NoCall, NoLoop, NoCall,
          Session(false, false, false, false, true, Snapshot(Offline, 0, [])),
          Room(Idle, false, false, false, []), Queue([], [], [], []), Locks(None, None, false), false)
  }

  predicate Connected(m: MemberState) {
    m != Idle
  }

  /** What fits into the snapshot: the first 254 names, each cut to 20 characters. */
  function Truncated(peers: seq<Peer>): (r: seq<Peer>)
    ensures |r| == if |peers| <= MAX_MEMBERS then |peers| else MAX_MEMBERS
    ensures forall i :: 0 <= i < |r| ==>
              r[i] <= peers[i] && |r[i]| == if |peers[i]| <= MAX_NAME then |peers[i]| else MAX_NAME
  {
    seq(if |peers| <= MAX_MEMBERS then |peers| else MAX_MEMBERS,
        i requires 0 <= i < |peers| => if |peers[i]| <= MAX_NAME then peers[i] else peers[i][..MAX_NAME])
  }

  // ----- SetState, Invoke and the session's callbacks -----

  function CallOf(s: State, t: Thread): (c: Call) {
    if t.Loop? then s.loopCall else s.workerCall
  }

  function WithCall(s: State, t: Thread, c: Call): (r: State) {
    if t.Loop? then s.(loopCall := c) else s.(workerCall := c)
  }

  /** What a callback that was not cancelled writes. */
  function Written(snapshot: Snapshot, event: Event, information: seq<Peer>): (r: Snapshot) {
    match event
    case StateEvent(m) => if m == Joined || m == Moderator then snapshot.(state := ShownJoined) else snapshot
    case ErrorEvent(code) => snapshot.(error := code + 1)
    case RoomEvent => snapshot.(members := Truncated(information))
    case OtherEvent => snapshot
  }

  function WithSnapshot(s: State, snapshot: Snapshot): (r: State) {
    s.(session := s.session.(snapshot := snapshot))
  }

  function CallNext(s: State, t: Thread): (r: Option<State>)
    requires t != Api
  {
    match CallOf(s, t)
    case NoCall => None
    case SetCheck(m) => Some(WithCall(s, t, if s.room.state != m then SetStore(m) else NoCall))
    case SetStore(m) => Some(WithCall(s.(room := s.room.(state := m)), t, SetLoad))
    case SetLoad => Some(WithCall(s, t, InvokeLock(StateEvent(s.room.state))))
    case InvokeLock(e) =>
      if s.locks.callback.Some? then None
      else Some(WithCall(s.(locks := s.locks.(callback := Some(t))), t,
                         if s.session.bound && !e.OtherEvent? then CallbackLock(e) else InvokeUnlock))
    case CallbackLock(e) =>
      if s.locks.snapshot.Some? then None
      else Some(WithCall(s.(locks := s.locks.(snapshot := Some(t))), t, CallbackCheck(e)))
    case CallbackCheck(e) => Some(WithCall(s, t, if s.session.cancel then CallbackUnlock else CallbackWrite(e)))
    case CallbackWrite(e) =>
      Some(WithCall(WithSnapshot(s, Written(s.session.snapshot, e, s.room.information)), t, CallbackUnlock))
    case CallbackUnlock => Some(WithCall(s.(locks := s.locks.(snapshot := None)), t, InvokeUnlock))
    case InvokeUnlock => Some(WithCall(s.(locks := s.locks.(callback := None)), t, NoCall))
  }

  // ----- the worker -----

  /** The answers of ENet, the clock and the allocator. */
  datatype Answer = Yes | No | Again | Throw

  function Push(s: State, p: Packet): (r: State) {
    s.(queue := s.queue.(sendList := s.queue.sendList + [p], pushed := s.queue.pushed + [p]))
  }

  const JOIN_REQUEST: Packet := 0
  const GAME_INFO: Packet := 1
  const UNKNOWN_ERROR: nat := 2
  const COULD_NOT_CONNECT: nat := 8

  function SetStateThen(s: State, m: MemberState, pc: WorkerPc): (r: State) {
    s.(workerCall := SetCheck(m), worker := pc)
  }

  predicate InJoin(pc: WorkerPc) {
    || pc.JoinStart? || pc.CreateHost? || pc.ClearImmediate? || pc.Resolve? || pc.Connect? || pc.Service?
    || pc.StartLoop? || pc.SendJoinRequest? || pc.SendGameInfo?
  }

  predicate InPoll(pc: WorkerPc) {
    pc.Report? || pc.Poll? || pc.PollConnected? || pc.PollDeadline? || pc.Timeout? || pc.Catch?
  }

  predicate InLeave(pc: WorkerPc) {
    pc.LeaveStart? || pc.LeaveJoin? || pc.LeaveDestroy? || pc.LeaveClear? || pc.Publish? || pc.StoreFinished?
  }

  /** `RoomMember::Join` up to the return of its last call. */
  function JoinNext(s: State, a: Answer): (r: Option<State>)
    requires InJoin(s.worker)
  {
    match s.worker
    case JoinStart =>
      Some(s.(worker := if s.loop.NoLoop? then CreateHost else LeaveStart(ToCreateHost),
              fault := s.fault || !s.session.member))
    case CreateHost =>
      if a.Throw? then Some(s.(worker := Catch))
      else if s.room.client || a.Yes? then Some(s.(room := s.room.(client := true), worker := ClearImmediate))
      else Some(SetStateThen(s, Idle, Report(UNKNOWN_ERROR, false)))
    case ClearImmediate => Some(SetStateThen(s.(room := s.room.(immediate := false)), Joining, Resolve))
    case Resolve =>
      if a.Yes? then Some(s.(worker := Connect))
      else Some(SetStateThen(s, Idle, Report(COULD_NOT_CONNECT, true)))
    case Connect =>
      if a.Yes? then Some(s.(room := s.room.(server := true), worker := Service, fault := s.fault || !s.room.client))
      else Some(SetStateThen(s.(room := s.room.(server := false)), Idle, Report(UNKNOWN_ERROR, false)))
    case Service =>
      if s.session.cancel then Some(s.(worker := LeaveStart(ToPoll)))
      else if a.Again? then Some(s)
      else Some(s.(worker := if a.Yes? then StartLoop else LeaveStart(ToGiveUp), fault := s.fault || !s.room.client))
    case StartLoop =>
      // Replacing a joinable thread would terminate the process.
      if a.Throw? then Some(s.(worker := Catch))
      else Some(s.(loop := LoopCheck, worker := SendJoinRequest, fault := s.fault || !s.loop.NoLoop?))
    case SendJoinRequest =>
      if a.Throw? then Some(s.(worker := Catch)) else Some(Push(s, JOIN_REQUEST).(worker := SendGameInfo))
    case SendGameInfo =>
      if a.Throw? then Some(s.(worker := Catch))
      else if Connected(s.room.state) then Some(Push(s, GAME_INFO).(worker := Poll))
      else Some(s.(worker := Poll))
  }

  /** The error reports of `Join`, the polling loop of `Run`, and its exception handler. */
  function PollNext(s: State, a: Answer): (r: Option<State>)
    requires InPoll(s.worker)
  {
    match s.worker
    case Report(code, leave) =>
      Some(s.(workerCall := InvokeLock(ErrorEvent(code)), worker := if leave then LeaveStart(ToPoll) else Poll))
    case Poll => Some(s.(worker := if s.session.cancel then LeaveStart(ToPublish) else PollConnected))
    case PollConnected => Some(s.(worker := if Connected(s.room.state) then PollDeadline else LeaveStart(ToPublish)))
    case PollDeadline => Some(s.(worker := if s.room.state == Joining && a.Yes? then Timeout else Poll))
    case Timeout =>
      if s.locks.snapshot.Some? then None
      else Some(WithSnapshot(s, s.session.snapshot.(error := HANDSHAKE_TIMEOUT)).(worker := LeaveStart(ToPublish)))
    case Catch =>
      if s.locks.snapshot.Some? then None
      else Some(WithSnapshot(s, s.session.snapshot.(error := INTERNAL_ERROR)).(worker := LeaveStart(ToPublish)))
  }

  /** `RoomMember::Leave`, and what `Run` does after it. */
  function LeaveNext(s: State): (r: Option<State>)
    requires InLeave(s.worker)
  {
    match s.worker
    case LeaveStart(ret) =>
      Some(SetStateThen(s.(room := s.room.(immediate := ret != ToCreateHost), fault := s.fault || !s.session.member),
                        Idle, LeaveJoin(ret)))
    case LeaveJoin(ret) =>
      if !s.loop.NoLoop? && !s.loop.LoopExited? then None
      else Some(s.(loop := NoLoop, worker := LeaveDestroy(ret)))
    case LeaveDestroy(ret) =>
      Some(s.(room := s.room.(client := false, server := false), worker := LeaveClear(ret),
              fault := s.fault || !s.loop.NoLoop?))
    case LeaveClear(ret) =>
      var cleared := s.(queue := Cleared(s.queue));
      (match ret
       case ToCreateHost => Some(cleared.(worker := CreateHost))
       case ToPoll => Some(cleared.(worker := Poll))
       case ToGiveUp => Some(SetStateThen(cleared, Idle, Report(COULD_NOT_CONNECT, false)))
       case ToPublish => Some(cleared.(worker := Publish)))
    case Publish =>
      if s.locks.snapshot.Some? then None
      else Some(WithSnapshot(s, s.session.snapshot.(state := ShownIdle, members := [])).(worker := StoreFinished))
    case StoreFinished => Some(s.(session := s.session.(finished := true), worker := Exited))
  }

  /** `send_list.clear()`. */
  function Cleared(q: Queue): (r: Queue) {
    q.(sendList := [], pushed := [], sent := [])
  }

  function WorkerNext(s: State, a: Answer): (r: Option<State>)
    requires s.workerCall.NoCall?
  {
    if InJoin(s.worker) then JoinNext(s, a)
    else if InPoll(s.worker) then PollNext(s, a)
    else if InLeave(s.worker) then LeaveNext(s)
    else None
  }

  // ----- the network thread -----

  /** What `enet_host_service` hands to the loop. */
  datatype NetEvent =
    | Nothing
    | Information(peers: seq<Peer>)
    | JoinSuccess(moderator: bool)
    | Rejected(code: nat)
    | Complaint(code: nat)
    | OtherPacket
    | Disconnected

  const LOST_CONNECTION: nat := 0

  function Dispatch(s: State, e: NetEvent): (r: Option<State>) {
    match e
    case Nothing => Some(s.(loop := LoopSwap))
    case Information(peers) =>
      Some(s.(room := s.room.(information := peers), loopCall := InvokeLock(RoomEvent), loop := LoopSwap))
    case JoinSuccess(moderator) =>
      if s.room.information == [] then None
      else Some(s.(loopCall := SetCheck(if moderator then Moderator else Joined), loop := LoopSwap))
    case Rejected(code) => Some(s.(loopCall := SetCheck(Idle), loop := LoopThenError(code)))
    case Complaint(code) => Some(s.(loopCall := InvokeLock(ErrorEvent(code)), loop := LoopSwap))
    case OtherPacket => Some(s.(loopCall := InvokeLock(OtherEvent), loop := LoopSwap))
    case Disconnected =>
      if s.room.state == Joined || s.room.state == Moderator then
        Some(s.(loopCall := SetCheck(Idle), loop := LoopThenError(LOST_CONNECTION)))
      else Some(s.(loop := LoopSwap))
  }

  function LoopNext(s: State, e: NetEvent): (r: Option<State>)
    requires s.loopCall.NoCall?
  {
    match s.loop
    case NoLoop => None
    case LoopCheck => Some(s.(loop := if Connected(s.room.state) then LoopLock else LoopDisconnect))
    case LoopLock =>
      if s.locks.network then None else Some(s.(locks := s.locks.(network := true), loop := LoopService))
    case LoopService => Dispatch(s.(fault := s.fault || !s.room.client), e)
    case LoopThenError(code) => Some(s.(loopCall := InvokeLock(ErrorEvent(code)), loop := LoopSwap))
    case LoopSwap => Some(s.(queue := s.queue.(batch := s.queue.sendList, sendList := []), loop := LoopSend))
    case LoopSend =>
      if s.queue.batch == [] then Some(s.(loop := LoopUnlock))
      else Some(s.(queue := s.queue.(sent := s.queue.sent + [s.queue.batch[0]], batch := s.queue.batch[1..]),
                   fault := s.fault || !s.room.server))
    case LoopUnlock =>
      Some(s.(locks := s.locks.(network := false), loop := LoopCheck, fault := s.fault || !s.room.client))
    case LoopDisconnect => Some(s.(room := s.room.(information := []), loop := LoopClose))
    case LoopClose =>
      Some(s.(room := s.room.(server := false), loop := LoopExited, fault := s.fault || !s.room.client))
    case LoopExited => None
  }

  // ----- the session's C functions -----

  function ApiStart(s: State, op: Op): (r: State)
    requires s.api.Free?
  {
    match op
    case Initialize => if s.session.member then s else s.(api := InitMember)
    case GameReady => if s.session.member && s.session.bound then s.(api := StopWorker(GameReady)) else s
    case GameStopped => s.(session := s.session.(ready := false), api := StopWorker(GameStopped))
    case Shutdown => s.(session := s.session.(ready := false), api := StopWorker(Shutdown))
    case JoinRoom => s.(api := CheckReady)
    case LeaveRoom => s.(session := s.session.(cancel := true), api := LeaveLock)
  }

  predicate InLifecycle(pc: ApiPc) {
    || pc.InitMember? || pc.InitBind? || pc.InitFailed? || pc.StopWorker? || pc.AwaitWorker?
    || pc.PublishReady? || pc.PublishStopped? || pc.Unbind? || pc.ResetMember?
  }

  predicate InJoinRoom(pc: ApiPc) {
    || pc.CheckReady? || pc.CheckFinished? || pc.ReapWorker? || pc.ClearCancel? || pc.PublishJoining?
    || pc.ClearFinished? || pc.Spawn? || pc.SpawnFailed? || pc.PublishSpawnFailed?
  }

  predicate InLeaveRoom(pc: ApiPc) {
    pc.LeaveLock? || pc.LeaveCheck? || pc.LeaveWrite? || pc.LeaveUnlock?
  }

  /** `Initialize`, `GameReady`, `GameStopped` and `Shutdown`. */
  function LifecycleNext(s: State, a: Answer): (r: Option<State>)
    requires InLifecycle(s.api)
  {
    match s.api
    case InitMember =>
      if a.Yes? then Some(s.(session := s.session.(member := true), api := InitBind))
      else Some(s.(api := InitFailed))
    case InitBind =>
      if a.Throw? then Some(s.(api := InitFailed))
      else if s.locks.callback.Some? then None
      else Some(s.(session := s.session.(bound := true), api := Free))
    case InitFailed =>
      if s.locks.snapshot.Some? then None
      else Some(WithSnapshot(s, s.session.snapshot.(error := INTERNAL_ERROR)).(api := Free))
    case StopWorker(op) => Some(s.(session := s.session.(cancel := true), api := AwaitWorker(op)))
    case AwaitWorker(op) =>
      if !s.worker.NoWorker? && !s.worker.Exited? then None
      else if op.GameReady? then
        Some(s.(worker := NoWorker, session := s.session.(ready := true), api := PublishReady))
      else
        Some(s.(worker := NoWorker, api := PublishStopped(op)))
    case PublishReady =>
      if s.locks.snapshot.Some? then None
      else Some(WithSnapshot(s, s.session.snapshot.(state := ShownIdle, error := 0)).(api := Free))
    case PublishStopped(op) =>
      if s.locks.snapshot.Some? then None
      else Some(WithSnapshot(s, s.session.snapshot.(state := Offline, members := []))
                  .(api := if op.Shutdown? && s.session.member then Unbind else Free))
    case Unbind =>
      if s.locks.callback.Some? then None else Some(s.(session := s.session.(bound := false), api := ResetMember))
    case ResetMember =>
      // If this was the last owner the member is destroyed, which must find it idle and without a thread.
      if a.Yes? then
        Some(s.(session := s.session.(member := false), queue := Cleared(s.queue), api := Free,
                fault := s.fault || !s.loop.NoLoop? || Connected(s.room.state)))
      else
        Some(s.(session := s.session.(member := false), api := Free))
  }

  /** `retro_azahar_room_join` once its arguments are accepted. */
  function JoinRoomNext(s: State, a: Answer): (r: Option<State>)
    requires InJoinRoom(s.api)
  {
    match s.api
    case CheckReady => Some(s.(api := if s.session.ready then CheckFinished else Free))
    case CheckFinished => Some(s.(api := if s.session.finished then ReapWorker else Free))
    case ReapWorker =>
      if !s.worker.NoWorker? && !s.worker.Exited? then None
      else Some(s.(worker := NoWorker, api := ClearCancel))
    case ClearCancel => Some(s.(session := s.session.(cancel := false), api := PublishJoining))
    case PublishJoining =>
      if s.locks.snapshot.Some? then None
      else Some(WithSnapshot(s, Snapshot(ShownJoining, 0, [])).(api := ClearFinished))
    case ClearFinished => Some(s.(session := s.session.(finished := false), api := Spawn))
    case Spawn =>
      // Assigning to a joinable thread object would terminate the process.
      if a.Yes? then Some(s.(worker := JoinStart, api := Free, fault := s.fault || !s.worker.NoWorker?))
      else Some(s.(api := SpawnFailed))
    case SpawnFailed => Some(s.(session := s.session.(finished := true), api := PublishSpawnFailed))
    case PublishSpawnFailed =>
      if s.locks.snapshot.Some? then None
      else Some(WithSnapshot(s, s.session.snapshot.(state := ShownIdle, error := INTERNAL_ERROR)).(api := Free))
  }

  /** `retro_azahar_room_leave` after it has raised `cancel`. */
  function LeaveRoomNext(s: State): (r: Option<State>)
    requires InLeaveRoom(s.api)
  {
    match s.api
    case LeaveLock =>
      if s.locks.snapshot.Some? then None
      else Some(s.(locks := s.locks.(snapshot := Some(Api)), api := LeaveCheck))
    case LeaveCheck => Some(s.(api := if s.session.finished then LeaveUnlock else LeaveWrite))
    case LeaveWrite => Some(WithSnapshot(s, s.session.snapshot.(state := Leaving)).(api := LeaveUnlock))
    case LeaveUnlock => Some(s.(locks := s.locks.(snapshot := None), api := Free))
  }

  function ApiNext(s: State, a: Answer): (r: Option<State>) {
    if InLifecycle(s.api) then LifecycleNext(s, a)
    else if InJoinRoom(s.api) then JoinRoomNext(s, a)
    else if InLeaveRoom(s.api) then LeaveRoomNext(s)
    else None
  }

  // ----- all interleavings -----

  datatype Action =
    | Begin(op: Op)
    | ApiMoves(answer: Answer)
    | WorkerMoves(answer: Answer)
    | LoopMoves(event: NetEvent)
    | EmulationPushes(packet: Packet)

  /** The state after an action, if the action is possible. */
  function Step(s: State, a: Action): (r: Option<State>) {
    match a
    case Begin(op) => if s.api.Free? then Some(ApiStart(s, op)) else None
    case ApiMoves(answer) => ApiNext(s, answer)
    case WorkerMoves(answer) => if s.workerCall.NoCall? then WorkerNext(s, answer) else CallNext(s, Worker)
    case LoopMoves(event) => if s.loopCall.NoCall? then LoopNext(s, event) else CallNext(s, Loop)
    case EmulationPushes(p) => Some(Push(s, p))
  }
}
