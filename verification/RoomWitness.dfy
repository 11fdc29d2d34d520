/**
 Runs of the room session that end where its published contract does not expect them.
 */
module RoomWitness {
  import opened Options
  import opened RoomProtocol
  import opened RoomInvariant
  import opened RoomTheorems
  import opened RoomLeaving
  import opened RoomReturn
  import opened RoomWaits

  lemma ReachNext(s: State, a: Action, t: State)
    requires Reachable(s) && Step(s, a) == Some(t)
    ensures Reachable(t)
  {
    hide Step;
    ReachableNext(s, a);
  }

  const NOTHING_QUEUED: Queue := Queue([], [], [], [])
  const ALL_FREE: Locks := Locks(None, None, false)
  const READY: Snapshot := Snapshot(ShownIdle, 0, [])
  const JOINING: Snapshot := Snapshot(ShownJoining, 0, [])
  const FAILING: Snapshot := Snapshot(ShownJoining, INTERNAL_ERROR, [])
  const FAILED: Snapshot := Snapshot(ShownIdle, INTERNAL_ERROR, [])
  const STALE: Snapshot := Snapshot(Leaving, INTERNAL_ERROR, [])

  /** A session with a ready game whose join, if any, has not reached the network. */
  function Calm(api: ApiPc, worker: WorkerPc, cancel: bool, finished: bool, snapshot: Snapshot): (s: State) {
    State(api, worker, NoCall, NoLoop, NoCall, Session(true, true, true, cancel, finished, snapshot),
          Room(Idle, !worker.NoWorker? && !InJoin(worker) && !worker.LeaveStart? && !worker.Catch?, false, false, []),
          NOTHING_QUEUED, ALL_FREE, false)
  }

  lemma ReachReady()
    ensures Reachable(Calm(Free, NoWorker, true, true, READY))
  {
    var s0 := Initial();
    assert After(s0, []) == Some(s0);
    var s1 := s0.(api := InitMember);
    ReachNext(s0, Begin(Initialize), s1);
    var s2 := s1.(session := s1.session.(member := true), api := InitBind);
    ReachNext(s1, ApiMoves(Yes), s2);
    var s3 := s2.(session := s2.session.(bound := true), api := Free);
    ReachNext(s2, ApiMoves(Yes), s3);
    ReachGameReady(s3);
  }

  lemma ReachGameReady(s: State)
    requires Reachable(s)
    requires s == Initial().(session := Session(true, true, false, false, true, Snapshot(Offline, 0, [])))
    ensures Reachable(Calm(Free, NoWorker, true, true, READY))
  {
    var s1 := s.(api := StopWorker(GameReady));
    ReachNext(s, Begin(GameReady), s1);
    var s2 := s1.(session := s1.session.(cancel := true), api := AwaitWorker(GameReady));
    ReachNext(s1, ApiMoves(Yes), s2);
    var s3 := Calm(PublishReady, NoWorker, true, true, Snapshot(Offline, 0, []));
    ReachNext(s2, ApiMoves(Yes), s3);
    ReachNext(s3, ApiMoves(Yes), Calm(Free, NoWorker, true, true, READY));
  }

  lemma ReachAccepted()
    ensures Reachable(Calm(ClearCancel, NoWorker, true, true, READY))
  {
    ReachReady();
    ReachNext(Calm(Free, NoWorker, true, true, READY), Begin(JoinRoom), Calm(CheckReady, NoWorker, true, true, READY));
    ReachNext(Calm(CheckReady, NoWorker, true, true, READY), ApiMoves(Yes),
              Calm(CheckFinished, NoWorker, true, true, READY));
    ReachNext(Calm(CheckFinished, NoWorker, true, true, READY), ApiMoves(Yes),
              Calm(ReapWorker, NoWorker, true, true, READY));
    ReachNext(Calm(ReapWorker, NoWorker, true, true, READY), ApiMoves(Yes),
              Calm(ClearCancel, NoWorker, true, true, READY));
  }

  lemma ReachAnnounced()
    ensures Reachable(Calm(ClearFinished, NoWorker, false, true, JOINING))
  {
    ReachAccepted();
    ReachNext(Calm(ClearCancel, NoWorker, true, true, READY), ApiMoves(Yes),
              Calm(PublishJoining, NoWorker, false, true, READY));
    ReachNext(Calm(PublishJoining, NoWorker, false, true, READY), ApiMoves(Yes),
              Calm(ClearFinished, NoWorker, false, true, JOINING));
  }

  lemma ReachStarted()
    ensures Reachable(Calm(Free, JoinStart, false, false, JOINING))
  {
    ReachAnnounced();
    ReachNext(Calm(ClearFinished, NoWorker, false, true, JOINING), ApiMoves(Yes),
              Calm(Spawn, NoWorker, false, false, JOINING));
    ReachNext(Calm(Spawn, NoWorker, false, false, JOINING), ApiMoves(Yes),
              Calm(Free, JoinStart, false, false, JOINING));
  }

  lemma ReachFailure()
    ensures Reachable(Calm(Free, LeaveJoin(ToPublish), false, false, FAILING))
  {
    ReachStarted();
    ReachNext(Calm(Free, JoinStart, false, false, JOINING), WorkerMoves(Yes),
              Calm(Free, CreateHost, false, false, JOINING));
    ReachNext(Calm(Free, CreateHost, false, false, JOINING), WorkerMoves(Throw),
              Calm(Free, Catch, false, false, JOINING));
    ReachNext(Calm(Free, Catch, false, false, JOINING), WorkerMoves(Yes),
              Calm(Free, LeaveStart(ToPublish), false, false, FAILING));
    var asking := Calm(Free, LeaveJoin(ToPublish), false, false, FAILING).(workerCall := SetCheck(Idle));
    ReachNext(Calm(Free, LeaveStart(ToPublish), false, false, FAILING), WorkerMoves(Yes), asking);
    ReachNext(asking, WorkerMoves(Yes), Calm(Free, LeaveJoin(ToPublish), false, false, FAILING));
  }

  lemma ReachReleased()
    ensures Reachable(Calm(Free, LeaveClear(ToPublish), false, false, FAILING))
  {
    ReachFailure();
    ReachNext(Calm(Free, LeaveJoin(ToPublish), false, false, FAILING), WorkerMoves(Yes),
              Calm(Free, LeaveDestroy(ToPublish), false, false, FAILING));
    ReachNext(Calm(Free, LeaveDestroy(ToPublish), false, false, FAILING), WorkerMoves(Yes),
              Calm(Free, LeaveClear(ToPublish), false, false, FAILING));
  }

  lemma ReachPublished()
    ensures Reachable(Calm(Free, StoreFinished, false, false, FAILED))
  {
    ReachReleased();
    ReachNext(Calm(Free, LeaveClear(ToPublish), false, false, FAILING), WorkerMoves(Yes),
              Calm(Free, Publish, false, false, FAILING));
    ReachNext(Calm(Free, Publish, false, false, FAILING), WorkerMoves(Yes),
              Calm(Free, StoreFinished, false, false, FAILED));
  }

  lemma ReachLateCheck()
    ensures Reachable(Calm(LeaveCheck, StoreFinished, true, false, FAILED).(locks := Locks(None, Some(Api), false)))
  {
    ReachPublished();
    ReachNext(Calm(Free, StoreFinished, false, false, FAILED), Begin(LeaveRoom),
              Calm(LeaveLock, StoreFinished, true, false, FAILED));
    ReachNext(Calm(LeaveLock, StoreFinished, true, false, FAILED), ApiMoves(Yes),
              Calm(LeaveCheck, StoreFinished, true, false, FAILED).(locks := Locks(None, Some(Api), false)));
  }

  lemma ReachLateWrite()
    ensures Reachable(Calm(Free, StoreFinished, true, false, STALE))
  {
    ReachLateCheck();
    var locked := Calm(LeaveCheck, StoreFinished, true, false, FAILED).(locks := Locks(None, Some(Api), false));
    ReachNext(locked, ApiMoves(Yes), locked.(api := LeaveWrite));
    var written := Calm(LeaveUnlock, StoreFinished, true, false, STALE).(locks := Locks(None, Some(Api), false));
    ReachNext(locked.(api := LeaveWrite), ApiMoves(Yes), written);
    ReachNext(written, ApiMoves(Yes), Calm(Free, StoreFinished, true, false, STALE));
  }

  /** A run that ends with every thread at rest, everything released, and LEAVING on display. */
  lemma StaleLeavingIsReachable() returns (s: State)
    ensures Reachable(s) && StaleLeaving(s) && (forall t :: !Underway(s, t)) && s.session.finished
  {
    ReachLateWrite();
    s := Calm(Free, Exited, true, true, STALE);
    ReachNext(Calm(Free, StoreFinished, true, false, STALE), WorkerMoves(Yes), s);
  }

  // ----- a leave overtaken by a join success -----

  /** Through `Invoke`, with both mutexes free and the session's callbacks bound. */
  lemma ReachInvoked(s: State, t: Thread, a: Action)
    requires Reachable(s) && Moves(t, a) && CallOf(s, t).InvokeLock? && !CallOf(s, t).event.OtherEvent?
    requires s.locks.callback.None? && s.locks.snapshot.None? && s.session.bound
    ensures Reachable(WithCall(Delivered(s, CallOf(s, t).event), t, NoCall))
  {
    var e := CallOf(s, t).event;
    var s1 := WithCall(s.(locks := s.locks.(callback := Some(t))), t, CallbackLock(e));
    ReachNext(s, a, s1);
    var s2 := WithCall(s1.(locks := s1.locks.(snapshot := Some(t))), t, CallbackCheck(e));
    ReachNext(s1, a, s2);
    ReachDelivered(s, s2, t, a, e);
  }

  lemma ReachDelivered(s: State, s2: State, t: Thread, a: Action, e: Event)
    requires Reachable(s2) && Moves(t, a)
    requires s.locks.callback.None? && s.locks.snapshot.None?
    requires s2 == WithCall(s.(locks := s.locks.(callback := Some(t), snapshot := Some(t))), t, CallbackCheck(e))
    ensures Reachable(WithCall(Delivered(s, e), t, NoCall))
  {
    var held := Delivered(s, e).(locks := s2.locks);
    ReachHeld(s, s2, t, a, e);
    var half := WithCall(held.(locks := s2.locks.(snapshot := None)), t, InvokeUnlock);
    ReachNext(WithCall(held, t, CallbackUnlock), a, half);
    ReachNext(half, a, WithCall(Delivered(s, e), t, NoCall));
  }

  lemma ReachHeld(s: State, s2: State, t: Thread, a: Action, e: Event)
    requires Reachable(s2) && Moves(t, a)
    requires s2 == WithCall(s.(locks := s.locks.(callback := Some(t), snapshot := Some(t))), t, CallbackCheck(e))
    ensures Reachable(WithCall(Delivered(s, e).(locks := s2.locks), t, CallbackUnlock))
  {
    var held := Delivered(s, e).(locks := s2.locks);
    if s.session.cancel {
      ReachNext(s2, a, WithCall(held, t, CallbackUnlock));
    } else {
      ReachNext(s2, a, WithCall(s2, t, CallbackWrite(e)));
      ReachNext(WithCall(s2, t, CallbackWrite(e)), a, WithCall(held, t, CallbackUnlock));
    }
  }

  /** What a delivered event leaves behind. */
  function Delivered(s: State, e: Event): (r: State) {
    if s.session.cancel then s else WithSnapshot(s, Written(s.session.snapshot, e, s.room.information))
  }

  predicate Moves(t: Thread, a: Action) {
    (t.Worker? && a.WorkerMoves?) || (t.Loop? && a.LoopMoves?)
  }

  /** Through the store of `SetState` and the callback that follows it. */
  lemma ReachStored(s: State, t: Thread, a: Action)
    requires Reachable(s) && Moves(t, a) && CallOf(s, t).SetStore?
    requires s.locks.callback.None? && s.locks.snapshot.None? && s.session.bound
    ensures var m := CallOf(s, t).target;
            Reachable(WithCall(Delivered(s.(room := s.room.(state := m)), StateEvent(m)), t, NoCall))
  {
    hide Delivered;
    var m := CallOf(s, t).target;
    var s1 := WithCall(s.(room := s.room.(state := m)), t, SetLoad);
    ReachNext(s, a, s1);
    var s2 := WithCall(s1, t, InvokeLock(StateEvent(m)));
    ReachNext(s1, a, s2);
    ReachInvoked(s2, t, a);
    SameDelivery(s.(room := s.room.(state := m)), s2, t, StateEvent(m));
  }

  lemma SameDelivery(s: State, s': State, t: Thread, e: Event)
    requires s' == WithCall(s, t, CallOf(s', t))
    ensures WithCall(Delivered(s', e), t, NoCall) == WithCall(Delivered(s, e), t, NoCall)
  {
  }

  const PEERS: seq<Peer> := ["host"]
  const WAITING: Snapshot := Snapshot(ShownJoining, 0, ["host"])
  const LEAVING: Snapshot := Snapshot(Leaving, 0, ["host"])
  const REQUESTS: seq<Packet> := [JOIN_REQUEST, GAME_INFO]

  predicate HasPeer(worker: WorkerPc) {
    !InJoin(worker) || worker.Service? || worker.StartLoop? || worker.SendJoinRequest? || worker.SendGameInfo?
  }

  /** A session in the middle of a run. */
  function Live(worker: WorkerPc, loop: LoopPc, loopCall: Call, m: MemberState, peers: seq<Peer>, queue: Queue,
                cancel: bool, snapshot: Snapshot): (s: State) {
    State(Free, worker, NoCall, loop, loopCall, Session(true, true, true, cancel, false, snapshot),
          Room(m, worker.LeaveJoin?, true, HasPeer(worker), peers),
          queue, Locks(None, None, HoldsNetwork(loop)), false)
  }

  lemma ReachConnecting()
    ensures Reachable(Live(Service, NoLoop, NoCall, Joining, [], NOTHING_QUEUED, false, JOINING))
  {
    ReachStarted();
    ReachNext(Calm(Free, JoinStart, false, false, JOINING), WorkerMoves(Yes),
              Calm(Free, CreateHost, false, false, JOINING));
    var s1 := Live(ClearImmediate, NoLoop, NoCall, Idle, [], NOTHING_QUEUED, false, JOINING);
    ReachNext(Calm(Free, CreateHost, false, false, JOINING), WorkerMoves(Yes), s1);
    var s2 := Live(Resolve, NoLoop, NoCall, Idle, [], NOTHING_QUEUED, false, JOINING);
    ReachNext(s1, WorkerMoves(Yes), s2.(workerCall := SetCheck(Joining)));
    ReachNext(s2.(workerCall := SetCheck(Joining)), WorkerMoves(Yes), s2.(workerCall := SetStore(Joining)));
    ReachStored(s2.(workerCall := SetStore(Joining)), Worker, WorkerMoves(Yes));
    var s3 := Live(Resolve, NoLoop, NoCall, Joining, [], NOTHING_QUEUED, false, JOINING);
    assert Reachable(s3);
    var s4 := Live(Connect, NoLoop, NoCall, Joining, [], NOTHING_QUEUED, false, JOINING);
    ReachNext(s3, WorkerMoves(Yes), s4);
    var s5 := s4.(room := s4.room.(server := true), worker := Service);
    ReachNext(s4, WorkerMoves(Yes), s5);
    assert s5 == Live(Service, NoLoop, NoCall, Joining, [], NOTHING_QUEUED, false, JOINING);
  }

  lemma ReachPolling()
    ensures Reachable(Live(Poll, LoopCheck, NoCall, Joining, [], Queue(REQUESTS, [], REQUESTS, []), false, JOINING))
  {
    ReachConnecting();
    var s1 := Live(StartLoop, NoLoop, NoCall, Joining, [], NOTHING_QUEUED, false, JOINING);
    ReachNext(Live(Service, NoLoop, NoCall, Joining, [], NOTHING_QUEUED, false, JOINING), WorkerMoves(Yes), s1);
    var s2 := Live(SendJoinRequest, LoopCheck, NoCall, Joining, [], NOTHING_QUEUED, false, JOINING);
    ReachNext(s1, WorkerMoves(Yes), s2);
    assert [] + [JOIN_REQUEST] == [JOIN_REQUEST] && [JOIN_REQUEST] + [GAME_INFO] == REQUESTS;
    var s3 := Live(SendGameInfo, LoopCheck, NoCall, Joining, [], Queue([JOIN_REQUEST], [], [JOIN_REQUEST], []), false,
                   JOINING);
    ReachNext(s2, WorkerMoves(Yes), s3);
    ReachNext(s3, WorkerMoves(Yes),
              Live(Poll, LoopCheck, NoCall, Joining, [], Queue(REQUESTS, [], REQUESTS, []), false, JOINING));
  }

  /** The network thread learns the members. */
  lemma ReachInformed()
    ensures Reachable(Live(Poll, LoopSwap, NoCall, Joining, PEERS, Queue(REQUESTS, [], REQUESTS, []), false, WAITING))
  {
    ReachPolling();
    var q := Queue(REQUESTS, [], REQUESTS, []);
    ReachNext(Live(Poll, LoopCheck, NoCall, Joining, [], q, false, JOINING), LoopMoves(Nothing),
              Live(Poll, LoopLock, NoCall, Joining, [], q, false, JOINING));
    ReachNext(Live(Poll, LoopLock, NoCall, Joining, [], q, false, JOINING), LoopMoves(Nothing),
              Live(Poll, LoopService, NoCall, Joining, [], q, false, JOINING));
    var s := Live(Poll, LoopSwap, InvokeLock(RoomEvent), Joining, PEERS, q, false, JOINING);
    ReachNext(Live(Poll, LoopService, NoCall, Joining, [], q, false, JOINING), LoopMoves(Information(PEERS)), s);
    ReachInvoked(s, Loop, LoopMoves(Nothing));
    assert Truncated(PEERS) == PEERS;
  }

  /** It sends both requests and hears that the join succeeded, but has not yet stored the new state. */
  lemma ReachSuccess()
    ensures Reachable(Live(Poll, LoopSwap, SetStore(Joined), Joining, PEERS, Queue([], [], REQUESTS, REQUESTS), false,
                           WAITING))
  {
    ReachInformed();
    var s1 := Live(Poll, LoopSend, NoCall, Joining, PEERS, Queue([], REQUESTS, REQUESTS, []), false, WAITING);
    ReachNext(Live(Poll, LoopSwap, NoCall, Joining, PEERS, Queue(REQUESTS, [], REQUESTS, []), false, WAITING),
              LoopMoves(Nothing), s1);
    assert REQUESTS[1..] == [GAME_INFO] && [] + [JOIN_REQUEST] == [JOIN_REQUEST];
    assert [GAME_INFO][1..] == [] && [JOIN_REQUEST] + [GAME_INFO] == REQUESTS;
    var s2 := Live(Poll, LoopSend, NoCall, Joining, PEERS, Queue([], [GAME_INFO], REQUESTS, [JOIN_REQUEST]), false,
                   WAITING);
    ReachNext(s1, LoopMoves(Nothing), s2);
    var done := Queue([], [], REQUESTS, REQUESTS);
    var s3 := Live(Poll, LoopSend, NoCall, Joining, PEERS, done, false, WAITING);
    ReachNext(s2, LoopMoves(Nothing), s3);
    ReachNext(s3, LoopMoves(Nothing), Live(Poll, LoopUnlock, NoCall, Joining, PEERS, done, false, WAITING));
    ReachHeard(done);
  }

  lemma ReachHeard(done: Queue)
    requires Reachable(Live(Poll, LoopUnlock, NoCall, Joining, PEERS, done, false, WAITING))
    ensures Reachable(Live(Poll, LoopSwap, SetStore(Joined), Joining, PEERS, done, false, WAITING))
  {
    var s1 := Live(Poll, LoopCheck, NoCall, Joining, PEERS, done, false, WAITING);
    ReachNext(Live(Poll, LoopUnlock, NoCall, Joining, PEERS, done, false, WAITING), LoopMoves(Nothing), s1);
    var s2 := Live(Poll, LoopLock, NoCall, Joining, PEERS, done, false, WAITING);
    ReachNext(s1, LoopMoves(Nothing), s2);
    var s3 := Live(Poll, LoopService, NoCall, Joining, PEERS, done, false, WAITING);
    ReachNext(s2, LoopMoves(Nothing), s3);
    var s4 := Live(Poll, LoopSwap, SetCheck(Joined), Joining, PEERS, done, false, WAITING);
    ReachNext(s3, LoopMoves(JoinSuccess(false)), s4);
    ReachNext(s4, LoopMoves(Nothing), Live(Poll, LoopSwap, SetStore(Joined), Joining, PEERS, done, false, WAITING));
  }

  const JOINED: Snapshot := Snapshot(ShownJoined, 0, ["host"])

  /** Undisturbed, the join ends with the room and its member on display. */
  lemma JoinedIsReachable() returns (s: State)
    ensures Reachable(s) && s.session.snapshot == JOINED && s.room.state == Joined && !s.session.cancel
  {
    var done := Queue([], [], REQUESTS, REQUESTS);
    ReachSuccess();
    ReachStored(Live(Poll, LoopSwap, SetStore(Joined), Joining, PEERS, done, false, WAITING), Loop, LoopMoves(Nothing));
    s := Live(Poll, LoopSwap, NoCall, Joined, PEERS, done, false, JOINED);
  }

  /** Meanwhile the frontend leaves. */
  lemma ReachCancelled(done: Queue)
    requires Reachable(Live(Poll, LoopSwap, SetStore(Joined), Joining, PEERS, done, false, WAITING))
    ensures Reachable(Live(Poll, LoopSwap, SetStore(Joined), Joining, PEERS, done, true, LEAVING))
  {
    var s0 := Live(Poll, LoopSwap, SetStore(Joined), Joining, PEERS, done, true, WAITING);
    ReachNext(Live(Poll, LoopSwap, SetStore(Joined), Joining, PEERS, done, false, WAITING), Begin(LeaveRoom),
              s0.(api := LeaveLock));
    var k := Locks(None, Some(Api), true);
    ReachNext(s0.(api := LeaveLock), ApiMoves(Yes), s0.(api := LeaveCheck, locks := k));
    ReachNext(s0.(api := LeaveCheck, locks := k), ApiMoves(Yes), s0.(api := LeaveWrite, locks := k));
    var s1 := Live(Poll, LoopSwap, SetStore(Joined), Joining, PEERS, done, true, LEAVING);
    ReachNext(s0.(api := LeaveWrite, locks := k), ApiMoves(Yes), s1.(api := LeaveUnlock, locks := k));
    ReachNext(s1.(api := LeaveUnlock, locks := k), ApiMoves(Yes), s1);
  }

  /** The worker stores idle and waits; only then does the network thread store that it has joined. */
  lemma ReachOvertaken(done: Queue)
    requires Reachable(Live(Poll, LoopSwap, SetStore(Joined), Joining, PEERS, done, true, LEAVING))
    ensures Reachable(Live(LeaveJoin(ToPublish), LoopSwap, NoCall, Joined, PEERS, done, true, LEAVING))
  {
    var s0 := Live(LeaveStart(ToPublish), LoopSwap, SetStore(Joined), Joining, PEERS, done, true, LEAVING);
    ReachNext(Live(Poll, LoopSwap, SetStore(Joined), Joining, PEERS, done, true, LEAVING), WorkerMoves(Yes), s0);
    var s1 := Live(LeaveJoin(ToPublish), LoopSwap, SetStore(Joined), Joining, PEERS, done, true, LEAVING);
    ReachNext(s0, WorkerMoves(Yes), s1.(workerCall := SetCheck(Idle)));
    ReachNext(s1.(workerCall := SetCheck(Idle)), WorkerMoves(Yes), s1.(workerCall := SetStore(Idle)));
    ReachStored(s1.(workerCall := SetStore(Idle)), Worker, WorkerMoves(Yes));
    var s2 := Live(LeaveJoin(ToPublish), LoopSwap, SetStore(Joined), Idle, PEERS, done, true, LEAVING);
    assert Reachable(s2);
    ReachStored(s2, Loop, LoopMoves(Nothing));
  }

  /** So a leave really can wait for a network thread that goes on running. */
  lemma LeaveOvertakenIsReachable() returns (s: State)
    ensures Reachable(s) && WaitsForConnectedLoop(s) && s.session.snapshot.state == Leaving
  {
    var done := Queue([], [], REQUESTS, REQUESTS);
    ReachSuccess();
    ReachCancelled(done);
    ReachOvertaken(done);
    ReachWaiting(done);
    s := Live(LeaveJoin(ToPublish), LoopCheck, NoCall, Joined, PEERS, done, true, LEAVING);
  }

  lemma ReachWaiting(done: Queue)
    requires done == Queue([], [], REQUESTS, REQUESTS)
    requires Reachable(Live(LeaveJoin(ToPublish), LoopSwap, NoCall, Joined, PEERS, done, true, LEAVING))
    ensures Reachable(Live(LeaveJoin(ToPublish), LoopCheck, NoCall, Joined, PEERS, done, true, LEAVING))
  {
    var s1 := Live(LeaveJoin(ToPublish), LoopSend, NoCall, Joined, PEERS, done, true, LEAVING);
    ReachNext(Live(LeaveJoin(ToPublish), LoopSwap, NoCall, Joined, PEERS, done, true, LEAVING), LoopMoves(Nothing), s1);
    var s2 := Live(LeaveJoin(ToPublish), LoopUnlock, NoCall, Joined, PEERS, done, true, LEAVING);
    ReachNext(s1, LoopMoves(Nothing), s2);
    ReachNext(s2, LoopMoves(Nothing), Live(LeaveJoin(ToPublish), LoopCheck, NoCall, Joined, PEERS, done, true,
                                           LEAVING));
  }
}
