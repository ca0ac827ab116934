// The multi-reactor server of cpp_server: one main loop, any number of
// sub-loops, and connections kept alive only by the references that the
// server's map, the task queues, the running batches and the event handlers
// hold. Each action is one atomic piece of code on one thread; any
// interleaving of the threads is a sequence of actions.
module Reactor {
  import opened Common

  type ConnId = nat

  datatype ConnState = Connected | Closed

  // fd and home never change; inEpoll is the flag of the connection's channel.
  datatype Conn = Conn(fd: nat, home: nat, state: ConnState, inEpoll: bool)

  // The two closures that travel between the loops. Both capture a
  // shared_ptr, so a task holds a reference to its connection.
  datatype Task = CloseInLoop(conn: ConnId) | Destructor(conn: ConnId)

  // Polling: before epoll_wait. Handling: walking the polled channels.
  // Tasks: from the swap in DoToDoList until the swapped vector is destroyed.
  datatype Phase = Polling | Handling | Tasks

  datatype Loop = Loop(
    toDoList: seq<Task>,          // shared queue
    batch: seq<Task>,             // the swapped-out vector
    next: nat,                    // how many of the batch have run
    phase: Phase,
    polled: seq<ConnId>,          // polled channels not handled yet
    guard: Option<ConnId>)        // the reference locked by handleEvent

  datatype State = State(
    conns: map<ConnId, Conn>,     // the connection objects not yet destroyed
    connections: map<nat, ConnId>,// the main thread's map
    nextConnId: ConnId,
    loops: seq<Loop>,             // loop 0 is the main reactor
    epolls: seq<map<nat, ConnId>>,// the kernel's epoll set of each loop: fd to channel
    open: set<nat>,               // client descriptors open in the kernel
    closeLog: seq<ConnId>)        // history: every close task ever created

  // What the connect callback does: nothing that matters here, close the
  // connection, or fail to write to it.
  datatype ConnectOutcome = Stays | Closes | FailsToWrite

  datatype Action =
    | Poll(l: nat, ready: seq<ConnId>)
    | Accept(fd: nat, outcome: ConnectOutcome)
    | BeginEvent(l: nat)
    | CloseInHandler(l: nat)
    | WriteError(l: nat)
    | UpdateInHandler(l: nat)
    | EndEvent(l: nat)
    | Swap(l: nat)
    | RunTask(l: nat)
    | Finish(l: nat)

  const MAIN: nat := 0

  // ---------- the operations ----------

  const EMPTY_LOOP := Loop([], [], 0, Polling, [], None)

  function Init(subLoops: nat): State {
    State(map[], map[], 1, seq(subLoops + 1, _ => EMPTY_LOOP), seq(subLoops + 1, _ => map[]), {}, [])
  }

  function Home(s: State, fd: nat): (l: nat)
    requires |s.loops| > 1
  {
    1 + fd % (|s.loops| - 1)
  }

  function QueueOneFunc(s: State, l: nat, t: Task): State
    requires l < |s.loops|
  {
    s.(loops := s.loops[l := s.loops[l].(toDoList := s.loops[l].toDoList + [t])])
  }

  // epoll_ctl: MOD when the channel believes it is registered, else ADD, which
  // the kernel refuses for a descriptor that is already there.
  function UpdateChannel(s: State, c: ConnId): State
    requires c in s.conns && s.conns[c].home < |s.epolls|
  {
    var conn := s.conns[c];
    var ep := s.epolls[conn.home];
    if conn.inEpoll then s
    else
      s.(conns := s.conns[c := conn.(inEpoll := true)],
         epolls := s.epolls[conn.home := if conn.fd in ep then ep else ep[conn.fd := c]])
  }

  function DeleteChannel(s: State, c: ConnId): State
    requires c in s.conns && s.conns[c].home < |s.epolls|
  {
    var conn := s.conns[c];
    var ep := s.epolls[conn.home];
    s.(conns := s.conns[c := conn.(inEpoll := false)],
       epolls := if conn.inEpoll then s.epolls[conn.home := ep - {conn.fd}] else s.epolls)
  }

  function HandleCloseInLoop(s: State, c: ConnId): State
    requires c in s.conns && s.conns[c].home < |s.loops|
  {
    var conn := s.conns[c];
    QueueOneFunc(s.(connections := s.connections - {conn.fd}), conn.home, Destructor(c))
  }

  // Connection::HandleClose on thread l, through Server::HandleClose and runOneFunc.
  function HandleClose(s: State, l: nat, c: ConnId): State
    requires c in s.conns && s.conns[c].home < |s.loops| && l < |s.loops|
  {
    if s.conns[c].state == Closed then s
    else
      var s1 := s.(conns := s.conns[c := s.conns[c].(state := Closed)], closeLog := s.closeLog + [c]);
      if l == MAIN then HandleCloseInLoop(s1, c) else QueueOneFunc(s1, MAIN, CloseInLoop(c))
  }

  // A write error other than EAGAIN or EINTR: nobody is told.
  function FailWrite(s: State, c: ConnId): State
    requires c in s.conns
  {
    s.(conns := s.conns[c := s.conns[c].(state := Closed)])
  }

  // HandleNewConnection: build the connection, register its channel, file it.
  function HandleNewConnection(s: State, fd: nat): State
    requires |s.epolls| == |s.loops| > 1
  {
    var c := s.nextConnId;
    var s1 := s.(conns := s.conns[c := Conn(fd, Home(s, fd), Connected, false)],
                 nextConnId := c + 1, open := s.open + {fd});
    var s2 := UpdateChannel(s1, c);
    s2.(connections := s2.connections[fd := c])
  }

  function RunFunc(s: State, t: Task): State
    requires t.conn in s.conns && s.conns[t.conn].home < |s.loops| == |s.epolls|
  {
    match t
    case CloseInLoop(c) => HandleCloseInLoop(s, c)
    case Destructor(c) => DeleteChannel(s, c)
  }

  // ---------- reference counting ----------

  ghost predicate Mentions(ts: seq<Task>, c: ConnId) {
    exists t :: t in ts && t.conn == c
  }

  ghost predicate LoopHolds(loop: Loop, c: ConnId) {
    loop.guard == Some(c) || Mentions(loop.toDoList, c) || Mentions(loop.batch, c)
  }

  // Some shared_ptr to c exists: in the map, a queue, a running batch or a handler.
  ghost predicate Referenced(s: State, c: ConnId) {
    || c in s.connections.Values
    || exists l :: 0 <= l < |s.loops| && LoopHolds(s.loops[l], c)
  }

  ghost function Dropped(s: State): set<ConnId> {
    set c | c in s.conns && !Referenced(s, c)
  }

  ghost function DroppedFds(s: State): set<nat> {
    set c | c in Dropped(s) :: s.conns[c].fd
  }

  // Every connection whose last reference is gone runs ~Connection: close(fd),
  // and the kernel forgets a closed descriptor in every epoll set.
  ghost function Collect(s: State): State {
    s.(conns := s.conns - Dropped(s),
       open := s.open - DroppedFds(s),
       epolls := seq(|s.epolls|, l requires 0 <= l < |s.epolls| => s.epolls[l] - DroppedFds(s)))
  }

  // ---------- the transition system ----------

  ghost predicate Enabled(s: State, a: Action) {
    && |s.epolls| == |s.loops| > 1
    && match a
       case Poll(l, ready) =>
         && l < |s.loops| && s.loops[l].phase == Polling && NoDup(ready)
         && forall c :: c in ready ==> c in s.epolls[l].Values
       case Accept(fd, _) => s.loops[MAIN].phase == Handling && fd !in s.open
       case BeginEvent(l) =>
         l < |s.loops| && s.loops[l].phase == Handling && s.loops[l].guard == None && s.loops[l].polled != []
       case CloseInHandler(l) => l < |s.loops| && s.loops[l].guard.Some?
       case WriteError(l) => l < |s.loops| && s.loops[l].guard.Some?
       case UpdateInHandler(l) => l < |s.loops| && s.loops[l].guard.Some?
       case EndEvent(l) => l < |s.loops| && s.loops[l].guard.Some?
       case Swap(l) =>
         l < |s.loops| && s.loops[l].phase == Handling && s.loops[l].guard == None && s.loops[l].polled == []
       case RunTask(l) =>
         l < |s.loops| && s.loops[l].phase == Tasks && s.loops[l].next < |s.loops[l].batch|
       case Finish(l) =>
         l < |s.loops| && s.loops[l].phase == Tasks && s.loops[l].next == |s.loops[l].batch|
  }

  ghost predicate Alive(s: State, c: ConnId) {
    c in s.conns && s.conns[c].home < |s.loops|
  }

  // The objects that the action's code dereferences still exist. An enabled
  // action that is not Defined would be a use after free.
  ghost predicate Defined(s: State, a: Action)
    requires Enabled(s, a)
  {
    match a
    case BeginEvent(l) => Alive(s, s.loops[l].polled[0])
    case CloseInHandler(l) => Alive(s, s.loops[l].guard.value)
    case WriteError(l) => Alive(s, s.loops[l].guard.value)
    case UpdateInHandler(l) => Alive(s, s.loops[l].guard.value)
    case RunTask(l) => Alive(s, s.loops[l].batch[s.loops[l].next].conn)
    case _ => true
  }

  ghost function Act(s: State, a: Action): State
    requires Enabled(s, a) && Defined(s, a)
  {
    match a
    case Poll(l, ready) => s.(loops := s.loops[l := s.loops[l].(polled := ready, phase := Handling)])
    case Accept(fd, outcome) => (
      var s1 := HandleNewConnection(s, fd);
      match outcome
      case Stays => s1
      case Closes => HandleClose(s1, MAIN, s.nextConnId)
      case FailsToWrite => FailWrite(s1, s.nextConnId))
    case BeginEvent(l) =>
      var loop := s.loops[l];
      s.(loops := s.loops[l := loop.(polled := loop.polled[1..], guard := Some(loop.polled[0]))])
    case CloseInHandler(l) => HandleClose(s, l, s.loops[l].guard.value)
    case WriteError(l) => FailWrite(s, s.loops[l].guard.value)
    case UpdateInHandler(l) => UpdateChannel(s, s.loops[l].guard.value)
    case EndEvent(l) => s.(loops := s.loops[l := s.loops[l].(guard := None)])
    case Swap(l) =>
      var loop := s.loops[l];
      s.(loops := s.loops[l := loop.(toDoList := [], batch := loop.toDoList, next := 0, phase := Tasks)])
    case RunTask(l) =>
      var loop := s.loops[l];
      RunFunc(s.(loops := s.loops[l := loop.(next := loop.next + 1)]), loop.batch[loop.next])
    case Finish(l) => s.(loops := s.loops[l := s.loops[l].(batch := [], next := 0, phase := Polling)])
  }

  ghost function Step(s: State, a: Action): State
    requires Enabled(s, a) && Defined(s, a)
  {
    Collect(Act(s, a))
  }

  // A run takes enabled actions; after an undefined one anything may follow.
  ghost predicate IsRun(subLoops: nat, ss: seq<State>, acts: seq<Action>) {
    && |ss| == |acts| + 1
    && ss[0] == Init(subLoops)
    && forall i :: 0 <= i < |acts| ==>
         Enabled(ss[i], acts[i]) && (Defined(ss[i], acts[i]) ==> ss[i + 1] == Step(ss[i], acts[i]))
  }

  // ---------- the invariant ----------

  function Pending(loop: Loop): seq<Task> {
    (if loop.next <= |loop.batch| then loop.batch[loop.next..] else []) + loop.toDoList
  }

  ghost predicate InMap(conns: map<ConnId, Conn>, connections: map<nat, ConnId>, c: ConnId) {
    c in conns && conns[c].fd in connections && connections[conns[c].fd] == c
  }

  ghost predicate InEpoll(conns: map<ConnId, Conn>, l: nat, c: ConnId) {
    c in conns && conns[c].home == l && conns[c].inEpoll
  }

  ghost predicate LoopShape(loop: Loop) {
    && loop.next <= |loop.batch|
    && (loop.phase != Tasks ==> loop.batch == [] && loop.next == 0)
    && (loop.phase != Handling ==> loop.polled == [] && loop.guard == None)
  }

  ghost predicate LoopsOk(loops: seq<Loop>) {
    && |loops| > 1
    && (forall l :: 0 <= l < |loops| ==> LoopShape(loops[l]))
  }

  // Descriptors of live connections are open, distinct, and filed under the
  // right loop; the map's entries are live and registered.
  ghost predicate ConnsOk(conns: map<ConnId, Conn>, connections: map<nat, ConnId>, n: nat, open: set<nat>) {
    && n > 1
    && (forall c :: c in conns ==> conns[c].home == 1 + conns[c].fd % (n - 1) && conns[c].fd in open)
    && (forall c, d :: c in conns && d in conns && conns[c].fd == conns[d].fd ==> c == d)
    && (forall fd :: fd in connections ==>
         connections[fd] in conns && conns[connections[fd]].fd == fd && conns[connections[fd]].inEpoll)
  }

  // The kernel's epoll sets and the channels' flags agree.
  ghost predicate EpollsOk(conns: map<ConnId, Conn>, epolls: seq<map<nat, ConnId>>) {
    && (forall l, fd :: 0 <= l < |epolls| && fd in epolls[l] ==>
         InEpoll(conns, l, epolls[l][fd]) && conns[epolls[l][fd]].fd == fd)
    && (forall c :: c in conns && conns[c].inEpoll ==>
         conns[c].home < |epolls| && conns[c].fd in epolls[conns[c].home] && epolls[conns[c].home][conns[c].fd] == c)
  }

  // Polled and guarded channels are registered with the loop that polled them.
  ghost predicate PolledOk(conns: map<ConnId, Conn>, loops: seq<Loop>) {
    && (forall l, c :: 0 <= l < |loops| && c in loops[l].polled ==> InEpoll(conns, l, c))
    && (forall l :: 0 <= l < |loops| && loops[l].guard.Some? ==> InEpoll(conns, l, loops[l].guard.value))
  }

  ghost predicate TaskOk(conns: map<ConnId, Conn>, connections: map<nat, ConnId>, l: nat, t: Task) {
    && t.conn in conns
    && conns[t.conn].state == Closed && conns[t.conn].inEpoll
    && match t
       case CloseInLoop(c) => l == MAIN && InMap(conns, connections, c)
       case Destructor(c) => l == conns[c].home && !InMap(conns, connections, c)
  }

  ghost predicate TasksOk(conns: map<ConnId, Conn>, connections: map<nat, ConnId>, pending: seq<seq<Task>>) {
    forall l :: 0 <= l < |pending| ==>
      NoDup(pending[l]) && forall t :: t in pending[l] ==> TaskOk(conns, connections, l, t)
  }

  // The stage of a live connection: one that is still registered is in the map
  // or has its destructor waiting on its own loop; it has a close task in its
  // history exactly when that task is waiting or has taken it out of the map.
  ghost predicate StagesOk(conns: map<ConnId, Conn>, connections: map<nat, ConnId>, pending: seq<seq<Task>>,
          log: seq<ConnId>)
    requires |pending| > 0
  {
    && NoDup(log)
    && (forall c :: c in conns ==>
         && (c in log ==> conns[c].state == Closed)
         && (conns[c].inEpoll && !InMap(conns, connections, c) ==>
              conns[c].home < |pending| && Destructor(c) in pending[conns[c].home])
         && (c in log <==> CloseInLoop(c) in pending[MAIN] || !InMap(conns, connections, c)))
  }

  ghost predicate IdsOk(s: State) {
    && (forall c :: c in s.conns ==> c < s.nextConnId)
    && (forall c :: c in s.closeLog ==> c < s.nextConnId)
  }

  ghost function PendingTasks(loops: seq<Loop>): (p: seq<seq<Task>>) {
    seq(|loops|, l requires 0 <= l < |loops| => Pending(loops[l]))
  }

  ghost predicate PreInv(s: State) {
    && LoopsOk(s.loops) && |s.epolls| == |s.loops| && IdsOk(s)
    && ConnsOk(s.conns, s.connections, |s.loops|, s.open)
    && EpollsOk(s.conns, s.epolls)
    && PolledOk(s.conns, s.loops)
    && TasksOk(s.conns, s.connections, PendingTasks(s.loops))
    && StagesOk(s.conns, s.connections, PendingTasks(s.loops), s.closeLog)
  }

  ghost function Fds(conns: map<ConnId, Conn>): set<nat> {
    set c | c in conns :: conns[c].fd
  }

  ghost predicate Inv(s: State) {
    && PreInv(s)
    && s.open == Fds(s.conns)
    && (forall c :: c in s.conns ==> Referenced(s, c))
  }

  // ---------- every action keeps it ----------

  lemma InitHolds(subLoops: nat)
    requires subLoops > 0
    ensures Inv(Init(subLoops))
  {
  }

  // No use after free: the objects an enabled action touches are alive.
  lemma EnabledIsDefined(s: State, a: Action)
    requires Inv(s) && Enabled(s, a)
    ensures Defined(s, a)
  {
    match a
    case BeginEvent(l) => assert InEpoll(s.conns, l, s.loops[l].polled[0]);
    case RunTask(l) =>
      var t := s.loops[l].batch[s.loops[l].next];
      assert PendingTasks(s.loops)[l][0] == t;
      assert TaskOk(s.conns, s.connections, l, t);
    case _ =>
  }

  lemma NoDupAppend<T>(s: seq<T>, t: T)
    requires NoDup(s) && t !in s
    ensures NoDup(s + [t])
  {
  }

  lemma PollKeeps(s: State, l: nat, ready: seq<ConnId>, s': State)
    requires PreInv(s) && l < |s.loops| && s.loops[l].phase == Polling
    requires forall c :: c in ready ==> c in s.epolls[l].Values
    requires s' == s.(loops := s.loops[l := s.loops[l].(polled := ready, phase := Handling)])
    ensures PreInv(s')
  {
    forall c | c in ready
      ensures InEpoll(s.conns, l, c)
    {
      var fd :| fd in s.epolls[l] && s.epolls[l][fd] == c;
    }
    assert PendingTasks(s'.loops) == PendingTasks(s.loops);
  }

  // Handling a channel only moves it from the polled list to the guard.
  lemma GuardKeeps(s: State, l: nat, polled: seq<ConnId>, guard: Option<ConnId>, s': State)
    requires PreInv(s) && l < |s.loops| && s.loops[l].phase == Handling
    requires forall c :: c in polled ==> c in s.loops[l].polled
    requires guard.Some? ==> guard.value in s.loops[l].polled
    requires s' == s.(loops := s.loops[l := s.loops[l].(polled := polled, guard := guard)])
    ensures PreInv(s')
  {
    assert PendingTasks(s'.loops) == PendingTasks(s.loops);
  }

  // Closing connections changes nothing but their state.
  ghost predicate OnlyCloses(conns: map<ConnId, Conn>, conns': map<ConnId, Conn>) {
    && conns'.Keys == conns.Keys
    && forall c :: c in conns ==> conns'[c] == conns[c] || conns'[c] == conns[c].(state := Closed)
  }

  lemma ConnsOnlyClose(s: State, conns': map<ConnId, Conn>)
    requires ConnsOk(s.conns, s.connections, |s.loops|, s.open) && OnlyCloses(s.conns, conns')
    ensures ConnsOk(conns', s.connections, |s.loops|, s.open)
  {
  }

  lemma EpollsOnlyClose(s: State, conns': map<ConnId, Conn>)
    requires EpollsOk(s.conns, s.epolls) && PolledOk(s.conns, s.loops) && OnlyCloses(s.conns, conns')
    ensures EpollsOk(conns', s.epolls) && PolledOk(conns', s.loops)
  {
  }

  lemma TasksOnlyClose(conns: map<ConnId, Conn>, connections: map<nat, ConnId>, p: seq<seq<Task>>,
          conns': map<ConnId, Conn>)
    requires TasksOk(conns, connections, p) && OnlyCloses(conns, conns')
    ensures TasksOk(conns', connections, p)
  {
    forall l, t | 0 <= l < |p| && t in p[l]
      ensures TaskOk(conns', connections, l, t)
    {
      assert TaskOk(conns, connections, l, t);
    }
  }

  lemma WriteErrorKeeps(s: State, s': State)
    requires PreInv(s) && OnlyCloses(s.conns, s'.conns) && s' == s.(conns := s'.conns)
    ensures PreInv(s')
  {
    ConnsOnlyClose(s, s'.conns);
    EpollsOnlyClose(s, s'.conns);
    TasksOnlyClose(s.conns, s.connections, PendingTasks(s.loops), s'.conns);
  }

  // A change of the loops that leaves polled channels, guards and the pending
  // tasks alone, such as swapping the queue out or dropping the finished batch.
  ghost predicate SameWork(loops: seq<Loop>, loops': seq<Loop>) {
    && |loops'| == |loops| && LoopsOk(loops')
    && forall l :: 0 <= l < |loops| ==>
         loops'[l].polled == loops[l].polled && loops'[l].guard == loops[l].guard
  }

  lemma PolledSame(conns: map<ConnId, Conn>, loops: seq<Loop>, loops': seq<Loop>)
    requires SameWork(loops, loops')
    ensures PolledOk(conns, loops) ==> PolledOk(conns, loops')
  {
  }

  lemma BatchKeeps(s: State, s': State)
    requires PreInv(s) && SameWork(s.loops, s'.loops) && PendingTasks(s'.loops) == PendingTasks(s.loops)
    requires s' == s.(loops := s'.loops)
    ensures PreInv(s')
  {
  }

  lemma StagesClose(conns: map<ConnId, Conn>, connections: map<nat, ConnId>, p: seq<seq<Task>>, log: seq<ConnId>,
          c: ConnId)
    requires |p| > 1 && StagesOk(conns, connections, p, log)
    requires c in conns && conns[c].state == Connected && conns[c].inEpoll
    ensures StagesOk(conns[c := conns[c].(state := Closed)], connections, p[MAIN := p[MAIN] + [CloseInLoop(c)]],
      log + [c])
  {
    NoDupAppend(log, c);
  }

  lemma TasksQueue(conns: map<ConnId, Conn>, connections: map<nat, ConnId>, p: seq<seq<Task>>, l: nat, t: Task)
    requires TasksOk(conns, connections, p) && l < |p| && TaskOk(conns, connections, l, t) && t !in p[l]
    ensures TasksOk(conns, connections, p[l := p[l] + [t]])
  {
    NoDupAppend(p[l], t);
  }

  lemma ConnectedStage(s: State, c: ConnId)
    requires PreInv(s) && c in s.conns && s.conns[c].state == Connected && s.conns[c].inEpoll
    ensures CloseInLoop(c) !in PendingTasks(s.loops)[MAIN] && InMap(s.conns, s.connections, c) && c !in s.closeLog
  {
    if CloseInLoop(c) in PendingTasks(s.loops)[MAIN] {
      assert false;
    }
  }

  // HandleClose off the main thread: mark the connection and queue its close task.
  lemma CloseQueuedKeeps(s: State, c: ConnId, s': State)
    requires PreInv(s) && c in s.conns && s.conns[c].state == Connected && s.conns[c].inEpoll
    requires CloseInLoop(c) !in PendingTasks(s.loops)[MAIN] && InMap(s.conns, s.connections, c)
    requires SameWork(s.loops, s'.loops)
    requires var p := PendingTasks(s.loops); PendingTasks(s'.loops) == p[MAIN := p[MAIN] + [CloseInLoop(c)]]
    requires s' == s.(loops := s'.loops, conns := s.conns[c := s.conns[c].(state := Closed)],
      closeLog := s.closeLog + [c])
    ensures PreInv(s')
  {
    hide ConnsOk, EpollsOk, PolledOk, TasksOk, StagesOk;
    var p := PendingTasks(s.loops);
    PolledSame(s'.conns, s.loops, s'.loops);
    ConnsOnlyClose(s, s'.conns);
    EpollsOnlyClose(s, s'.conns);
    TasksOnlyClose(s.conns, s.connections, p, s'.conns);
    StagesClose(s.conns, s.connections, p, s.closeLog, c);
    TasksQueue(s'.conns, s.connections, p, MAIN, CloseInLoop(c));
  }

  ghost predicate TakesOut(q: seq<Task>, t: Task, q': seq<Task>) {
    exists i :: 0 <= i < |q| && q[i] == t && q' == q[..i] + q[i + 1..]
  }

  lemma TakenOut(q: seq<Task>, t: Task, q': seq<Task>)
    requires NoDup(q) && TakesOut(q, t, q')
    ensures NoDup(q') && t in q && forall u :: u in q' <==> u in q && u != t
  {
    var i :| 0 <= i < |q| && q[i] == t && q' == q[..i] + q[i + 1..];
    assert forall u :: u in q <==> u in q[..i] || u == t || u in q[i + 1..];
  }

  lemma ErasedTasks(conns: map<ConnId, Conn>, connections: map<nat, ConnId>, p: seq<seq<Task>>, c: ConnId, q: seq<Task>)
    requires |p| > 1 && TasksOk(conns, connections, p) && TakesOut(p[MAIN], CloseInLoop(c), q)
    requires c in conns && 0 < conns[c].home < |p|
    requires forall d :: d in conns && conns[d].fd == conns[c].fd ==> d == c
    ensures TasksOk(conns, connections - {conns[c].fd},
      p[MAIN := q][conns[c].home := p[conns[c].home] + [Destructor(c)]])
  {
    var p' := p[MAIN := q][conns[c].home := p[conns[c].home] + [Destructor(c)]];
    TakenOut(p[MAIN], CloseInLoop(c), q);
    assert TaskOk(conns, connections, MAIN, CloseInLoop(c));
    assert Destructor(c) !in p[conns[c].home];
    NoDupAppend(p[conns[c].home], Destructor(c));
    forall l, t | 0 <= l < |p'| && t in p'[l]
      ensures TaskOk(conns, connections - {conns[c].fd}, l, t)
    {
      if t != Destructor(c) {
        assert TaskOk(conns, connections, l, t);
      }
    }
  }

  lemma NoDupTasks(conns: map<ConnId, Conn>, connections: map<nat, ConnId>, p: seq<seq<Task>>, l: nat)
    requires TasksOk(conns, connections, p) && l < |p|
    ensures NoDup(p[l])
  {
  }

  lemma ErasedConns(s: State, c: ConnId)
    requires ConnsOk(s.conns, s.connections, |s.loops|, s.open) && c in s.conns
    ensures ConnsOk(s.conns, s.connections - {s.conns[c].fd}, |s.loops|, s.open)
    ensures forall d :: d in s.conns && s.conns[d].fd == s.conns[c].fd ==> d == c
  {
  }

  lemma ErasedStages(conns: map<ConnId, Conn>, connections: map<nat, ConnId>, p: seq<seq<Task>>, log: seq<ConnId>,
          c: ConnId, q: seq<Task>)
    requires |p| > 1 && StagesOk(conns, connections, p, log)
    requires forall t :: t in q <==> t in p[MAIN] && t != CloseInLoop(c)
    requires c in conns && 0 < conns[c].home < |p| && CloseInLoop(c) in p[MAIN]
    requires forall d :: d in conns && conns[d].fd == conns[c].fd ==> d == c
    ensures StagesOk(conns, connections - {conns[c].fd},
      p[MAIN := q][conns[c].home := p[conns[c].home] + [Destructor(c)]], log)
  {
  }

  // HandleCloseInLoop: the close task leaves the main loop's work, the map
  // entry it finds is its own, and the destructor task is queued at home.
  lemma TakenFromMapKeeps(s: State, c: ConnId, s': State)
    requires PreInv(s) && CloseInLoop(c) in PendingTasks(s.loops)[MAIN] && c in s.conns
    requires SameWork(s.loops, s'.loops)
    requires var p, p' := PendingTasks(s.loops), PendingTasks(s'.loops);
      && TakesOut(p[MAIN], CloseInLoop(c), p'[MAIN])
      && 0 < s.conns[c].home < |p|
      && p' == p[MAIN := p'[MAIN]][s.conns[c].home := p[s.conns[c].home] + [Destructor(c)]]
    requires s' == s.(loops := s'.loops, connections := s.connections - {s.conns[c].fd})
    ensures PreInv(s')
  {
    hide ConnsOk, TasksOk, StagesOk, EpollsOk, PolledOk;
    var p, p' := PendingTasks(s.loops), PendingTasks(s'.loops);
    NoDupTasks(s.conns, s.connections, p, MAIN);
    TakenOut(p[MAIN], CloseInLoop(c), p'[MAIN]);
    ErasedConns(s, c);
    PolledSame(s.conns, s.loops, s'.loops);
    ErasedTasks(s.conns, s.connections, p, c, p'[MAIN]);
    ErasedStages(s.conns, s.connections, p, s.closeLog, c, p'[MAIN]);
  }

  ghost predicate Idle(loop: Loop) {
    loop.polled == [] && loop.guard == None
  }

  // ConnectionDestructor: the channel leaves the kernel's set of its own loop,
  // which is running tasks and so has no polled channel left.
  lemma DeletedConns(s: State, c: ConnId, conns': map<ConnId, Conn>)
    requires ConnsOk(s.conns, s.connections, |s.loops|, s.open) && c in s.conns && !InMap(s.conns, s.connections, c)
    requires conns' == s.conns[c := s.conns[c].(inEpoll := false)]
    ensures ConnsOk(conns', s.connections, |s.loops|, s.open)
    ensures forall d :: InMap(conns', s.connections, d) <==> InMap(s.conns, s.connections, d)
  {
  }

  lemma DeletedEpolls(s: State, c: ConnId, conns': map<ConnId, Conn>, epolls': seq<map<nat, ConnId>>)
    requires ConnsOk(s.conns, s.connections, |s.loops|, s.open)
    requires EpollsOk(s.conns, s.epolls) && c in s.conns && s.conns[c].home < |s.epolls|
    requires conns' == s.conns[c := s.conns[c].(inEpoll := false)]
    requires epolls' == s.epolls[s.conns[c].home := s.epolls[s.conns[c].home] - {s.conns[c].fd}]
    ensures EpollsOk(conns', epolls')
  {
  }

  lemma DeletedPolled(s: State, c: ConnId, conns': map<ConnId, Conn>)
    requires PolledOk(s.conns, s.loops) && c in s.conns && s.conns[c].home < |s.loops| && Idle(s.loops[s.conns[c].home])
    requires conns' == s.conns[c := s.conns[c].(inEpoll := false)]
    ensures PolledOk(conns', s.loops)
  {
  }

  lemma DeletedTasks(conns: map<ConnId, Conn>, connections: map<nat, ConnId>, p: seq<seq<Task>>, c: ConnId,
          q: seq<Task>)
    requires TasksOk(conns, connections, p) && c in conns && conns[c].home < |p|
    requires TakesOut(p[conns[c].home], Destructor(c), q)
    ensures TasksOk(conns[c := conns[c].(inEpoll := false)], connections, p[conns[c].home := q])
  {
    var conns' := conns[c := conns[c].(inEpoll := false)];
    var p' := p[conns[c].home := q];
    TakenOut(p[conns[c].home], Destructor(c), q);
    assert TaskOk(conns, connections, conns[c].home, Destructor(c));
    forall l, t | 0 <= l < |p'| && t in p'[l]
      ensures TaskOk(conns', connections, l, t)
    {
      assert TaskOk(conns, connections, l, t);
    }
  }

  lemma DeletedStages(conns: map<ConnId, Conn>, connections: map<nat, ConnId>, p: seq<seq<Task>>, log: seq<ConnId>,
          c: ConnId, q: seq<Task>)
    requires |p| > 1 && StagesOk(conns, connections, p, log) && c in conns && 0 < conns[c].home < |p|
    requires !InMap(conns, connections, c)
    requires forall t :: t in q <==> t in p[conns[c].home] && t != Destructor(c)
    ensures StagesOk(conns[c := conns[c].(inEpoll := false)], connections, p[conns[c].home := q], log)
  {
  }

  lemma DeletedKeeps(s: State, c: ConnId, s': State)
    requires PreInv(s) && c in s.conns && 0 < s.conns[c].home < |s.loops| && Idle(s.loops[s.conns[c].home])
    requires !InMap(s.conns, s.connections, c) && SameWork(s.loops, s'.loops)
    requires var p, p' := PendingTasks(s.loops), PendingTasks(s'.loops);
      && TakesOut(p[s.conns[c].home], Destructor(c), p'[s.conns[c].home])
      && p' == p[s.conns[c].home := p'[s.conns[c].home]]
    requires s' == s.(loops := s'.loops, conns := s.conns[c := s.conns[c].(inEpoll := false)],
                      epolls := s.epolls[s.conns[c].home := s.epolls[s.conns[c].home] - {s.conns[c].fd}])
    ensures PreInv(s')
  {
    var p, q := PendingTasks(s.loops), PendingTasks(s'.loops)[s.conns[c].home];
    TakenOut(p[s.conns[c].home], Destructor(c), q);
    hide ConnsOk, EpollsOk, PolledOk, TasksOk, StagesOk;
    DeletedConns(s, c, s'.conns);
    DeletedEpolls(s, c, s'.conns, s'.epolls);
    DeletedPolled(s, c, s'.conns);
    PolledSame(s'.conns, s.loops, s'.loops);
    DeletedTasks(s.conns, s.connections, p, c, q);
    DeletedStages(s.conns, s.connections, p, s.closeLog, c, q);
  }

  // Accepting a descriptor that is not open: no map entry and no epoll
  // registration for it is left, so the insertions overwrite nothing.
  lemma FreshFd(s: State, fd: nat)
    requires PreInv(s) && fd !in s.open
    ensures fd !in s.connections && forall l :: 0 <= l < |s.epolls| ==> fd !in s.epolls[l]
    ensures forall d :: d in s.conns ==> s.conns[d].fd != fd
  {
  }

  lemma AcceptedConns(s: State, c: ConnId, conn: Conn)
    requires ConnsOk(s.conns, s.connections, |s.loops|, s.open) && c !in s.conns && conn.inEpoll
    requires conn.fd !in s.open && conn.home == 1 + conn.fd % (|s.loops| - 1)
    ensures ConnsOk(s.conns[c := conn], s.connections[conn.fd := c], |s.loops|, s.open + {conn.fd})
  {
  }

  lemma AcceptedEpolls(s: State, c: ConnId, conn: Conn)
    requires EpollsOk(s.conns, s.epolls) && PolledOk(s.conns, s.loops) && c !in s.conns && conn.inEpoll
    requires conn.home < |s.epolls| && forall l :: 0 <= l < |s.epolls| ==> conn.fd !in s.epolls[l]
    ensures var ep: map<nat, ConnId> := s.epolls[conn.home][conn.fd := c];
      EpollsOk(s.conns[c := conn], s.epolls[conn.home := ep])
    ensures PolledOk(s.conns[c := conn], s.loops)
  {
  }

  lemma AcceptedTasks(conns: map<ConnId, Conn>, connections: map<nat, ConnId>, p: seq<seq<Task>>, c: ConnId, conn: Conn)
    requires TasksOk(conns, connections, p) && c !in conns && conn.fd !in connections
    requires forall d :: d in conns ==> conns[d].fd != conn.fd
    ensures TasksOk(conns[c := conn], connections[conn.fd := c], p)
  {
    forall l, t | 0 <= l < |p| && t in p[l]
      ensures TaskOk(conns[c := conn], connections[conn.fd := c], l, t)
    {
      assert TaskOk(conns, connections, l, t);
    }
  }

  lemma AcceptedStages(conns: map<ConnId, Conn>, connections: map<nat, ConnId>, p: seq<seq<Task>>, log: seq<ConnId>,
          c: ConnId, conn: Conn)
    requires |p| > 1 && StagesOk(conns, connections, p, log) && TasksOk(conns, connections, p)
    requires c !in conns && c !in log && forall d :: d in conns ==> conns[d].fd != conn.fd
    ensures StagesOk(conns[c := conn], connections[conn.fd := c], p, log)
  {
    if CloseInLoop(c) in p[MAIN] {
      assert false;
    }
  }

  lemma AcceptedKeeps(s: State, conn: Conn, s': State)
    requires PreInv(s) && conn.fd !in s.open && conn.fd !in s.connections && conn.inEpoll
    requires conn.home == 1 + conn.fd % (|s.loops| - 1)
    requires forall l :: 0 <= l < |s.epolls| ==> conn.fd !in s.epolls[l]
    requires forall d :: d in s.conns ==> s.conns[d].fd != conn.fd
    requires var ep: map<nat, ConnId> := s.epolls[conn.home][conn.fd := s.nextConnId];
      s' == s.(conns := s.conns[s.nextConnId := conn], connections := s.connections[conn.fd := s.nextConnId],
               nextConnId := s.nextConnId + 1, open := s.open + {conn.fd}, epolls := s.epolls[conn.home := ep])
    ensures PreInv(s')
  {
    hide ConnsOk, EpollsOk, PolledOk, TasksOk, StagesOk;
    var c := s.nextConnId;
    AcceptedConns(s, c, conn);
    AcceptedEpolls(s, c, conn);
    AcceptedTasks(s.conns, s.connections, PendingTasks(s.loops), c, conn);
    AcceptedStages(s.conns, s.connections, PendingTasks(s.loops), s.closeLog, c, conn);
  }

  // ---------- destruction ----------

  lemma PendingIsHeld(loop: Loop, t: Task)
    requires t in Pending(loop)
    ensures Mentions(loop.batch, t.conn) || Mentions(loop.toDoList, t.conn)
  {
    if t !in loop.toDoList {
      assert t in loop.batch[loop.next..];
      assert t in loop.batch;
    }
  }

  // A channel that some epoll set still knows belongs to a referenced
  // connection: the map holds it, or else its destructor task does.
  lemma RegisteredIsReferenced(s: State, c: ConnId)
    requires PreInv(s) && c in s.conns && s.conns[c].inEpoll
    ensures Referenced(s, c)
  {
    if InMap(s.conns, s.connections, c) {
      assert s.connections[s.conns[c].fd] == c;
    } else {
      var l := s.conns[c].home;
      assert Destructor(c) in PendingTasks(s.loops)[l];
      PendingIsHeld(s.loops[l], Destructor(c));
      assert LoopHolds(s.loops[l], c);
    }
  }

  // What the destruction of a connection may not leave behind.
  ghost predicate Unreachable(s: State, c: ConnId) {
    && c in s.conns && !s.conns[c].inEpoll
    && c !in s.connections.Values
    && forall l :: 0 <= l < |s.loops| ==>
         && l < |s.epolls| && c !in s.epolls[l].Values && s.conns[c].fd !in s.epolls[l]
         && c !in s.loops[l].polled && s.loops[l].guard != Some(c)
         && forall t :: t in Pending(s.loops[l]) ==> t.conn != c
  }

  lemma DroppedIsUnreachable(s: State, c: ConnId)
    requires PreInv(s) && c in Dropped(s)
    ensures Unreachable(s, c)
  {
    if s.conns[c].inEpoll {
      RegisteredIsReferenced(s, c);
    }
    forall l, t | 0 <= l < |s.loops| && t in Pending(s.loops[l])
      ensures t.conn != c
    {
      PendingIsHeld(s.loops[l], t);
      assert !LoopHolds(s.loops[l], c);
    }
    forall l | 0 <= l < |s.loops|
      ensures c !in s.loops[l].polled
    {
      assert !InEpoll(s.conns, l, c);
    }
  }

  lemma FdsMinus(conns: map<ConnId, Conn>, gone: set<ConnId>)
    requires gone <= conns.Keys
    requires forall c, d :: c in conns && d in conns && conns[c].fd == conns[d].fd ==> c == d
    ensures Fds(conns) - (set c | c in gone :: conns[c].fd) == Fds(conns - gone)
  {
    forall fd | fd in Fds(conns - gone)
      ensures fd in Fds(conns) && fd !in (set c | c in gone :: conns[c].fd)
    {
      var c :| c in conns - gone && (conns - gone)[c].fd == fd;
    }
    forall fd | fd in Fds(conns) && fd !in (set c | c in gone :: conns[c].fd)
      ensures fd in Fds(conns - gone)
    {
      var c :| c in conns && conns[c].fd == fd;
      assert c in conns - gone && (conns - gone)[c].fd == fd;
    }
  }

  // Destroying the unreferenced connections only removes objects and closes
  // their descriptors; the epoll sets, the map and the tasks stay as they are.
  lemma CollectEffect(s: State)
    requires |s.epolls| == |s.loops| && s.open == Fds(s.conns)
    requires forall c :: c in Dropped(s) ==> Unreachable(s, c)
    requires forall c, d :: c in s.conns && d in s.conns && s.conns[c].fd == s.conns[d].fd ==> c == d
    ensures Collect(s) == s.(conns := s.conns - Dropped(s), open := Fds(s.conns - Dropped(s)))
  {
    FdsMinus(s.conns, Dropped(s));
    assert forall l :: 0 <= l < |s.epolls| ==> s.epolls[l] - DroppedFds(s) == s.epolls[l];
    assert Collect(s).epolls == s.epolls;
  }

  lemma RemovedTables(s: State, gone: set<ConnId>)
    requires ConnsOk(s.conns, s.connections, |s.loops|, s.open) && EpollsOk(s.conns, s.epolls) &&
      PolledOk(s.conns, s.loops)
    requires |s.epolls| == |s.loops| && forall c :: c in gone ==> Unreachable(s, c)
    ensures ConnsOk(s.conns - gone, s.connections, |s.loops|, Fds(s.conns - gone))
    ensures EpollsOk(s.conns - gone, s.epolls) && PolledOk(s.conns - gone, s.loops)
  {
    forall l | 0 <= l < |s.loops| && s.loops[l].guard.Some?
      ensures InEpoll(s.conns - gone, l, s.loops[l].guard.value)
    {
      assert s.loops[l].guard == Some(s.loops[l].guard.value);
    }
  }

  lemma RemovedTasks(s: State, gone: set<ConnId>)
    requires LoopsOk(s.loops) && TasksOk(s.conns, s.connections, PendingTasks(s.loops))
    requires forall c :: c in gone ==> Unreachable(s, c)
    ensures TasksOk(s.conns - gone, s.connections, PendingTasks(s.loops))
  {
    var p := PendingTasks(s.loops);
    forall l, t | 0 <= l < |p| && t in p[l]
      ensures TaskOk(s.conns - gone, s.connections, l, t)
    {
      assert TaskOk(s.conns, s.connections, l, t);
    }
  }

  lemma RemovedStages(s: State, gone: set<ConnId>)
    requires LoopsOk(s.loops) && StagesOk(s.conns, s.connections, PendingTasks(s.loops), s.closeLog)
    ensures StagesOk(s.conns - gone, s.connections, PendingTasks(s.loops), s.closeLog)
  {
  }

  lemma CollectReferenced(s: State, s': State)
    requires s'.conns == s.conns - Dropped(s) && s'.connections == s.connections && s'.loops == s.loops
    ensures forall c :: c in s'.conns ==> Referenced(s', c)
  {
    forall c | c in s'.conns
      ensures Referenced(s', c)
    {
      assert Referenced(s, c);
    }
  }

  lemma CollectKeeps(s: State)
    requires PreInv(s) && s.open == Fds(s.conns)
    ensures forall c :: c in Dropped(s) ==> Unreachable(s, c)
    ensures Collect(s) == s.(conns := s.conns - Dropped(s), open := Fds(s.conns - Dropped(s)))
    ensures Inv(Collect(s))
  {
    forall c | c in Dropped(s)
      ensures Unreachable(s, c)
    {
      DroppedIsUnreachable(s, c);
    }
    CollectEffect(s);
    hide ConnsOk, EpollsOk, PolledOk, TasksOk, StagesOk, Unreachable, Collect, Referenced, Dropped;
    RemovedTables(s, Dropped(s));
    RemovedTasks(s, Dropped(s));
    RemovedStages(s, Dropped(s));
    CollectReferenced(s, Collect(s));
  }

  // ---------- every action keeps the invariant ----------

  lemma QueuedPending(loops: seq<Loop>, loops': seq<Loop>, l: nat, t: Task)
    requires LoopsOk(loops) && l < |loops| && loops' == loops[l := loops[l].(toDoList := loops[l].toDoList + [t])]
    ensures SameWork(loops, loops')
    ensures PendingTasks(loops') == PendingTasks(loops)[l := PendingTasks(loops)[l] + [t]]
  {
    assert Pending(loops'[l]) == Pending(loops[l]) + [t];
  }

  lemma NextPending(loops: seq<Loop>, loops': seq<Loop>, l: nat)
    requires LoopsOk(loops) && l < |loops| && loops[l].phase == Tasks && loops[l].next < |loops[l].batch|
    requires loops' == loops[l := loops[l].(next := loops[l].next + 1)]
    ensures SameWork(loops, loops') && Pending(loops[l]) != []
    ensures Pending(loops[l])[0] == loops[l].batch[loops[l].next]
    ensures PendingTasks(loops') == PendingTasks(loops)[l := Pending(loops[l])[1..]]
    ensures TakesOut(Pending(loops[l]), loops[l].batch[loops[l].next], Pending(loops'[l]))
  {
    assert Pending(loops'[l]) == Pending(loops[l])[1..];
    var q := Pending(loops[l]);
    assert q[..0] + q[0 + 1..] == q[1..];
  }

  function Advance(s: State, l: nat): State
    requires l < |s.loops|
  {
    s.(loops := s.loops[l := s.loops[l].(next := s.loops[l].next + 1)])
  }

  ghost predicate Running(s: State, l: nat, t: Task) {
    && l < |s.loops| && s.loops[l].phase == Tasks
    && s.loops[l].next < |s.loops[l].batch| && s.loops[l].batch[s.loops[l].next] == t
  }

  lemma RunningTask(s: State, l: nat, t: Task)
    requires PreInv(s) && Running(s, l, t)
    ensures TaskOk(s.conns, s.connections, l, t) && t in PendingTasks(s.loops)[l]
    ensures 0 < s.conns[t.conn].home < |s.loops|
  {
    assert PendingTasks(s.loops)[l][0] == t;
  }

  lemma CloseTaskKeeps(s: State, c: ConnId)
    requires PreInv(s) && Running(s, MAIN, CloseInLoop(c)) && c in s.conns && 0 < s.conns[c].home < |s.loops|
    requires CloseInLoop(c) in PendingTasks(s.loops)[MAIN]
    ensures PreInv(HandleCloseInLoop(Advance(s, MAIN), c))
  {
    hide ConnsOk, EpollsOk, PolledOk, TasksOk, StagesOk;
    var mid := Advance(s, MAIN);
    var s' := HandleCloseInLoop(mid, c);
    NextPending(s.loops, mid.loops, MAIN);
    QueuedPending(mid.loops, s'.loops, s.conns[c].home, Destructor(c));
    TakenFromMapKeeps(s, c, s');
  }

  lemma DestructorTaskKeeps(s: State, c: ConnId)
    requires PreInv(s) && c in s.conns && 0 < s.conns[c].home < |s.loops| && Running(s, s.conns[c].home, Destructor(c))
    requires !InMap(s.conns, s.connections, c) && s.conns[c].inEpoll
    ensures PreInv(DeleteChannel(Advance(s, s.conns[c].home), c))
  {
    hide ConnsOk, EpollsOk, PolledOk, TasksOk, StagesOk;
    var l := s.conns[c].home;
    NextPending(s.loops, Advance(s, l).loops, l);
    DeletedKeeps(s, c, DeleteChannel(Advance(s, l), c));
  }

  // HandleClose on a sub-loop: the close task goes to the main loop's queue.
  lemma SubCloseKeeps(s: State, l: nat, c: ConnId)
    requires PreInv(s) && 0 < l < |s.loops| && c in s.conns && s.conns[c].home < |s.loops| && s.conns[c].inEpoll
    ensures PreInv(HandleClose(s, l, c))
  {
    if s.conns[c].state == Connected {
      ConnectedStage(s, c);
      hide ConnsOk, EpollsOk, PolledOk, TasksOk, StagesOk;
      var s' := HandleClose(s, l, c);
      QueuedPending(s.loops, s'.loops, MAIN, CloseInLoop(c));
      CloseQueuedKeeps(s, c, s');
    }
  }

  ghost function CloseQueued(s: State, c: ConnId): State
    requires c in s.conns && 0 < |s.loops|
  {
    s.(conns := s.conns[c := s.conns[c].(state := Closed)], closeLog := s.closeLog + [c],
       loops := s.loops[MAIN := s.loops[MAIN].(toDoList := s.loops[MAIN].toDoList + [CloseInLoop(c)])])
  }

  // HandleClose on the main thread runs HandleCloseInLoop at once, which comes
  // to queueing the close task and running it before anything else.
  lemma MainCloseWork(s: State, c: ConnId, s': State)
    requires LoopsOk(s.loops) && c in s.conns && 0 < s.conns[c].home < |s.loops| && s.conns[c].state == Connected
    requires s' == HandleClose(s, MAIN, c)
    ensures SameWork(s.loops, CloseQueued(s, c).loops) && SameWork(CloseQueued(s, c).loops, s'.loops)
    ensures var p, home := PendingTasks(s.loops), s.conns[c].home;
      && PendingTasks(CloseQueued(s, c).loops) == p[MAIN := p[MAIN] + [CloseInLoop(c)]]
      && PendingTasks(s'.loops) == p[home := p[home] + [Destructor(c)]]
      && TakesOut(p[MAIN] + [CloseInLoop(c)], CloseInLoop(c), p[MAIN])
  {
    QueuedPending(s.loops, CloseQueued(s, c).loops, MAIN, CloseInLoop(c));
    QueuedPending(s.loops, s'.loops, s.conns[c].home, Destructor(c));
    var q := PendingTasks(s.loops)[MAIN];
    var i := |q|;
    assert (q + [CloseInLoop(c)])[..i] + (q + [CloseInLoop(c)])[i + 1..] == q;
  }

  lemma MainCloseStep(s: State, c: ConnId)
    requires PreInv(s) && c in s.conns && 0 < s.conns[c].home < |s.loops|
    requires s.conns[c].state == Connected && s.conns[c].inEpoll
    requires CloseInLoop(c) !in PendingTasks(s.loops)[MAIN] && InMap(s.conns, s.connections, c)
    ensures PreInv(HandleClose(s, MAIN, c))
  {
    hide ConnsOk, EpollsOk, PolledOk, TasksOk, StagesOk, SameWork, TakesOut;
    MainCloseWork(s, c, HandleClose(s, MAIN, c));
    CloseQueuedKeeps(s, c, CloseQueued(s, c));
    TakenFromMapKeeps(CloseQueued(s, c), c, HandleClose(s, MAIN, c));
  }

  lemma MainCloseKeeps(s: State, c: ConnId)
    requires PreInv(s) && c in s.conns && 0 < s.conns[c].home < |s.loops| && s.conns[c].inEpoll
    ensures PreInv(HandleClose(s, MAIN, c))
  {
    if s.conns[c].state == Connected {
      ConnectedStage(s, c);
      MainCloseStep(s, c);
    }
  }

  lemma NewConnectionIs(s: State, fd: nat)
    requires |s.epolls| == |s.loops| > 1 && fd !in s.epolls[Home(s, fd)]
    ensures var c, conn, ep := s.nextConnId, Conn(fd, Home(s, fd), Connected, true), s.epolls[Home(s, fd)];
      HandleNewConnection(s, fd) ==
        s.(conns := s.conns[c := conn], connections := s.connections[fd := c], nextConnId := c + 1,
           open := s.open + {fd}, epolls := s.epolls[conn.home := ep[fd := c]])
  {
    var c := s.nextConnId;
    assert s.conns[c := Conn(fd, Home(s, fd), Connected, false)][c := Conn(fd, Home(s, fd), Connected, true)]
        == s.conns[c := Conn(fd, Home(s, fd), Connected, true)];
  }

  lemma NewConnectionKeeps(s: State, fd: nat)
    requires PreInv(s) && fd !in s.open
    ensures PreInv(HandleNewConnection(s, fd)) && s.nextConnId !in s.conns
    ensures fd !in s.connections && forall l :: 0 <= l < |s.epolls| ==> fd !in s.epolls[l]
    ensures var c, s' := s.nextConnId, HandleNewConnection(s, fd);
      && s'.loops == s.loops && s'.connections == s.connections[fd := c]
      && s'.conns == s.conns[c := Conn(fd, Home(s, fd), Connected, true)]
      && fd in s'.epolls[Home(s, fd)] && s'.epolls[Home(s, fd)][fd] == c
  {
    FreshFd(s, fd);
    NewConnectionIs(s, fd);
    hide ConnsOk, EpollsOk, PolledOk, TasksOk, StagesOk, HandleNewConnection, LoopsOk;
    AcceptedKeeps(s, Conn(fd, Home(s, fd), Connected, true), HandleNewConnection(s, fd));
  }

  lemma SwapKeeps(s: State, l: nat, s': State)
    requires PreInv(s) && l < |s.loops| && s.loops[l].phase == Handling && Idle(s.loops[l])
    requires s' ==
      s.(loops := s.loops[l := s.loops[l].(toDoList := [], batch := s.loops[l].toDoList, next := 0, phase := Tasks)])
    ensures PreInv(s')
  {
    assert LoopShape(s.loops[l]);
    assert Pending(s'.loops[l]) == Pending(s.loops[l]);
    assert PendingTasks(s'.loops) == PendingTasks(s.loops);
    hide ConnsOk, EpollsOk, PolledOk, TasksOk, StagesOk;
    BatchKeeps(s, s');
  }

  lemma FinishKeeps(s: State, l: nat, s': State)
    requires PreInv(s) && l < |s.loops| && s.loops[l].phase == Tasks && s.loops[l].next == |s.loops[l].batch|
    requires s' == s.(loops := s.loops[l := s.loops[l].(batch := [], next := 0, phase := Polling)])
    ensures PreInv(s')
  {
    assert LoopShape(s.loops[l]);
    assert Pending(s'.loops[l]) == Pending(s.loops[l]);
    assert PendingTasks(s'.loops) == PendingTasks(s.loops);
    hide ConnsOk, EpollsOk, PolledOk, TasksOk, StagesOk;
    BatchKeeps(s, s');
  }

  // A guarded connection is alive and registered with the loop that guards it.
  lemma Guarded(s: State, l: nat)
    requires PreInv(s) && l < |s.loops| && s.loops[l].guard.Some?
    ensures InEpoll(s.conns, l, s.loops[l].guard.value) && 0 < l && s.loops[l].phase == Handling
  {
    assert LoopShape(s.loops[l]);
  }

  ghost predicate SameFds(conns: map<ConnId, Conn>, conns': map<ConnId, Conn>) {
    conns'.Keys == conns.Keys && forall c :: c in conns ==> conns'[c].fd == conns[c].fd
  }

  lemma SameFdsOpen(conns: map<ConnId, Conn>, conns': map<ConnId, Conn>)
    requires SameFds(conns, conns')
    ensures Fds(conns') == Fds(conns)
  {
    assert forall c :: c in conns' ==> conns'[c].fd in Fds(conns);
    assert forall c :: c in conns ==> conns[c].fd == conns'[c].fd;
  }

  lemma AcceptOpen(s: State, fd: nat)
    requires |s.epolls| == |s.loops| > 1 && s.open == Fds(s.conns) && s.nextConnId !in s.conns
    ensures var s' := HandleNewConnection(s, fd); s'.open == Fds(s'.conns)
  {
    var s' := HandleNewConnection(s, fd);
    var c := s.nextConnId;
    assert s'.conns.Keys == s.conns.Keys + {c} && s'.conns[c].fd == fd;
    forall f | f in s'.open
      ensures f in Fds(s'.conns)
    {
      if f == fd {
        assert c in s'.conns && s'.conns[c].fd == f;
      } else {
        var d :| d in s.conns && s.conns[d].fd == f;
        assert d in s'.conns && s'.conns[d].fd == f;
      }
    }
  }

  lemma ActOpen(s: State, a: Action)
    requires Inv(s) && Enabled(s, a) && Defined(s, a)
    ensures Act(s, a).open == Fds(Act(s, a).conns)
  {
    hide PreInv, Referenced;
    if a.Accept? {
      AcceptActOpen(s, a);
    } else {
      hide Fds;
      SameFdsOpen(s.conns, Act(s, a).conns);
    }
  }

  lemma CloseFds(s: State, l: nat, c: ConnId)
    requires c in s.conns && s.conns[c].home < |s.loops| && l < |s.loops|
    ensures var s' := HandleClose(s, l, c); s'.open == s.open && SameFds(s.conns, s'.conns)
    ensures var s' := FailWrite(s, c); s'.open == s.open && SameFds(s.conns, s'.conns)
  {
  }

  lemma AcceptActOpen(s: State, a: Action)
    requires Inv(s) && Enabled(s, a) && a.Accept?
    ensures Act(s, a).open == Fds(Act(s, a).conns)
  {
    FreshId(s);
    hide PreInv, Referenced, Fds, HandleNewConnection, HandleClose, FailWrite, SameFds;
    AcceptOpen(s, a.fd);
    AcceptedId(s, a.fd);
    var s1 := HandleNewConnection(s, a.fd);
    CloseFds(s1, MAIN, s.nextConnId);
    if a.outcome == Closes {
      SameFdsOpen(s1.conns, HandleClose(s1, MAIN, s.nextConnId).conns);
    } else if a.outcome == FailsToWrite {
      SameFdsOpen(s1.conns, FailWrite(s1, s.nextConnId).conns);
    }
  }

  lemma AcceptedId(s: State, fd: nat)
    requires |s.epolls| == |s.loops| > 1
    ensures var s', c := HandleNewConnection(s, fd), s.nextConnId;
      c in s'.conns && s'.conns[c].home < |s'.loops|
  {
  }

  lemma HandlerActKeeps(s: State, a: Action)
    requires Inv(s) && Enabled(s, a) && Defined(s, a)
    requires a.CloseInHandler? || a.WriteError? || a.UpdateInHandler? || a.EndEvent?
    ensures PreInv(Act(s, a))
  {
    hide PreInv, Referenced, HandleClose, LoopShape;
    Guarded(s, a.l);
    var c := s.loops[a.l].guard.value;
    match a
    case CloseInHandler(l) => SubCloseKeeps(s, l, c);
    case WriteError(l) => WriteErrorKeeps(s, Act(s, a));
    case UpdateInHandler(l) =>
    case EndEvent(l) => GuardKeeps(s, l, s.loops[l].polled, None, Act(s, a));
  }

  lemma LoopActKeeps(s: State, a: Action)
    requires Inv(s) && Enabled(s, a) && Defined(s, a)
    requires a.Poll? || a.BeginEvent? || a.Swap? || a.Finish?
    ensures PreInv(Act(s, a))
  {
    hide PreInv, Referenced, HandleClose, LoopShape;
    match a
    case Poll(l, ready) => PollKeeps(s, l, ready, Act(s, a));
    case BeginEvent(l) => GuardKeeps(s, l, s.loops[l].polled[1..], Some(s.loops[l].polled[0]), Act(s, a));
    case Swap(l) => SwapKeeps(s, l, Act(s, a));
    case Finish(l) => FinishKeeps(s, l, Act(s, a));
  }

  lemma RunTaskKeeps(s: State, l: nat)
    requires Inv(s) && Enabled(s, RunTask(l)) && Defined(s, RunTask(l))
    ensures PreInv(Act(s, RunTask(l)))
  {
    hide PreInv, Referenced, HandleClose, LoopShape;
    var t := s.loops[l].batch[s.loops[l].next];
    RunningTask(s, l, t);
    match t
    case CloseInLoop(c) => CloseTaskKeeps(s, c);
    case Destructor(c) => DestructorTaskKeeps(s, c);
  }

  lemma AcceptActKeeps(s: State, fd: nat, outcome: ConnectOutcome)
    requires Inv(s) && Enabled(s, Accept(fd, outcome))
    ensures PreInv(Act(s, Accept(fd, outcome)))
  {
    hide PreInv, Referenced, HandleClose, LoopShape, HandleNewConnection;
    NewConnectionKeeps(s, fd);
    var s1 := HandleNewConnection(s, fd);
    match outcome
    case Stays =>
    case Closes => MainCloseKeeps(s1, s.nextConnId);
    case FailsToWrite => WriteErrorKeeps(s1, FailWrite(s1, s.nextConnId));
  }

  lemma ActPre(s: State, a: Action)
    requires Inv(s) && Enabled(s, a) && Defined(s, a)
    ensures PreInv(Act(s, a))
  {
    hide PreInv, Referenced, HandleClose, LoopShape;
    match a {
    case Accept(fd, outcome) => AcceptActKeeps(s, fd, outcome);
    case RunTask(l) => RunTaskKeeps(s, l);
    case Poll(_, _) => LoopActKeeps(s, a);
    case BeginEvent(_) => LoopActKeeps(s, a);
    case Swap(_) => LoopActKeeps(s, a);
    case Finish(_) => LoopActKeeps(s, a);
    case _ => HandlerActKeeps(s, a);
    }
  }

  lemma StepKeeps(s: State, a: Action)
    requires Inv(s) && Enabled(s, a)
    ensures Defined(s, a) && Inv(Step(s, a))
    ensures forall c :: c in Dropped(Act(s, a)) ==> Unreachable(Act(s, a), c)
  {
    hide PreInv, Referenced, HandleClose, LoopShape;
    EnabledIsDefined(s, a);
    ActOpen(s, a);
    ActPre(s, a);
    CollectKeeps(Act(s, a));
  }

  // ---------- whole runs ----------

  // What holds between any two actions.
  ghost predicate Safe(s: State) {
    // the open client descriptors are exactly those of the live connections, one each
    && s.open == Fds(s.conns)
    && (forall c, d :: c in s.conns && d in s.conns && s.conns[c].fd == s.conns[d].fd ==> c == d)
    // the map files every entry under its own descriptor and holds live connections only
    && (forall fd :: fd in s.connections ==> s.connections[fd] in s.conns && s.conns[s.connections[fd]].fd == fd)
    // a polled or guarded channel belongs to a live connection of that loop, still registered there
    && (forall l, c :: 0 <= l < |s.loops| && (c in s.loops[l].polled || s.loops[l].guard == Some(c)) ==>
         && c in s.conns && s.conns[c].home == l && l < |s.epolls|
         && s.conns[c].fd in s.epolls[l] && s.epolls[l][s.conns[c].fd] == c)
    // the kernel knows no channel of a destroyed connection
    && (forall l, fd :: 0 <= l < |s.epolls| && fd in s.epolls[l] ==>
         s.epolls[l][fd] in s.conns && s.conns[s.epolls[l][fd]].fd == fd)
    // no connection ever gets a second close task
    && NoDup(s.closeLog)
  }

  // What holds of each action of a run.
  ghost predicate SafeStep(s: State, a: Action)
    requires Enabled(s, a)
  {
    && Defined(s, a)
    && match a
       case Accept(fd, _) => fd !in s.connections && fd !in s.epolls[Home(s, fd)]
       case UpdateInHandler(l) => s.conns[s.loops[l].guard.value].inEpoll
       case RunTask(l) => (
         match s.loops[l].batch[s.loops[l].next]
         case CloseInLoop(c) => l == MAIN && InMap(s.conns, s.connections, c)
         case Destructor(c) => l == s.conns[c].home && s.conns[c].inEpoll && c !in s.connections.Values)
       case _ => true
  }

  // A connection destroyed by an action, or a descriptor it closes, is out of
  // every epoll set, polled batch, handler, map entry and waiting task.
  ghost predicate SafeClose(s: State, a: Action)
    requires Enabled(s, a) && Defined(s, a)
  {
    && (forall c :: c in Act(s, a).conns && c !in Step(s, a).conns ==> Unreachable(Act(s, a), c))
    && (forall fd :: fd in Act(s, a).open && fd !in Step(s, a).open ==>
         forall l :: 0 <= l < |Act(s, a).epolls| ==> fd !in Act(s, a).epolls[l])
  }

  lemma InvIsSafe(s: State)
    requires Inv(s)
    ensures Safe(s)
  {
    forall l, c | 0 <= l < |s.loops| && (c in s.loops[l].polled || s.loops[l].guard == Some(c))
      ensures InEpoll(s.conns, l, c)
    {
    }
  }

  lemma StepIsSafe(s: State, a: Action)
    requires Inv(s) && Enabled(s, a)
    ensures SafeStep(s, a) && SafeClose(s, a)
  {
    StepActionIsSafe(s, a);
    StepCloseIsSafe(s, a);
  }

  lemma StepActionIsSafe(s: State, a: Action)
    requires Inv(s) && Enabled(s, a)
    ensures SafeStep(s, a)
  {
    hide PreInv, Referenced;
    EnabledIsDefined(s, a);
    match a
    case Accept(fd, _) => FreshFd(s, fd);
    case UpdateInHandler(l) => Guarded(s, l);
    case RunTask(l) =>
      RunningTask(s, l, s.loops[l].batch[s.loops[l].next]);
      OutOfMap(s, s.loops[l].batch[s.loops[l].next].conn);
    case _ =>
  }

  lemma OutOfMap(s: State, c: ConnId)
    requires PreInv(s) && c in s.conns
    ensures c in s.connections.Values <==> InMap(s.conns, s.connections, c)
  {
    if c in s.connections.Values {
      var fd :| fd in s.connections && s.connections[fd] == c;
    }
    if InMap(s.conns, s.connections, c) {
      assert s.connections[s.conns[c].fd] == c;
    }
  }

  // A descriptor that destruction closes belongs to a dropped connection only.
  lemma ClosedIsUnregistered(s: State)
    requires |s.epolls| == |s.loops| && s.open == Fds(s.conns) && forall c :: c in Dropped(s) ==> Unreachable(s, c)
    ensures forall fd :: fd in s.open && fd !in Collect(s).open ==>
      forall l :: 0 <= l < |s.epolls| ==> fd !in s.epolls[l]
    ensures forall c :: c in s.conns && c !in Collect(s).conns ==> Unreachable(s, c)
  {
    hide Referenced, Unreachable;
    forall fd | fd in s.open && fd !in Collect(s).open
      ensures forall l :: 0 <= l < |s.epolls| ==> fd !in s.epolls[l]
    {
      assert fd in DroppedFds(s);
      var d :| d in Dropped(s) && s.conns[d].fd == fd;
      UnreachableFd(s, d);
    }
  }

  lemma UnreachableFd(s: State, c: ConnId)
    requires |s.epolls| == |s.loops| && c in s.conns && Unreachable(s, c)
    ensures forall l :: 0 <= l < |s.epolls| ==> s.conns[c].fd !in s.epolls[l]
  {
  }

  lemma ActSize(s: State, a: Action)
    requires Enabled(s, a) && Defined(s, a)
    ensures |Act(s, a).epolls| == |Act(s, a).loops|
  {
  }

  lemma StepCloseIsSafe(s: State, a: Action)
    requires Inv(s) && Enabled(s, a)
    ensures Defined(s, a) && SafeClose(s, a)
  {
    StepKeeps(s, a);
    ActSize(s, a);
    hide PreInv, Inv, Referenced, Act, Enabled, Defined, Collect, Unreachable;
    ActOpen(s, a);
    ClosedIsUnregistered(Act(s, a));
  }

  lemma {:induction false} RunKeepsInv(subLoops: nat, ss: seq<State>, acts: seq<Action>, i: nat)
    requires subLoops > 0 && IsRun(subLoops, ss, acts) && i <= |acts|
    ensures Inv(ss[i])
  {
    if i == 0 {
      InitHolds(subLoops);
    } else {
      RunKeepsInv(subLoops, ss, acts, i - 1);
      StepKeeps(ss[i - 1], acts[i - 1]);
    }
  }

  // Every run of any number of sub-loops, connections and descriptors is safe.
  lemma RunsAreSafe(subLoops: nat, ss: seq<State>, acts: seq<Action>)
    requires subLoops > 0 && IsRun(subLoops, ss, acts)
    ensures forall i :: 0 <= i <= |acts| ==> Safe(ss[i])
    ensures forall i :: 0 <= i < |acts| ==> SafeStep(ss[i], acts[i]) && SafeClose(ss[i], acts[i])
  {
    forall i | 0 <= i <= |acts|
      ensures Inv(ss[i]) && Safe(ss[i])
    {
      RunKeepsInv(subLoops, ss, acts, i);
      InvIsSafe(ss[i]);
    }
    forall i | 0 <= i < |acts|
      ensures SafeStep(ss[i], acts[i]) && SafeClose(ss[i], acts[i])
    {
      StepIsSafe(ss[i], acts[i]);
    }
  }

  // ---------- cleanup: complete, except after a write error ----------

  // Every connection ever accepted is alive or has a close task in its history.
  ghost predicate Accounted(s: State) {
    forall c: ConnId :: 1 <= c < s.nextConnId ==> c in s.conns || c in s.closeLog
  }

  // What one action does to the ids, the objects and the history.
  ghost predicate Progress(s: State, s': State) {
    && s.nextConnId <= s'.nextConnId <= s.nextConnId + 1
    && s.closeLog <= s'.closeLog
    && s.conns.Keys <= s'.conns.Keys && (s.nextConnId < s'.nextConnId ==> s.nextConnId in s'.conns)
    && forall c :: c in s.conns && s.conns[c].state == Closed ==>
         s'.conns[c].state == Closed && (c in s'.closeLog ==> c in s.closeLog)
  }

  lemma ActProgress(s: State, a: Action)
    requires Enabled(s, a) && Defined(s, a) && s.nextConnId !in s.conns && s.nextConnId !in s.closeLog
    ensures Progress(s, Act(s, a))
  {
  }

  lemma FreshId(s: State)
    requires Inv(s)
    ensures s.nextConnId !in s.conns && s.nextConnId !in s.closeLog
  {
  }

  // Outside its close log a live connection is still in the map, so it is
  // never unreferenced.
  lemma UnloggedIsInMap(s: State, c: ConnId)
    requires PreInv(s) && c in s.conns && c !in s.closeLog
    ensures InMap(s.conns, s.connections, c) && s.conns[c].inEpoll && Referenced(s, c) && s.conns[c].fd in s.open
  {
    assert s.connections[s.conns[c].fd] == c;
  }

  // The live connection c is marked closed but nobody will ever clean it up.
  ghost predicate Leaked(s: State, c: ConnId) {
    c in s.conns && s.conns[c].state == Closed && c !in s.closeLog
  }

  lemma StepCleanup(s: State, a: Action)
    requires Inv(s) && Accounted(s) && Enabled(s, a)
    ensures Defined(s, a) && Inv(Step(s, a)) && Accounted(Step(s, a))
    ensures forall c :: Leaked(s, c) ==> Leaked(Step(s, a), c)
  {
    hide PreInv, Act, Enabled;
    StepKeeps(s, a);
    FreshId(s);
    ActProgress(s, a);
    ActPre(s, a);
    ActOpen(s, a);
    CollectKeeps(Act(s, a));
    forall c | c in Act(s, a).conns && c !in Act(s, a).closeLog
      ensures c in Step(s, a).conns
    {
      UnloggedIsInMap(Act(s, a), c);
    }
  }

  lemma {:induction false} RunCleanup(subLoops: nat, ss: seq<State>, acts: seq<Action>, i: nat, j: nat)
    requires subLoops > 0 && IsRun(subLoops, ss, acts) && i <= j <= |acts|
    ensures Inv(ss[j]) && Accounted(ss[j]) && forall c :: Leaked(ss[i], c) ==> Leaked(ss[j], c)
    decreases j
  {
    if j == 0 {
      InitHolds(subLoops);
    } else if i == j {
      RunCleanup(subLoops, ss, acts, j - 1, j - 1);
      StepCleanup(ss[j - 1], acts[j - 1]);
    } else {
      RunCleanup(subLoops, ss, acts, i, j - 1);
      StepCleanup(ss[j - 1], acts[j - 1]);
    }
  }

  // The action fails to write to c, in a handler or in the connect callback.
  ghost predicate FailsWrite(s: State, a: Action, c: ConnId)
    requires Enabled(s, a)
  {
    match a
    case WriteError(l) => s.loops[l].guard == Some(c) && c in s.conns && s.conns[c].state == Connected
    case Accept(_, FailsToWrite) => c == s.nextConnId
    case _ => false
  }

  // After a write error on a connected peer nothing ever takes the connection
  // out of the map or the epoll set, and its descriptor stays open.
  lemma WriteErrorLeaks(subLoops: nat, ss: seq<State>, acts: seq<Action>, i: nat, j: nat, c: ConnId)
    requires subLoops > 0 && IsRun(subLoops, ss, acts) && i < j <= |acts| && FailsWrite(ss[i], acts[i], c)
    ensures c in ss[j].conns && ss[j].conns[c].inEpoll && ss[j].conns[c].fd in ss[j].open
    ensures InMap(ss[j].conns, ss[j].connections, c)
  {
    hide Inv, Step, Act, FailsWrite;
    var s, a := ss[i], acts[i];
    RunCleanup(subLoops, ss, acts, i, i);
    EnabledIsDefined(s, a);
    WriteErrorIsLeak(s, a, c);
    RunCleanup(subLoops, ss, acts, i + 1, j);
    LeakedIsInMap(ss[j], c);
  }

  lemma LeakedIsInMap(s: State, c: ConnId)
    requires Inv(s) && Leaked(s, c)
    ensures c in s.conns && s.conns[c].inEpoll && s.conns[c].fd in s.open && InMap(s.conns, s.connections, c)
  {
    hide PreInv, Referenced;
    UnloggedIsInMap(s, c);
  }

  lemma WriteErrorIsLeak(s: State, a: Action, c: ConnId)
    requires Inv(s) && Enabled(s, a) && Defined(s, a) && FailsWrite(s, a, c)
    ensures Leaked(Step(s, a), c)
  {
    hide PreInv;
    ActPre(s, a);
    if a.WriteError? {
      Guarded(s, a.l);
      ConnectedStage(s, c);
    } else {
      FreshId(s);
      AcceptedAndFailed(s, a);
    }
    UnloggedIsInMap(Act(s, a), c);
  }

  lemma AcceptedAndFailed(s: State, a: Action)
    requires Inv(s) && Enabled(s, a) && a.Accept? && a.outcome == FailsToWrite
    ensures var c, s' := s.nextConnId, Act(s, a);
      c in s'.conns && s'.conns[c].state == Closed && s'.closeLog == s.closeLog
  {
  }

  ghost predicate Quiet(s: State) {
    forall l :: 0 <= l < |s.loops| ==> s.loops[l].phase == Polling && s.loops[l].toDoList == []
  }

  // Once every queue is empty and every loop is polling, an accepted connection
  // is destroyed and its descriptor closed exactly if it got a close task; one
  // that is alive is in the map and registered.
  lemma QuietCleanup(subLoops: nat, ss: seq<State>, acts: seq<Action>, i: nat, c: ConnId)
    requires subLoops > 0 && IsRun(subLoops, ss, acts) && i <= |acts| && Quiet(ss[i])
    requires 1 <= c < ss[i].nextConnId
    ensures c !in ss[i].conns <==> c in ss[i].closeLog
    ensures c in ss[i].conns ==> ss[i].conns[c].inEpoll && InMap(ss[i].conns, ss[i].connections, c)
  {
    RunCleanup(subLoops, ss, acts, i, i);
    if c in ss[i].conns {
      QuietState(ss[i], c);
    }
  }

  lemma QuietState(s: State, c: ConnId)
    requires Inv(s) && Quiet(s) && c in s.conns
    ensures c !in s.closeLog && s.conns[c].inEpoll && InMap(s.conns, s.connections, c)
  {
    hide PreInv;
    QuietLoops(s);
    assert Referenced(s, c);
    OutOfMap(s, c);
    QuietStage(s, c);
  }

  lemma QuietLoops(s: State)
    requires PreInv(s) && Quiet(s)
    ensures |s.loops| > 1 && forall l :: 0 <= l < |s.loops| ==>
      s.loops[l].batch == [] && s.loops[l].guard == None && PendingTasks(s.loops)[l] == []
  {
    forall l | 0 <= l < |s.loops|
      ensures s.loops[l].batch == [] && s.loops[l].guard == None
    {
      assert LoopShape(s.loops[l]);
    }
  }

  lemma QuietStage(s: State, c: ConnId)
    requires PreInv(s) && InMap(s.conns, s.connections, c) && PendingTasks(s.loops)[MAIN] == []
    ensures c !in s.closeLog && s.conns[c].inEpoll
  {
  }

  // ---------- what the actions alone tell of a connection ----------

  // A handler or the connect callback closes the connection, or fails to write.
  datatype Signal = Closing | Failure

  ghost function SignalOf(s: State, a: Action, c: ConnId): Option<Signal>
    requires Enabled(s, a)
  {
    match a
    case CloseInHandler(l) => if s.loops[l].guard == Some(c) then Some(Closing) else None
    case WriteError(l) => if s.loops[l].guard == Some(c) then Some(Failure) else None
    case Accept(_, Closes) => if c == s.nextConnId then Some(Closing) else None
    case Accept(_, FailsToWrite) => if c == s.nextConnId then Some(Failure) else None
    case _ => None
  }

  // The first of them in the first i actions.
  ghost function FirstSignal(ss: seq<State>, acts: seq<Action>, i: nat, c: ConnId): Option<Signal>
    requires i <= |acts| == |ss| - 1 && forall k :: 0 <= k < |acts| ==> Enabled(ss[k], acts[k])
  {
    if i == 0 then None
    else
      var signal := FirstSignal(ss, acts, i - 1, c);
      if signal.Some? then signal else SignalOf(ss[i - 1], acts[i - 1], c)
  }

  // The state of c and its close task are what its first signal says.
  ghost predicate Told(s: State, c: ConnId, signal: Option<Signal>) {
    && (c in s.conns ==> (s.conns[c].state == Closed <==> signal.Some?))
    && (c in s.closeLog <==> signal == Some(Closing))
    && (signal.Some? ==> c < s.nextConnId)
  }

  lemma ActTold(s: State, a: Action, c: ConnId, signal: Option<Signal>)
    requires Enabled(s, a) && Defined(s, a) && s.nextConnId !in s.conns && s.nextConnId !in s.closeLog
    requires (forall d :: d in s.conns ==> d < s.nextConnId) && Told(s, c, signal)
    ensures Told(Act(s, a), c, if signal.Some? then signal else SignalOf(s, a, c))
  {
  }

  lemma StepTold(s: State, a: Action, c: ConnId, signal: Option<Signal>)
    requires Inv(s) && Enabled(s, a) && Told(s, c, signal)
    ensures Defined(s, a) && Told(Step(s, a), c, if signal.Some? then signal else SignalOf(s, a, c))
  {
    hide Act, Enabled, SignalOf;
    EnabledIsDefined(s, a);
    FreshId(s);
    ActTold(s, a, c, signal);
  }

  lemma {:induction false} RunTold(subLoops: nat, ss: seq<State>, acts: seq<Action>, i: nat, c: ConnId)
    requires subLoops > 0 && IsRun(subLoops, ss, acts) && i <= |acts|
    ensures Told(ss[i], c, FirstSignal(ss, acts, i, c))
  {
    if i == 0 {
    } else {
      RunTold(subLoops, ss, acts, i - 1, c);
      RunKeepsInv(subLoops, ss, acts, i - 1);
      StepTold(ss[i - 1], acts[i - 1], c, FirstSignal(ss, acts, i - 1, c));
    }
  }

  // Whatever loop closes it: once every queue is empty and every loop is polling,
  // an accepted connection is gone exactly if its first signal was a close. One
  // that was never signalled is Connected, one that failed to write is left.
  lemma CleanedUpExactly(subLoops: nat, ss: seq<State>, acts: seq<Action>, i: nat, c: ConnId)
    requires subLoops > 0 && IsRun(subLoops, ss, acts) && i <= |acts| && Quiet(ss[i]) && 1 <= c < ss[i].nextConnId
    ensures c !in ss[i].conns <==> FirstSignal(ss, acts, i, c) == Some(Closing)
    ensures c in ss[i].conns ==> (ss[i].conns[c].state == Connected <==> FirstSignal(ss, acts, i, c) == None)
  {
    QuietCleanup(subLoops, ss, acts, i, c);
    RunTold(subLoops, ss, acts, i, c);
  }

  lemma {:induction false} FirstStays(ss: seq<State>, acts: seq<Action>, i: nat, j: nat, c: ConnId)
    requires i <= j <= |acts| == |ss| - 1 && forall k :: 0 <= k < |acts| ==> Enabled(ss[k], acts[k])
    requires FirstSignal(ss, acts, i, c).Some?
    ensures FirstSignal(ss, acts, j, c) == FirstSignal(ss, acts, i, c)
  {
    if i == j {
    } else {
      FirstStays(ss, acts, i, j - 1, c);
    }
  }

  // A handler closes a connection that has not been signalled before: from then
  // on its close task is in the history, and it is gone in every quiet state.
  lemma HandlerCloseCleansUp(subLoops: nat, ss: seq<State>, acts: seq<Action>, i: nat, j: nat, c: ConnId)
    requires subLoops > 0 && IsRun(subLoops, ss, acts) && i < j <= |acts|
    requires acts[i].CloseInHandler? && ss[i].loops[acts[i].l].guard == Some(c)
    requires FirstSignal(ss, acts, i, c) == None
    ensures c in ss[j].closeLog && (Quiet(ss[j]) ==> c !in ss[j].conns)
  {
    FirstStays(ss, acts, i + 1, j, c);
    RunTold(subLoops, ss, acts, j, c);
    if Quiet(ss[j]) && c in ss[j].conns {
      RunKeepsInv(subLoops, ss, acts, j);
      QuietState(ss[j], c);
    }
  }

  // ---------- what the actions alone tell of a loop ----------

  // What its last epoll_wait reported, how many of these channels were taken up
  // since, and where the loop is.
  datatype Walk = Walk(ready: seq<ConnId>, begun: nat, phase: Phase)

  function WalkOf(acts: seq<Action>, l: nat): Walk {
    if acts == [] then Walk([], 0, Polling)
    else
      var walk := WalkOf(acts[..|acts| - 1], l);
      match acts[|acts| - 1]
      case Poll(m, ready) => if m == l then Walk(ready, 0, Handling) else walk
      case BeginEvent(m) => if m == l then walk.(begun := walk.begun + 1) else walk
      case Swap(m) => if m == l then walk.(phase := Tasks) else walk
      case Finish(m) => if m == l then walk.(phase := Polling) else walk
      case _ => walk
  }

  ghost predicate Walking(loop: Loop, walk: Walk) {
    && loop.phase == walk.phase && walk.begun <= |walk.ready|
    && (loop.phase == Handling ==> loop.polled == walk.ready[walk.begun..])
  }

  lemma ActWalks(s: State, a: Action, acts: seq<Action>, l: nat)
    requires Enabled(s, a) && Defined(s, a) && l < |s.loops| && Walking(s.loops[l], WalkOf(acts, l))
    ensures |Act(s, a).loops| == |s.loops| && Walking(Act(s, a).loops[l], WalkOf(acts + [a], l))
  {
    assert (acts + [a])[..|acts|] == acts;
    if a.BeginEvent? && a.l == l {
      var walk := WalkOf(acts, l);
      assert walk.ready[walk.begun..][1..] == walk.ready[walk.begun + 1..];
    }
  }

  lemma {:induction false} RunWalks(subLoops: nat, ss: seq<State>, acts: seq<Action>, i: nat, l: nat)
    requires subLoops > 0 && IsRun(subLoops, ss, acts) && i <= |acts| && l <= subLoops
    ensures |ss[i].loops| == subLoops + 1 && Walking(ss[i].loops[l], WalkOf(acts[..i], l))
  {
    if i == 0 {
    } else {
      var s, a := ss[i - 1], acts[i - 1];
      RunWalks(subLoops, ss, acts, i - 1, l);
      RunKeepsInv(subLoops, ss, acts, i - 1);
      hide Act, Enabled, Defined, Walking, WalkOf, Inv;
      EnabledIsDefined(s, a);
      ActWalks(s, a, acts[..i - 1], l);
      assert acts[..i - 1] + [a] == acts[..i];
    }
  }

  // A loop takes up every channel its epoll_wait reported, in that order, and
  // runs its tasks only when all of them have been handled.
  lemma EventsInOrder(subLoops: nat, ss: seq<State>, acts: seq<Action>, i: nat, l: nat)
    requires subLoops > 0 && IsRun(subLoops, ss, acts) && i < |acts| && l <= subLoops
    ensures var walk := WalkOf(acts[..i], l);
      && (acts[i] == BeginEvent(l) ==>
           && walk.begun < |walk.ready| && l < |ss[i + 1].loops|
           && ss[i + 1].loops[l].guard == Some(walk.ready[walk.begun]))
      && (acts[i] == Swap(l) ==> walk.begun == |walk.ready|)
  {
    RunWalks(subLoops, ss, acts, i, l);
    RunWalks(subLoops, ss, acts, i + 1, l);
    RunKeepsInv(subLoops, ss, acts, i);
    hide Inv, WalkOf;
    EnabledIsDefined(ss[i], acts[i]);
  }
}
