// TinyWebServer's event loop in proactor mode: the main thread accepts, reads,
// writes, closes and ticks; worker threads process requests in between. Timers
// follow TimerQueue, replies follow Response. The http_conn of a descriptor
// outlives its connections: a request that still waits in the pool when tick
// closes its connection is processed on whatever connection comes next.
module WebServer {
  import opened Common
  import opened HttpCodes
  import opened TimerQueue
  import Response

  const TIMESLOT: int := 5
  const MAX_FD: int := 65536

  // What the kernel would report (EPOLLONESHOT): readable, writable, nothing.
  datatype Arm = In | Out | Off

  // users[fd]: m_write_buf up to m_write_idx, how many requests of it wait in the
  // pool, whether m_sockfd is set, and (history) the replies since the last init.
  datatype User = User(text: string, waiting: nat, sock: bool, replies: nat)

  // One result of epoll_wait, with the outcome of the system calls it leads to.
  datatype Event =
    | Hangup(fd: nat)
    | Readable(fd: nat, ok: bool, queued: bool)   // read_once; append_p
    | Writable(fd: nat, result: WriteResult)

  // write returned true after EAGAIN, true after a kept-alive reply, or false.
  datatype WriteResult = Again | KeptAlive | Ended

  datatype State = State(
    open: map<nat, Arm>,      // client descriptors open in the kernel
    users: map<nat, User>,    // the entries used so far
    timers: seq<Entry>,
    userCount: int,
    batch: seq<Event>,        // events of this epoll_wait still to be handled
    clock: int,               // the last time read
    lru: seq<nat>)            // history: open descriptors by last activity

  datatype Action =
    | Wait(events: seq<Event>)
    | Accept(fd: nat, now: int)
    | Handle(now: int)
    | Process(fd: nat, code: HttpCode, fileSize: nat, linger: bool)
    | Tick(now: int)

  function Init(start: int): State {
    State(map[], map[], [], 0, [], start, [])
  }

  // ---------- the operations ----------

  const FRESH := User("", 0, false, 0)

  function UserOf(s: State, fd: nat): User {
    if fd in s.users then s.users[fd] else FRESH
  }

  function SetUser(s: State, fd: nat, user: User): State {
    s.(users := s.users[fd := user])
  }

  // modfd: fails on a closed descriptor.
  function Rearm(s: State, fd: nat, arm: Arm): State {
    if fd in s.open then s.(open := s.open[fd := arm]) else s
  }

  function IndexOf(q: seq<Entry>, fd: nat): (r: Option<nat>)
    ensures r.Some? ==> r.value < |q| && q[r.value].fd == fd
    ensures r.None? ==> forall i :: 0 <= i < |q| ==> q[i].fd != fd
  {
    if q == [] then None
    else if q[0].fd == fd then Some(0)
    else
      match IndexOf(q[1..], fd)
      case None => None
      case Some(i) => Some(i + 1)
  }

  function Forget(lru: seq<nat>, fd: nat): seq<nat> {
    if lru == [] then [] else if lru[0] == fd then lru[1..] else [lru[0]] + Forget(lru[1..], fd)
  }

  function Without(lru: seq<nat>, gone: seq<nat>): seq<nat> {
    if lru == [] then [] else (if lru[0] in gone then [] else [lru[0]]) + Without(lru[1..], gone)
  }

  // WebServer::timer, with users[fd].init.
  function AddClient(s: State, fd: nat, now: int): State {
    SetUser(s, fd, User("", UserOf(s, fd).waiting, true, 0)).(
      open := s.open[fd := In], userCount := s.userCount + 1,
      timers := Insert(s.timers, Entry(fd, now + 3 * TIMESLOT)), clock := now, lru := s.lru + [fd])
  }

  // WebServer::adjust_timer on the timer of fd.
  function TouchTimer(s: State, fd: nat, now: int): State {
    match IndexOf(s.timers, fd)
    case None => s
    case Some(i) =>
      s.(timers := Adjust(s.timers, i, now + 3 * TIMESLOT), clock := now, lru := Forget(s.lru, fd) + [fd])
  }

  // deal_timer: cb_func closes the descriptor and counts down, then del_timer.
  function DealTimer(s: State, fd: nat, now: int): State {
    match IndexOf(s.timers, fd)
    case None => s
    case Some(i) =>
      s.(open := s.open - {fd}, userCount := s.userCount - 1, timers := Remove(s.timers, i),
         clock := now, lru := Forget(s.lru, fd))
  }

  // close_conn, reached from process when process_write fails: the timer stays.
  function CloseConn(s: State, fd: nat): State {
    if !UserOf(s, fd).sock then s
    else SetUser(s, fd, UserOf(s, fd).(sock := false)).(open := s.open - {fd}, userCount := s.userCount - 1)
  }

  function HandleEvent(s: State, e: Event, now: int): State
    requires e.fd in s.open
  {
    var user := UserOf(s, e.fd);
    match e
    case Hangup(fd) => DealTimer(s, fd, now)
    case Readable(fd, ok, queued) =>
      if ok then TouchTimer(SetUser(s, fd, if queued then user.(waiting := user.waiting + 1) else user), fd, now)
      else DealTimer(s, fd, now)
    case Writable(fd, result) => (
      match result
      case Again => TouchTimer(Rearm(s, fd, Out), fd, now)
      case KeptAlive => TouchTimer(SetUser(Rearm(s, fd, In), fd, user.(text := "", replies := 0)), fd, now)
      case Ended => DealTimer(s, fd, now))
  }

  // http_conn::process in a worker, on users[fd] as it is now.
  function ProcessRequest(s: State, fd: nat, code: HttpCode, fileSize: nat, linger: bool): State
    requires UserOf(s, fd).waiting > 0
  {
    var user := UserOf(s, fd).(waiting := UserOf(s, fd).waiting - 1);
    if code.NO_REQUEST? then Rearm(SetUser(s, fd, user), fd, In)
    else
      var q := Response.ProcessWrite(user.text, code, fileSize, linger);
      var s1 := SetUser(s, fd, user.(text := q.head, replies := user.replies + 1));
      Rearm(if q.ok then s1 else CloseConn(s1, fd), fd, Out)
  }

  // tick: cb_func on every expired timer.
  function TickAll(s: State, now: int): State {
    var n := Expired(s.timers, now);
    var closed := Fds(s.timers[..n]);
    s.(open := map fd | fd in s.open && fd !in closed :: s.open[fd],
       userCount := s.userCount - n, timers := s.timers[n..], clock := now, lru := Without(s.lru, closed))
  }

  // ---------- the transition system ----------

  ghost predicate Deliverable(s: State, e: Event) {
    && e.fd in s.open
    && match s.open[e.fd]
       case In => !e.Writable?
       case Out => !e.Readable?
       case Off => false
  }

  ghost predicate DistinctFds(es: seq<Event>) {
    forall i, j :: 0 <= i < j < |es| ==> es[i].fd != es[j].fd
  }

  function EventOf(es: seq<Event>, fd: nat): (r: Option<Event>)
    ensures r.Some? ==> r.value in es && r.value.fd == fd
    ensures r.None? ==> forall i :: 0 <= i < |es| ==> es[i].fd != fd
  {
    if es == [] then None else if es[0].fd == fd then Some(es[0]) else EventOf(es[1..], fd)
  }

  // epoll_wait reports each descriptor once and disarms it.
  function Delivered(s: State, es: seq<Event>): map<nat, Arm> {
    map fd | fd in s.open :: if EventOf(es, fd).Some? then Off else s.open[fd]
  }

  // The clock does not go back. When accept hands out a descriptor, at most
  // leftover requests of its earlier connections still wait in the pool.
  ghost predicate Enabled(leftover: nat, s: State, a: Action) {
    match a
    case Wait(es) => s.batch == [] && DistinctFds(es) && forall i :: 0 <= i < |es| ==> Deliverable(s, es[i])
    case Accept(fd, now) => fd !in s.open && UserOf(s, fd).waiting <= leftover && s.clock <= now
    case Handle(now) => s.batch != [] && s.clock <= now
    case Process(fd, code, _, _) => UserOf(s, fd).waiting > 0 && (code.NO_REQUEST? || Response.Produced(code))
    case Tick(now) => s.batch == [] && s.clock <= now
  }

  // An event for a descriptor that was closed meanwhile would be undefined.
  ghost predicate Defined(s: State, a: Action) {
    a.Handle? && s.batch != [] ==> s.batch[0].fd in s.open
  }

  ghost function Step(leftover: nat, s: State, a: Action): State
    requires Enabled(leftover, s, a) && Defined(s, a)
  {
    match a
    case Wait(es) => s.(batch := es, open := Delivered(s, es))
    case Accept(fd, now) => if s.userCount >= MAX_FD then s.(clock := now) else AddClient(s, fd, now)
    case Handle(now) => HandleEvent(s.(batch := s.batch[1..]), s.batch[0], now)
    case Process(fd, code, fileSize, linger) => ProcessRequest(s, fd, code, fileSize, linger)
    case Tick(now) => TickAll(s, now)
  }

  ghost predicate IsRun(leftover: nat, start: int, ss: seq<State>, acts: seq<Action>) {
    && |ss| == |acts| + 1 && ss[0] == Init(start)
    && forall i :: 0 <= i < |acts| ==>
         Enabled(leftover, ss[i], acts[i]) && (Defined(ss[i], acts[i]) ==> ss[i + 1] == Step(leftover, ss[i], acts[i]))
  }

  // ---------- the invariant ----------

  // Each timer belongs to exactly one open descriptor and the other way round;
  // deadlines are sorted and at most three slots ahead; the list order is the
  // order of last activity.
  ghost predicate TimersOk(open: set<nat>, timers: seq<Entry>, clock: int, lru: seq<nat>) {
    && Sorted(timers) && lru == Fds(timers) && NoDup(lru)
    && (forall fd :: fd in open <==> fd in lru)
    && (forall i :: 0 <= i < |timers| ==> timers[i].expire <= clock + 3 * TIMESLOT)
  }

  // Every event of the batch has its own open descriptor.
  ghost predicate BatchOk(open: set<nat>, batch: seq<Event>) {
    DistinctFds(batch) && forall i :: 0 <= i < |batch| ==> batch[i].fd in open
  }

  // Replies that can still be put behind the buffered ones before they are sent:
  // a waiting request, or a read that will queue one.
  function Ahead(user: User, arm: Arm, event: Option<Event>): nat {
    user.waiting + (if arm == In then 1 else 0) + (if event.Some? && event.value.Readable? then 1 else 0)
  }

  // No more replies come together than the leftover requests and one of the
  // connection's own; a connection waits for the peer only with a reply.
  ghost predicate Within(leftover: nat, user: User, arm: Arm, event: Option<Event>) {
    && |user.text| <= Response.LARGEST * user.replies
    && user.replies + Ahead(user, arm, event) <= leftover + 1
    && (arm == Out || (event.Some? && event.value.Writable?) ==> user.replies > 0)
  }

  function ArmOf(s: State, fd: nat): Arm {
    if fd in s.open then s.open[fd] else Off
  }

  ghost predicate AllWithin(leftover: nat, s: State) {
    forall fd: nat :: Within(leftover, UserOf(s, fd), ArmOf(s, fd), EventOf(s.batch, fd))
  }

  ghost predicate Inv(leftover: nat, s: State) {
    && TimersOk(s.open.Keys, s.timers, s.clock, s.lru) && BatchOk(s.open.Keys, s.batch) && AllWithin(leftover, s)
    && s.userCount == |s.timers| == |s.open|
  }

  // ---------- descriptors and their timers ----------

  lemma {:induction false} DistinctCount(fds: seq<nat>, keys: set<nat>)
    requires NoDup(fds) && forall fd :: fd in keys <==> fd in fds
    ensures |keys| == |fds|
  {
    if fds == [] {
      assert keys == {};
    } else {
      forall fd
        ensures fd in keys - {fds[0]} <==> fd in fds[1..]
      {
        if fd in fds {
          var i :| 0 <= i < |fds| && fds[i] == fd;
          assert i > 0 ==> fds[1..][i - 1] == fd;
        }
      }
      DistinctCount(fds[1..], keys - {fds[0]});
    }
  }

  lemma IndexFound(q: seq<Entry>, fd: nat)
    requires fd in Fds(q)
    ensures IndexOf(q, fd).Some?
  {
    var i :| 0 <= i < |q| && q[i].fd == fd;
  }

  lemma {:induction false} ForgetIsRemove(fds: seq<nat>, i: nat)
    requires NoDup(fds) && i < |fds|
    ensures Forget(fds, fds[i]) == Remove(fds, i)
  {
    if i == 0 {
    } else {
      var rest := fds[1..];
      assert rest[i - 1] == fds[i] && fds[0] != fds[i];
      ForgetIsRemove(rest, i - 1);
      assert Remove(fds, i) == [fds[0]] + Remove(rest, i - 1);
    }
  }

  lemma RemovedMembers(fds: seq<nat>, i: nat)
    requires NoDup(fds) && i < |fds|
    ensures NoDup(Remove(fds, i)) && fds[i] !in Remove(fds, i)
    ensures forall fd :: fd in Remove(fds, i) <==> fd in fds && fd != fds[i]
  {
    forall fd | fd in fds && fd != fds[i]
      ensures fd in Remove(fds, i)
    {
      var j :| 0 <= j < |fds| && fds[j] == fd;
      assert if j < i then Remove(fds, i)[j] == fd else Remove(fds, i)[j - 1] == fd;
    }
  }

  // Every new timer goes to the end of the list.
  lemma AddedLast(open: set<nat>, q: seq<Entry>, clock: int, lru: seq<nat>, fd: nat, now: int)
    requires TimersOk(open, q, clock, lru) && fd !in open && clock <= now
    ensures Insert(q, Entry(fd, now + 3 * TIMESLOT)) == q + [Entry(fd, now + 3 * TIMESLOT)]
    ensures TimersOk(open + {fd}, Insert(q, Entry(fd, now + 3 * TIMESLOT)), now, lru + [fd])
  {
    InsertLast(q, Entry(fd, now + 3 * TIMESLOT));
  }

  lemma RemovedTimer(open: set<nat>, q: seq<Entry>, clock: int, lru: seq<nat>, i: nat, now: int)
    requires TimersOk(open, q, clock, lru) && i < |q| && clock <= now
    ensures TimersOk(open - {q[i].fd}, Remove(q, i), now, Forget(lru, q[i].fd)) && q[i].fd in open
  {
    ForgetIsRemove(lru, i);
    RemovedMembers(lru, i);
    assert q[i].fd == lru[i];
    assert Fds(Remove(q, i)) == Remove(Fds(q), i);
  }

  // Every adjusted timer ends at the end of the list.
  lemma AdjustedLast(open: set<nat>, q: seq<Entry>, clock: int, lru: seq<nat>, i: nat, now: int)
    requires TimersOk(open, q, clock, lru) && i < |q| && clock <= now
    ensures Adjust(q, i, now + 3 * TIMESLOT) == Remove(q, i) + [Entry(q[i].fd, now + 3 * TIMESLOT)]
    ensures TimersOk(open, Adjust(q, i, now + 3 * TIMESLOT), now, Forget(lru, q[i].fd) + [q[i].fd])
  {
    var fd := q[i].fd;
    AdjustIsReinsert(q, i, now + 3 * TIMESLOT);
    RemovedTimer(open, q, clock, lru, i, now);
    AddedLast(open - {fd}, Remove(q, i), now, Forget(lru, fd), fd, now);
    assert open - {fd} + {fd} == open;
  }

  // What tick leaves has not expired and was due within three slots.
  lemma TickedDeadlines(q: seq<Entry>, clock: int, now: int)
    requires Sorted(q) && clock <= now && forall i :: 0 <= i < |q| ==> q[i].expire <= clock + 3 * TIMESLOT
    ensures var left := q[Expired(q, now)..];
      Sorted(left) && forall i :: 0 <= i < |left| ==> now < left[i].expire <= now + 3 * TIMESLOT
  {
    hide Expired;
    ExpiredExactly(q, now);
    var n := Expired(q, now);
    forall i | 0 <= i < |q[n..]|
      ensures q[n..][i] == q[n + i]
    {
    }
  }

  // Without duplicates, the front and the rest share nothing.
  lemma Dropped(fds: seq<nat>, n: nat)
    requires NoDup(fds) && n <= |fds|
    ensures NoDup(fds[n..])
    ensures forall fd :: fd in fds[n..] <==> fd in fds && fd !in fds[..n]
  {
    forall fd
      ensures fd in fds[n..] <==> fd in fds && fd !in fds[..n]
    {
      if fd in fds[n..] {
        var i :| 0 <= i < |fds[n..]| && fds[n..][i] == fd;
        assert fds[n + i] == fd;
      }
      if fd in fds && fd !in fds[..n] {
        var i :| 0 <= i < |fds| && fds[i] == fd;
        assert i >= n ==> fds[n..][i - n] == fd;
      }
    }
  }

  lemma {:induction false} WithoutNone(fds: seq<nat>, gone: seq<nat>)
    requires forall i :: 0 <= i < |fds| ==> fds[i] !in gone
    ensures Without(fds, gone) == fds
  {
    if fds == [] {
    } else {
      WithoutNone(fds[1..], gone);
    }
  }

  lemma {:induction false} WithoutAll(a: seq<nat>, b: seq<nat>, gone: seq<nat>)
    requires (forall i :: 0 <= i < |a| ==> a[i] in gone) && (forall i :: 0 <= i < |b| ==> b[i] !in gone)
    ensures Without(a + b, gone) == b
  {
    if a == [] {
      assert a + b == b;
      WithoutNone(b, gone);
    } else {
      assert (a + b)[1..] == a[1..] + b && (a + b)[0] == a[0];
      WithoutAll(a[1..], b, gone);
    }
  }

  // Closing the front of the queue leaves the rest in order.
  lemma WithoutFront(fds: seq<nat>, n: nat)
    requires NoDup(fds) && n <= |fds|
    ensures Without(fds, fds[..n]) == fds[n..]
  {
    Dropped(fds, n);
    assert fds == fds[..n] + fds[n..];
    WithoutAll(fds[..n], fds[n..], fds[..n]);
  }

  lemma TickedTimers(open: set<nat>, q: seq<Entry>, clock: int, lru: seq<nat>, now: int)
    requires TimersOk(open, q, clock, lru) && clock <= now
    ensures var n := Expired(q, now); var closed := Fds(q[..n]);
      TimersOk((set fd | fd in open && fd !in closed), q[n..], now, Without(lru, closed))
    ensures var left := q[Expired(q, now)..];
      forall i :: 0 <= i < |left| ==> now < left[i].expire <= now + 3 * TIMESLOT
  {
    hide Expired, NoDup, Sorted;
    var n := Expired(q, now);
    TickedDeadlines(q, clock, now);
    Dropped(lru, n);
    WithoutFront(lru, n);
    assert Fds(q[n..]) == lru[n..] && Fds(q[..n]) == lru[..n];
  }

  // ---------- every action keeps the invariant ----------

  lemma EnabledIsDefined(leftover: nat, s: State, a: Action)
    requires Inv(leftover, s) && Enabled(leftover, s, a)
    ensures Defined(s, a)
  {
  }

  // The parts of the invariant that the timers and counts make up.
  ghost predicate Counted(s: State) {
    TimersOk(s.open.Keys, s.timers, s.clock, s.lru) && s.userCount == |s.timers|
  }

  lemma DealKeeps(s: State, fd: nat, now: int)
    requires Counted(s) && fd in s.open && s.clock <= now
    ensures var s' := DealTimer(s, fd, now);
      Counted(s') && s'.open == s.open - {fd} && s'.batch == s.batch && s'.users == s.users
  {
    IndexFound(s.timers, fd);
    RemovedTimer(s.open.Keys, s.timers, s.clock, s.lru, IndexOf(s.timers, fd).value, now);
    assert (s.open - {fd}).Keys == s.open.Keys - {fd};
  }

  lemma TouchKeeps(s: State, fd: nat, now: int)
    requires Counted(s) && fd in s.open && s.clock <= now
    ensures var s' := TouchTimer(s, fd, now);
      Counted(s') && s'.open == s.open && s'.batch == s.batch && s'.users == s.users
  {
    IndexFound(s.timers, fd);
    AdjustedLast(s.open.Keys, s.timers, s.clock, s.lru, IndexOf(s.timers, fd).value, now);
  }

  // Only one descriptor's entry, arming and event changed.
  ghost predicate OnlyAt(s: State, s': State, fd: nat) {
    forall d: nat :: d != fd ==>
      UserOf(s', d) == UserOf(s, d) && ArmOf(s', d) == ArmOf(s, d) && EventOf(s'.batch, d) == EventOf(s.batch, d)
  }

  lemma WithinAt(leftover: nat, s: State, s': State, fd: nat)
    requires AllWithin(leftover, s) && OnlyAt(s, s', fd)
    requires Within(leftover, UserOf(s', fd), ArmOf(s', fd), EventOf(s'.batch, fd))
    ensures AllWithin(leftover, s')
  {
  }

  lemma NextEvent(open: set<nat>, batch: seq<Event>)
    requires BatchOk(open, batch) && batch != []
    ensures BatchOk(open - {batch[0].fd}, batch[1..])
    ensures EventOf(batch, batch[0].fd) == Some(batch[0]) && EventOf(batch[1..], batch[0].fd) == None
    ensures forall d: nat :: d != batch[0].fd ==> EventOf(batch[1..], d) == EventOf(batch, d)
  {
    var e, rest := batch[0], batch[1..];
    assert forall i :: 0 <= i < |rest| ==> rest[i] == batch[i + 1] && rest[i].fd != e.fd;
  }

  // The entry, arming and event of the descriptor after its event was handled.
  lemma HandledWithin(leftover: nat, user: User, arm: Arm, e: Event)
    requires Within(leftover, user, arm, Some(e))
    ensures Within(leftover, user, Off, None)
    ensures e.Readable? ==> Within(leftover, user, arm, None)
    ensures e.Readable? ==> Within(leftover, user.(waiting := user.waiting + 1), arm, None)
    ensures e.Writable? ==> Within(leftover, user, Out, None)
    ensures e.Writable? ==> Within(leftover, user.(text := "", replies := 0), In, None)
  {
  }

  // The event is gone, and its descriptor's entry and arming are these.
  ghost predicate HandledTo(s: State, s': State, user: User, arm: Arm)
    requires s.batch != []
  {
    var fd := s.batch[0].fd;
    && s'.batch == s.batch[1..]
    && (s'.users == s.users[fd := user] || (s'.users == s.users && user == UserOf(s, fd)))
    && (s'.open == s.open[fd := arm] || (arm == Off && s'.open == s.open - {fd}))
  }

  lemma HandledAt(leftover: nat, s: State, s': State, user: User, arm: Arm)
    requires AllWithin(leftover, s) && BatchOk(s.open.Keys, s.batch) && s.batch != [] && HandledTo(s, s', user, arm)
    requires Within(leftover, user, arm, None)
    ensures AllWithin(leftover, s') && BatchOk(s'.open.Keys, s'.batch)
  {
    var fd := s.batch[0].fd;
    NextEvent(s.open.Keys, s.batch);
    hide EventOf, AllWithin, BatchOk, Within;
    assert OnlyAt(s, s', fd);
    WithinAt(leftover, s, s', fd);
    assert s.open.Keys - {fd} <= s'.open.Keys;
    BatchGrows(s.open.Keys - {fd}, s'.open.Keys, s'.batch);
  }

  lemma HeadWithin(leftover: nat, s: State)
    requires Inv(leftover, s) && s.batch != []
    ensures var e := s.batch[0]; Within(leftover, UserOf(s, e.fd), ArmOf(s, e.fd), Some(e))
  {
    NextEvent(s.open.Keys, s.batch);
    hide Within;
  }

  // Every event but a finished reply or a queued request only closes or rearms.
  lemma DealtKeeps(leftover: nat, s: State, now: int)
    requires Inv(leftover, s) && s.batch != [] && s.batch[0].fd in s.open && s.clock <= now
    ensures var s' := DealTimer(s.(batch := s.batch[1..]), s.batch[0].fd, now);
      Counted(s') && BatchOk(s'.open.Keys, s'.batch) && AllWithin(leftover, s')
  {
    var s1, e := s.(batch := s.batch[1..]), s.batch[0];
    HeadWithin(leftover, s);
    HandledWithin(leftover, UserOf(s, e.fd), ArmOf(s, e.fd), e);
    hide Within, DealTimer, AllWithin, TimersOk, BatchOk, EventOf;
    DealKeeps(s1, e.fd, now);
    HandledAt(leftover, s, DealTimer(s1, e.fd, now), UserOf(s, e.fd), Off);
  }

  lemma TouchedKeeps(leftover: nat, s: State, s1: State, user: User, arm: Arm, now: int)
    requires Inv(leftover, s) && s.batch != [] && s.batch[0].fd in s.open && s.clock <= now
    requires s1 == s.(batch := s.batch[1..], users := s1.users, open := s1.open) && HandledTo(s, s1, user, arm)
    requires s1.open == s.open[s.batch[0].fd := arm] && Within(leftover, user, arm, None)
    ensures var s' := TouchTimer(s1, s.batch[0].fd, now);
      Counted(s') && BatchOk(s'.open.Keys, s'.batch) && AllWithin(leftover, s')
  {
    var fd := s.batch[0].fd;
    hide Within, TouchTimer, AllWithin, TimersOk, BatchOk, EventOf;
    assert s1.open.Keys == s.open.Keys;
    TouchKeeps(s1, fd, now);
    HandledAt(leftover, s, TouchTimer(s1, fd, now), user, arm);
  }

  ghost predicate Kept(leftover: nat, s: State) {
    Counted(s) && BatchOk(s.open.Keys, s.batch) && AllWithin(leftover, s)
  }

  lemma ReadKeeps(leftover: nat, s: State, now: int)
    requires Inv(leftover, s) && s.batch != [] && s.batch[0].fd in s.open && s.clock <= now
    requires s.batch[0].Readable? && s.batch[0].ok
    ensures Kept(leftover, HandleEvent(s.(batch := s.batch[1..]), s.batch[0], now))
  {
    hide Inv, Within, TouchTimer, AllWithin, Counted, BatchOk, EventOf, HandledTo, ArmOf;
    var e := s.batch[0];
    var user := UserOf(s, e.fd);
    var user' := if e.queued then user.(waiting := user.waiting + 1) else user;
    ReadWithin(leftover, s, user');
    UserHandled(s, user');
    var s1 := SetUser(s.(batch := s.batch[1..]), e.fd, user');
    TouchedKeeps(leftover, s, s1, user', ArmOf(s, e.fd), now);
    assert HandleEvent(s.(batch := s.batch[1..]), e, now) == TouchTimer(s1, e.fd, now);
  }

  lemma ReadWithin(leftover: nat, s: State, user': User)
    requires Inv(leftover, s) && s.batch != [] && s.batch[0].Readable?
    requires var user := UserOf(s, s.batch[0].fd); user' == user || user' == user.(waiting := user.waiting + 1)
    ensures Within(leftover, user', ArmOf(s, s.batch[0].fd), None)
  {
    var e := s.batch[0];
    hide Inv, Within, UserOf, ArmOf;
    HeadWithin(leftover, s);
    HandledWithin(leftover, UserOf(s, e.fd), ArmOf(s, e.fd), e);
  }

  lemma UserHandled(s: State, user: User)
    requires s.batch != [] && s.batch[0].fd in s.open
    ensures var fd := s.batch[0].fd; var s1 := SetUser(s.(batch := s.batch[1..]), fd, user);
      && HandledTo(s, s1, user, ArmOf(s, fd)) && s1.open == s.open[fd := ArmOf(s, fd)]
      && s1 == s.(batch := s.batch[1..], users := s1.users, open := s1.open)
  {
    var fd := s.batch[0].fd;
    assert s.open[fd := ArmOf(s, fd)] == s.open;
  }

  lemma WriteKeeps(leftover: nat, s: State, now: int)
    requires Inv(leftover, s) && s.batch != [] && s.batch[0].fd in s.open && s.clock <= now
    requires s.batch[0].Writable? && s.batch[0].result != Ended
    ensures Kept(leftover, HandleEvent(s.(batch := s.batch[1..]), s.batch[0], now))
  {
    var s1, e := s.(batch := s.batch[1..]), s.batch[0];
    var user, arm := UserOf(s, e.fd), ArmOf(s, e.fd);
    HeadWithin(leftover, s);
    HandledWithin(leftover, user, arm, e);
    hide Inv, Within, TouchTimer, AllWithin, Counted, BatchOk, EventOf;
    if e.result == Again {
      TouchedKeeps(leftover, s, Rearm(s1, e.fd, Out), user, Out, now);
    } else {
      var user' := user.(text := "", replies := 0);
      TouchedKeeps(leftover, s, SetUser(Rearm(s1, e.fd, In), e.fd, user'), user', In, now);
    }
  }

  lemma HandleKeeps(leftover: nat, s: State, now: int)
    requires Inv(leftover, s) && s.batch != [] && s.batch[0].fd in s.open && s.clock <= now
    ensures Kept(leftover, HandleEvent(s.(batch := s.batch[1..]), s.batch[0], now))
  {
    hide Inv, TouchTimer, DealTimer, AllWithin, Counted, BatchOk;
    var e := s.batch[0];
    DealtKeeps(leftover, s, now);
    if e.Readable? && e.ok {
      ReadKeeps(leftover, s, now);
    } else if e.Writable? && e.result != Ended {
      WriteKeeps(leftover, s, now);
    }
  }

  lemma BatchGrows(open: set<nat>, open': set<nat>, batch: seq<Event>)
    requires BatchOk(open, batch) && open <= open'
    ensures BatchOk(open', batch)
  {
  }

  lemma WaitKeeps(leftover: nat, s: State, es: seq<Event>)
    requires Inv(leftover, s) && Enabled(leftover, s, Wait(es))
    ensures var s' := Step(leftover, s, Wait(es));
      s'.open.Keys == s.open.Keys && BatchOk(s'.open.Keys, s'.batch) && AllWithin(leftover, s')
  {
    var s' := Step(leftover, s, Wait(es));
    forall fd: nat
      ensures Within(leftover, UserOf(s', fd), ArmOf(s', fd), EventOf(es, fd))
    {
      assert Within(leftover, UserOf(s, fd), ArmOf(s, fd), EventOf(s.batch, fd));
      var event := EventOf(es, fd);
      if event.Some? {
        var i :| 0 <= i < |es| && es[i] == event.value;
        assert Deliverable(s, es[i]);
      }
    }
  }

  lemma AcceptKeeps(leftover: nat, s: State, fd: nat, now: int)
    requires Inv(leftover, s) && fd !in s.open && UserOf(s, fd).waiting <= leftover && s.clock <= now
    ensures var s' := AddClient(s, fd, now);
      Counted(s') && BatchOk(s'.open.Keys, s'.batch) && AllWithin(leftover, s')
  {
    var s' := AddClient(s, fd, now);
    assert s'.open.Keys == s.open.Keys + {fd};
    NoEvent(s.open.Keys, s.batch, fd);
    var user := User("", UserOf(s, fd).waiting, true, 0);
    assert Within(leftover, UserOf(s, fd), ArmOf(s, fd), EventOf(s.batch, fd));
    assert Within(leftover, user, In, None);
    hide TimersOk, BatchOk, AllWithin, EventOf, Within;
    AddedLast(s.open.Keys, s.timers, s.clock, s.lru, fd, now);
    SetAt(s, s', fd, user, In);
    WithinAt(leftover, s, s', fd);
    BatchGrows(s.open.Keys, s'.open.Keys, s.batch);
  }

  lemma SetAt(s: State, s': State, fd: nat, user: User, arm: Arm)
    requires s'.users == s.users[fd := user] && s'.batch == s.batch
    requires s'.open == s.open[fd := arm] || (arm == ArmOf(s, fd) && s'.open == s.open)
    ensures OnlyAt(s, s', fd) && UserOf(s', fd) == user && ArmOf(s', fd) == arm
  {
  }

  lemma NoEvent(open: set<nat>, batch: seq<Event>, fd: nat)
    requires BatchOk(open, batch) && fd !in open
    ensures EventOf(batch, fd) == None
  {
  }

  // As long as not too many replies come together process_write never fails, so
  // close_conn is never reached from a worker.
  lemma ReplyFits(leftover: nat, s: State, fd: nat, code: HttpCode, fileSize: nat, linger: bool)
    requires AllWithin(leftover, s) && leftover < Response.REPLIES
    requires UserOf(s, fd).waiting > 0 && Response.Produced(code)
    ensures var u := UserOf(s, fd); var q := Response.ProcessWrite(u.text, code, fileSize, linger);
      && q.ok
      && Within(leftover, u.(waiting := u.waiting - 1, text := q.head, replies := u.replies + 1), Out,
           EventOf(s.batch, fd))
      && Within(leftover, u.(waiting := u.waiting - 1, text := q.head, replies := u.replies + 1), Off,
           EventOf(s.batch, fd))
  {
    var u := UserOf(s, fd);
    assert Within(leftover, u, ArmOf(s, fd), EventOf(s.batch, fd));
    assert u.replies < Response.REPLIES == 8;
    Response.FitsBehind(u.text, code, fileSize, linger);
    hide Response.ProcessWrite, EventOf;
  }

  lemma MoreFits(leftover: nat, s: State, fd: nat)
    requires AllWithin(leftover, s) && UserOf(s, fd).waiting > 0
    ensures var u := UserOf(s, fd);
      && Within(leftover, u.(waiting := u.waiting - 1), In, EventOf(s.batch, fd))
      && Within(leftover, u.(waiting := u.waiting - 1), Off, EventOf(s.batch, fd))
  {
    assert Within(leftover, UserOf(s, fd), ArmOf(s, fd), EventOf(s.batch, fd));
    hide EventOf;
  }

  lemma RearmedWithin(leftover: nat, s: State, fd: nat, user: User, arm: Arm)
    requires AllWithin(leftover, s)
    requires Within(leftover, user, arm, EventOf(s.batch, fd)) && Within(leftover, user, Off, EventOf(s.batch, fd))
    ensures var s' := Rearm(SetUser(s, fd, user), fd, arm);
      && s' == s.(open := s'.open, users := s'.users) && s'.open.Keys == s.open.Keys && AllWithin(leftover, s')
  {
    var s' := Rearm(SetUser(s, fd, user), fd, arm);
    hide EventOf, Within, AllWithin;
    assert s'.open.Keys == s.open.Keys;
    SetAt(s, s', fd, user, ArmOf(s', fd));
    WithinAt(leftover, s, s', fd);
  }

  lemma ProcessKeeps(leftover: nat, s: State, fd: nat, code: HttpCode, fileSize: nat, linger: bool)
    requires Inv(leftover, s) && leftover < Response.REPLIES
    requires Enabled(leftover, s, Process(fd, code, fileSize, linger))
    ensures var s' := ProcessRequest(s, fd, code, fileSize, linger);
      && s' == s.(open := s'.open, users := s'.users) && s'.open.Keys == s.open.Keys && AllWithin(leftover, s')
      && (!code.NO_REQUEST? ==> Response.ProcessWrite(UserOf(s, fd).text, code, fileSize, linger).ok)
  {
    hide Response.ProcessWrite, TimersOk, BatchOk, EventOf, Within, AllWithin, Rearm, SetUser;
    var user := UserOf(s, fd).(waiting := UserOf(s, fd).waiting - 1);
    if code.NO_REQUEST? {
      MoreFits(leftover, s, fd);
      RearmedWithin(leftover, s, fd, user, In);
    } else {
      ReplyFits(leftover, s, fd, code, fileSize, linger);
      var q := Response.ProcessWrite(user.text, code, fileSize, linger);
      RearmedWithin(leftover, s, fd, user.(text := q.head, replies := user.replies + 1), Out);
    }
  }

  lemma TickKeeps(leftover: nat, s: State, now: int)
    requires Inv(leftover, s) && s.batch == [] && s.clock <= now
    ensures var s' := TickAll(s, now);
      && Counted(s') && BatchOk(s'.open.Keys, s'.batch) && AllWithin(leftover, s')
      && forall i :: 0 <= i < |s'.timers| ==> now < s'.timers[i].expire <= now + 3 * TIMESLOT
  {
    TickedTimers(s.open.Keys, s.timers, s.clock, s.lru, now);
    assert |s.lru| == |s.timers|;
    var closed := Fds(s.timers[..Expired(s.timers, now)]);
    hide TimersOk, Fds, Expired, Without;
    var s' := TickAll(s, now);
    TickedWithin(leftover, s, s', closed);
    assert s'.open.Keys == set fd | fd in s.open.Keys && fd !in closed;
  }

  lemma TickedWithin(leftover: nat, s: State, s': State, closed: seq<nat>)
    requires AllWithin(leftover, s) && s.batch == s'.batch && s'.users == s.users
    requires s'.open == map fd | fd in s.open && fd !in closed :: s.open[fd]
    ensures AllWithin(leftover, s')
  {
    forall fd: nat
      ensures Within(leftover, UserOf(s', fd), ArmOf(s', fd), EventOf(s'.batch, fd))
    {
      assert Within(leftover, UserOf(s, fd), ArmOf(s, fd), EventOf(s.batch, fd));
    }
  }

  lemma LaterClock(open: set<nat>, q: seq<Entry>, clock: int, lru: seq<nat>, now: int)
    requires TimersOk(open, q, clock, lru) && clock <= now
    ensures TimersOk(open, q, now, lru)
  {
  }

  lemma OneToOne(s: State)
    requires TimersOk(s.open.Keys, s.timers, s.clock, s.lru)
    ensures |s.open| == |s.timers|
  {
    DistinctCount(s.lru, s.open.Keys);
  }

  lemma StepKeeps(leftover: nat, s: State, a: Action)
    requires Inv(leftover, s) && leftover < Response.REPLIES && Enabled(leftover, s, a)
    ensures Defined(s, a) && Inv(leftover, Step(leftover, s, a))
  {
    EnabledIsDefined(leftover, s, a);
    hide TimersOk, BatchOk, AllWithin, HandleEvent, TickAll, AddClient, ProcessRequest;
    match a {
      case Wait(es) => WaitKeeps(leftover, s, es);
      case Accept(fd, now) =>
        AcceptKeeps(leftover, s, fd, now);
        LaterClock(s.open.Keys, s.timers, s.clock, s.lru, now);
        RefusedWithin(leftover, s, now);
      case Handle(now) => HandleKeeps(leftover, s, now);
      case Process(fd, code, fileSize, linger) => ProcessKeeps(leftover, s, fd, code, fileSize, linger);
      case Tick(now) => TickKeeps(leftover, s, now);
    }
    OneToOne(Step(leftover, s, a));
  }

  lemma RefusedWithin(leftover: nat, s: State, now: int)
    requires AllWithin(leftover, s)
    ensures AllWithin(leftover, s.(clock := now))
  {
    forall fd: nat
      ensures Within(leftover, UserOf(s, fd), ArmOf(s, fd), EventOf(s.batch, fd))
    {
    }
    WithinAt(leftover, s, s.(clock := now), 0);
  }

  lemma {:induction false} RunKeeps(leftover: nat, start: int, ss: seq<State>, acts: seq<Action>, i: nat)
    requires IsRun(leftover, start, ss, acts) && leftover < Response.REPLIES && i <= |acts|
    ensures Inv(leftover, ss[i])
  {
    if i == 0 {
      InitHolds(leftover, start);
    } else {
      RunKeeps(leftover, start, ss, acts, i - 1);
      StepKeeps(leftover, ss[i - 1], acts[i - 1]);
    }
  }

  lemma InitHolds(leftover: nat, start: int)
    ensures Inv(leftover, Init(start))
  {
  }

  // ---------- the theorems ----------

  // The user count is the number of timers and of open client descriptors; every
  // timer belongs to one open descriptor and every open one has one timer.
  ghost predicate Agree(s: State) {
    && s.userCount == |s.timers| == |s.open|
    && NoDup(Fds(s.timers)) && forall fd :: fd in s.open <==> fd in Fds(s.timers)
  }

  // Over every run in which accept finds few enough leftover requests, and no
  // event is handled for a closed descriptor.
  lemma CountsAgree(leftover: nat, start: int, ss: seq<State>, acts: seq<Action>, i: nat)
    requires IsRun(leftover, start, ss, acts) && leftover < Response.REPLIES && i <= |acts|
    ensures Agree(ss[i])
    ensures i < |acts| ==> Defined(ss[i], acts[i])
  {
    RunKeeps(leftover, start, ss, acts, i);
    if i < |acts| {
      EnabledIsDefined(leftover, ss[i], acts[i]);
    }
  }

  // No worker ever closes a connection: process_write finds room for its reply.
  lemma WorkersNeverClose(leftover: nat, start: int, ss: seq<State>, acts: seq<Action>, i: nat)
    requires IsRun(leftover, start, ss, acts) && leftover < Response.REPLIES && i < |acts| && acts[i].Process?
    ensures var a := acts[i];
      !a.code.NO_REQUEST? ==> Response.ProcessWrite(UserOf(ss[i], a.fd).text, a.code, a.fileSize, a.linger).ok
    ensures ss[i + 1].open.Keys == ss[i].open.Keys && ss[i + 1].userCount == ss[i].userCount
  {
    RunKeeps(leftover, start, ss, acts, i);
    hide Response.ProcessWrite, Inv, ProcessRequest;
    ProcessKeeps(leftover, ss[i], acts[i].fd, acts[i].code, acts[i].fileSize, acts[i].linger);
  }

  // With a clock that does not go back the timer list is the queue of open
  // descriptors by last activity, sorted by deadline; and right after a tick
  // every deadline lies ahead, by at most three slots.
  lemma TimersAreLru(leftover: nat, start: int, ss: seq<State>, acts: seq<Action>, i: nat)
    requires IsRun(leftover, start, ss, acts) && leftover < Response.REPLIES && i <= |acts|
    ensures Fds(ss[i].timers) == ss[i].lru && Sorted(ss[i].timers)
    ensures 0 < i && acts[i - 1].Tick? ==>
      forall k :: 0 <= k < |ss[i].timers| ==> acts[i - 1].now < ss[i].timers[k].expire <= acts[i - 1].now + 3 * TIMESLOT
  {
    hide Inv, TickAll, Sorted, HandleEvent, AddClient, ProcessRequest;
    RunKeeps(leftover, start, ss, acts, i);
    TimersSorted(leftover, ss[i]);
    if 0 < i && acts[i - 1].Tick? {
      RunKeeps(leftover, start, ss, acts, i - 1);
      TickDeadlines(leftover, ss[i - 1], acts[i - 1]);
    }
  }

  lemma TimersSorted(leftover: nat, s: State)
    requires Inv(leftover, s)
    ensures Fds(s.timers) == s.lru && Sorted(s.timers)
  {
  }

  lemma TickDeadlines(leftover: nat, s: State, a: Action)
    requires Inv(leftover, s) && Enabled(leftover, s, a) && a.Tick?
    ensures var s' := Step(leftover, s, a);
      forall k :: 0 <= k < |s'.timers| ==> a.now < s'.timers[k].expire <= a.now + 3 * TIMESLOT
  {
    hide TimersOk, BatchOk, AllWithin, TickAll;
    TickKeeps(leftover, s, a.now);
  }

  // ---------- too many leftover requests ----------

  ghost predicate Reaches(leftover: nat, start: int, s: State) {
    exists ss, acts :: IsRun(leftover, start, ss, acts) && ss[|acts|] == s
  }

  lemma ReachesInit(leftover: nat, start: int)
    ensures Reaches(leftover, start, Init(start))
  {
    var ss, acts := [Init(start)], [];
    assert IsRun(leftover, start, ss, acts) && ss[|acts|] == Init(start);
  }

  lemma ReachesStep(leftover: nat, start: int, s: State, a: Action)
    requires Reaches(leftover, start, s) && Enabled(leftover, s, a) && Defined(s, a)
    ensures Reaches(leftover, start, Step(leftover, s, a))
  {
    var ss, acts :| IsRun(leftover, start, ss, acts) && ss[|acts|] == s;
    var ss', acts' := ss + [Step(leftover, s, a)], acts + [a];
    hide Enabled, Defined, Step;
    assert IsRun(leftover, start, ss', acts') && ss'[|acts'|] == Step(leftover, s, a);
  }

  const FD: nat := 5

  // Closed, with n of its requests in the pool.
  function Closed(n: nat, now: int): State {
    State(map[], if n == 0 then map[] else map[FD := User("", n, true, 0)], [], 0, [], now, [])
  }

  // Open since now, with n requests in the pool and these replies buffered.
  function Opened(n: nat, now: int, arm: Arm, text: string, replies: nat): State {
    State(map[FD := arm], map[FD := User(text, n, true, replies)], [Entry(FD, now + 3 * TIMESLOT)], 1, [], now, [FD])
  }

  // A client connects and sends a request that the pool queues.
  lemma ReachesQueued(leftover: nat, start: int, n: nat, now: int)
    requires Reaches(leftover, start, Closed(n, now)) && n <= leftover
    ensures Reaches(leftover, start, Opened(n + 1, now, Off, "", 0))
  {
    hide Reaches;
    var s0 := Closed(n, now);
    ReachesStep(leftover, start, s0, Accept(FD, now));
    var s1 := Opened(n, now, In, "", 0);
    assert Step(leftover, s0, Accept(FD, now)) == s1;
    var e := Readable(FD, true, true);
    assert Deliverable(s1, [e][0]);
    ReachesStep(leftover, start, s1, Wait([e]));
    var s2 := s1.(batch := [e], open := map[FD := Off]);
    assert Step(leftover, s1, Wait([e])) == s2;
    ReachesStep(leftover, start, s2, Handle(now));
    assert s2.(batch := s2.batch[1..]) == Opened(n, now, Off, "", 0);
    QueuedIs(n, now);
  }

  lemma QueuedIs(n: nat, now: int)
    ensures var e, s := Readable(FD, true, true), Opened(n, now, Off, "", 0);
      HandleEvent(s, e, now) == Opened(n + 1, now, Off, "", 0)
  {
    var s := Opened(n, now, Off, "", 0);
    var q := [Entry(FD, now + 3 * TIMESLOT)];
    assert IndexOf(q, FD) == Some(0);
    assert Adjust(q, 0, now + 3 * TIMESLOT) == q;
    assert Forget([FD], FD) == [];
    assert SetUser(s, FD, User("", n + 1, true, 0)) == Opened(n + 1, now, Off, "", 0);
  }

  // Fifteen seconds later tick closes the connection; the request stays.
  lemma ReachesLeftover(leftover: nat, start: int, n: nat, now: int)
    requires Reaches(leftover, start, Opened(n, now, Off, "", 0)) && n > 0
    ensures Reaches(leftover, start, Closed(n, now + 3 * TIMESLOT))
  {
    hide Reaches;
    var s, later := Opened(n, now, Off, "", 0), now + 3 * TIMESLOT;
    ReachesStep(leftover, start, s, Tick(later));
    var q := [Entry(FD, later)];
    assert Expired([], later) == 0 && Expired(q, later) == 1 by { assert q[1..] == []; }
    assert q[..1] == q && Fds(q) == [FD] && Without([FD], [FD]) == [];
    assert Step(leftover, s, Tick(later)) == Closed(n, later);
  }

  lemma {:induction false} ReachesClosed(leftover: nat, start: int, n: nat)
    requires n <= leftover + 1
    ensures Reaches(leftover, start, Closed(n, start + 3 * TIMESLOT * n))
  {
    if n == 0 {
      ReachesInit(leftover, start);
    } else {
      var now := start + 3 * TIMESLOT * (n - 1);
      ReachesClosed(leftover, start, n - 1);
      ReachesQueued(leftover, start, n - 1, now);
      ReachesLeftover(leftover, start, n, now);
    }
  }

  // The workers take k of the requests, all of them forbidden.
  lemma {:induction false} ReachesReplies(leftover: nat, start: int, n: nat, now: int, k: nat)
    returns (text: string, arm: Arm)
    requires Reaches(leftover, start, Opened(n, now, Off, "", 0)) && k <= n && k <= Response.REPLIES
    ensures |text| == Response.LARGEST * k && Reaches(leftover, start, Opened(n - k, now, arm, text, k))
  {
    hide Reaches, Response.ProcessWrite;
    if k == 0 {
      text, arm := "", Off;
    } else {
      var w, was := ReachesReplies(leftover, start, n, now, k - 1);
      var s, a := Opened(n - k + 1, now, was, w, k - 1), Process(FD, FORBIDDEN_REQUEST, 0, true);
      ReachesStep(leftover, start, s, a);
      ForbiddenBehind(w);
      text, arm := Response.ProcessWrite(w, FORBIDDEN_REQUEST, 0, true).head, Out;
      assert Step(leftover, s, a) == Opened(n - k, now, arm, text, k);
    }
  }

  lemma ForbiddenBehind(w: string)
    requires |w| + Response.LARGEST < WRITE_BUFFER_SIZE - 1
    ensures var q := Response.ProcessWrite(w, FORBIDDEN_REQUEST, 0, true); q.ok && |q.head| == |w| + Response.LARGEST
  {
    hide Response.Page;
    Response.PageBehind(w, FORBIDDEN_REQUEST, true);
  }

  // One reply more does not fit: the worker closes the connection and counts
  // down, and its timer stays.
  lemma ReachesDisagreement(leftover: nat, start: int)
    requires leftover >= Response.REPLIES
    ensures exists s :: Reaches(leftover, start, s) && !Agree(s)
  {
    var n := Response.REPLIES;
    var now := start + 3 * TIMESLOT * n;
    ReachesClosed(leftover, start, n);
    ReachesQueued(leftover, start, n, now);
    var text, arm := ReachesReplies(leftover, start, n + 1, now, n);
    var s, a := Opened(1, now, arm, text, n), Process(FD, FORBIDDEN_REQUEST, 0, true);
    ReachesStep(leftover, start, s, a);
    LastReply(leftover, now, arm, text);
  }

  lemma LastReply(leftover: nat, now: int, arm: Arm, text: string)
    requires |text| == Response.LARGEST * Response.REPLIES
    ensures var s, a := Opened(1, now, arm, text, Response.REPLIES), Process(FD, FORBIDDEN_REQUEST, 0, true);
      Enabled(leftover, s, a) && Defined(s, a) && !Agree(Step(leftover, s, a))
  {
    hide Response.ProcessWrite;
    Response.NinthFails(text, 0);
    var s, a := Opened(1, now, arm, text, Response.REPLIES), Process(FD, FORBIDDEN_REQUEST, 0, true);
    var s' := Step(leftover, s, a);
    assert s'.userCount == 0 && |s'.timers| == 1;
  }

  // The counts agree in every run exactly when too few requests can be left over
  // to fill the write buffer.
  lemma CountsAgreeExactly(leftover: nat, start: int)
    ensures (forall s :: Reaches(leftover, start, s) ==> Agree(s)) <==> leftover < Response.REPLIES
  {
    if leftover < Response.REPLIES {
      forall s | Reaches(leftover, start, s)
        ensures Agree(s)
      {
        var ss, acts :| IsRun(leftover, start, ss, acts) && ss[|acts|] == s;
        CountsAgree(leftover, start, ss, acts, |acts|);
      }
    } else {
      ReachesDisagreement(leftover, start);
    }
  }
}
