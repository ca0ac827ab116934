// The main thread of TinyWebServer with its real timer list: users_timer maps a
// descriptor to its node, and every operation of the event loop is proved
// against the transition system in module WebServer.
module TimedServers {
  import opened Common
  import opened HttpCodes
  import opened TimerQueue
  import opened TimerList
  import opened WebServer
  import Response

  lemma EntryOf(nodes: seq<UtilTimer>)
    ensures forall i :: 0 <= i < |nodes| ==> Entries(nodes)[i] == Entry(nodes[i].fd, nodes[i].expire)
  {
    forall i | 0 <= i < |nodes|
      ensures Entries(nodes)[i] == Entry(nodes[i].fd, nodes[i].expire)
    {
      EntriesAt(nodes, i);
    }
  }

  lemma AdjustAgain(q: seq<Entry>, i: nat, expire: int)
    requires i < |q|
    ensures Adjust(q[i := Entry(q[i].fd, expire)], i, expire) == Adjust(q, i, expire)
  {
    var r := q[i := Entry(q[i].fd, expire)];
    assert r[..i] == q[..i];
    if i + 1 < |q| {
      assert r[i + 2..] == q[i + 2..];
    }
  }

  // A timer that is the only one with its descriptor is the one found by it.
  lemma {:induction false} IndexIs(q: seq<Entry>, i: nat)
    requires i < |q| && forall j :: 0 <= j < |q| && q[j].fd == q[i].fd ==> j == i
    ensures IndexOf(q, q[i].fd) == Some(i)
    decreases |q|
  {
    if i == 0 {
    } else {
      assert q[0].fd != q[i].fd;
      IndexIs(q[1..], i - 1);
    }
  }

  class TimedServer {
    const timers: SortTimerLst
    var usersTimer: map<nat, UtilTimer>
    var open: map<nat, Arm>
    var users: map<nat, User>
    var userCount: int
    var batch: seq<Event>
    var clock: int
    ghost var lru: seq<nat>

    // Every node of the list is the timer filed under its descriptor.
    ghost predicate Valid()
      reads this, timers, timers.nodes`prev, timers.nodes`next
    {
      && timers.Linked()
      && forall t :: t in timers.nodes ==> t.fd in usersTimer && usersTimer[t.fd] == t
    }

    ghost function View(): State
      reads this, timers, timers.nodes`expire
    {
      State(open, users, timers.View(), userCount, batch, clock, lru)
    }

    ghost predicate Listed(timer: UtilTimer)
      reads this, timers
    {
      timer in timers.nodes
    }

    constructor (start: int)
      ensures Valid() && View() == Init(start) && fresh(timers)
    {
      timers := new SortTimerLst();
      usersTimer, open, users, userCount, batch, clock, lru := map[], map[], map[], 0, [], start, [];
    }

    function UserAt(fd: nat): User
      reads this`users
    {
      if fd in users then users[fd] else FRESH
    }

    ghost method Position(timer: UtilTimer) returns (i: nat)
      requires Valid() && Listed(timer)
      ensures i < |timers.nodes| && timers.nodes[i] == timer && IndexOf(View().timers, timer.fd) == Some(i)
    {
      timers.Distinct();
      i :| 0 <= i < |timers.nodes| && timers.nodes[i] == timer;
      EntryOf(timers.nodes);
      IndexIs(View().timers, i);
    }

    // The timer of a new client, filed under its descriptor.
    method AddNode(fd: nat, expire: int)
      requires Valid() && forall t :: t in timers.nodes ==> t.fd != fd
      modifies this`usersTimer, timers, timers.nodes`prev, timers.nodes`next
      ensures Valid() && timers.View() == Insert(old(timers.View()), Entry(fd, expire))
    {
      hide Chain, Entries, Insert;
      var timer := new UtilTimer(fd, expire);
      timers.AddTimer(timer);
      usersTimer := usersTimer[fd := timer];
    }

    // WebServer::timer, with users[fd].init
    method Timer(fd: nat, now: int)
      requires Valid() && forall t :: t in timers.nodes ==> t.fd != fd
      modifies this, timers, timers.nodes`prev, timers.nodes`next
      ensures Valid() && View() == AddClient(old(View()), fd, now)
    {
      hide Chain, Entries, Insert;
      users := users[fd := User("", UserAt(fd).waiting, true, 0)];
      open := open[fd := In];
      userCount := userCount + 1;
      AddNode(fd, now + 3 * TIMESLOT);
      clock := now;
      lru := lru + [fd];
    }

    method SetExpire(timer: UtilTimer, expire: int, ghost i: nat)
      requires i < |timers.nodes| && timers.nodes[i] == timer && NoDup(timers.nodes)
      modifies timer`expire
      ensures timers.View() == old(timers.View())[i := Entry(timer.fd, expire)] && timer.expire == expire
    {
      EntryOf(timers.nodes);
      ghost var q := timers.View();
      timer.expire := expire;
      EntryOf(timers.nodes);
      assert timers.View() == q[i := Entry(timer.fd, expire)];
    }

    // WebServer::adjust_timer
    method AdjustTimer(timer: UtilTimer, now: int)
      requires Valid() && Listed(timer)
      modifies this`clock, this`lru, timers, timers.nodes
      ensures Valid() && View() == TouchTimer(old(View()), timer.fd, now)
    {
      hide Chain, Entries, Insert, Adjust, IndexOf, Forget;
      ghost var i := Position(timer);
      timers.Distinct();
      ghost var q := timers.View();
      EntryOf(timers.nodes);
      AdjustAgain(q, i, now + 3 * TIMESLOT);
      SetExpire(timer, now + 3 * TIMESLOT, i);
      timers.AdjustTimer(timer, i);
      clock := now;
      lru := Forget(lru, timer.fd) + [timer.fd];
    }

    // WebServer::deal_timer; cb_func closes the descriptor and counts down.
    method DealTimer(timer: UtilTimer, now: int)
      requires Valid() && Listed(timer)
      modifies this`open, this`userCount, this`clock, this`lru, timers, timers.nodes`prev, timers.nodes`next
      ensures Valid() && View() == WebServer.DealTimer(old(View()), timer.fd, now)
    {
      hide Chain, Entries, IndexOf, Forget;
      ghost var i := Position(timer);
      timers.Distinct();
      RemoveMembers(timers.nodes, i);
      open := open - {timer.fd};
      userCount := userCount - 1;
      timers.DelTimer(timer, i);
      clock := now;
      lru := Forget(lru, timer.fd);
    }

    // The descriptor is open and its timer is in the list.
    ghost predicate Timed(fd: nat)
      reads this, timers
    {
      fd in open && fd in usersTimer && usersTimer[fd].fd == fd && Listed(usersTimer[fd])
    }

    // In every state that the transition system reaches, an open descriptor has
    // its timer in the list and a closed one has none: what the handlers ask for.
    lemma TimersAreThere(fd: nat)
      requires Valid() && TimersOk(open.Keys, timers.View(), clock, lru)
      ensures fd in open ==> Timed(fd)
      ensures fd !in open ==> forall t :: t in timers.nodes ==> t.fd != fd
    {
      EntryOf(timers.nodes);
      var fds := Fds(timers.View());
      if fd in open {
        var i :| 0 <= i < |fds| && fds[i] == fd;
        assert timers.nodes[i].fd == fd && timers.nodes[i] in timers.nodes;
      } else {
        forall t | t in timers.nodes
          ensures t.fd != fd
        {
          var i :| 0 <= i < |timers.nodes| && timers.nodes[i] == t;
          assert fds[i] == t.fd && fds[i] in fds;
        }
      }
    }

    method DealWithRead(fd: nat, readOk: bool, queued: bool, now: int)
      requires Valid() && Timed(fd)
      modifies this`open, this`users, this`userCount, this`clock, this`lru, timers, timers.nodes
      ensures Valid() && View() == HandleEvent(old(View()), Readable(fd, readOk, queued), now)
    {
      hide Chain, Entries, IndexOf, Forget, TouchTimer, WebServer.DealTimer;
      var timer := usersTimer[fd];
      if readOk {
        var user := UserAt(fd);
        users := users[fd := if queued then user.(waiting := user.waiting + 1) else user];
        AdjustTimer(timer, now);
      } else {
        DealTimer(timer, now);
      }
    }

    method DealWithWrite(fd: nat, result: WriteResult, now: int)
      requires Valid() && Timed(fd)
      modifies this`open, this`users, this`userCount, this`clock, this`lru, timers, timers.nodes
      ensures Valid() && View() == HandleEvent(old(View()), Writable(fd, result), now)
    {
      hide Chain, Entries, IndexOf, Forget, TouchTimer, WebServer.DealTimer;
      var timer := usersTimer[fd];
      match result
      case Again =>
        open := open[fd := Out];
        AdjustTimer(timer, now);
      case KeptAlive =>
        open := open[fd := In];
        users := users[fd := UserAt(fd).(text := "", replies := 0)];
        AdjustTimer(timer, now);
      case Ended =>
        DealTimer(timer, now);
    }

    // The next event of the batch, in the order of tests of eventLoop.
    method HandleNext(now: int)
      requires Valid() && batch != [] && Timed(batch[0].fd)
      modifies this, timers, timers.nodes
      ensures Valid()
      ensures View() == HandleEvent(old(View()).(batch := old(batch)[1..]), old(batch)[0], now)
    {
      hide Chain, Entries, HandleEvent, WebServer.DealTimer;
      var e := batch[0];
      batch := batch[1..];
      match e
      case Hangup(fd) =>
        HangupDeals(View(), fd, now);
        DealTimer(usersTimer[fd], now);
      case Readable(fd, readOk, queued) => DealWithRead(fd, readOk, queued, now);
      case Writable(fd, result) => DealWithWrite(fd, result, now);
    }

    // http_conn::process in a worker, on users[fd].
    method Process(fd: nat, code: HttpCode, fileSize: nat, linger: bool)
      requires Valid() && UserAt(fd).waiting > 0
      modifies this`open, this`users, this`userCount
      ensures Valid() && View() == ProcessRequest(old(View()), fd, code, fileSize, linger)
    {
      hide Chain, Entries, Response.ProcessWrite;
      var user := UserAt(fd).(waiting := UserAt(fd).waiting - 1);
      if code.NO_REQUEST? {
        users := users[fd := user];
        if fd in open {
          open := open[fd := In];
        }
        return;
      }
      var q := Response.ProcessWrite(user.text, code, fileSize, linger);
      users := users[fd := user.(text := q.head, replies := user.replies + 1)];
      if !q.ok && user.sock {
        // close_conn
        users := users[fd := users[fd].(sock := false)];
        open := open - {fd};
        userCount := userCount - 1;
      }
      if fd in open {
        open := open[fd := Out];
      }
    }

    // tick on the list; what it leaves is still filed.
    method TickTimers(now: int) returns (closed: seq<nat>)
      requires Valid()
      modifies timers, timers.nodes`prev, timers.nodes`next
      ensures Valid() && timers.View() == old(timers.View())[Expired(old(timers.View()), now)..]
      ensures closed == Fds(old(timers.View())[..Expired(old(timers.View()), now)])
    {
      hide Chain, Entries, Expired, Fds;
      closed := timers.Tick(now);
    }

    // timer_handler: tick, and cb_func for every descriptor it names.
    method TimerHandler(now: int)
      requires Valid()
      modifies this, timers, timers.nodes`prev, timers.nodes`next
      ensures Valid() && View() == TickAll(old(View()), now)
    {
      hide Chain, Entries, Expired, Fds, Without;
      var closed := TickTimers(now);
      open, userCount := CloseAll(open, userCount, closed);
      clock := now;
      lru := Without(lru, closed);
    }
  }

  lemma HangupDeals(s: State, fd: nat, now: int)
    requires fd in s.open
    ensures HandleEvent(s, Hangup(fd), now) == WebServer.DealTimer(s, fd, now)
  {
  }

  // cb_func on each of them.
  method CloseAll(open: map<nat, Arm>, count: int, closed: seq<nat>) returns (left: map<nat, Arm>, userCount: int)
    ensures left == map fd | fd in open && fd !in closed :: open[fd]
    ensures userCount == count - |closed|
  {
    left, userCount := open, count;
    for i := 0 to |closed|
      invariant left == map fd | fd in open && fd !in closed[..i] :: open[fd]
      invariant userCount == count - i
    {
      left := left - {closed[i]};
      userCount := userCount - 1;
      assert closed[..i + 1] == closed[..i] + [closed[i]];
    }
    assert closed[..|closed|] == closed;
  }
}
