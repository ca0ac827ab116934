// What the event loop's actions alone say about a descriptor, and what follows:
// nobody is left waiting, a reply is sent at the next chance, and a tick closes
// exactly the connections that have been idle for three slots.
module WebServerRuns {
  import opened Common
  import opened HttpCodes
  import opened TimerQueue
  import opened WebServer
  import Response

  const IDLE := 3 * TIMESLOT

  // Whether the descriptor is open, how it is armed, how many of its requests
  // wait in the pool, what is in its write buffer, whether append_p refused its
  // last request, and when it was last active.
  datatype Told = Told(open: bool, arm: Arm, waiting: int, text: string, refused: bool, activity: int)

  const NOTHING := Told(false, Off, 0, "", false, 0)

  // An event of fd is handled at time now.
  function TellEvent(t: Told, e: Event, now: int): Told {
    match e
    case Hangup(_) => t.(open := false)
    case Readable(_, ok, queued) =>
      if !ok then t.(open := false)
      else t.(waiting := t.waiting + (if queued then 1 else 0), refused := !queued, activity := now)
    case Writable(_, result) => (
      match result
      case Again => t.(arm := Out, activity := now)
      case KeptAlive => t.(arm := In, text := "", activity := now)
      case Ended => t.(open := false))
  }

  function Tell(s: State, a: Action, fd: nat, t: Told): Told {
    match a
    case Wait(es) => if EventOf(es, fd).Some? then t.(arm := Off) else t
    case Accept(f, now) =>
      if f == fd && s.userCount < MAX_FD then Told(true, In, t.waiting, "", false, now) else t
    case Handle(now) => if s.batch != [] && s.batch[0].fd == fd then TellEvent(t, s.batch[0], now) else t
    case Process(f, code, fileSize, linger) =>
      if f != fd then t
      else if code.NO_REQUEST? then t.(waiting := t.waiting - 1, arm := In, refused := false)
      else
        t.(waiting := t.waiting - 1, arm := Out, refused := false,
           text := t.text + Response.ProcessWrite("", code, fileSize, linger).head)
    case Tick(now) => t.(open := t.open && now < t.activity + IDLE)
  }

  function ToldOf(ss: seq<State>, acts: seq<Action>, i: nat, fd: nat): Told
    requires i <= |acts| <= |ss|
  {
    if i == 0 then NOTHING else Tell(ss[i - 1], acts[i - 1], fd, ToldOf(ss, acts, i - 1, fd))
  }

  // The state of fd is what was told.
  ghost predicate Matches(s: State, fd: nat, t: Told) {
    && (fd in s.open <==> t.open)
    && UserOf(s, fd).waiting == t.waiting && UserOf(s, fd).text == t.text
    && (fd in s.open ==> s.open[fd] == t.arm && Entry(fd, t.activity + IDLE) in s.timers)
  }

  // ---------- timers ----------

  lemma OtherTimers(q: seq<Entry>, i: nat, e: Entry)
    requires i < |q| && e in q && e.fd != q[i].fd
    ensures e in Remove(q, i)
  {
    var j :| 0 <= j < |q| && q[j] == e;
    assert if j < i then Remove(q, i)[j] == e else Remove(q, i)[j - 1] == e;
  }

  lemma DealTold(s: State, d: nat, fd: nat, now: int, t: Told)
    requires Counted(s) && d in s.open && s.clock <= now && Matches(s, fd, t)
    ensures Matches(DealTimer(s, d, now), fd, if fd == d then t.(open := false) else t)
  {
    IndexFound(s.timers, d);
    hide TimersOk;
    if fd in s.open && fd != d {
      OtherTimers(s.timers, IndexOf(s.timers, d).value, Entry(fd, t.activity + IDLE));
    }
  }

  lemma Readjusted(q: seq<Entry>, i: nat, expire: int, e: Entry)
    requires i < |q| && (e == Entry(q[i].fd, expire) || (e in q && e.fd != q[i].fd))
    ensures e in Remove(q, i) + [Entry(q[i].fd, expire)]
  {
    var rest := Remove(q, i);
    if e == Entry(q[i].fd, expire) {
      assert (rest + [e])[|rest|] == e;
    } else {
      OtherTimers(q, i, e);
    }
  }

  // Touching the timer of d gives it a new deadline and leaves the others theirs.
  lemma Touched(s: State, d: nat, now: int, e: Entry)
    requires Counted(s) && d in s.open && s.clock <= now
    requires e == Entry(d, now + IDLE) || (e in s.timers && e.fd != d)
    ensures var s' := TouchTimer(s, d, now);
      e in s'.timers && s' == s.(timers := s'.timers, clock := s'.clock, lru := s'.lru)
  {
    IndexFound(s.timers, d);
    var i := IndexOf(s.timers, d).value;
    AdjustedLast(s.open.Keys, s.timers, s.clock, s.lru, i, now);
    hide TimersOk, Adjust, Remove, IndexOf, Forget;
    Readjusted(s.timers, i, now + IDLE, e);
  }

  lemma TouchTold(s: State, d: nat, fd: nat, now: int, t: Told)
    requires Counted(s) && d in s.open && s.clock <= now && Matches(s, fd, t)
    ensures Matches(TouchTimer(s, d, now), fd, if fd == d then t.(activity := now) else t)
  {
    hide TimersOk, TouchTimer;
    Touched(s, d, now, Entry(d, now + IDLE));
    if fd in s.open && fd != d {
      Touched(s, d, now, Entry(fd, t.activity + IDLE));
    }
  }

  // Tick takes the timers that are due, and no other timer of their descriptors.
  lemma TickedEntry(q: seq<Entry>, now: int, e: Entry)
    requires Sorted(q) && NoDup(Fds(q)) && e in q
    ensures var n := Expired(q, now);
      if now < e.expire then e in q[n..] && e.fd !in Fds(q[..n]) else e.fd in Fds(q[..n])
  {
    hide Expired, Sorted;
    var n := Expired(q, now);
    ExpiredExactly(q, now);
    var k :| 0 <= k < |q| && q[k] == e;
    if k < n {
      assert Fds(q[..n])[k] == e.fd;
    } else {
      assert q[n..][k - n] == e;
      forall j | 0 <= j < n
        ensures Fds(q[..n])[j] != e.fd
      {
        assert Fds(q)[j] != Fds(q)[k];
      }
    }
  }

  lemma TimersDistinct(s: State)
    requires Counted(s)
    ensures Sorted(s.timers) && NoDup(Fds(s.timers))
  {
  }

  lemma TickTold(s: State, fd: nat, now: int, t: Told)
    requires Counted(s) && Matches(s, fd, t)
    ensures Matches(TickAll(s, now), fd, t.(open := t.open && now < t.activity + IDLE))
  {
    TimersDistinct(s);
    hide Expired, Without, Counted, Fds, NoDup, Sorted;
    if fd in s.open {
      TickedEntry(s.timers, now, Entry(fd, t.activity + IDLE));
    }
  }

  lemma AddTold(s: State, d: nat, fd: nat, now: int, t: Told)
    requires Counted(s) && d !in s.open && s.clock <= now && Matches(s, fd, t)
    ensures Matches(AddClient(s, d, now), fd, if fd == d then Told(true, In, t.waiting, "", false, now) else t)
  {
    AddedLast(s.open.Keys, s.timers, s.clock, s.lru, d, now);
    var q := s.timers + [Entry(d, now + IDLE)];
    assert q[|q| - 1] == Entry(d, now + IDLE);
  }

  lemma AcceptTold(leftover: nat, s: State, d: nat, fd: nat, now: int, t: Told)
    requires Counted(s) && d !in s.open && s.clock <= now && Matches(s, fd, t)
    ensures var a := Accept(d, now);
      Enabled(leftover, s, a) ==> Matches(Step(leftover, s, a), fd, Tell(s, a, fd, t))
  {
    hide Counted, AddClient;
    AddTold(s, d, fd, now, t);
  }

  // ---------- requests and replies ----------

  // A handler that keeps the connection: it changed the entry and the arming,
  // and then touches the timer.
  lemma KeptTold(s: State, s1: State, fd: nat, now: int, t: Told, told: Told)
    requires Counted(s) && s.batch != [] && s.batch[0].fd in s.open && s.clock <= now && Matches(s, fd, t)
    requires s1 == s.(batch := s1.batch, users := s1.users, open := s1.open) && s1.open.Keys == s.open.Keys
    requires var d := s.batch[0].fd; d != fd ==>
      told == t && UserOf(s1, fd) == UserOf(s, fd) && ArmOf(s1, fd) == ArmOf(s, fd)
    requires var d := s.batch[0].fd; d == fd ==>
      && told.open && told.activity == t.activity
      && UserOf(s1, fd).waiting == told.waiting && UserOf(s1, fd).text == told.text && ArmOf(s1, fd) == told.arm
    ensures var d := s.batch[0].fd;
      Matches(TouchTimer(s1, d, now), fd, if fd == d then told.(activity := now) else t)
  {
    hide TouchTimer, TimersOk;
    assert Matches(s1, fd, told);
    TouchTold(s1, s.batch[0].fd, fd, now, told);
  }

  lemma ReadTold(s: State, fd: nat, now: int, t: Told)
    requires Counted(s) && s.batch != [] && s.batch[0].fd in s.open && s.clock <= now && Matches(s, fd, t)
    requires s.batch[0].Readable? && s.batch[0].ok
    ensures var e := s.batch[0]; Matches(HandleEvent(s.(batch := s.batch[1..]), e, now), fd,
      if e.fd == fd then TellEvent(t, e, now) else t)
  {
    hide TouchTimer, TimersOk;
    var e, user := s.batch[0], UserOf(s, s.batch[0].fd);
    var s1 := SetUser(s.(batch := s.batch[1..]), e.fd, if e.queued then user.(waiting := user.waiting + 1) else user);
    KeptTold(s, s1, fd, now, t,
        if fd == e.fd then t.(waiting := t.waiting + (if e.queued then 1 else 0), refused := !e.queued) else t);
  }

  lemma WriteTold(s: State, fd: nat, now: int, t: Told)
    requires Counted(s) && s.batch != [] && s.batch[0].fd in s.open && s.clock <= now && Matches(s, fd, t)
    requires s.batch[0].Writable? && s.batch[0].result != Ended
    ensures var e := s.batch[0]; Matches(HandleEvent(s.(batch := s.batch[1..]), e, now), fd,
      if e.fd == fd then TellEvent(t, e, now) else t)
  {
    hide TouchTimer, TimersOk;
    var s1, e := s.(batch := s.batch[1..]), s.batch[0];
    if e.result == Again {
      var s2 := Rearm(s1, e.fd, Out);
      assert s2.open.Keys == s.open.Keys;
      KeptTold(s, s2, fd, now, t, if fd == e.fd then t.(arm := Out) else t);
    } else {
      var s2 := SetUser(Rearm(s1, e.fd, In), e.fd, UserOf(s, e.fd).(text := "", replies := 0));
      assert s2.open.Keys == s.open.Keys;
      KeptTold(s, s2, fd, now, t, if fd == e.fd then t.(arm := In, text := "") else t);
    }
  }

  lemma HandleTold(s: State, fd: nat, now: int, t: Told)
    requires Counted(s) && s.batch != [] && s.batch[0].fd in s.open && s.clock <= now && Matches(s, fd, t)
    ensures var e := s.batch[0]; Matches(HandleEvent(s.(batch := s.batch[1..]), e, now), fd,
      if e.fd == fd then TellEvent(t, e, now) else t)
  {
    var s1, e := s.(batch := s.batch[1..]), s.batch[0];
    if e.Readable? && e.ok {
      ReadTold(s, fd, now, t);
    } else if e.Writable? && e.result != Ended {
      WriteTold(s, fd, now, t);
    } else {
      hide TouchTimer, DealTimer, TimersOk;
      DealTold(s1, e.fd, fd, now, t);
    }
  }

  lemma ProcessTold(leftover: nat, s: State, a: Action, fd: nat, t: Told)
    requires Inv(leftover, s) && leftover < Response.REPLIES && a.Process? && Enabled(leftover, s, a)
    requires Matches(s, fd, t)
    ensures Matches(ProcessRequest(s, a.fd, a.code, a.fileSize, a.linger), fd, Tell(s, a, fd, t))
  {
    hide Response.ProcessWrite, TimersOk, BatchOk, AllWithin;
    ProcessKeeps(leftover, s, a.fd, a.code, a.fileSize, a.linger);
    if !a.code.NO_REQUEST? {
      TextBehind(leftover, s, a.fd, a.code, a.fileSize, a.linger);
    }
  }

  lemma TextBehind(leftover: nat, s: State, fd: nat, code: HttpCode, fileSize: nat, linger: bool)
    requires AllWithin(leftover, s) && leftover < Response.REPLIES
    requires UserOf(s, fd).waiting > 0 && Response.Produced(code)
    ensures Response.ProcessWrite(UserOf(s, fd).text, code, fileSize, linger).head ==
      UserOf(s, fd).text + Response.ProcessWrite("", code, fileSize, linger).head
  {
    hide Response.ProcessWrite;
    var u := UserOf(s, fd);
    assert Within(leftover, u, ArmOf(s, fd), EventOf(s.batch, fd));
    assert u.replies < Response.REPLIES == 8;
    Response.WrittenBehind(u.text, code, fileSize, linger);
  }

  lemma WaitTold(leftover: nat, s: State, es: seq<Event>, fd: nat, t: Told)
    requires Matches(s, fd, t) && Enabled(leftover, s, Wait(es))
    ensures Matches(Step(leftover, s, Wait(es)), fd, Tell(s, Wait(es), fd, t))
  {
    hide EventOf, DistinctFds;
  }

  lemma StepTold(leftover: nat, s: State, a: Action, fd: nat, t: Told)
    requires Inv(leftover, s) && leftover < Response.REPLIES && Enabled(leftover, s, a) && Matches(s, fd, t)
    ensures Defined(s, a) && Matches(Step(leftover, s, a), fd, Tell(s, a, fd, t))
  {
    EnabledIsDefined(leftover, s, a);
    hide TimersOk, BatchOk, AllWithin, HandleEvent, TickAll, AddClient, ProcessRequest, TellEvent,
        Response.ProcessWrite, Delivered, EventOf, Deliverable, DistinctFds, Matches;
    match a
    case Wait(es) => WaitTold(leftover, s, es, fd, t);
    case Accept(d, now) => AcceptTold(leftover, s, d, fd, now, t);
    case Handle(now) => HandleTold(s, fd, now, t);
    case Process(_, _, _, _) => ProcessTold(leftover, s, a, fd, t);
    case Tick(now) => TickTold(s, fd, now, t);
  }

  lemma {:induction false} RunTold(leftover: nat, start: int, ss: seq<State>, acts: seq<Action>, i: nat, fd: nat)
    requires IsRun(leftover, start, ss, acts) && leftover < Response.REPLIES && i <= |acts|
    ensures Matches(ss[i], fd, ToldOf(ss, acts, i, fd))
  {
    if i == 0 {
    } else {
      hide Matches, Step, Enabled, Defined;
      RunTold(leftover, start, ss, acts, i - 1, fd);
      RunKeeps(leftover, start, ss, acts, i - 1);
      EnabledIsDefined(leftover, ss[i - 1], acts[i - 1]);
      StepTold(leftover, ss[i - 1], acts[i - 1], fd, ToldOf(ss, acts, i - 1, fd));
    }
  }

  // ---------- nobody is left waiting ----------

  // An open descriptor that is not armed has an event to be handled or a request
  // in the pool, unless append_p refused its last one.
  ghost predicate Served(s: State, fd: nat, refused: bool) {
    fd in s.open && s.open[fd] == Off && EventOf(s.batch, fd) == None ==> UserOf(s, fd).waiting > 0 || refused
  }

  // What an action leaves of the event that waits for fd.
  function EventAfter(s: State, a: Action, fd: nat): Option<Event> {
    match a
    case Wait(es) => EventOf(es, fd)
    case Handle(_) => if s.batch != [] && s.batch[0].fd == fd then None else EventOf(s.batch, fd)
    case _ => EventOf(s.batch, fd)
  }

  lemma StepBatch(leftover: nat, s: State, a: Action)
    requires Inv(leftover, s) && leftover < Response.REPLIES && Enabled(leftover, s, a)
    ensures Defined(s, a)
    ensures Step(leftover, s, a).batch == match a
      case Wait(es) => es
      case Handle(_) => s.batch[1..]
      case _ => s.batch
  {
    EnabledIsDefined(leftover, s, a);
    hide Response.ProcessWrite, Inv;
  }

  lemma StepEvent(leftover: nat, s: State, a: Action, fd: nat)
    requires Inv(leftover, s) && leftover < Response.REPLIES && Enabled(leftover, s, a)
    ensures Defined(s, a) && EventOf(Step(leftover, s, a).batch, fd) == EventAfter(s, a, fd)
  {
    StepBatch(leftover, s, a);
    if a.Handle? {
      NextEvent(s.open.Keys, s.batch);
    }
  }

  lemma StepServes(leftover: nat, s: State, a: Action, fd: nat, t: Told)
    requires Inv(leftover, s) && leftover < Response.REPLIES && Enabled(leftover, s, a)
    requires Matches(s, fd, t) && Served(s, fd, t.refused)
    ensures Defined(s, a) && Served(Step(leftover, s, a), fd, Tell(s, a, fd, t).refused)
  {
    StepTold(leftover, s, a, fd, t);
    StepEvent(leftover, s, a, fd);
    hide Inv, Step, EventOf, Response.ProcessWrite, UserOf;
  }

  lemma {:induction false} RunServes(leftover: nat, start: int, ss: seq<State>, acts: seq<Action>, i: nat, fd: nat)
    requires IsRun(leftover, start, ss, acts) && leftover < Response.REPLIES && i <= |acts|
    ensures Served(ss[i], fd, ToldOf(ss, acts, i, fd).refused)
  {
    if i == 0 {
    } else {
      hide Matches, Served, Step, Enabled, Defined;
      RunServes(leftover, start, ss, acts, i - 1, fd);
      RunTold(leftover, start, ss, acts, i - 1, fd);
      RunKeeps(leftover, start, ss, acts, i - 1);
      EnabledIsDefined(leftover, ss[i - 1], acts[i - 1]);
      StepServes(leftover, ss[i - 1], acts[i - 1], fd, ToldOf(ss, acts, i - 1, fd));
    }
  }

  // ---------- the theorems ----------

  // Only a refused append_p leaves an open descriptor for ever: any other one is
  // armed, has an event in the batch, or a request in the pool.
  lemma NobodyIsStuck(leftover: nat, start: int, ss: seq<State>, acts: seq<Action>, i: nat, fd: nat)
    requires IsRun(leftover, start, ss, acts) && leftover < Response.REPLIES && i <= |acts|
    requires fd in ss[i].open && UserOf(ss[i], fd).waiting == 0 && EventOf(ss[i].batch, fd) == None
    requires !ToldOf(ss, acts, i, fd).refused
    ensures ss[i].open[fd] in {In, Out}
  {
    RunServes(leftover, start, ss, acts, i, fd);
  }

  ghost predicate Touches(s: State, a: Action, fd: nat) {
    match a
    case Wait(es) => EventOf(es, fd).Some?
    case Accept(f, _) => f == fd
    case Handle(_) => s.batch != [] && s.batch[0].fd == fd
    case Process(f, _, _, _) => f == fd
    case Tick(_) => false
  }

  lemma {:induction false} Untouched(ss: seq<State>, acts: seq<Action>, i: nat, j: nat, fd: nat)
    requires i <= j <= |acts| <= |ss| && forall k :: i <= k < j ==> !Touches(ss[k], acts[k], fd)
    ensures var t, t' := ToldOf(ss, acts, i, fd), ToldOf(ss, acts, j, fd);
      t'.arm == t.arm && t'.text == t.text && t'.waiting == t.waiting
    decreases j
  {
    if i == j {
    } else {
      Untouched(ss, acts, i, j - 1, fd);
      assert !Touches(ss[j - 1], acts[j - 1], fd);
    }
  }

  // Once a worker has put a reply into the buffer the descriptor stays armed for
  // output, the reply behind what was there, until its next event or request.
  lemma ReplyWaitsForOutput(leftover: nat, start: int, ss: seq<State>, acts: seq<Action>, i: nat, j: nat)
    requires IsRun(leftover, start, ss, acts) && leftover < Response.REPLIES && i < j <= |acts|
    requires acts[i].Process? && !acts[i].code.NO_REQUEST?
    requires forall k :: i < k < j ==> !Touches(ss[k], acts[k], acts[i].fd)
    ensures var a := acts[i];
      && (a.fd in ss[j].open ==> ss[j].open[a.fd] == Out)
      && UserOf(ss[j], a.fd).text == UserOf(ss[i], a.fd).text +
           Response.ProcessWrite("", a.code, a.fileSize, a.linger).head
  {
    hide IsRun, Response.ProcessWrite, Touches;
    var fd := acts[i].fd;
    RunLength(leftover, start, ss, acts);
    RunTold(leftover, start, ss, acts, i, fd);
    RunTold(leftover, start, ss, acts, j, fd);
    Untouched(ss, acts, i + 1, j, fd);
  }

  lemma RunLength(leftover: nat, start: int, ss: seq<State>, acts: seq<Action>)
    requires IsRun(leftover, start, ss, acts)
    ensures |ss| == |acts| + 1
  {
  }

  // A tick closes exactly the connections without activity for three slots, when
  // activity is an accept, a read or a write.
  lemma IdleAreClosed(leftover: nat, start: int, ss: seq<State>, acts: seq<Action>, i: nat, fd: nat)
    requires IsRun(leftover, start, ss, acts) && leftover < Response.REPLIES && i < |acts| && acts[i].Tick?
    ensures fd in ss[i + 1].open <==>
      fd in ss[i].open && acts[i].now < ToldOf(ss, acts, i, fd).activity + IDLE
  {
    RunTold(leftover, start, ss, acts, i, fd);
    RunTold(leftover, start, ss, acts, i + 1, fd);
  }

  // The timer list runs from the longest idle connection to the most recent one.
  lemma LongestIdleFirst(leftover: nat, start: int, ss: seq<State>, acts: seq<Action>, i: nat, j: nat, k: nat)
    requires IsRun(leftover, start, ss, acts) && leftover < Response.REPLIES && i <= |acts|
    requires j < k < |ss[i].timers|
    ensures ToldOf(ss, acts, i, ss[i].timers[j].fd).activity <= ToldOf(ss, acts, i, ss[i].timers[k].fd).activity
  {
    RunKeeps(leftover, start, ss, acts, i);
    hide IsRun, ToldOf;
    DeadlineIsTold(leftover, start, ss, acts, i, j);
    DeadlineIsTold(leftover, start, ss, acts, i, k);
  }

  lemma DeadlineIsTold(leftover: nat, start: int, ss: seq<State>, acts: seq<Action>, i: nat, k: nat)
    requires IsRun(leftover, start, ss, acts) && leftover < Response.REPLIES && i <= |acts| && k < |ss[i].timers|
    ensures ss[i].timers[k].expire == ToldOf(ss, acts, i, ss[i].timers[k].fd).activity + IDLE
  {
    var s, fd := ss[i], ss[i].timers[k].fd;
    RunKeeps(leftover, start, ss, acts, i);
    RunTold(leftover, start, ss, acts, i, fd);
    hide ToldOf, IsRun;
    assert s.lru[k] == fd && fd in s.lru;
    var j :| 0 <= j < |s.timers| && s.timers[j] == Entry(fd, ToldOf(ss, acts, i, fd).activity + IDLE);
    assert s.lru[j] == fd;
  }
}
