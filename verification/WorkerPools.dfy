// TinyWebServer's request queue with its worker threads, and the database
// connection pool each worker takes a connection from (proactor mode). Both
// pools guard a list by a mutex and count it by a semaphore that is waited on
// before the lock and posted after the unlock, so threads pass through states
// in which list and semaphore disagree. Any number of producers and workers
// interleave between these atomic steps.
module WorkerPools {
  import opened Common

  type Request = nat    // 0 is the null pointer
  type Mysql = nat      // the connections opened by init are 0, 1, ...

  // A worker: before m_queuestat.wait; past it, before the lock; in
  // GetConnection before the size test, before reserve.wait, past it before
  // the lock; working with what GetConnection returned; in ReleaseConnection
  // past the unlock, before reserve.post.
  datatype Worker =
    | Waiting
    | Woken
    | Checking(req: Request)
    | Reserving(req: Request)
    | Reserved(req: Request)
    | Working(req: Request, mysql: Option<Mysql>)
    | Returning

  datatype Config = Config(threads: nat, maxConn: nat, maxRequests: nat)

  datatype State = State(
    workqueue: seq<Request>,
    queuestat: nat,
    producers: nat,           // callers of append_p between unlock and post
    workers: seq<Worker>,
    connList: seq<Mysql>,
    reserve: nat,
    freeConn: int,
    curConn: int,
    accepted: seq<Request>,   // history
    dequeued: seq<Request>)   // history

  datatype Action =
    | Append(r: Request)
    | Post
    | Wait(w: nat)
    | Pop(w: nat)
    | CheckSize(w: nat)
    | Reserve(w: nat)
    | Take(w: nat)
    | Release(w: nat)
    | PostReserve(w: nat)

  function Init(cfg: Config): State {
    State([], 0, 0, seq(cfg.threads, _ => Waiting), seq(cfg.maxConn, i => i), cfg.maxConn, cfg.maxConn, 0, [], [])
  }

  predicate Enabled(s: State, a: Action) {
    match a
    case Append(_) => true
    case Post => s.producers > 0
    case Wait(w) => w < |s.workers| && s.workers[w].Waiting? && s.queuestat > 0
    case Pop(w) => w < |s.workers| && s.workers[w].Woken?
    case CheckSize(w) => w < |s.workers| && s.workers[w].Checking?
    case Reserve(w) => w < |s.workers| && s.workers[w].Reserving? && s.reserve > 0
    case Take(w) => w < |s.workers| && s.workers[w].Reserved?
    case Release(w) => w < |s.workers| && s.workers[w].Working?
    case PostReserve(w) => w < |s.workers| && s.workers[w].Returning?
  }

  // front and pop_front on an empty list would be undefined.
  predicate Defined(s: State, a: Action) {
    a.Take? ==> s.connList != []
  }

  function Step(cfg: Config, s: State, a: Action): State
    requires Enabled(s, a) && Defined(s, a)
  {
    match a
    case Append(r) =>
      if |s.workqueue| >= cfg.maxRequests then s
      else s.(workqueue := s.workqueue + [r], accepted := s.accepted + [r], producers := s.producers + 1)
    case Post => s.(producers := s.producers - 1, queuestat := s.queuestat + 1)
    case Wait(w) => s.(queuestat := s.queuestat - 1, workers := s.workers[w := Woken])
    case Pop(w) =>
      if s.workqueue == [] then s.(workers := s.workers[w := Waiting])
      else
        var r := s.workqueue[0];
        s.(workqueue := s.workqueue[1..], dequeued := s.dequeued + [r],
           workers := s.workers[w := if r == 0 then Waiting else Checking(r)])
    case CheckSize(w) =>
      var r := s.workers[w].req;
      s.(workers := s.workers[w := if s.connList == [] then Working(r, None) else Reserving(r)])
    case Reserve(w) => s.(reserve := s.reserve - 1, workers := s.workers[w := Reserved(s.workers[w].req)])
    case Take(w) =>
      s.(connList := s.connList[1..], freeConn := s.freeConn - 1, curConn := s.curConn + 1,
         workers := s.workers[w := Working(s.workers[w].req, Some(s.connList[0]))])
    case Release(w) =>
      if s.workers[w].mysql == None then s.(workers := s.workers[w := Waiting])
      else
        s.(connList := s.connList + [s.workers[w].mysql.value], freeConn := s.freeConn + 1, curConn := s.curConn - 1,
           workers := s.workers[w := Returning])
    case PostReserve(w) => s.(reserve := s.reserve + 1, workers := s.workers[w := Waiting])
  }

  ghost predicate IsRun(cfg: Config, ss: seq<State>, acts: seq<Action>) {
    && |ss| == |acts| + 1 && ss[0] == Init(cfg)
    && forall i :: 0 <= i < |acts| ==>
         Enabled(ss[i], acts[i]) && (Defined(ss[i], acts[i]) ==> ss[i + 1] == Step(cfg, ss[i], acts[i]))
  }

  // ---------- counting workers ----------

  datatype Kind = KWoken | KHolding | KReserved | KReturning | KOther

  function KindOf(w: Worker): Kind {
    match w
    case Woken => KWoken
    case Reserved(_) => KReserved
    case Working(_, m) => if m.Some? then KHolding else KOther
    case Returning => KReturning
    case _ => KOther
  }

  function One(b: bool): nat { if b then 1 else 0 }

  function Tally(ws: seq<Worker>, k: Kind): nat {
    if ws == [] then 0 else One(KindOf(ws[0]) == k) + Tally(ws[1..], k)
  }

  function Holds(w: Worker, c: Mysql): bool {
    w.Working? && w.mysql == Some(c)
  }

  function Holders(ws: seq<Worker>, c: Mysql): nat {
    if ws == [] then 0 else One(Holds(ws[0], c)) + Holders(ws[1..], c)
  }

  lemma {:induction false} TallyUpdate(ws: seq<Worker>, w: nat, x: Worker, k: Kind)
    requires w < |ws|
    ensures Tally(ws[w := x], k) + One(KindOf(ws[w]) == k) == Tally(ws, k) + One(KindOf(x) == k)
  {
    if w > 0 {
      TallyUpdate(ws[1..], w - 1, x, k);
      assert ws[w := x][1..] == ws[1..][w - 1 := x];
    } else {
      assert ws[w := x][1..] == ws[1..];
    }
  }

  lemma {:induction false} HoldersUpdate(ws: seq<Worker>, w: nat, x: Worker, c: Mysql)
    requires w < |ws|
    ensures Holders(ws[w := x], c) + One(Holds(ws[w], c)) == Holders(ws, c) + One(Holds(x, c))
  {
    if w > 0 {
      HoldersUpdate(ws[1..], w - 1, x, c);
      assert ws[w := x][1..] == ws[1..][w - 1 := x];
    } else {
      assert ws[w := x][1..] == ws[1..];
    }
  }

  // A worker of another kind leaves at most all others for the three kinds
  // that keep a connection or its semaphore unit out of the pool.
  lemma {:induction false} TallyBound(ws: seq<Worker>)
    ensures Tally(ws, KHolding) + Tally(ws, KReserved) + Tally(ws, KReturning) <= |ws|
    ensures (exists w :: 0 <= w < |ws| && KindOf(ws[w]) == KOther) ==>
      Tally(ws, KHolding) + Tally(ws, KReserved) + Tally(ws, KReturning) < |ws|
  {
    if ws == [] {
    } else {
      TallyBound(ws[1..]);
      if w :| 0 <= w < |ws| && KindOf(ws[w]) == KOther && w > 0 {
        assert KindOf(ws[1..][w - 1]) == KOther;
      }
    }
  }

  lemma {:induction false} TallyZero(ws: seq<Worker>, k: Kind)
    requires forall w :: 0 <= w < |ws| ==> ws[w].Waiting?
    requires k != KOther
    ensures Tally(ws, k) == 0
  {
    if ws == [] {
    } else {
      TallyZero(ws[1..], k);
    }
  }

  lemma {:induction false} HoldersZero(ws: seq<Worker>, c: Mysql)
    requires forall w :: 0 <= w < |ws| ==> ws[w].Waiting?
    ensures Holders(ws, c) == 0
  {
    if ws == [] {
    } else {
      HoldersZero(ws[1..], c);
    }
  }

  lemma {:induction false} TallyPositive(ws: seq<Worker>, w: nat)
    requires w < |ws|
    ensures Tally(ws, KindOf(ws[w])) > 0
  {
    if w == 0 {
    } else {
      TallyPositive(ws[1..], w - 1);
    }
  }

  lemma {:induction false} TallyWitness(ws: seq<Worker>, k: Kind)
    requires Tally(ws, k) > 0
    ensures exists w :: 0 <= w < |ws| && KindOf(ws[w]) == k
  {
    if KindOf(ws[0]) == k {
    } else {
      TallyWitness(ws[1..], k);
      var w :| 0 <= w < |ws[1..]| && KindOf(ws[1..][w]) == k;
      assert KindOf(ws[w + 1]) == k;
    }
  }

  // ---------- the invariant ----------

  ghost predicate QueueInv(cfg: Config, s: State) {
    && |s.workqueue| == s.queuestat + s.producers + Tally(s.workers, KWoken)
    && |s.workqueue| <= cfg.maxRequests
    && s.accepted == s.dequeued + s.workqueue
  }

  ghost predicate ConnInv(cfg: Config, s: State) {
    && |s.connList| == s.reserve + Tally(s.workers, KReserved) + Tally(s.workers, KReturning)
    && s.freeConn == |s.connList| && s.curConn == Tally(s.workers, KHolding)
    && s.freeConn + s.curConn == cfg.maxConn
  }

  // Every connection is in the list or in one worker's hands, exactly once.
  ghost predicate Conserved(cfg: Config, s: State) {
    forall c: Mysql :: multiset(s.connList)[c] + Holders(s.workers, c) == One(c < cfg.maxConn)
  }

  ghost predicate Inv(cfg: Config, s: State) {
    |s.workers| == cfg.threads && QueueInv(cfg, s) && ConnInv(cfg, s) && Conserved(cfg, s)
  }

  lemma {:induction false} CountInit(n: nat, c: Mysql)
    ensures multiset(seq(n, i => i))[c] == One(c < n)
  {
    if n == 0 {
    } else {
      CountInit(n - 1, c);
      assert seq(n, i => i) == seq(n - 1, i => i) + [n - 1];
    }
  }

  lemma InitHolds(cfg: Config)
    ensures Inv(cfg, Init(cfg))
  {
    var ws := Init(cfg).workers;
    TallyZero(ws, KWoken);
    TallyZero(ws, KReserved);
    TallyZero(ws, KReturning);
    TallyZero(ws, KHolding);
    forall c: Mysql
      ensures multiset(Init(cfg).connList)[c] + Holders(ws, c) == One(c < cfg.maxConn)
    {
      HoldersZero(ws, c);
      CountInit(cfg.maxConn, c);
    }
  }

  lemma QueueKept(cfg: Config, s: State, a: Action)
    requires QueueInv(cfg, s) && Enabled(s, a) && Defined(s, a)
    ensures QueueInv(cfg, Step(cfg, s, a))
  {
    var s' := Step(cfg, s, a);
    if !a.Append? && !a.Post? {
      TallyUpdate(s.workers, a.w, s'.workers[a.w], KWoken);
    }
    if a.Pop? && s.workqueue != [] {
      assert s.workqueue == [s.workqueue[0]] + s.workqueue[1..];
    }
  }

  lemma ConnKept(cfg: Config, s: State, a: Action)
    requires ConnInv(cfg, s) && Enabled(s, a) && Defined(s, a)
    ensures ConnInv(cfg, Step(cfg, s, a))
  {
    hide Tally;
    var s' := Step(cfg, s, a);
    if !a.Append? && !a.Post? {
      TallyUpdate(s.workers, a.w, s'.workers[a.w], KReserved);
      TallyUpdate(s.workers, a.w, s'.workers[a.w], KReturning);
      TallyUpdate(s.workers, a.w, s'.workers[a.w], KHolding);
    }
  }

  lemma ConservedFor(cfg: Config, s: State, a: Action, c: Mysql)
    requires multiset(s.connList)[c] + Holders(s.workers, c) == One(c < cfg.maxConn) && Enabled(s, a) && Defined(s, a)
    ensures var s' := Step(cfg, s, a); multiset(s'.connList)[c] + Holders(s'.workers, c) == One(c < cfg.maxConn)
  {
    var s' := Step(cfg, s, a);
    if !a.Append? && !a.Post? {
      HoldersUpdate(s.workers, a.w, s'.workers[a.w], c);
    }
    if a.Take? {
      assert s.connList == [s.connList[0]] + s.connList[1..];
    }
  }

  lemma ConservedKept(cfg: Config, s: State, a: Action)
    requires Conserved(cfg, s) && Enabled(s, a) && Defined(s, a)
    ensures Conserved(cfg, Step(cfg, s, a))
  {
    hide Step, Holders, Enabled, Defined;
    forall c: Mysql
      ensures multiset(Step(cfg, s, a).connList)[c] + Holders(Step(cfg, s, a).workers, c) == One(c < cfg.maxConn)
    {
      ConservedFor(cfg, s, a, c);
    }
  }

  lemma TakeIsDefined(cfg: Config, s: State, a: Action)
    requires ConnInv(cfg, s) && Enabled(s, a)
    ensures Defined(s, a)
  {
    if a.Take? {
      TallyPositive(s.workers, a.w);
    }
  }

  lemma StepKeeps(cfg: Config, s: State, a: Action)
    requires Inv(cfg, s) && Enabled(s, a)
    ensures Defined(s, a) && Inv(cfg, Step(cfg, s, a))
  {
    hide QueueInv, ConnInv, Conserved;
    TakeIsDefined(cfg, s, a);
    QueueKept(cfg, s, a);
    ConnKept(cfg, s, a);
    ConservedKept(cfg, s, a);
  }

  lemma {:induction false} RunKeeps(cfg: Config, ss: seq<State>, acts: seq<Action>, i: nat)
    requires IsRun(cfg, ss, acts) && i <= |acts|
    ensures Inv(cfg, ss[i])
  {
    if i == 0 {
      InitHolds(cfg);
    } else {
      RunKeeps(cfg, ss, acts, i - 1);
      StepKeeps(cfg, ss[i - 1], acts[i - 1]);
    }
  }

  // ---------- the request queue ----------

  // What the actions alone tell: how many requests were popped, which ones
  // append_p took (those that came while there was room), and the request a
  // worker has, from the pop of one that is not null to its release.
  function Pops(acts: seq<Action>): nat {
    if acts == [] then 0 else Pops(acts[..|acts| - 1]) + One(acts[|acts| - 1].Pop?)
  }

  function Accepted(cfg: Config, acts: seq<Action>): seq<Request> {
    if acts == [] then []
    else
      var before := acts[..|acts| - 1];
      match acts[|acts| - 1]
      case Append(r) =>
        if |Accepted(cfg, before)| - Pops(before) < cfg.maxRequests then Accepted(cfg, before) + [r]
        else Accepted(cfg, before)
      case _ => Accepted(cfg, before)
  }

  function Given(cfg: Config, acts: seq<Action>, w: nat): Option<Request> {
    if acts == [] then None
    else
      var before, a := acts[..|acts| - 1], acts[|acts| - 1];
      if a == Pop(w) && Pops(before) < |Accepted(cfg, before)| then
        var r := Accepted(cfg, before)[Pops(before)];
        if r == 0 then None else Some(r)
      else if a == Release(w) then None
      else Given(cfg, before, w)
  }

  function ReqOf(w: Worker): Option<Request> {
    match w
    case Checking(r) => Some(r)
    case Reserving(r) => Some(r)
    case Reserved(r) => Some(r)
    case Working(r, _) => Some(r)
    case _ => None
  }

  ghost predicate Told(cfg: Config, s: State, acts: seq<Action>) {
    && Pops(acts) <= |Accepted(cfg, acts)|
    && s.accepted == Accepted(cfg, acts) && s.dequeued == s.accepted[..Pops(acts)]
    && s.workqueue == s.accepted[Pops(acts)..]
    && forall w :: 0 <= w < |s.workers| ==> ReqOf(s.workers[w]) == Given(cfg, acts, w)
  }

  lemma QueueTold(cfg: Config, s: State, acts: seq<Action>, a: Action)
    requires Told(cfg, s, acts) && Enabled(s, a) && Defined(s, a) && (a.Pop? ==> s.workqueue != [])
    ensures var s', acts' := Step(cfg, s, a), acts + [a];
      && Pops(acts') <= |Accepted(cfg, acts')|
      && s'.accepted == Accepted(cfg, acts') && s'.dequeued == s'.accepted[..Pops(acts')]
      && s'.workqueue == s'.accepted[Pops(acts')..]
  {
    hide Given;
    assert (acts + [a])[..|acts|] == acts;
  }

  lemma WorkerTold(cfg: Config, s: State, acts: seq<Action>, a: Action, w: nat)
    requires Told(cfg, s, acts) && Enabled(s, a) && Defined(s, a) && (a.Pop? ==> s.workqueue != [])
    requires w < |s.workers|
    ensures ReqOf(Step(cfg, s, a).workers[w]) == Given(cfg, acts + [a], w)
  {
    assert (acts + [a])[..|acts|] == acts && ReqOf(s.workers[w]) == Given(cfg, acts, w);
    hide Accepted, Pops;
    if a.Append? || a.Post? || a.w != w {
      assert Step(cfg, s, a).workers[w] == s.workers[w];
    } else if a.Pop? {
      assert s.workqueue[0] == s.accepted[Pops(acts)];
    } else {
      assert Given(cfg, acts + [a], w) == if a.Release? then None else Given(cfg, acts, w);
    }
  }

  lemma {:induction false} RunTold(cfg: Config, ss: seq<State>, acts: seq<Action>, i: nat)
    requires IsRun(cfg, ss, acts) && i <= |acts|
    ensures Told(cfg, ss[i], acts[..i]) && |ss[i].workers| == cfg.threads
  {
    if i == 0 {
    } else {
      var s, a := ss[i - 1], acts[i - 1];
      RunTold(cfg, ss, acts, i - 1);
      RunKeeps(cfg, ss, acts, i - 1);
      StepTold(cfg, s, acts[..i - 1], a);
      assert acts[..i - 1] + [a] == acts[..i];
    }
  }

  lemma StepTold(cfg: Config, s: State, acts: seq<Action>, a: Action)
    requires Inv(cfg, s) && Told(cfg, s, acts) && Enabled(s, a)
    ensures Defined(s, a) && Told(cfg, Step(cfg, s, a), acts + [a]) && |Step(cfg, s, a).workers| == |s.workers|
  {
    if a.Pop? {
      TallyPositive(s.workers, a.w);
    }
    TakeIsDefined(cfg, s, a);
    QueueTold(cfg, s, acts, a);
    hide Accepted, Given, Pops, Inv, ReqOf;
    forall w: nat | w < |s.workers|
      ensures ReqOf(Step(cfg, s, a).workers[w]) == Given(cfg, acts + [a], w)
    {
      WorkerTold(cfg, s, acts, a, w);
    }
  }

  // Every request that comes while there is room is taken, in order; the k-th
  // pop hands out the k-th of them, and the worker that popped it works on it
  // and on nothing else until it releases its connection.
  lemma RequestsReachWorkers(cfg: Config, ss: seq<State>, acts: seq<Action>, i: nat)
    requires IsRun(cfg, ss, acts) && i <= |acts|
    ensures Pops(acts[..i]) <= |Accepted(cfg, acts[..i])|
    ensures ss[i].workqueue == Accepted(cfg, acts[..i])[Pops(acts[..i])..]
    ensures |ss[i].workers| == cfg.threads
    ensures forall w :: 0 <= w < cfg.threads ==> ReqOf(ss[i].workers[w]) == Given(cfg, acts[..i], w)
  {
    RunTold(cfg, ss, acts, i);
  }

  // The queue length is the semaphore plus the threads in between; it never
  // passes the limit; requests leave in the order they were accepted, each
  // once; and a worker that got past the semaphore never finds it empty.
  lemma RequestQueueIsSafe(cfg: Config, ss: seq<State>, acts: seq<Action>, i: nat)
    requires IsRun(cfg, ss, acts) && i <= |acts|
    ensures |ss[i].workqueue| == ss[i].queuestat + ss[i].producers + Tally(ss[i].workers, KWoken)
    ensures |ss[i].workqueue| <= cfg.maxRequests
    ensures ss[i].accepted == ss[i].dequeued + ss[i].workqueue
    ensures i < |acts| && acts[i].Pop? ==> ss[i].workqueue != []
  {
    RunKeeps(cfg, ss, acts, i);
    if i < |acts| && acts[i].Pop? {
      TallyPositive(ss[i].workers, acts[i].w);
    }
  }

  // ---------- the connection pool ----------

  // What the actions alone tell: how many connections were taken, all that were
  // ever put into the list, in order, and the one a worker has in its hand.
  function Takes(acts: seq<Action>): nat {
    if acts == [] then 0 else Takes(acts[..|acts| - 1]) + One(acts[|acts| - 1].Take?)
  }

  function Offered(cfg: Config, acts: seq<Action>): seq<Mysql>
    decreases |acts|, 1
  {
    if acts == [] then seq(cfg.maxConn, i => i)
    else
      var before := acts[..|acts| - 1];
      match acts[|acts| - 1]
      case Release(w) =>
        var c := Hand(cfg, before, w);
        Offered(cfg, before) + if c.Some? then [c.value] else []
      case _ => Offered(cfg, before)
  }

  function Hand(cfg: Config, acts: seq<Action>, w: nat): Option<Mysql>
    decreases |acts|, 0
  {
    if acts == [] then None
    else
      var before, a := acts[..|acts| - 1], acts[|acts| - 1];
      if a == Take(w) && Takes(before) < |Offered(cfg, before)| then Some(Offered(cfg, before)[Takes(before)])
      else if a == Release(w) then None
      else Hand(cfg, before, w)
  }

  function MysqlOf(w: Worker): Option<Mysql> {
    if w.Working? then w.mysql else None
  }

  ghost predicate HandsTold(cfg: Config, s: State, acts: seq<Action>) {
    && Takes(acts) <= |Offered(cfg, acts)| && s.connList == Offered(cfg, acts)[Takes(acts)..]
    && forall w :: 0 <= w < |s.workers| ==> MysqlOf(s.workers[w]) == Hand(cfg, acts, w)
  }

  lemma ListTold(cfg: Config, s: State, acts: seq<Action>, a: Action)
    requires HandsTold(cfg, s, acts) && Enabled(s, a) && Defined(s, a)
    ensures var s', acts' := Step(cfg, s, a), acts + [a];
      Takes(acts') <= |Offered(cfg, acts')| && s'.connList == Offered(cfg, acts')[Takes(acts')..]
  {
    assert (acts + [a])[..|acts|] == acts;
    if a.Release? {
      assert MysqlOf(s.workers[a.w]) == Hand(cfg, acts, a.w);
    }
  }

  lemma HandTold(cfg: Config, s: State, acts: seq<Action>, a: Action, w: nat)
    requires HandsTold(cfg, s, acts) && Enabled(s, a) && Defined(s, a) && w < |s.workers|
    ensures MysqlOf(Step(cfg, s, a).workers[w]) == Hand(cfg, acts + [a], w)
  {
    assert (acts + [a])[..|acts|] == acts && MysqlOf(s.workers[w]) == Hand(cfg, acts, w);
    hide Offered, Takes;
    if a.Append? || a.Post? || a.w != w {
      assert Step(cfg, s, a).workers[w] == s.workers[w];
    }
  }

  lemma StepHands(cfg: Config, s: State, acts: seq<Action>, a: Action)
    requires HandsTold(cfg, s, acts) && Enabled(s, a) && Defined(s, a)
    ensures HandsTold(cfg, Step(cfg, s, a), acts + [a]) && |Step(cfg, s, a).workers| == |s.workers|
  {
    ListTold(cfg, s, acts, a);
    hide Offered, Hand, Takes, MysqlOf;
    forall w: nat | w < |s.workers|
      ensures MysqlOf(Step(cfg, s, a).workers[w]) == Hand(cfg, acts + [a], w)
    {
      HandTold(cfg, s, acts, a, w);
    }
  }

  // Connections are handed out in the order in which they came back, and a worker
  // has the one it was handed until it gives it back.
  lemma {:induction false} ConnectionsGoRound(cfg: Config, ss: seq<State>, acts: seq<Action>, i: nat)
    requires IsRun(cfg, ss, acts) && i <= |acts|
    ensures HandsTold(cfg, ss[i], acts[..i])
  {
    if i == 0 {
    } else {
      var s, a := ss[i - 1], acts[i - 1];
      ConnectionsGoRound(cfg, ss, acts, i - 1);
      RunKeeps(cfg, ss, acts, i - 1);
      hide HandsTold, Inv, Step;
      InvIsConn(cfg, s);
      TakeIsDefined(cfg, s, a);
      StepHands(cfg, s, acts[..i - 1], a);
      assert acts[..i - 1] + [a] == acts[..i];
    }
  }

  lemma InvIsConn(cfg: Config, s: State)
    requires Inv(cfg, s)
    ensures ConnInv(cfg, s)
  {
  }

  // At every unlock the counters agree with the list, free plus used is the
  // size of the pool, and each connection is in the list or in one hand.
  lemma ConnectionsAreConserved(cfg: Config, ss: seq<State>, acts: seq<Action>, i: nat)
    requires IsRun(cfg, ss, acts) && i <= |acts|
    ensures ss[i].freeConn == |ss[i].connList| && ss[i].freeConn + ss[i].curConn == cfg.maxConn
    ensures forall c: Mysql :: multiset(ss[i].connList)[c] + Holders(ss[i].workers, c) == One(c < cfg.maxConn)
    ensures i < |acts| ==> Defined(ss[i], acts[i])
  {
    RunKeeps(cfg, ss, acts, i);
    if i < |acts| {
      TakeIsDefined(cfg, ss[i], acts[i]);
    }
  }

  lemma {:induction false} HoldersAtLeast(ws: seq<Worker>, w: nat, c: Mysql)
    requires w < |ws| && Holds(ws[w], c)
    ensures Holders(ws, c) >= 1
    ensures forall v :: 0 <= v < |ws| && v != w && Holds(ws[v], c) ==> Holders(ws, c) >= 2
  {
    if w > 0 {
      HoldersAtLeast(ws[1..], w - 1, c);
      forall v | 0 <= v < |ws| && v != w && Holds(ws[v], c)
        ensures Holders(ws, c) >= 2
      {
        if v > 0 {
          assert Holds(ws[1..][v - 1], c);
        }
      }
    } else {
      forall v | 0 < v < |ws| && Holds(ws[v], c)
        ensures Holders(ws, c) >= 2
      {
        HoldersAtLeast(ws[1..], v - 1, c);
      }
    }
  }

  // No connection is in two hands, or in a hand and in the list.
  lemma OneHandEach(cfg: Config, ss: seq<State>, acts: seq<Action>, i: nat, w: nat, c: Mysql)
    requires IsRun(cfg, ss, acts) && i <= |acts| && w < |ss[i].workers| && Holds(ss[i].workers[w], c)
    ensures c < cfg.maxConn && c !in ss[i].connList
    ensures forall v :: 0 <= v < |ss[i].workers| && Holds(ss[i].workers[v], c) ==> v == w
  {
    RunKeeps(cfg, ss, acts, i);
    HoldersAtLeast(ss[i].workers, w, c);
  }

  ghost predicate Busy(s: State, w: nat, v: nat) {
    v < |s.workers| && v != w && (s.workers[v].Reserved? || s.workers[v].Returning? || KindOf(s.workers[v]) == KHolding)
  }

  // A worker blocked on the semaphore of a non-empty pool always waits for
  // another worker that holds a connection or is taking or returning one.
  lemma BlockedWaitsForSomeone(cfg: Config, ss: seq<State>, acts: seq<Action>, i: nat, w: nat)
    requires IsRun(cfg, ss, acts) && i <= |acts| && cfg.maxConn > 0
    requires w < |ss[i].workers| && ss[i].workers[w].Reserving? && ss[i].reserve == 0
    ensures exists v :: Busy(ss[i], w, v)
  {
    RunKeeps(cfg, ss, acts, i);
    var s := ss[i];
    var k := if Tally(s.workers, KHolding) > 0 then KHolding
             else if Tally(s.workers, KReserved) > 0 then KReserved else KReturning;
    TallyWitness(s.workers, k);
    var v :| 0 <= v < |s.workers| && KindOf(s.workers[v]) == k;
    assert Busy(s, w, v);
  }

  // With no more workers than connections GetConnection never sees an empty
  // list, so it never returns NULL, and never blocks either.
  lemma EnoughConnections(cfg: Config, ss: seq<State>, acts: seq<Action>, i: nat, w: nat)
    requires IsRun(cfg, ss, acts) && i <= |acts| && cfg.threads <= cfg.maxConn
    requires w < |ss[i].workers|
    ensures ss[i].workers[w].Checking? ==> ss[i].connList != []
    ensures ss[i].workers[w].Reserving? ==> ss[i].reserve > 0
  {
    RunKeeps(cfg, ss, acts, i);
    TallyBound(ss[i].workers);
    if ss[i].workers[w].Checking? || ss[i].workers[w].Reserving? {
      assert KindOf(ss[i].workers[w]) == KOther;
    }
  }

  ghost predicate HasNull(s: State, w: nat) {
    w < |s.workers| && s.workers[w].Working? && s.workers[w].mysql == None
  }

  // So every worker that works has a connection.
  lemma {:induction false} NeverNull(cfg: Config, ss: seq<State>, acts: seq<Action>, i: nat, w: nat)
    requires IsRun(cfg, ss, acts) && i <= |acts| && cfg.threads <= cfg.maxConn
    ensures !HasNull(ss[i], w)
  {
    if i == 0 {
    } else {
      NeverNull(cfg, ss, acts, i - 1, w);
      RunKeeps(cfg, ss, acts, i - 1);
      TakeIsDefined(cfg, ss[i - 1], acts[i - 1]);
      RunTold(cfg, ss, acts, i - 1);
      if w < cfg.threads {
        EnoughConnections(cfg, ss, acts, i - 1, w);
        StepNotNull(cfg, ss[i - 1], acts[i - 1], w);
      } else {
        RunTold(cfg, ss, acts, i);
      }
    }
  }

  lemma StepNotNull(cfg: Config, s: State, a: Action, w: nat)
    requires Enabled(s, a) && Defined(s, a) && w < |s.workers| && !HasNull(s, w)
    requires s.workers[w].Checking? ==> s.connList != []
    ensures !HasNull(Step(cfg, s, a), w)
  {
  }

  // ---------- exactly when GetConnection can return NULL ----------

  ghost predicate Reaches(cfg: Config, s: State) {
    exists ss, acts :: IsRun(cfg, ss, acts) && ss[|acts|] == s
  }

  ghost predicate CanReturnNull(cfg: Config) {
    exists s, w: nat :: Reaches(cfg, s) && HasNull(s, w)
  }

  lemma ReachesInit(cfg: Config)
    ensures Reaches(cfg, Init(cfg))
  {
    var ss, acts := [Init(cfg)], [];
    assert IsRun(cfg, ss, acts) && ss[|acts|] == Init(cfg);
  }

  lemma ReachesStep(cfg: Config, s: State, a: Action)
    requires Reaches(cfg, s) && Enabled(s, a) && Defined(s, a)
    ensures Reaches(cfg, Step(cfg, s, a))
  {
    var ss, acts :| IsRun(cfg, ss, acts) && ss[|acts|] == s;
    var ss', acts' := ss + [Step(cfg, s, a)], acts + [a];
    assert IsRun(cfg, ss', acts') && ss'[|acts'|] == Step(cfg, s, a);
  }

  // The first k workers each serve request 1 on a connection of their own.
  function Serving(cfg: Config, k: nat): State
    requires k <= cfg.threads && k <= cfg.maxConn
  {
    State([], 0, 0, seq(cfg.threads, w requires w >= 0 => if w < k then Working(1, Some(w)) else Waiting),
          seq(cfg.maxConn - k, i => i + k), cfg.maxConn - k, cfg.maxConn - k, k,
          seq(k, _ => 1), seq(k, _ => 1))
  }

  // The next worker has a request and is in GetConnection.
  function Arriving(cfg: Config, k: nat): State
    requires k < cfg.threads && k <= cfg.maxConn
  {
    var s := Serving(cfg, k);
    s.(workers := s.workers[k := Checking(1)], accepted := s.accepted + [1], dequeued := s.dequeued + [1])
  }

  lemma ReachesArriving(cfg: Config, k: nat)
    requires k < cfg.threads && k <= cfg.maxConn && cfg.maxRequests > 0 && Reaches(cfg, Serving(cfg, k))
    ensures Reaches(cfg, Arriving(cfg, k))
  {
    var s0 := Serving(cfg, k);
    ReachesStep(cfg, s0, Append(1));
    var s1 := Step(cfg, s0, Append(1));
    ReachesStep(cfg, s1, Post);
    var s2 := Step(cfg, s1, Post);
    ReachesStep(cfg, s2, Wait(k));
    var s3 := Step(cfg, s2, Wait(k));
    ReachesStep(cfg, s3, Pop(k));
    assert Step(cfg, s3, Pop(k)).workers == Arriving(cfg, k).workers;
    assert Step(cfg, s3, Pop(k)) == Arriving(cfg, k);
  }

  lemma {:induction false} ReachesServing(cfg: Config, k: nat)
    requires k <= cfg.threads && k <= cfg.maxConn && cfg.maxRequests > 0
    ensures Reaches(cfg, Serving(cfg, k))
  {
    if k == 0 {
      ReachesInit(cfg);
      assert Serving(cfg, 0).workers == Init(cfg).workers && Serving(cfg, 0).connList == Init(cfg).connList;
    } else {
      hide Reaches;
      var j := k - 1;
      ReachesServing(cfg, j);
      ReachesArriving(cfg, j);
      var s0 := Arriving(cfg, j);
      ReachesStep(cfg, s0, CheckSize(j));
      var s1 := Step(cfg, s0, CheckSize(j));
      ReachesStep(cfg, s1, Reserve(j));
      var s2 := Step(cfg, s1, Reserve(j));
      ReachesStep(cfg, s2, Take(j));
      var s3 := Step(cfg, s2, Take(j));
      assert s3.workers == Serving(cfg, k).workers && s3.connList == Serving(cfg, k).connList;
      assert s3.accepted == Serving(cfg, k).accepted && s3.dequeued == Serving(cfg, k).dequeued;
    }
  }

  // Some schedule makes GetConnection return NULL exactly when there are more
  // workers than connections.
  lemma NullExactlyWhenWorkersOutnumber(cfg: Config)
    requires cfg.maxRequests > 0
    ensures CanReturnNull(cfg) <==> cfg.threads > cfg.maxConn
  {
    if cfg.threads > cfg.maxConn {
      var k := cfg.maxConn;
      ReachesServing(cfg, k);
      ReachesArriving(cfg, k);
      ReachesStep(cfg, Arriving(cfg, k), CheckSize(k));
      assert HasNull(Step(cfg, Arriving(cfg, k), CheckSize(k)), k);
    } else {
      forall s, w: nat | Reaches(cfg, s)
        ensures !HasNull(s, w)
      {
        var ss, acts :| IsRun(cfg, ss, acts) && ss[|acts|] == s;
        NeverNull(cfg, ss, acts, |acts|, w);
      }
    }
  }

  // ---------- the code of the two pools, between interruptions ----------

  class RequestQueue {
    const maxRequests: nat
    var workqueue: seq<Request>
    var queuestat: nat

    constructor (maxRequests: nat)
      requires maxRequests > 0
      ensures this.maxRequests == maxRequests && workqueue == [] && queuestat == 0
    {
      this.maxRequests := maxRequests;
      workqueue, queuestat := [], 0;
    }

    method AppendP(r: Request) returns (ok: bool)
      modifies this
      ensures ok == (|old(workqueue)| < maxRequests)
      ensures workqueue == if ok then old(workqueue) + [r] else old(workqueue)
      ensures queuestat == old(queuestat) + One(ok)
    {
      if |workqueue| >= maxRequests {
        return false;
      }
      workqueue := workqueue + [r];
      queuestat := queuestat + 1;
      return true;
    }

    // One round of run, up to the request; None for an empty queue or a null request.
    method NextRequest() returns (r: Option<Request>)
      requires queuestat > 0
      modifies this
      ensures queuestat == old(queuestat) - 1
      ensures old(workqueue) == [] ==> r == None && workqueue == []
      ensures old(workqueue) != [] ==>
        workqueue == old(workqueue)[1..] && r == if old(workqueue)[0] == 0 then None else Some(old(workqueue)[0])
    {
      queuestat := queuestat - 1;
      if workqueue == [] {
        return None;
      }
      var request := workqueue[0];
      workqueue := workqueue[1..];
      if request == 0 {
        return None;
      }
      return Some(request);
    }
  }

  class ConnectionPool {
    var maxConn: nat
    var curConn: int
    var freeConn: int
    var connList: seq<Mysql>
    var reserve: nat

    ghost predicate Settled()
      reads this
    {
      reserve == freeConn == |connList| && freeConn + curConn == maxConn
    }

    // The constructor and init: open maxConn connections.
    constructor (maxConn: nat)
      ensures Settled() && curConn == 0 && this.maxConn == maxConn
      ensures |connList| == maxConn && forall i :: 0 <= i < maxConn ==> connList[i] == i
    {
      curConn, freeConn, connList := 0, 0, [];
      new;
      for i := 0 to maxConn
        invariant freeConn == |connList| == i && curConn == 0
        invariant forall j :: 0 <= j < i ==> connList[j] == j
      {
        connList := connList + [i];
        freeConn := freeConn + 1;
      }
      reserve := freeConn;
      this.maxConn := freeConn;
    }

    // Run to its end without another thread in between.
    method GetConnection() returns (con: Option<Mysql>)
      requires Settled()
      modifies this
      ensures Settled() && maxConn == old(maxConn)
      ensures con == if old(connList) == [] then None else Some(old(connList)[0])
      ensures connList == if con == None then old(connList) else old(connList)[1..]
    {
      if |connList| == 0 {
        return None;
      }
      reserve := reserve - 1;
      con := Some(connList[0]);
      connList := connList[1..];
      freeConn := freeConn - 1;
      curConn := curConn + 1;
    }

    method ReleaseConnection(con: Option<Mysql>) returns (ok: bool)
      requires Settled()
      modifies this
      ensures Settled() && maxConn == old(maxConn) && ok == con.Some?
      ensures connList == if ok then old(connList) + [con.value] else old(connList)
    {
      if con == None {
        return false;
      }
      connList := connList + [con.value];
      freeConn := freeConn + 1;
      curConn := curConn - 1;
      reserve := reserve + 1;
      return true;
    }
  }
}
