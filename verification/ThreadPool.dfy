// The thread pool of cpp_server: a task queue under a mutex, a condition
// variable, and a destructor that stops and joins the workers. Each action is
// one critical section, one notification or the run of one task.
module ThreadPool {
  import opened Common

  type Task = nat

  // Check: holding the lock, about to evaluate the wait predicate.
  datatype Worker = Check | Asleep | Run(task: Task) | Exited

  datatype State = State(
    taskQueue: seq<Task>,
    stop: bool,
    workers: seq<Worker>,
    notifyOnes: nat,          // calls of add between unlocking and notify_one
    notifyAll: bool,          // the destructor is between unlocking and notify_all
    accepted: seq<Task>,      // history: tasks add accepted
    taken: seq<Task>,         // history: tasks popped
    finished: multiset<Task>) // history: tasks run to completion

  datatype Action =
    | Add(t: Task)
    | NotifyOne(w: nat)
    | SetStop
    | NotifyAll
    | Spurious(w: nat)
    | CheckQueue(w: nat)
    | FinishTask(w: nat)

  function Init(threads: nat): State {
    State([], false, seq(threads, _ => Check), 0, false, [], [], multiset{})
  }

  predicate SomeAsleep(s: State) {
    exists w :: 0 <= w < |s.workers| && s.workers[w].Asleep?
  }

  // notify_one wakes some sleeper if there is one.
  predicate Enabled(s: State, a: Action) {
    match a
    case Add(_) => true
    case NotifyOne(w) => s.notifyOnes > 0 && (SomeAsleep(s) ==> w < |s.workers| && s.workers[w].Asleep?)
    case SetStop => !s.stop
    case NotifyAll => s.notifyAll
    case Spurious(w) => w < |s.workers| && s.workers[w].Asleep?
    case CheckQueue(w) => w < |s.workers| && s.workers[w].Check?
    case FinishTask(w) => w < |s.workers| && s.workers[w].Run?
  }

  function Wake(w: Worker): Worker {
    if w.Asleep? then Check else w
  }

  function Step(s: State, a: Action): State
    requires Enabled(s, a)
  {
    match a
    case Add(t) =>
      if s.stop then s // throws
      else s.(taskQueue := s.taskQueue + [t], accepted := s.accepted + [t], notifyOnes := s.notifyOnes + 1)
    case NotifyOne(w) =>
      s.(notifyOnes := s.notifyOnes - 1, workers := if SomeAsleep(s) then s.workers[w := Check] else s.workers)
    case SetStop => s.(stop := true, notifyAll := true)
    case NotifyAll =>
      s.(notifyAll := false, workers := seq(|s.workers|, i requires 0 <= i < |s.workers| => Wake(s.workers[i])))
    case Spurious(w) => s.(workers := s.workers[w := Check])
    case CheckQueue(w) =>
      if !s.stop && s.taskQueue == [] then s.(workers := s.workers[w := Asleep])
      else if s.taskQueue == [] then s.(workers := s.workers[w := Exited])
      else
        s.(workers := s.workers[w := Run(s.taskQueue[0])], taken := s.taken + [s.taskQueue[0]],
           taskQueue := s.taskQueue[1..])
    case FinishTask(w) =>
      s.(workers := s.workers[w := Check], finished := s.finished + multiset{s.workers[w].task})
  }

  ghost predicate IsRun(threads: nat, ss: seq<State>, acts: seq<Action>) {
    && |ss| == |acts| + 1 && ss[0] == Init(threads)
    && forall i :: 0 <= i < |acts| ==> Enabled(ss[i], acts[i]) && ss[i + 1] == Step(ss[i], acts[i])
  }

  // ---------- the tasks being run ----------

  function Runs(w: Worker, t: Task): nat {
    if w == Run(t) then 1 else 0
  }

  function RunningCount(ws: seq<Worker>, t: Task): nat {
    if ws == [] then 0 else Runs(ws[0], t) + RunningCount(ws[1..], t)
  }

  lemma {:induction false} RunningUpdate(ws: seq<Worker>, w: nat, x: Worker, t: Task)
    requires w < |ws|
    ensures RunningCount(ws[w := x], t) + Runs(ws[w], t) == RunningCount(ws, t) + Runs(x, t)
  {
    if w > 0 {
      RunningUpdate(ws[1..], w - 1, x, t);
      assert ws[w := x][1..] == ws[1..][w - 1 := x];
    } else {
      assert ws[w := x][1..] == ws[1..];
    }
  }

  lemma {:induction false} RunningSame(ws: seq<Worker>, ws': seq<Worker>, t: Task)
    requires |ws| == |ws'| && forall i :: 0 <= i < |ws| ==> ws[i].Run? || ws'[i].Run? ==> ws[i] == ws'[i]
    ensures RunningCount(ws, t) == RunningCount(ws', t)
  {
    if ws == [] {
    } else {
      RunningSame(ws[1..], ws'[1..], t);
    }
  }

  lemma {:induction false} NoneRunning(ws: seq<Worker>, t: Task)
    requires forall w :: 0 <= w < |ws| ==> !ws[w].Run?
    ensures RunningCount(ws, t) == 0
  {
    if ws == [] {
    } else {
      NoneRunning(ws[1..], t);
    }
  }

  // ---------- the invariant ----------

  ghost predicate SomeAwake(s: State) {
    exists w :: 0 <= w < |s.workers| && (s.workers[w].Check? || s.workers[w].Run?)
  }

  ghost predicate SomeExited(s: State) {
    exists w :: 0 <= w < |s.workers| && s.workers[w].Exited?
  }

  // Every task taken is finished or being run by a worker, as often as it was taken.
  ghost predicate Conserved(s: State) {
    forall t :: multiset(s.taken)[t] == s.finished[t] + RunningCount(s.workers, t)
  }

  ghost predicate Inv(s: State) {
    && s.accepted == s.taken + s.taskQueue
    && Conserved(s)
    && (s.notifyAll ==> s.stop)
    && (s.stop && !s.notifyAll ==> !SomeAsleep(s))
    && (SomeExited(s) ==> s.stop && s.taskQueue == [])
    && (!s.stop && s.taskQueue != [] && |s.workers| > 0 && !SomeAwake(s) ==> s.notifyOnes > 0)
  }

  lemma InitHolds(threads: nat)
    ensures Inv(Init(threads))
  {
    forall t
      ensures RunningCount(Init(threads).workers, t) == 0
    {
      NoneRunning(Init(threads).workers, t);
    }
  }

  lemma CountKept(s: State, a: Action, t: Task)
    requires Enabled(s, a) && multiset(s.taken)[t] == s.finished[t] + RunningCount(s.workers, t)
    ensures var s' := Step(s, a); multiset(s'.taken)[t] == s'.finished[t] + RunningCount(s'.workers, t)
  {
    var s' := Step(s, a);
    match a
    case NotifyAll => RunningSame(s.workers, s'.workers, t);
    case NotifyOne(w) =>
      if SomeAsleep(s) {
        RunningUpdate(s.workers, w, Check, t);
      }
    case Spurious(w) => RunningUpdate(s.workers, w, Check, t);
    case CheckQueue(w) => RunningUpdate(s.workers, w, s'.workers[w], t);
    case FinishTask(w) => RunningUpdate(s.workers, w, Check, t);
    case _ =>
  }

  lemma TasksKept(s: State, a: Action)
    requires s.accepted == s.taken + s.taskQueue && Conserved(s) && Enabled(s, a)
    ensures Step(s, a).accepted == Step(s, a).taken + Step(s, a).taskQueue && Conserved(Step(s, a))
  {
    hide RunningCount;
    OrderKept(s, a);
    hide Step;
    forall t
      ensures multiset(Step(s, a).taken)[t] == Step(s, a).finished[t] + RunningCount(Step(s, a).workers, t)
    {
      CountKept(s, a, t);
    }
  }

  lemma OrderKept(s: State, a: Action)
    requires s.accepted == s.taken + s.taskQueue && Enabled(s, a)
    ensures Step(s, a).accepted == Step(s, a).taken + Step(s, a).taskQueue
  {
    if a.CheckQueue? && s.taskQueue != [] {
      assert s.taskQueue == [s.taskQueue[0]] + s.taskQueue[1..];
    }
  }

  lemma StopKept(s: State, a: Action)
    requires Inv(s) && Enabled(s, a)
    ensures var s' := Step(s, a);
      && (s'.notifyAll ==> s'.stop) && (s'.stop && !s'.notifyAll ==> !SomeAsleep(s'))
      && (SomeExited(s') ==> s'.stop && s'.taskQueue == [])
  {
    var s' := Step(s, a);
    if SomeExited(s') {
      var w :| 0 <= w < |s'.workers| && s'.workers[w].Exited?;
      assert s.workers[w].Exited? || (a.CheckQueue? && a.w == w);
    }
  }

  lemma WakingKept(s: State, a: Action)
    requires Inv(s) && Enabled(s, a)
    ensures var s' := Step(s, a);
      !s'.stop && s'.taskQueue != [] && |s'.workers| > 0 && !SomeAwake(s') ==> s'.notifyOnes > 0
  {
    var s' := Step(s, a);
    if !s'.stop && s'.taskQueue != [] && |s'.workers| > 0 && s'.notifyOnes == 0 {
      var w: nat :|
        w < |s.workers| && (s.workers[w].Check? || s.workers[w].Run? || (a == NotifyOne(w) && s.workers[w].Asleep?))
        by { SomeoneActs(s, a); }
      assert s'.workers[w].Check? || s'.workers[w].Run?;
    }
  }

  lemma SomeoneActs(s: State, a: Action)
    requires Inv(s) && Enabled(s, a) && !s.stop && |s.workers| > 0
    requires Step(s, a).notifyOnes == 0 && Step(s, a).taskQueue != []
    ensures exists w: nat ::
      w < |s.workers| && (s.workers[w].Check? || s.workers[w].Run? || (a == NotifyOne(w) && s.workers[w].Asleep?))
  {
    var first := s.workers[0];
    if a.NotifyOne? && SomeAsleep(s) {
      assert s.workers[a.w].Asleep?;
    } else if !SomeAwake(s) {
      assert false;
    }
  }

  lemma StepKeeps(s: State, a: Action)
    requires Inv(s) && Enabled(s, a)
    ensures Inv(Step(s, a)) && |Step(s, a).workers| == |s.workers|
  {
    TasksKept(s, a);
    StopKept(s, a);
    WakingKept(s, a);
  }

  lemma {:induction false} RunKeeps(threads: nat, ss: seq<State>, acts: seq<Action>, i: nat)
    requires IsRun(threads, ss, acts) && i <= |acts|
    ensures Inv(ss[i]) && |ss[i].workers| == threads
  {
    if i == 0 {
      InitHolds(threads);
    } else {
      RunKeeps(threads, ss, acts, i - 1);
      StepKeeps(ss[i - 1], acts[i - 1]);
    }
  }

  // ---------- the theorems ----------

  ghost predicate AllExited(s: State) {
    forall w :: 0 <= w < |s.workers| ==> s.workers[w].Exited?
  }

  // The tasks that add was called with before the destructor set stop.
  function Added(acts: seq<Action>): seq<Task> {
    if acts == [] then []
    else
      var before := acts[..|acts| - 1];
      match acts[|acts| - 1]
      case Add(t) => if SetStop in before then Added(before) else Added(before) + [t]
      case _ => Added(before)
  }

  ghost predicate Told(s: State, acts: seq<Action>) {
    s.accepted == Added(acts) && (s.stop <==> SetStop in acts)
  }

  lemma StepTold(s: State, acts: seq<Action>, a: Action)
    requires Told(s, acts) && Enabled(s, a)
    ensures Told(Step(s, a), acts + [a])
  {
    StepAccepts(s, a);
    hide Step, Enabled;
    assert (acts + [a])[..|acts|] == acts;
    assert SetStop in acts + [a] <==> SetStop in acts || a == SetStop;
  }

  lemma StepAccepts(s: State, a: Action)
    requires Enabled(s, a)
    ensures Step(s, a).accepted == if a.Add? && !s.stop then s.accepted + [a.t] else s.accepted
    ensures Step(s, a).stop == (s.stop || a == SetStop)
  {
  }

  lemma {:induction false} RunTold(threads: nat, ss: seq<State>, acts: seq<Action>, i: nat)
    requires IsRun(threads, ss, acts) && i <= |acts|
    ensures Told(ss[i], acts[..i])
  {
    if i == 0 {
    } else {
      hide Told, Step, Enabled;
      RunTold(threads, ss, acts, i - 1);
      StepTold(ss[i - 1], acts[..i - 1], acts[i - 1]);
      assert acts[..i - 1] + [acts[i - 1]] == acts[..i];
    }
  }

  // Once every worker has exited, every task added before the stop has run
  // exactly once, and nothing else has.
  lemma DrainRunsEverything(threads: nat, ss: seq<State>, acts: seq<Action>, i: nat)
    requires threads > 0 && IsRun(threads, ss, acts) && i <= |acts| && AllExited(ss[i])
    ensures ss[i].finished == multiset(Added(acts[..i])) && ss[i].taskQueue == [] && SetStop in acts[..i]
  {
    RunKeeps(threads, ss, acts, i);
    RunTold(threads, ss, acts, i);
    assert ss[i].workers[0].Exited?;
    assert ss[i].accepted == ss[i].taken;
    forall t
      ensures ss[i].finished[t] == multiset(ss[i].accepted)[t]
    {
      NoneRunning(ss[i].workers, t);
    }
  }

  // Tasks start in the order they were added, and none finishes before it starts.
  lemma TasksStartInOrder(threads: nat, ss: seq<State>, acts: seq<Action>, i: nat)
    requires IsRun(threads, ss, acts) && i <= |acts|
    ensures Added(acts[..i]) == ss[i].taken + ss[i].taskQueue
    ensures ss[i].finished <= multiset(ss[i].taken)
  {
    RunKeeps(threads, ss, acts, i);
    RunTold(threads, ss, acts, i);
  }

  // No lost notification: if every worker that has not exited is asleep while
  // there is work or the pool is stopping, a notification is still on its way.
  lemma NoLostNotify(threads: nat, ss: seq<State>, acts: seq<Action>, i: nat)
    requires threads > 0 && IsRun(threads, ss, acts) && i <= |acts|
    requires !SomeAwake(ss[i]) && SomeAsleep(ss[i]) && (ss[i].taskQueue != [] || ss[i].stop)
    ensures ss[i].notifyOnes > 0 || ss[i].notifyAll
  {
    RunKeeps(threads, ss, acts, i);
  }

  // ---------- the destructor's join returns ----------

  function Weight(w: Worker): nat {
    match w case Check => 1 case Asleep => 2 case Run(_) => 2 case Exited => 0
  }

  function Weights(ws: seq<Worker>): nat {
    if ws == [] then 0 else Weight(ws[0]) + Weights(ws[1..])
  }

  lemma {:induction false} WeightsUpdate(ws: seq<Worker>, w: nat, x: Worker)
    requires w < |ws|
    ensures Weights(ws[w := x]) + Weight(ws[w]) == Weights(ws) + Weight(x)
  {
    if w > 0 {
      WeightsUpdate(ws[1..], w - 1, x);
      assert ws[w := x][1..] == ws[1..][w - 1 := x];
    } else {
      assert ws[w := x][1..] == ws[1..];
    }
  }

  function Remaining(s: State): nat {
    2 * |s.taskQueue| + Weights(s.workers) + s.notifyOnes
  }

  // After the destructor's notify_all every action but a refused add brings the
  // drain closer to its end, and until the end some worker can move: the joins
  // return after at most Remaining actions.
  lemma DrainTerminates(threads: nat, ss: seq<State>, acts: seq<Action>, i: nat)
    requires IsRun(threads, ss, acts) && i <= |acts| && ss[i].stop && !ss[i].notifyAll
    ensures i < |acts| ==> ss[i + 1].stop && !ss[i + 1].notifyAll
    ensures i < |acts| ==> if acts[i].Add? then ss[i + 1] == ss[i] else Remaining(ss[i + 1]) < Remaining(ss[i])
    ensures AllExited(ss[i]) || exists w :: Enabled(ss[i], CheckQueue(w)) || Enabled(ss[i], FinishTask(w))
  {
    RunKeeps(threads, ss, acts, i);
    var s := ss[i];
    if i < |acts| {
      match acts[i]
      case CheckQueue(w) => WeightsUpdate(s.workers, w, ss[i + 1].workers[w]);
      case FinishTask(w) => WeightsUpdate(s.workers, w, Check);
      case _ =>
    }
    if !AllExited(s) {
      var w :| 0 <= w < |s.workers| && !s.workers[w].Exited?;
      assert Enabled(s, CheckQueue(w)) || Enabled(s, FinishTask(w));
    }
  }

  // ---------- as it runs ----------

  // The shared fields of the pool. Each method is one action of the system above.
  class Pool {
    var taskQueue: seq<Task>
    var stop: bool
    var workers: seq<Worker>
    ghost var notifyOnes: nat
    ghost var notifyAll: bool
    ghost var accepted: seq<Task>
    ghost var taken: seq<Task>
    ghost var finished: multiset<Task>

    ghost function View(): State
      reads this
    {
      State(taskQueue, stop, workers, notifyOnes, notifyAll, accepted, taken, finished)
    }

    constructor (threads: nat)
      ensures View() == Init(threads)
    {
      taskQueue, stop, workers := [], false, seq(threads, _ => Check);
      notifyOnes, notifyAll, accepted, taken, finished := 0, false, [], [], multiset{};
    }

    // add up to the end of its critical section; false when it throws.
    method Add(t: Task) returns (ok: bool)
      modifies this
      ensures ok == !old(stop) && View() == Step(old(View()), Action.Add(t))
    {
      if stop {
        return false;
      }
      taskQueue := taskQueue + [t];
      accepted := accepted + [t];
      notifyOnes := notifyOnes + 1;
      return true;
    }

    // A worker that holds the lock: wait, leave, or take the front task.
    method Take(w: nat) returns (task: Option<Task>)
      requires w < |workers| && workers[w].Check?
      modifies this
      ensures View() == Step(old(View()), CheckQueue(w))
      ensures task == if old(taskQueue) != [] then Some(old(taskQueue)[0]) else None
    {
      if !stop && taskQueue == [] {
        workers := workers[w := Asleep];
        return None;
      }
      if taskQueue == [] {
        workers := workers[w := Exited];
        return None;
      }
      var front := taskQueue[0];
      workers := workers[w := Run(front)];
      taken := taken + [front];
      taskQueue := taskQueue[1..];
      return Some(front);
    }

    method Stop()
      requires !stop
      modifies this
      ensures View() == Step(old(View()), SetStop)
    {
      stop := true;
      notifyAll := true;
    }
  }
}
