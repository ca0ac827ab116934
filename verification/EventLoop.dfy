// One event loop of cpp_server: its task queue, and the eventfd by which other
// threads wake it up. The transition system interleaves the loop's own thread
// with any number of threads that queue tasks; the class below is the code.
module EventLoops {
  // A task; running it may queue further tasks on the same loop.
  datatype Func = Func(id: nat, queues: seq<Func>)

  // Where the loop's thread is: before epoll_wait; walking the polled channels
  // (wake: the wake-up channel is among those still to come); in DoToDoList
  // before the swap; running the swapped batch.
  datatype Pc = AtPoll | Events(wake: bool) | PreSwap | Running

  datatype State = State(
    toDoList: seq<Func>,
    batch: seq<Func>,
    next: nat,
    calling: bool,
    counter: nat,          // the eventfd
    pc: Pc,
    writers: nat,          // other threads between the push and the eventfd write
    ownWrite: bool,        // the loop's thread is between the two
    pushed: seq<Func>,     // history: everything ever queued
    ran: seq<Func>)        // history: everything run from the queue

  datatype Action =
    | RemotePush(f: Func)
    | RemoteWrite
    | OwnPush(f: Func)
    | OwnWrite
    | PollReturns(wake: bool)
    | HandleRead
    | EndEvents
    | SwapList
    | RunNext
    | Done

  const INIT := State([], [], 0, false, 0, AtPoll, 0, false, [], [])

  // The loop's thread does nothing else before a write it owes.
  predicate Enabled(s: State, a: Action) {
    match a
    case RemotePush(_) => true
    case RemoteWrite => s.writers > 0
    case OwnPush(_) => !s.ownWrite && (s.pc.Events? || s.pc.Running?)
    case OwnWrite => s.ownWrite
    case PollReturns(wake) => !s.ownWrite && s.pc.AtPoll? && (wake ==> s.counter > 0)
    case HandleRead => !s.ownWrite && s.pc == Events(true)
    case EndEvents => !s.ownWrite && s.pc == Events(false)
    case SwapList => !s.ownWrite && s.pc.PreSwap?
    case RunNext => !s.ownWrite && s.pc.Running? && s.next < |s.batch|
    case Done => !s.ownWrite && s.pc.Running? && s.next >= |s.batch|
  }

  function Step(s: State, a: Action): State
    requires Enabled(s, a)
  {
    match a
    case RemotePush(f) => s.(toDoList := s.toDoList + [f], pushed := s.pushed + [f], writers := s.writers + 1)
    case RemoteWrite => s.(writers := s.writers - 1, counter := s.counter + 1)
    case OwnPush(f) => s.(toDoList := s.toDoList + [f], pushed := s.pushed + [f], ownWrite := s.calling)
    case OwnWrite => s.(ownWrite := false, counter := s.counter + 1)
    case PollReturns(wake) => s.(pc := Events(wake))
    case HandleRead => s.(counter := 0, pc := Events(false))
    case EndEvents => s.(calling := true, pc := PreSwap)
    case SwapList => s.(batch := s.toDoList, toDoList := [], next := 0, pc := Running)
    case RunNext => s.(next := s.next + 1, ran := s.ran + [s.batch[s.next]])
    case Done => s.(batch := [], next := 0, calling := false, pc := AtPoll)
  }

  ghost predicate IsRun(ss: seq<State>, acts: seq<Action>) {
    && |ss| == |acts| + 1 && ss[0] == INIT
    && forall i :: 0 <= i < |acts| ==> Enabled(ss[i], acts[i]) && ss[i + 1] == Step(ss[i], acts[i])
  }

  // ---------- safety ----------

  // A task that the next poll could sleep on has a wake-up on its way.
  ghost predicate Woken(s: State) {
    s.toDoList != [] ==> s.counter > 0 || s.writers > 0 || s.ownWrite
  }

  ghost predicate Inv(s: State) {
    && s.next <= |s.batch|
    && s.pushed == s.ran + s.batch[s.next..] + s.toDoList
    && (s.calling <==> s.pc.PreSwap? || s.pc.Running?)
    && (!s.pc.Running? ==> s.batch == [])
    && (s.ownWrite ==> s.pc.Running?)
    && (s.pc == Events(true) ==> s.counter > 0)
    && (s.pc.AtPoll? || s.pc.Running? ==> Woken(s))
  }

  lemma StepKeeps(s: State, a: Action)
    requires Inv(s) && Enabled(s, a)
    ensures Inv(Step(s, a))
  {
    var s' := Step(s, a);
    if a.RunNext? {
      assert s.batch[s.next..] == [s.batch[s.next]] + s.batch[s.next + 1..];
    }
    assert s'.pushed == s'.ran + s'.batch[s'.next..] + s'.toDoList;
  }

  lemma {:induction false} RunKeeps(ss: seq<State>, acts: seq<Action>, i: nat)
    requires IsRun(ss, acts) && i <= |acts|
    ensures Inv(ss[i])
  {
    if i == 0 {
    } else {
      RunKeeps(ss, acts, i - 1);
      StepKeeps(ss[i - 1], acts[i - 1]);
    }
  }

  // ---------- what the actions alone tell ----------

  // The tasks of the pushes, in order.
  function Queued(acts: seq<Action>): seq<Func> {
    if acts == [] then []
    else
      var before := Queued(acts[..|acts| - 1]);
      match acts[|acts| - 1]
      case RemotePush(f) => before + [f]
      case OwnPush(f) => before + [f]
      case _ => before
  }

  function Runs(acts: seq<Action>): nat {
    if acts == [] then 0 else Runs(acts[..|acts| - 1]) + if acts[|acts| - 1].RunNext? then 1 else 0
  }

  // The eventfd: the writes since the last read.
  function Written(acts: seq<Action>): nat {
    if acts == [] then 0
    else
      var before := Written(acts[..|acts| - 1]);
      match acts[|acts| - 1]
      case RemoteWrite => before + 1
      case OwnWrite => before + 1
      case HandleRead => 0
      case _ => before
  }

  function PcOf(acts: seq<Action>): Pc {
    if acts == [] then AtPoll
    else
      match acts[|acts| - 1]
      case PollReturns(wake) => Events(wake)
      case HandleRead => Events(false)
      case EndEvents => PreSwap
      case SwapList => Running
      case Done => AtPoll
      case _ => PcOf(acts[..|acts| - 1])
  }

  // The loop's own thread owes a write for a task pushed during a pass, and for
  // no other.
  function Owes(acts: seq<Action>): bool {
    if acts == [] then false
    else
      var before := acts[..|acts| - 1];
      match acts[|acts| - 1]
      case OwnPush(_) => PcOf(before).Running?
      case OwnWrite => false
      case _ => Owes(before)
  }

  // Other threads that pushed and have not written yet.
  function Writers(acts: seq<Action>): int {
    if acts == [] then 0
    else
      var before := Writers(acts[..|acts| - 1]);
      match acts[|acts| - 1]
      case RemotePush(_) => before + 1
      case RemoteWrite => before - 1
      case _ => before
  }

  ghost predicate Told(s: State, acts: seq<Action>) {
    && s.pushed == Queued(acts) && |s.ran| == Runs(acts) && s.counter == Written(acts) && s.pc == PcOf(acts)
    && (s.calling <==> s.pc.PreSwap? || s.pc.Running?)
    && s.ownWrite == Owes(acts) && s.writers == Writers(acts)
  }

  lemma StepTold(s: State, acts: seq<Action>, a: Action)
    requires Told(s, acts) && Enabled(s, a)
    ensures Told(Step(s, a), acts + [a])
  {
    assert (acts + [a])[..|acts|] == acts;
  }

  lemma {:induction false} RunTold(ss: seq<State>, acts: seq<Action>, i: nat)
    requires IsRun(ss, acts) && i <= |acts|
    ensures Told(ss[i], acts[..i])
  {
    if i == 0 {
    } else {
      RunTold(ss, acts, i - 1);
      hide Told, Step, Enabled;
      StepTold(ss[i - 1], acts[..i - 1], acts[i - 1]);
      assert acts[..i - 1] + [acts[i - 1]] == acts[..i];
    }
  }

  // No lost wake-up: whenever the loop is about to poll with queued tasks, the
  // eventfd is readable or another thread is about to write it. The read in
  // handleRead always finds a positive counter, so its assertion never fails.
  lemma NoLostWakeup(ss: seq<State>, acts: seq<Action>, i: nat)
    requires IsRun(ss, acts) && i <= |acts|
    ensures PcOf(acts[..i]).AtPoll? && ss[i].toDoList != [] ==> Written(acts[..i]) > 0 || Writers(acts[..i]) > 0
    ensures i < |acts| && acts[i].HandleRead? ==> ss[i].counter > 0
    ensures ss[i].counter == Written(acts[..i]) && ss[i].writers == Writers(acts[..i])
    ensures ss[i].ownWrite == Owes(acts[..i])
  {
    RunKeeps(ss, acts, i);
    RunTold(ss, acts, i);
  }

  // Exactly once, in queue order: what has run are the first of the tasks that
  // were queued, and before a poll all others still wait, in order.
  lemma ExactlyOnceInOrder(ss: seq<State>, acts: seq<Action>, i: nat)
    requires IsRun(ss, acts) && i <= |acts|
    ensures Runs(acts[..i]) <= |Queued(acts[..i])| && ss[i].ran == Queued(acts[..i])[..Runs(acts[..i])]
    ensures PcOf(acts[..i]).AtPoll? ==> ss[i].toDoList == Queued(acts[..i])[Runs(acts[..i])..]
  {
    RunKeeps(ss, acts, i);
    RunTold(ss, acts, i);
    RanFirst(ss[i]);
  }

  lemma RanFirst(s: State)
    requires Inv(s)
    ensures s.ran <= s.pushed && (s.pc.AtPoll? ==> s.pushed == s.ran + s.toDoList)
  {
    assert s.pushed[..|s.ran|] == s.ran;
  }

  ghost predicate SamePass(acts: seq<Action>, i: nat, j: nat)
    requires i < j <= |acts|
  {
    acts[i].SwapList? && forall k :: i < k < j ==> !acts[k].SwapList? && !acts[k].Done?
  }

  lemma PassStep(s: State, a: Action, base: seq<Func>)
    requires Enabled(s, a) && !a.SwapList? && !a.Done? && s.pc.Running?
    requires s.next <= |s.batch| && s.ran == base + s.batch[..s.next]
    ensures var s' := Step(s, a);
      s'.pc.Running? && s'.batch == s.batch && s'.next <= |s.batch| && s'.ran == base + s.batch[..s'.next]
  {
    if a.RunNext? {
      assert s.batch[..s.next + 1] == s.batch[..s.next] + [s.batch[s.next]];
    }
  }

  // From the swap on, the pass works through the swapped-out list and nothing else.
  lemma {:induction false} PassRunsBatch(ss: seq<State>, acts: seq<Action>, i: nat, j: nat)
    requires IsRun(ss, acts) && i < j <= |acts| && SamePass(acts, i, j)
    ensures ss[j].batch == ss[i].toDoList && ss[j].pc.Running? && ss[j].next <= |ss[j].batch|
    ensures ss[j].ran == ss[i].ran + ss[j].batch[..ss[j].next]
  {
    if j == i + 1 {
      assert ss[i].ran == ss[i].ran + [];
    } else {
      PassRunsBatch(ss, acts, i, j - 1);
      PassStep(ss[j - 1], acts[j - 1], ss[i].ran);
    }
  }

  // Each DoToDoList runs exactly the tasks it swapped out, all of them; tasks
  // queued meanwhile wait for the next pass and find the loop woken.
  lemma EachPassRunsItsBatch(ss: seq<State>, acts: seq<Action>, i: nat, j: nat)
    requires IsRun(ss, acts) && i < j < |acts| && SamePass(acts, i, j) && acts[j].Done?
    ensures ss[j + 1].ran == ss[i].ran + ss[i].toDoList
    ensures Queued(acts[..j + 1]) == ss[j + 1].ran + ss[j + 1].toDoList && Woken(ss[j + 1])
  {
    PassRunsBatch(ss, acts, i, j);
    RunKeeps(ss, acts, j + 1);
    RunTold(ss, acts, j + 1);
    assert ss[j].batch[..ss[j].next] == ss[i].toDoList;
  }

  // ---------- the code ----------

  function Flatten(fs: seq<Func>): seq<Func> {
    if fs == [] then [] else fs[0].queues + Flatten(fs[1..])
  }

  lemma {:induction false} FlattenSnoc(fs: seq<Func>, f: Func)
    ensures Flatten(fs + [f]) == Flatten(fs) + f.queues
  {
    if fs != [] {
      FlattenSnoc(fs[1..], f);
      assert (fs + [f])[1..] == fs[1..] + [f];
    } else {
      assert fs + [f] == [f];
    }
  }

  class EventLoop {
    var toDoList: seq<Func>
    var callingFunctors: bool
    var counter: nat              // the eventfd behind wakeupFd
    ghost var ran: seq<Func>

    constructor ()
      ensures toDoList == [] && !callingFunctors && counter == 0 && ran == []
    {
      toDoList, callingFunctors, counter, ran := [], false, 0, [];
    }

    // Called from any thread; inLoopThread says whether it is the loop's own.
    method QueueOneFunc(f: Func, inLoopThread: bool)
      modifies this`toDoList, this`counter
      ensures toDoList == old(toDoList) + [f]
      ensures counter == old(counter) + if inLoopThread && !callingFunctors then 0 else 1
    {
      toDoList := toDoList + [f];
      if !inLoopThread || callingFunctors {
        counter := counter + 1;
      }
    }

    // The loop's own thread runs the task at once, any other thread queues it.
    method RunOneFunc(f: Func, inLoopThread: bool)
      modifies this
      ensures callingFunctors == old(callingFunctors)
      ensures if inLoopThread
        then toDoList == old(toDoList) + f.queues && ran == old(ran) + [f]
        else toDoList == old(toDoList) + [f] && ran == old(ran) && counter == old(counter) + 1
    {
      if inLoopThread {
        Run(f);
      } else {
        QueueOneFunc(f, false);
      }
    }

    method Run(f: Func)
      modifies this`toDoList, this`counter, this`ran
      ensures toDoList == old(toDoList) + f.queues && ran == old(ran) + [f]
      ensures counter == old(counter) + if callingFunctors then |f.queues| else 0
    {
      ran := ran + [f];
      for i := 0 to |f.queues|
        invariant ran == old(ran) + [f] && toDoList == old(toDoList) + f.queues[..i]
        invariant counter == old(counter) + if callingFunctors then i else 0
      {
        QueueOneFunc(f.queues[i], true);
      }
      assert f.queues[..|f.queues|] == f.queues;
    }

    // handleRead: the assertion on the read is the precondition.
    method HandleRead()
      requires counter > 0
      modifies this`counter
      ensures counter == 0
    {
      counter := 0;
    }

    // One pass, undisturbed by other threads: everything queued before it runs
    // once, in order; what those tasks queue is left for the next pass, which
    // the eventfd announces.
    method DoToDoList()
      modifies this
      ensures ran == old(ran) + old(toDoList)
      ensures toDoList == Flatten(old(toDoList)) && !callingFunctors
      ensures counter == old(counter) + |toDoList|
    {
      callingFunctors := true;
      var tmp := toDoList;
      toDoList := [];
      assert tmp[..0] == [];
      for i := 0 to |tmp|
        invariant callingFunctors
        invariant ran == old(ran) + tmp[..i]
        invariant toDoList == Flatten(tmp[..i])
        invariant counter == old(counter) + |toDoList|
      {
        FlattenSnoc(tmp[..i], tmp[i]);
        assert tmp[..i + 1] == tmp[..i] + [tmp[i]];
        Run(tmp[i]);
      }
      assert tmp[..|tmp|] == tmp;
      callingFunctors := false;
    }
  }
}
