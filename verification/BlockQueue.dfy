// The bounded ring queue of TinyWebServer's log. Every operation runs under the
// queue's mutex; a pop that has to wait gives the mutex up, so what other
// threads do meanwhile is a sequence of the other operations.
module BlockQueue {
  import opened Common

  // The reference: a bounded queue, with everything accepted and everything
  // popped since the last clear.
  datatype Fifo<T> = Fifo(items: seq<T>, pushed: seq<T>, popped: seq<T>)

  // PopOne and TimedOut are the two ends of a pop, reached under the mutex.
  datatype Op<T> = Push(item: T) | PopOne | TimedOut | Clear

  predicate Allowed<T>(q: Fifo<T>, op: Op<T>) {
    op.PopOne? ==> q.items != []
  }

  function Apply<T>(q: Fifo<T>, capacity: nat, op: Op<T>): Fifo<T>
    requires Allowed(q, op)
  {
    match op
    case Push(x) =>
      if |q.items| >= capacity then q else Fifo(q.items + [x], q.pushed + [x], q.popped)
    case PopOne => Fifo(q.items[1..], q.pushed, q.popped + [q.items[0]])
    case TimedOut => q
    case Clear => Fifo([], [], [])
  }

  ghost predicate IsRun<T>(capacity: nat, qs: seq<Fifo<T>>, ops: seq<Op<T>>) {
    && |qs| == |ops| + 1 && qs[0] == Fifo([], [], [])
    && forall i :: 0 <= i < |ops| ==> Allowed(qs[i], ops[i]) && qs[i + 1] == Apply(qs[i], capacity, ops[i])
  }

  // What the operations alone tell, since the last clear: how many pops there
  // were, and the items pushed while there was room.
  function Pops<T>(ops: seq<Op<T>>): nat {
    if ops == [] then 0
    else
      match ops[|ops| - 1]
      case PopOne => Pops(ops[..|ops| - 1]) + 1
      case Clear => 0
      case _ => Pops(ops[..|ops| - 1])
  }

  function Accepted<T>(capacity: nat, ops: seq<Op<T>>): seq<T> {
    if ops == [] then []
    else
      var before := ops[..|ops| - 1];
      match ops[|ops| - 1]
      case Push(x) =>
        if |Accepted(capacity, before)| - Pops(before) < capacity then Accepted(capacity, before) + [x]
        else Accepted(capacity, before)
      case Clear => []
      case _ => Accepted(capacity, before)
  }

  ghost predicate Told<T>(q: Fifo<T>, capacity: nat, ops: seq<Op<T>>) {
    var accepted, k := Accepted(capacity, ops), Pops(ops);
    k <= |accepted| <= k + capacity && q == Fifo(accepted[k..], accepted, accepted[..k])
  }

  lemma ApplyTold<T>(capacity: nat, q: Fifo<T>, ops: seq<Op<T>>, op: Op<T>)
    requires Told(q, capacity, ops) && Allowed(q, op)
    ensures Told(Apply(q, capacity, op), capacity, ops + [op])
  {
    assert (ops + [op])[..|ops|] == ops;
  }

  // Over every interleaving the items popped since the last clear are the first
  // of those accepted since, the rest is what the queue holds, and it never
  // holds more than its capacity.
  lemma {:induction false} PoppedIsPrefix<T>(capacity: nat, qs: seq<Fifo<T>>, ops: seq<Op<T>>, i: nat)
    requires IsRun(capacity, qs, ops) && i <= |ops|
    ensures Told(qs[i], capacity, ops[..i])
  {
    if i == 0 {
    } else {
      PoppedIsPrefix(capacity, qs, ops, i - 1);
      ApplyTold(capacity, qs[i - 1], ops[..i - 1], ops[i - 1]);
      assert ops[..i - 1] + [ops[i - 1]] == ops[..i];
    }
  }

  // ---------- a pop that waits ----------

  // One wait on the condition: it fails, or it ends after what other threads did.
  datatype Round<T> = Failed | Woken(others: seq<Op<T>>)

  // A pop got an item, gave up after a failed wait, or is still waiting.
  datatype Popped<T> = Item(value: T) | Refused | Blocked

  // Another thread takes from an empty queue nothing: it waits itself.
  function ApplyAll<T>(q: Fifo<T>, capacity: nat, ops: seq<Op<T>>): Fifo<T>
    decreases |ops|
  {
    if ops == [] then q
    else ApplyAll(if Allowed(q, ops[0]) then Apply(q, capacity, ops[0]) else q, capacity, ops[1..])
  }

  function PopOf<T>(q: Fifo<T>, capacity: nat, rounds: seq<Round<T>>): (Fifo<T>, Popped<T>)
    decreases |rounds|
  {
    if q.items != [] then (Apply(q, capacity, PopOne), Item(q.items[0]))
    else if rounds == [] then (q, Blocked)
    else
      match rounds[0]
      case Failed => (q, Refused)
      case Woken(others) => PopOf(ApplyAll(q, capacity, others), capacity, rounds[1..])
  }

  // The state in which the waiting thread finds the queue after k rounds.
  function After<T>(q: Fifo<T>, capacity: nat, rounds: seq<Round<T>>, k: nat): Fifo<T>
    requires k <= |rounds| && forall j :: 0 <= j < k ==> rounds[j].Woken?
  {
    if k == 0 then q else ApplyAll(After(q, capacity, rounds, k - 1), capacity, rounds[k - 1].others)
  }

  // It goes on waiting for k rounds: each ends without an item and without a failure.
  ghost predicate WaitsFor<T>(q: Fifo<T>, capacity: nat, rounds: seq<Round<T>>, k: nat) {
    && k <= |rounds| && (forall j :: 0 <= j < k ==> rounds[j].Woken?)
    && forall j :: 0 <= j < k ==> After(q, capacity, rounds, j).items == []
  }

  lemma {:induction false} AfterFirst<T>(q: Fifo<T>, capacity: nat, rounds: seq<Round<T>>, k: nat)
    requires 0 < k <= |rounds| && forall j :: 0 <= j < k ==> rounds[j].Woken?
    ensures var q1 := ApplyAll(q, capacity, rounds[0].others);
      After(q, capacity, rounds, k) == After(q1, capacity, rounds[1..], k - 1)
  {
    if k == 1 {
    } else {
      AfterFirst(q, capacity, rounds, k - 1);
    }
  }

  // A pop that waits for k rounds and then finds an item takes the oldest; it
  // gives up exactly at a failed wait, and only lack of rounds leaves it blocked.
  lemma {:induction false} PopEnds<T>(q: Fifo<T>, capacity: nat, rounds: seq<Round<T>>, k: nat)
    requires WaitsFor(q, capacity, rounds, k)
    ensures var now, r := After(q, capacity, rounds, k), PopOf(q, capacity, rounds);
      && (now.items != [] ==> r == (Apply(now, capacity, PopOne), Item(now.items[0])))
      && (now.items == [] && k < |rounds| && rounds[k].Failed? ==> r == (now, Refused))
      && (now.items == [] && k == |rounds| ==> r == (now, Blocked))
    decreases k
  {
    if k == 0 {
    } else {
      var q1, rest := ApplyAll(q, capacity, rounds[0].others), rounds[1..];
      forall j | 0 <= j < k
        ensures After(q1, capacity, rest, j) == After(q, capacity, rounds, j + 1)
      {
        AfterFirst(q, capacity, rounds, j + 1);
      }
      assert After(q, capacity, rounds, 0).items == [];
      PopEnds(q1, capacity, rest, k - 1);
    }
  }

  // ---------- the slots ----------

  // Slot k of the queue whose front index is front, counted without division.
  function Slot(front: int, k: int, n: int): int {
    if front + 1 + k >= n then front + 1 + k - n else front + 1 + k
  }

  lemma SlotIsMod(front: int, k: int, n: int)
    requires -1 <= front < n && 0 <= k < n
    ensures 0 <= Slot(front, k, n) < n && Slot(front, k, n) == (front + 1 + k) % n
  {
    if front + 1 + k >= n {
      assert (front + 1 + k - n) + n == front + 1 + k;
      ModOnce(front + 1 + k - n, n);
    } else {
      ModOnce(front + 1 + k, n);
    }
  }

  lemma ModOnce(x: int, n: int)
    requires 0 <= x < n
    ensures x % n == x && (x + n) % n == x
  {
    assert (x + n) / n == 1 by {
      assert x + n == 1 * n + x;
    }
  }

  // The size slots after front, in order.
  function RingItems<T>(a: seq<T>, front: int, size: int): (items: seq<T>)
    requires -1 <= front < |a| && 0 <= size <= |a|
    ensures |items| == size
  {
    if size == 0 then []
    else RingItems(a, front, size - 1) + [a[Slot(front, size - 1, |a|)]]
  }

  lemma {:induction false} RingAt<T>(a: seq<T>, front: int, size: int, k: int)
    requires -1 <= front < |a| && 0 <= k < size <= |a|
    ensures RingItems(a, front, size)[k] == a[Slot(front, k, |a|)]
  {
    if k == size - 1 {
    } else {
      RingAt(a, front, size - 1, k);
    }
  }

  lemma {:induction false} RingWrite<T>(a: seq<T>, front: int, size: int, i: int, x: T)
    requires -1 <= front < |a| && 0 <= size <= |a| && 0 <= i < |a|
    requires forall k :: 0 <= k < size ==> Slot(front, k, |a|) != i
    ensures RingItems(a[i := x], front, size) == RingItems(a, front, size)
  {
    if size == 0 {
    } else {
      RingWrite(a, front, size - 1, i, x);
      assert Slot(front, size - 1, |a|) != i;
    }
  }

  lemma RingDrop<T>(a: seq<T>, front: int, size: int)
    requires -1 <= front < |a| && 0 < size <= |a|
    ensures RingItems(a, Slot(front, 0, |a|), size - 1) == RingItems(a, front, size)[1..]
  {
    var first := Slot(front, 0, |a|);
    forall k | 0 < k < size
      ensures RingItems(a, first, size - 1)[k - 1] == RingItems(a, front, size)[k]
    {
      RingAt(a, first, size - 1, k - 1);
      RingAt(a, front, size, k);
    }
  }

  class Ring<T(0)> {
    var data: array<T>
    var size: int
    var front: int
    var back: int
    ghost var pushed: seq<T>
    ghost var popped: seq<T>

    ghost predicate Valid()
      reads this, data
    {
      && 0 < data.Length && 0 <= size <= data.Length
      && -1 <= front < data.Length && -1 <= back < data.Length
      && (back == front + size || back == front + size - data.Length)
    }

    ghost function Items(): seq<T>
      reads this, data
    {
      if 0 <= size <= data.Length && -1 <= front < data.Length then RingItems(data[..], front, size) else []
    }

    ghost function View(): Fifo<T>
      reads this, data
    {
      Fifo(Items(), pushed, popped)
    }

    constructor (maxSize: int)
      requires maxSize > 0
      ensures Valid() && fresh(data) && data.Length == maxSize && View() == Fifo([], [], [])
    {
      data := new T[maxSize];
      size, front, back := 0, -1, -1;
      pushed, popped := [], [];
    }

    method Clear()
      requires Valid()
      modifies this`size, this`front, this`back, this`pushed, this`popped
      ensures Valid() && View() == Apply(old(View()), data.Length, Op.Clear)
    {
      size, front, back := 0, -1, -1;
      pushed, popped := [], [];
    }

    method Push(item: T) returns (ok: bool)
      requires Valid()
      modifies this`size, this`back, this`pushed, data
      ensures Valid() && ok == (old(size) < data.Length)
      ensures View() == Apply(old(View()), data.Length, Op.Push(item))
    {
      if size >= data.Length {
        return false;
      }
      SlotIsMod(back, 0, data.Length);
      back := (back + 1) % data.Length;
      RingWrite(data[..], front, size, back, item);
      data[back] := item;
      assert data[..] == old(data[..])[back := item];
      size := size + 1;
      pushed := pushed + [item];
      return true;
    }

    // The end of pop: the wait is over once the queue has an item.
    method Take() returns (item: T)
      requires Valid() && size > 0
      modifies this`size, this`front, this`popped
      ensures Valid() && item == old(Items())[0]
      ensures View() == Apply(old(View()), data.Length, PopOne)
    {
      SlotIsMod(front, 0, data.Length);
      RingDrop(data[..], front, size);
      RingAt(data[..], front, size, 0);
      front := (front + 1) % data.Length;
      item := data[front];
      size := size - 1;
      popped := popped + [item];
    }

    // What other threads do while this one waits.
    method Do(op: Op<T>)
      requires Valid()
      modifies this, data
      ensures Valid() && data == old(data)
      ensures View() == if Allowed(old(View()), op) then Apply(old(View()), data.Length, op) else old(View())
    {
      match op
      case Push(x) => var _ := Push(x);
      case PopOne => if size > 0 { var _ := Take(); }
      case TimedOut =>
      case Clear => Clear();
    }

    method DoAll(ops: seq<Op<T>>)
      requires Valid()
      modifies this, data
      ensures Valid() && data == old(data) && View() == ApplyAll(old(View()), data.Length, ops)
    {
      ghost var was := View();
      for i := 0 to |ops|
        invariant Valid() && data == old(data)
        invariant ApplyAll(was, data.Length, ops) == ApplyAll(View(), data.Length, ops[i..])
      {
        assert ops[i..][1..] == ops[i + 1..];
        Do(ops[i]);
      }
    }

    // pop, given what its waits bring.
    method Pop(rounds: seq<Round<T>>) returns (r: Popped<T>)
      requires Valid()
      modifies this, data
      ensures Valid() && data == old(data) && (View(), r) == PopOf(old(View()), data.Length, rounds)
    {
      ghost var was := View();
      var i := 0;
      while size <= 0
        invariant Valid() && data == old(data) && 0 <= i <= |rounds|
        invariant PopOf(was, data.Length, rounds) == PopOf(View(), data.Length, rounds[i..])
        decreases |rounds| - i
      {
        if i == |rounds| {
          return Blocked;
        }
        match rounds[i]
        case Failed => return Refused;
        case Woken(others) =>
          assert rounds[i..][1..] == rounds[i + 1..];
          DoAll(others);
          i := i + 1;
      }
      var item := Take();
      return Item(item);
    }

    // The end of the timed pop; signalled is the result of a wait, if it waited.
    method TimedPop(waited: bool, signalled: bool) returns (item: Option<T>)
      requires Valid() && (size > 0 || waited)
      modifies this`size, this`front, this`popped
      ensures Valid()
      ensures item == if (waited && !signalled) || old(size) == 0 then None else Some(old(Items())[0])
      ensures View() == Apply(old(View()), data.Length, if item == None then TimedOut else PopOne)
    {
      if waited && !signalled {
        return None;
      }
      if size <= 0 {
        return None;
      }
      var x := Take();
      return Some(x);
    }
  }

  // The two indices are apart by the number of items, modulo the capacity.
  lemma BackFollowsFront<T(0)>(r: Ring<T>)
    requires r.Valid()
    ensures (r.front + r.size - r.back) % r.data.Length == 0
  {
    ModOnce(0, r.data.Length);
  }
}
