// TinyWebServer's sort_timer_lst: the doubly linked list of timers, proved
// against the sequence operations of TimerQueue.
module TimerList {
  import opened Common
  import opened TimerQueue

  class UtilTimer {
    var expire: int
    const fd: nat             // user_data->sockfd
    var prev: UtilTimer?
    var next: UtilTimer?

    constructor (fd: nat, expire: int)
      ensures this.fd == fd && this.expire == expire && prev == null && next == null
    {
      this.fd, this.expire, prev, next := fd, expire, null, null;
    }
  }

  ghost function Entries(nodes: seq<UtilTimer>): (q: seq<Entry>)
    reads nodes`expire
    ensures |q| == |nodes|
  {
    if nodes == [] then [] else [Entry(nodes[0].fd, nodes[0].expire)] + Entries(nodes[1..])
  }

  lemma {:induction false} EntriesAt(nodes: seq<UtilTimer>, i: nat)
    requires i < |nodes|
    ensures Entries(nodes)[i] == Entry(nodes[i].fd, nodes[i].expire)
  {
    if i == 0 {
    } else {
      EntriesAt(nodes[1..], i - 1);
    }
  }

  lemma {:induction false} EntriesConcat(a: seq<UtilTimer>, b: seq<UtilTimer>)
    ensures Entries(a + b) == Entries(a) + Entries(b)
  {
    if a == [] {
      assert a + b == b;
    } else {
      EntriesConcat(a[1..], b);
      assert (a + b)[1..] == a[1..] + b;
    }
  }

  // Neighbours point at each other and the ends at nothing.
  ghost predicate Chain(nodes: seq<UtilTimer>)
    reads nodes`prev, nodes`next
  {
    && NoDup(nodes)
    && (nodes != [] ==> nodes[0].prev == null && nodes[|nodes| - 1].next == null)
    && (forall i {:trigger nodes[i].next} :: 0 <= i < |nodes| - 1 ==> nodes[i].next == nodes[i + 1])
    && (forall i {:trigger nodes[i].prev} :: 0 < i < |nodes| ==> nodes[i].prev == nodes[i - 1])
  }

  ghost function InsertAt<T>(s: seq<T>, i: nat, x: T): seq<T>
    requires i <= |s|
  {
    s[..i] + [x] + s[i..]
  }

  lemma InsertAtMembers<T>(s: seq<T>, i: nat, x: T)
    requires i <= |s|
    ensures forall y :: y in InsertAt(s, i, x) <==> y in s || y == x
  {
    assert s == s[..i] + s[i..];
  }

  lemma {:induction false} InsertStopsAt(q: seq<Entry>, k: nat, i: nat, e: Entry)
    requires k <= i < |q| && forall j :: k < j <= i ==> q[j].expire <= e.expire
    requires i + 1 < |q| ==> e.expire < q[i + 1].expire
    ensures q[..k + 1] + Insert(q[k + 1..], e) == InsertAt(q, i + 1, e)
    decreases i - k
  {
    if k == i {
    } else {
      InsertStopsAt(q, k + 1, i, e);
      assert q[k + 1..][1..] == q[k + 2..];
      assert q[..k + 2] == q[..k + 1] + [q[k + 1]];
    }
  }

  lemma EntriesInsert(nodes: seq<UtilTimer>, i: nat, timer: UtilTimer)
    requires i <= |nodes|
    ensures Entries(InsertAt(nodes, i, timer)) == InsertAt(Entries(nodes), i, Entry(timer.fd, timer.expire))
  {
    hide Entries;
    var a, b := nodes[..i], nodes[i..];
    assert nodes == a + b;
    EntriesConcat(a, b);
    EntriesConcat(a + [timer], b);
    EntriesConcat(a, [timer]);
    EntriesOne(timer);
  }

  lemma EntriesOne(timer: UtilTimer)
    ensures Entries([timer]) == [Entry(timer.fd, timer.expire)]
  {
    assert [timer][1..] == [];
  }

  lemma EntriesRemove(nodes: seq<UtilTimer>, i: nat)
    requires i < |nodes|
    ensures Entries(Remove(nodes, i)) == Remove(Entries(nodes), i)
  {
    EntriesConcat(nodes[..i], nodes[i + 1..]);
    EntriesTail(nodes, i);
  }

  lemma EntriesTail(nodes: seq<UtilTimer>, i: nat)
    requires i < |nodes|
    ensures Entries(nodes)[..i] == Entries(nodes[..i]) && Entries(nodes)[i + 1..] == Entries(nodes[i + 1..])
  {
    assert nodes == nodes[..i] + nodes[i..];
    EntriesConcat(nodes[..i], nodes[i..]);
    assert nodes[i..][1..] == nodes[i + 1..];
  }

  lemma RemoveMembers<T>(s: seq<T>, i: nat)
    requires i < |s| && forall j, k :: 0 <= j < k < |s| ==> s[j] != s[k]
    ensures s[i] !in Remove(s, i)
    ensures forall y :: y in Remove(s, i) <==> y in s && y != s[i]
  {
    forall y | y in s && y != s[i]
      ensures y in Remove(s, i)
    {
      var j :| 0 <= j < |s| && s[j] == y;
      assert if j < i then Remove(s, i)[j] == y else Remove(s, i)[j - 1] == y;
    }
  }

  lemma RemoveSlices(q: seq<Entry>, i: nat)
    requires i + 1 < |q|
    ensures Remove(q, i)[..i + 1] == q[..i] + [q[i + 1]] && Remove(q, i)[i + 1..] == q[i + 2..]
  {
  }

  lemma RemoveFirst<T>(s: seq<T>)
    requires s != []
    ensures Remove(s, 0) == s[1..]
  {
  }

  lemma RemoveEnds<T>(s: seq<T>, i: nat)
    requires i < |s|
    ensures var r := Remove(s, i);
      && |r| == |s| - 1
      && (1 < |s| ==> r[0] == s[if i == 0 then 1 else 0])
      && (1 < |s| ==> r[|r| - 1] == s[if i == |s| - 1 then |s| - 2 else |s| - 1])
  {
  }

  lemma EmptyChain()
    ensures Chain([])
  {
  }

  lemma NextOf(nodes: seq<UtilTimer>, i: nat)
    requires Chain(nodes) && i < |nodes|
    ensures nodes[i].next == if i + 1 < |nodes| then nodes[i + 1] else null
  {
  }

  // ---------- pointer surgery, one place at a time ----------

  method LinkFirst(timer: UtilTimer, ghost nodes: seq<UtilTimer>, head: UtilTimer)
    requires Chain(nodes) && nodes != [] && head == nodes[0] && timer !in nodes && timer.prev == null
    modifies timer`next, head`prev
    ensures Chain(InsertAt(nodes, 0, timer))
  {
    timer.next := head;
    head.prev := timer;
  }

  method LinkLast(timer: UtilTimer, ghost nodes: seq<UtilTimer>, prev: UtilTimer)
    requires Chain(nodes) && nodes != [] && prev == nodes[|nodes| - 1] && timer !in nodes
    modifies timer`next, timer`prev, prev`next
    ensures Chain(InsertAt(nodes, |nodes|, timer))
  {
    prev.next := timer;
    timer.prev := prev;
    timer.next := null;
  }

  method LinkBetween(timer: UtilTimer, ghost nodes: seq<UtilTimer>, ghost i: nat, prev: UtilTimer, tmp: UtilTimer)
    requires Chain(nodes) && i + 1 < |nodes| && prev == nodes[i] && tmp == nodes[i + 1] && timer !in nodes
    modifies timer`next, timer`prev, prev`next, tmp`prev
    ensures Chain(InsertAt(nodes, i + 1, timer))
  {
    prev.next := timer;
    timer.next := tmp;
    tmp.prev := timer;
    timer.prev := prev;
  }

  method UnlinkFirst(timer: UtilTimer, ghost nodes: seq<UtilTimer>) returns (head: UtilTimer)
    requires Chain(nodes) && |nodes| > 1 && timer == nodes[0]
    modifies {nodes[1]}`prev
    ensures Chain(Remove(nodes, 0)) && head == nodes[1]
  {
    head := timer.next;
    head.prev := null;
  }

  method UnlinkLast(timer: UtilTimer, ghost nodes: seq<UtilTimer>) returns (tail: UtilTimer)
    requires Chain(nodes) && |nodes| > 1 && timer == nodes[|nodes| - 1]
    modifies {nodes[|nodes| - 2]}`next
    ensures Chain(Remove(nodes, |nodes| - 1)) && tail == nodes[|nodes| - 2]
  {
    tail := timer.prev;
    tail.next := null;
  }

  method UnlinkMiddle(timer: UtilTimer, ghost nodes: seq<UtilTimer>, ghost i: nat)
    requires Chain(nodes) && 0 < i < |nodes| - 1 && timer == nodes[i]
    modifies {nodes[i - 1]}`next, {nodes[i + 1]}`prev
    ensures Chain(Remove(nodes, i)) && timer.next == nodes[i + 1]
  {
    timer.prev.next := timer.next;
    timer.next.prev := timer.prev;
  }

  // ---------- the list ----------

  class SortTimerLst {
    var head: UtilTimer?
    var tail: UtilTimer?
    ghost var nodes: seq<UtilTimer>

    // tail means nothing while the list is empty: tick leaves it behind.
    ghost predicate Linked()
      reads this, nodes`prev, nodes`next
    {
      && Chain(nodes)
      && (head == null <==> nodes == [])
      && (nodes != [] ==> head == nodes[0] && tail == nodes[|nodes| - 1])
    }

    ghost function View(): (q: seq<Entry>)
      reads this, nodes`expire
      ensures |q| == |nodes|
    {
      Entries(nodes)
    }

    constructor ()
      ensures Linked() && nodes == []
    {
      head, tail, nodes := null, null, [];
    }

    method AddTimer(timer: UtilTimer?)
      requires Linked() && (timer != null ==> timer !in nodes && timer.prev == null && timer.next == null)
      modifies this, nodes`prev, nodes`next, (if timer == null then {} else {timer})`prev,
          (if timer == null then {} else {timer})`next
      ensures Linked()
      ensures timer == null ==> nodes == old(nodes)
      ensures timer != null ==> View() == Insert(old(View()), Entry(timer.fd, timer.expire))
      ensures timer != null ==> forall n :: n in nodes <==> n in old(nodes) || n == timer
    {
      if timer == null {
        return;
      }
      if head == null {
        head, tail := timer, timer;
        nodes := [timer];
        return;
      }
      if timer.expire < head.expire {
        AddFirst(timer);
        return;
      }
      AddAfter(timer, head, 0);
    }

    method AddFirst(timer: UtilTimer)
      requires Linked() && head != null && timer !in nodes && timer.prev == null
      modifies this, nodes`prev, nodes`next, timer`prev, timer`next
      ensures Linked() && nodes == InsertAt(old(nodes), 0, timer)
      ensures View() == [Entry(timer.fd, timer.expire)] + old(View())
      ensures forall n :: n in nodes <==> n in old(nodes) || n == timer
    {
      hide Chain;
      InsertAtMembers(nodes, 0, timer);
      LinkFirst(timer, nodes, head);
      head := timer;
      nodes := InsertAt(nodes, 0, timer);
      EntriesInsert(old(nodes), 0, timer);
    }

    method AddBetween(timer: UtilTimer, prev: UtilTimer, tmp: UtilTimer, ghost i: nat)
      requires Linked() && timer !in nodes && i + 1 < |nodes| && prev == nodes[i] && tmp == nodes[i + 1]
      modifies this, nodes`prev, nodes`next, timer`prev, timer`next
      ensures Linked() && nodes == InsertAt(old(nodes), i + 1, timer)
      ensures View() == InsertAt(old(View()), i + 1, Entry(timer.fd, timer.expire))
      ensures forall n :: n in nodes <==> n in old(nodes) || n == timer
    {
      hide Chain;
      InsertAtMembers(nodes, i + 1, timer);
      LinkBetween(timer, nodes, i, prev, tmp);
      nodes := InsertAt(nodes, i + 1, timer);
      EntriesInsert(old(nodes), i + 1, timer);
    }

    method AddLast(timer: UtilTimer, prev: UtilTimer)
      requires Linked() && timer !in nodes && nodes != [] && prev == nodes[|nodes| - 1]
      modifies this, nodes`prev, nodes`next, timer`prev, timer`next
      ensures Linked() && nodes == InsertAt(old(nodes), |old(nodes)|, timer)
      ensures View() == InsertAt(old(View()), |old(nodes)|, Entry(timer.fd, timer.expire))
      ensures forall n :: n in nodes <==> n in old(nodes) || n == timer
    {
      hide Chain;
      InsertAtMembers(nodes, |nodes|, timer);
      LinkLast(timer, nodes, prev);
      tail := timer;
      nodes := InsertAt(nodes, |nodes|, timer);
      EntriesInsert(old(nodes), |old(nodes)|, timer);
    }

    // The loop of the private add_timer: the last node not later than expire on
    // a walk that starts after node k, and its successor.
    method Walk(expire: int, lstHead: UtilTimer, ghost k: nat) returns (prev: UtilTimer, tmp: UtilTimer?, ghost i: nat)
      requires Linked() && k < |nodes| && nodes[k] == lstHead
      ensures k <= i < |nodes| && prev == nodes[i] && tmp == if i + 1 < |nodes| then nodes[i + 1] else null
      ensures forall j :: k < j <= i ==> View()[j].expire <= expire
      ensures tmp != null ==> expire < View()[i + 1].expire
    {
      prev, i := lstHead, k;
      tmp := prev.next;
      NextOf(nodes, i);
      while tmp != null
        invariant k <= i < |nodes| && prev == nodes[i] && tmp == if i + 1 < |nodes| then nodes[i + 1] else null
        invariant forall j :: k < j <= i ==> View()[j].expire <= expire
        decreases |nodes| - i
      {
        EntriesAt(nodes, i + 1);
        if expire < tmp.expire {
          break;
        }
        prev := tmp;
        tmp := tmp.next;
        i := i + 1;
        NextOf(nodes, i);
      }
    }

    // The private add_timer: walk on from node k and insert.
    method AddAfter(timer: UtilTimer, lstHead: UtilTimer, ghost k: nat)
      requires Linked() && timer !in nodes && k < |nodes| && nodes[k] == lstHead
      modifies this, nodes`prev, nodes`next, timer`prev, timer`next
      ensures Linked()
      ensures View() == old(View())[..k + 1] + Insert(old(View())[k + 1..], Entry(timer.fd, timer.expire))
      ensures forall n :: n in nodes <==> n in old(nodes) || n == timer
    {
      hide Chain;
      var prev, tmp, i := Walk(timer.expire, lstHead, k);
      InsertStopsAt(View(), k, i, Entry(timer.fd, timer.expire));
      if tmp != null {
        AddBetween(timer, prev, tmp, i);
      } else {
        AddLast(timer, prev);
      }
    }

    lemma Positions(timer: UtilTimer, i: nat)
      requires Linked() && i < |nodes| && timer == nodes[i]
      ensures (timer == head <==> i == 0) && (timer == tail <==> i == |nodes| - 1)
    {
    }

    method DelTimer(timer: UtilTimer?, ghost i: nat)
      requires Linked() && (timer != null ==> i < |nodes| && timer == nodes[i])
      modifies this, nodes`prev, nodes`next
      ensures Linked()
      ensures timer == null ==> nodes == old(nodes)
      ensures timer != null ==> nodes == Remove(old(nodes), i) && View() == Remove(old(View()), i)
    {
      if timer == null {
        return;
      }
      hide Chain, Entries, Remove;
      EntriesRemove(nodes, i);
      RemoveEnds(nodes, i);
      Unlink(timer, i);
      nodes := Remove(nodes, i);
    }

    // The four cases of del_timer.
    method Unlink(timer: UtilTimer, ghost i: nat)
      requires Linked() && i < |nodes| && timer == nodes[i]
      modifies this`head, this`tail, nodes`prev, nodes`next
      ensures Chain(Remove(nodes, i)) && (head == null <==> |nodes| == 1)
      ensures 1 < |nodes| ==> head == nodes[if i == 0 then 1 else 0]
      ensures 1 < |nodes| ==> tail == nodes[if i == |nodes| - 1 then |nodes| - 2 else |nodes| - 1]
    {
      hide Chain, Remove;
      EmptyChain();
      RemoveEnds(nodes, i);
      Positions(timer, i);
      if timer == head && timer == tail {
        head, tail := null, null;
      } else if timer == head {
        head := UnlinkFirst(timer, nodes);
      } else if timer == tail {
        tail := UnlinkLast(timer, nodes);
      } else {
        UnlinkMiddle(timer, nodes, i);
      }
    }

    // adjust_timer up to the second insertion: the timer is not the last node.
    method Detach(timer: UtilTimer, ghost i: nat) returns (successor: UtilTimer)
      requires Linked() && i + 1 < |nodes| && timer == nodes[i]
      modifies this, nodes`prev, nodes`next
      ensures Linked() && nodes == Remove(old(nodes), i) && successor == old(nodes[i + 1])
      ensures View() == Remove(old(View()), i)
    {
      hide Chain;
      EmptyChain();
      EntriesRemove(nodes, i);
      Positions(timer, i);
      NextOf(nodes, i);
      if timer == head {
        head := UnlinkFirst(timer, nodes);
        timer.next := null;
        successor := head;
      } else {
        UnlinkMiddle(timer, nodes, i);
        successor := timer.next;
      }
      nodes := Remove(nodes, i);
    }

    // The caller has just changed timer.expire.
    method AdjustTimer(timer: UtilTimer?, ghost i: nat)
      requires Linked() && (timer != null ==> i < |nodes| && timer == nodes[i])
      modifies this, nodes`prev, nodes`next
      ensures Linked() && forall n :: n in nodes <==> n in old(nodes)
      ensures timer == null ==> nodes == old(nodes)
      ensures timer != null ==> View() == Adjust(old(View()), i, timer.expire)
    {
      if timer == null {
        return;
      }
      hide Chain;
      NextOf(nodes, i);
      EntriesAt(nodes, i);
      ghost var q := View();
      assert q[i := Entry(q[i].fd, timer.expire)] == q;
      var tmp := timer.next;
      if tmp != null {
        EntriesAt(nodes, i + 1);
      }
      if tmp == null || timer.expire < tmp.expire {
        return;
      }
      Reposition(timer, i);
    }

    // The rest of adjust_timer: the timer moves behind its successor.
    method Reposition(timer: UtilTimer, ghost i: nat)
      requires Linked() && i + 1 < |nodes| && timer == nodes[i]
      modifies this, nodes`prev, nodes`next
      ensures Linked() && forall n :: n in nodes <==> n in old(nodes)
      ensures View() == old(View())[..i] + [old(View())[i + 1]] +
        Insert(old(View())[i + 2..], Entry(timer.fd, timer.expire))
    {
      hide Chain;
      Distinct();
      RemoveMembers(nodes, i);
      RemoveSlices(View(), i);
      var successor := Detach(timer, i);
      AddAfter(timer, successor, i);
    }

    lemma Distinct()
      requires Linked()
      ensures NoDup(nodes)
    {
    }

    // The callback of every expired timer is called with its descriptor, in
    // order. tail is left alone.
    method Tick(now: int) returns (closed: seq<nat>)
      requires Linked()
      modifies this, nodes`prev, nodes`next
      ensures Linked() && tail == old(tail)
      ensures View() == old(View())[Expired(old(View()), now)..]
      ensures nodes == old(nodes)[Expired(old(View()), now)..]
      ensures closed == Fds(old(View())[..Expired(old(View()), now)])
    {
      hide Chain, Entries, Expired, Fds;
      closed := [];
      ghost var q := View();
      ghost var n := 0;
      TickStart(q, now);
      if head == null {
        return;
      }
      var tmp := head;
      while tmp != null
        invariant Linked() && tail == old(tail) && tmp == head && n <= |q| && View() == q[n..] && closed == Fds(q[..n])
        invariant |nodes| == |q| - n && nodes == old(nodes)[n..]
        invariant Expired(q, now) == n + Expired(q[n..], now)
        decreases |nodes|
      {
        EntriesAt(nodes, 0);
        TickStep(q, n, now);
        if now < tmp.expire {
          break;
        }
        closed := closed + [tmp.fd];
        n := n + 1;
        DropFirst(tmp);
        tmp := head;
      }
    }

    static lemma TickStart(q: seq<Entry>, now: int)
      ensures q[0..] == q && Fds(q[..0]) == [] && Expired([], now) == 0
      ensures q[|q|..] == []
    {
    }

    static lemma TickStep(q: seq<Entry>, n: nat, now: int)
      requires n < |q|
      ensures q[n..][0] == q[n] && q[n..][1..] == q[n + 1..] && Fds(q[..n + 1]) == Fds(q[..n]) + [q[n].fd]
      ensures Expired(q[n..], now) == if now < q[n].expire then 0 else 1 + Expired(q[n + 1..], now)
    {
      assert q[n..][1..] == q[n + 1..];
      assert q[..n + 1] == q[..n] + [q[n]];
    }

    method DropFirst(tmp: UtilTimer)
      requires Linked() && tmp == head && nodes != []
      modifies this`head, this`nodes, nodes`prev, nodes`next
      ensures Linked() && nodes == old(nodes)[1..] && View() == old(View())[1..]
    {
      hide Chain;
      NextOf(nodes, 0);
      EmptyChain();
      RemoveFirst(nodes);
      if tmp.next == null {
        head := null;
      } else {
        head := UnlinkFirst(tmp, nodes);
      }
      nodes := nodes[1..];
    }
  }
}
