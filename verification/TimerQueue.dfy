// What TinyWebServer's timer list does, on sequences of (descriptor, deadline).
module TimerQueue {
  datatype Entry = Entry(fd: nat, expire: int)

  ghost predicate Sorted(q: seq<Entry>) {
    forall i, j :: 0 <= i < j < |q| ==> q[i].expire <= q[j].expire
  }

  // add_timer: before the first entry with a later deadline.
  function Insert(q: seq<Entry>, e: Entry): (r: seq<Entry>)
    ensures |r| == |q| + 1
  {
    if q == [] || e.expire < q[0].expire then [e] + q else [q[0]] + Insert(q[1..], e)
  }

  function Remove<T>(q: seq<T>, i: nat): seq<T>
    requires i < |q|
  {
    q[..i] + q[i + 1..]
  }

  // adjust_timer, after the caller gave entry i a new deadline: leave it where
  // it is if it is last or still earlier than its successor, else take it out
  // and walk on from the successor.
  function Adjust(q: seq<Entry>, i: nat, expire: int): seq<Entry>
    requires i < |q|
  {
    var e := Entry(q[i].fd, expire);
    if i + 1 == |q| || expire < q[i + 1].expire then q[i := e]
    else q[..i] + [q[i + 1]] + Insert(q[i + 2..], e)
  }

  // tick: how many entries at the front have expired at time now.
  function Expired(q: seq<Entry>, now: int): (n: nat)
    ensures n <= |q|
  {
    if q == [] || now < q[0].expire then 0 else 1 + Expired(q[1..], now)
  }

  // ---------- insertion is stable and keeps the order ----------

  // The place of a new deadline in a sorted list: after every earlier or equal
  // one, before every later one.
  lemma {:induction false} InsertIsStable(q: seq<Entry>, e: Entry) returns (p: nat)
    requires Sorted(q)
    ensures p <= |q| && Insert(q, e) == q[..p] + [e] + q[p..]
    ensures forall k :: 0 <= k < p ==> q[k].expire <= e.expire
    ensures forall k :: p <= k < |q| ==> e.expire < q[k].expire
    ensures Sorted(Insert(q, e))
  {
    if q == [] || e.expire < q[0].expire {
      p := 0;
    } else {
      var p' := InsertIsStable(q[1..], e);
      p := p' + 1;
      assert q[..p] == [q[0]] + q[1..][..p'];
      assert q[1..][p'..] == q[p..];
      forall k | 0 <= k < p
        ensures q[k].expire <= e.expire
      {
        if k > 0 {
          assert q[k] == q[1..][k - 1];
        }
      }
      forall k | p <= k < |q|
        ensures e.expire < q[k].expire
      {
        assert q[k] == q[1..][k - 1];
      }
    }
  }

  // Entries up to a prefix with no later deadline do not matter to Insert.
  lemma {:induction false} InsertPastPrefix(a: seq<Entry>, b: seq<Entry>, e: Entry)
    requires forall k :: 0 <= k < |a| ==> a[k].expire <= e.expire
    ensures Insert(a + b, e) == a + Insert(b, e)
  {
    if a == [] {
      assert a + b == b;
    } else {
      InsertPastPrefix(a[1..], b, e);
      assert (a + b)[1..] == a[1..] + b;
      assert a + Insert(b, e) == [a[0]] + (a[1..] + Insert(b, e));
    }
  }

  lemma InsertLast(q: seq<Entry>, e: Entry)
    requires forall k :: 0 <= k < |q| ==> q[k].expire <= e.expire
    ensures Insert(q, e) == q + [e]
  {
    InsertPastPrefix(q, [], e);
    assert q + [] == q;
  }

  lemma ReinsertInPlace(q: seq<Entry>, i: nat, e: Entry)
    requires i < |q| && (i + 1 == |q| || e.expire < q[i + 1].expire)
    requires forall k :: 0 <= k < i ==> q[k].expire <= e.expire
    ensures q[i := e] == Insert(Remove(q, i), e)
  {
    InsertPastPrefix(q[..i], q[i + 1..], e);
  }

  lemma ReinsertLater(q: seq<Entry>, i: nat, e: Entry)
    requires i + 1 < |q| && q[i + 1].expire <= e.expire
    requires forall k :: 0 <= k < i ==> q[k].expire <= e.expire
    ensures q[..i] + [q[i + 1]] + Insert(q[i + 2..], e) == Insert(Remove(q, i), e)
  {
    InsertPastPrefix(q[..i] + [q[i + 1]], q[i + 2..], e);
    assert Remove(q, i) == q[..i] + [q[i + 1]] + q[i + 2..];
  }

  // A deadline that does not move before the predecessor's: adjusting is the
  // same as removing the timer and inserting it again, early return included.
  lemma AdjustIsReinsert(q: seq<Entry>, i: nat, expire: int)
    requires Sorted(q) && i < |q| && (i == 0 || q[i - 1].expire <= expire)
    ensures Adjust(q, i, expire) == Insert(Remove(q, i), Entry(q[i].fd, expire))
  {
    var e := Entry(q[i].fd, expire);
    if i + 1 == |q| || expire < q[i + 1].expire {
      ReinsertInPlace(q, i, e);
    } else {
      ReinsertLater(q, i, e);
    }
  }

  // The list stays sorted exactly when the new deadline is not earlier than the
  // predecessor's; in particular whenever a deadline only moves later.
  lemma AdjustSortedExactly(q: seq<Entry>, i: nat, expire: int)
    requires Sorted(q) && i < |q|
    ensures Sorted(Adjust(q, i, expire)) <==> i == 0 || q[i - 1].expire <= expire
  {
    if i == 0 || q[i - 1].expire <= expire {
      AdjustIsReinsert(q, i, expire);
      var p := InsertIsStable(Remove(q, i), Entry(q[i].fd, expire));
    } else {
      var r := Adjust(q, i, expire);
      assert r[i - 1].expire > r[i].expire;
    }
  }

  // On a sorted list tick takes exactly the timers whose deadline has come.
  lemma {:induction false} ExpiredExactly(q: seq<Entry>, now: int)
    requires Sorted(q)
    ensures forall k :: 0 <= k < |q| ==> (k < Expired(q, now) <==> q[k].expire <= now)
  {
    if q == [] || now < q[0].expire {
    } else {
      ExpiredExactly(q[1..], now);
      forall k | 0 < k < |q|
        ensures k < Expired(q, now) <==> q[k].expire <= now
      {
        assert q[k] == q[1..][k - 1];
      }
    }
  }

  function Fds(q: seq<Entry>): (r: seq<nat>)
    ensures |r| == |q| && forall i :: 0 <= i < |q| ==> r[i] == q[i].fd
  {
    seq(|q|, i requires 0 <= i < |q| => q[i].fd)
  }
}
