// TinyWebServer's http_conn::write over all the calls that the event loop makes
// for one reply, from the counter that process_write stored in an int.
module ReplyDelivery {
  import opened Common
  import opened HttpCodes
  import opened PartialWrite
  import Response

  // The result of one writev: a positive count, EAGAIN, or another error.
  datatype Writev = Wrote(n: nat) | Again | Failed

  // How a call of write ended: nothing was left to send, the reply is complete,
  // EAGAIN (called again on EPOLLOUT), an error, or it is still in its loop.
  datatype Outcome = Idle | Complete | Retry | Error | Unfinished

  function WriteLoop(w: Writer, writeIdx: nat, results: seq<Writev>): (Writer, Outcome)
    decreases |results|
  {
    if results == [] then (w, Unfinished)
    else
      match results[0]
      case Again => (w, Retry)
      case Failed => (w, Error)
      case Wrote(n) =>
        var w' := Advance(w, writeIdx, n);
        if w'.toSend <= 0 then (w', Complete) else WriteLoop(w', writeIdx, results[1..])
  }

  function WriteCall(w: Writer, writeIdx: nat, results: seq<Writev>): (Writer, Outcome) {
    if w.toSend == 0 then (w, Idle) else WriteLoop(w, writeIdx, results)
  }

  // Call after call, as long as they end with EAGAIN.
  function Calls(w: Writer, writeIdx: nat, calls: seq<seq<Writev>>): (Writer, Outcome)
    decreases |calls|
  {
    if calls == [] then (w, Retry)
    else
      var (w', outcome) := WriteCall(w, writeIdx, calls[0]);
      if outcome == Retry then Calls(w', writeIdx, calls[1..]) else (w', outcome)
  }

  // ---------- what went out ----------

  // The counts of the successful writevs, in order.
  function LoopCounts(w: Writer, writeIdx: nat, results: seq<Writev>): (ns: seq<nat>)
    ensures |ns| <= |results|
    decreases |results|
  {
    if results == [] || !results[0].Wrote? then []
    else
      var w' := Advance(w, writeIdx, results[0].n);
      [results[0].n] + if w'.toSend <= 0 then [] else LoopCounts(w', writeIdx, results[1..])
  }

  function Counts(w: Writer, writeIdx: nat, calls: seq<seq<Writev>>): seq<nat>
    decreases |calls|
  {
    if calls == [] || w.toSend == 0 then []
    else
      var (w', outcome) := WriteLoop(w, writeIdx, calls[0]);
      LoopCounts(w, writeIdx, calls[0]) + if outcome == Retry then Counts(w', writeIdx, calls[1..]) else []
  }

  // The writer after each of them.
  function Writers(w: Writer, writeIdx: nat, ns: seq<nat>): (ws: seq<Writer>)
    ensures |ws| == |ns| + 1 && ws[0] == w
    decreases |ns|
  {
    [w] + if ns == [] then [] else Writers(Advance(w, writeIdx, ns[0]), writeIdx, ns[1..])
  }

  // The kernel takes a non-empty prefix of what the iovecs describe.
  predicate Obeys(w: Writer, header: string, file: string, ns: seq<nat>)
    decreases |ns|
  {
    ns == [] ||
    var d := Described(w, header, file);
    d.Some? && 0 < ns[0] <= |d.value| && Obeys(Advance(w, |header|, ns[0]), header, file, ns[1..])
  }

  // What the peer has got after each of them.
  function Got(w: Writer, header: string, file: string, ns: seq<nat>, sent: string): (r: seq<string>)
    requires Obeys(w, header, file, ns)
    ensures |r| == |ns| + 1 && r[0] == sent
    decreases |ns|
  {
    [sent] + if ns == [] then []
             else Got(Advance(w, |header|, ns[0]), header, file, ns[1..],
                 sent + Described(w, header, file).value[..ns[0]])
  }

  function Sent(w: Writer, header: string, file: string, ns: seq<nat>): string
    requires Obeys(w, header, file, ns)
  {
    Got(w, header, file, ns, "")[|ns|]
  }

  // ---------- the calls are a run of the writer ----------

  // Every writev was made with something left to send.
  predicate Going(w: Writer, writeIdx: nat, ns: seq<nat>)
    decreases |ns|
  {
    ns == [] || (w.toSend > 0 && Going(Advance(w, writeIdx, ns[0]), writeIdx, ns[1..]))
  }

  function Final(w: Writer, writeIdx: nat, ns: seq<nat>): Writer
    decreases |ns|
  {
    if ns == [] then w else Final(Advance(w, writeIdx, ns[0]), writeIdx, ns[1..])
  }

  lemma {:induction false} LoopIsGoing(w: Writer, writeIdx: nat, results: seq<Writev>)
    requires w.toSend > 0
    ensures var (w', outcome) := WriteLoop(w, writeIdx, results); var ns := LoopCounts(w, writeIdx, results);
      && Going(w, writeIdx, ns) && w' == Final(w, writeIdx, ns) && (outcome == Complete <==> w'.toSend <= 0)
    decreases |results|
  {
    if results == [] || !results[0].Wrote? {
    } else {
      var w1 := Advance(w, writeIdx, results[0].n);
      if w1.toSend > 0 {
        LoopIsGoing(w1, writeIdx, results[1..]);
        assert ([results[0].n] + LoopCounts(w1, writeIdx, results[1..]))[1..] == LoopCounts(w1, writeIdx, results[1..]);
      }
    }
  }

  lemma {:induction false} GoingOn(w: Writer, writeIdx: nat, a: seq<nat>, b: seq<nat>)
    requires Going(w, writeIdx, a) && Going(Final(w, writeIdx, a), writeIdx, b)
    ensures Going(w, writeIdx, a + b) && Final(w, writeIdx, a + b) == Final(Final(w, writeIdx, a), writeIdx, b)
    decreases |a|
  {
    if a == [] {
      assert a + b == b;
    } else {
      assert (a + b)[1..] == a[1..] + b;
      GoingOn(Advance(w, writeIdx, a[0]), writeIdx, a[1..], b);
    }
  }

  lemma {:induction false} CallsAreGoing(w: Writer, writeIdx: nat, calls: seq<seq<Writev>>)
    requires w.toSend > 0
    ensures var (w', outcome) := Calls(w, writeIdx, calls); var ns := Counts(w, writeIdx, calls);
      && Going(w, writeIdx, ns) && w' == Final(w, writeIdx, ns) && (outcome == Complete <==> w'.toSend <= 0)
      && outcome != Idle
    decreases |calls|
  {
    if calls == [] {
    } else {
      hide WriteLoop, LoopCounts, Final, Going;
      LoopIsGoing(w, writeIdx, calls[0]);
      LoopNotIdle(w, writeIdx, calls[0]);
      var (w1, outcome) := WriteLoop(w, writeIdx, calls[0]);
      if outcome == Retry {
        CallsAreGoing(w1, writeIdx, calls[1..]);
        GoingOn(w, writeIdx, LoopCounts(w, writeIdx, calls[0]), Counts(w1, writeIdx, calls[1..]));
      } else {
        assert LoopCounts(w, writeIdx, calls[0]) + [] == LoopCounts(w, writeIdx, calls[0]);
      }
    }
  }

  lemma {:induction false} LoopNotIdle(w: Writer, writeIdx: nat, results: seq<Writev>)
    ensures WriteLoop(w, writeIdx, results).1 != Idle
    decreases |results|
  {
    if results == [] || !results[0].Wrote? {
    } else {
      LoopNotIdle(Advance(w, writeIdx, results[0].n), writeIdx, results[1..]);
    }
  }

  // ---------- which result ends it, and how ----------

  // A call goes through the counts of its successful writevs. With something
  // left to send EAGAIN makes it a retry, any other error an error, and only
  // lack of results leaves it in its loop.
  lemma {:induction false} LoopEnds(w: Writer, writeIdx: nat, results: seq<Writev>)
    requires w.toSend > 0
    ensures var ns := LoopCounts(w, writeIdx, results); var k, left := |ns|, Final(w, writeIdx, ns).toSend;
      var outcome := WriteLoop(w, writeIdx, results).1;
      && k <= |results| && (forall j :: 0 <= j < k ==> results[j] == Wrote(ns[j]))
      && (left > 0 && k < |results| ==> !results[k].Wrote?)
      && (outcome == Complete <==> left <= 0)
      && (outcome == Retry <==> left > 0 && k < |results| && results[k].Again?)
      && (outcome == Error <==> left > 0 && k < |results| && results[k].Failed?)
      && (outcome == Unfinished <==> left > 0 && k == |results|)
    decreases |results|
  {
    if results == [] || !results[0].Wrote? {
    } else {
      var w1 := Advance(w, writeIdx, results[0].n);
      if w1.toSend > 0 {
        LoopEnds(w1, writeIdx, results[1..]);
      }
      var ns := LoopCounts(w, writeIdx, results);
      assert ns[1..] == if w1.toSend <= 0 then [] else LoopCounts(w1, writeIdx, results[1..]);
    }
  }

  // The results that the calls used, up to the one that ended the last of them.
  function Used(w: Writer, writeIdx: nat, calls: seq<seq<Writev>>): seq<Writev>
    decreases |calls|
  {
    if calls == [] || w.toSend <= 0 then []
    else
      var ns := LoopCounts(w, writeIdx, calls[0]);
      var k, w' := |ns|, Final(w, writeIdx, ns);
      if k == |calls[0]| || w'.toSend <= 0 then calls[0][..k]
      else calls[0][..k + 1] + if calls[0][k].Again? then Used(w', writeIdx, calls[1..]) else []
  }

  function Agains(results: seq<Writev>): nat {
    if results == [] then 0 else Agains(results[1..]) + if results[0].Again? then 1 else 0
  }

  lemma {:induction false} AgainsBehind(a: seq<Writev>, b: seq<Writev>)
    requires forall r :: r in a ==> r.Wrote?
    ensures Agains(a + b) == Agains(b)
  {
    if a == [] {
      assert a + b == b;
    } else {
      AgainsBehind(a[1..], b);
      assert (a + b)[1..] == a[1..] + b && (a + b)[0] in a;
    }
  }

  // How calls ended, by the results used: an error exactly if a writev really
  // failed, complete exactly if nothing is left, called again exactly if each of
  // the n calls met EAGAIN.
  predicate EndsBy(outcome: Outcome, left: int, used: seq<Writev>, n: nat) {
    && (outcome == Complete <==> left <= 0)
    && (outcome == Error <==> Failed in used)
    && (outcome == Retry <==> Agains(used) == n) && Agains(used) <= n
  }

  lemma LastCall(w: Writer, writeIdx: nat, calls: seq<seq<Writev>>)
    requires w.toSend > 0 && calls != [] && WriteLoop(w, writeIdx, calls[0]).1 != Retry
    ensures var (w', outcome) := WriteLoop(w, writeIdx, calls[0]);
      EndsBy(outcome, w'.toSend, Used(w, writeIdx, calls), |calls|)
  {
    hide Agains, WriteLoop, LoopCounts, Final;
    LoopEnds(w, writeIdx, calls[0]);
    LoopIsGoing(w, writeIdx, calls[0]);
    LoopNotIdle(w, writeIdx, calls[0]);
    var ns := LoopCounts(w, writeIdx, calls[0]);
    var front := calls[0][..|ns|];
    OnlyWritten(front);
    if WriteLoop(w, writeIdx, calls[0]).1 == Error {
      assert calls[0][..|ns| + 1] + [] == front + [Failed];
      assert (front + [Failed])[|ns|] == Failed;
      AgainsBehind(front, [Failed]);
      OneMore(Failed, []);
      assert [Failed] + [] == [Failed];
    }
  }

  lemma NextCall(w: Writer, writeIdx: nat, calls: seq<seq<Writev>>, outcome: Outcome, left: int)
    requires w.toSend > 0 && calls != [] && WriteLoop(w, writeIdx, calls[0]).1 == Retry
    requires EndsBy(outcome, left, Used(WriteLoop(w, writeIdx, calls[0]).0, writeIdx, calls[1..]), |calls| - 1)
    ensures EndsBy(outcome, left, Used(w, writeIdx, calls), |calls|)
  {
    hide Agains, WriteLoop, LoopCounts, Final;
    LoopEnds(w, writeIdx, calls[0]);
    LoopIsGoing(w, writeIdx, calls[0]);
    var ns := LoopCounts(w, writeIdx, calls[0]);
    var front, rest := calls[0][..|ns|], Used(WriteLoop(w, writeIdx, calls[0]).0, writeIdx, calls[1..]);
    assert calls[0][..|ns| + 1] + rest == front + ([Again] + rest);
    assert Used(w, writeIdx, calls) == front + ([Again] + rest);
    AgainsBehind(front, [Again] + rest);
    OneMore(Again, rest);
    assert forall r :: r in front ==> r.Wrote?;
    assert Failed in front + ([Again] + rest) <==> Failed in rest;
  }

  lemma {:induction false} CallsEnd(w: Writer, writeIdx: nat, calls: seq<seq<Writev>>)
    requires w.toSend > 0
    ensures var (w', outcome) := Calls(w, writeIdx, calls);
      EndsBy(outcome, w'.toSend, Used(w, writeIdx, calls), |calls|)
    decreases |calls|
  {
    if calls == [] {
    } else {
      hide WriteLoop, EndsBy, Used;
      LoopEnds(w, writeIdx, calls[0]);
      LoopIsGoing(w, writeIdx, calls[0]);
      var (w1, outcome) := WriteLoop(w, writeIdx, calls[0]);
      if outcome == Retry {
        CallsEnd(w1, writeIdx, calls[1..]);
        var (w', last) := Calls(w1, writeIdx, calls[1..]);
        NextCall(w, writeIdx, calls, last, w'.toSend);
      } else {
        LastCall(w, writeIdx, calls);
      }
    }
  }

  lemma OnlyWritten(front: seq<Writev>)
    requires forall r :: r in front ==> r.Wrote?
    ensures Agains(front) == 0 && Failed !in front
  {
    AgainsBehind(front, []);
    assert front + [] == front;
  }

  lemma OneMore(r: Writev, rest: seq<Writev>)
    ensures Agains([r] + rest) == Agains(rest) + if r.Again? then 1 else 0
    ensures rest == [] ==> Agains(rest) == 0
  {
    assert ([r] + rest)[1..] == rest;
  }

  // Step by step, the same as IsRun.
  lemma {:induction false} StepsOf(w: Writer, header: string, file: string, ns: seq<nat>, sent: string, i: nat)
    requires Obeys(w, header, file, ns) && Going(w, |header|, ns) && i < |ns|
    ensures var ws, sents := Writers(w, |header|, ns), Got(w, header, file, ns, sent);
      && CanWrite(ws[i], header, file, ns[i]) && ws[i + 1] == Advance(ws[i], |header|, ns[i])
      && sents[i + 1] == sents[i] + Described(ws[i], header, file).value[..ns[i]]
    decreases |ns|
  {
    if i == 0 {
    } else {
      StepsOf(Advance(w, |header|, ns[0]), header, file, ns[1..], sent + Described(w, header, file).value[..ns[0]],
          i - 1);
    }
  }

  lemma {:induction false} FinalIsLast(w: Writer, writeIdx: nat, ns: seq<nat>)
    ensures Writers(w, writeIdx, ns)[|ns|] == Final(w, writeIdx, ns)
    decreases |ns|
  {
    if ns == [] {
    } else {
      FinalIsLast(Advance(w, writeIdx, ns[0]), writeIdx, ns[1..]);
    }
  }

  lemma CallsAreRun(w: Writer, header: string, file: string, ns: seq<nat>)
    requires header != "" && IsStart(w, header, file) && Obeys(w, header, file, ns) && Going(w, |header|, ns)
    ensures IsRun(header, file, Writers(w, |header|, ns), Got(w, header, file, ns, ""), ns)
  {
    var ws, sents := Writers(w, |header|, ns), Got(w, header, file, ns, "");
    hide Writers, Got, Obeys, Going, Described, IsStart, Advance;
    forall i | 0 <= i < |ns|
      ensures CanWrite(ws[i], header, file, ns[i]) && ws[i + 1] == Advance(ws[i], |header|, ns[i])
      ensures sents[i + 1] == sents[i] + Described(ws[i], header, file).value[..ns[i]]
    {
      StepsOf(w, header, file, ns, "", i);
    }
  }

  // ---------- delivery ----------

  function FileOf(q: Response.Queued, file: string): string {
    if q.file then file else ""
  }

  // The writer as process_write leaves it; its counter is an int.
  predicate Prepared(w: Writer, q: Response.Queued, file: string) {
    IsStart(w.(toSend := |q.head| + |FileOf(q, file)|), q.head, FileOf(q, file)) && w.toSend == q.bytesToSend
  }

  // That writer; iv1 is what the second iovec held before.
  function Left(q: Response.Queued, file: string, iv1: Iov): Writer {
    Writer(Iov(0, |q.head|), if q.file then Iov(0, |file|) else iv1, if q.file then 2 else 1, q.bytesToSend, 0)
  }

  lemma LeftIsPrepared(code: HttpCode, file: string, linger: bool, iv1: Iov)
    requires Response.Handled(code)
    ensures var q := Response.ProcessWrite("", code, |file|, linger); Prepared(Left(q, file, iv1), q, file)
  {
    hide Response.ProcessWrite, Response.HeadText, Response.InlineBody;
    Response.EverythingFits(code, |file|, linger);
  }

  // The kernel keeps to what is described and stops inside the header once at
  // most.
  ghost predicate Fair(w: Writer, header: string, file: string, calls: seq<seq<Writev>>) {
    var ns := Counts(w, |header|, calls);
    Obeys(w, header, file, ns) && AtMostOneInside(Writers(w, |header|, ns), header, |ns|)
  }

  lemma CompleteMeansSent(w: Writer, header: string, file: string, calls: seq<seq<Writev>>)
    requires header != "" && IsStart(w, header, file) && Fair(w, header, file, calls)
    ensures var outcome := Calls(w, |header|, calls).1;
      outcome != Idle && (outcome == Complete ==> Sent(w, header, file, Counts(w, |header|, calls)) == header + file)
  {
    hide Calls, Counts, Obeys, Writers, Got;
    var ns := Counts(w, |header|, calls);
    CallsAreGoing(w, |header|, calls);
    CallsAreRun(w, header, file, ns);
    FinalIsLast(w, |header|, ns);
    if Calls(w, |header|, calls).1 == Complete {
      EndOfReply(header, file, Writers(w, |header|, ns), Got(w, header, file, ns, ""), ns);
    }
  }

  // Whatever the kernel does while it stops inside the header at most once: when
  // write says that the reply is complete, a client has read the blank line
  // after a Content-Length that counts exactly the body it then got.
  lemma ReplyIsDelivered(code: HttpCode, file: string, linger: bool, w: Writer, calls: seq<seq<Writev>>)
    requires Response.Handled(code)
    requires var q := Response.ProcessWrite("", code, |file|, linger);
      && Prepared(w, q, file) && Fair(w, q.head, FileOf(q, file), calls)
      && |q.head| + |FileOf(q, file)| <= INT_MAX && Calls(w, |q.head|, calls).1 == Complete
    ensures var q := Response.ProcessWrite("", code, |file|, linger); var header, tail := q.head, FileOf(q, file);
      var sent, body := Sent(w, header, tail, Counts(w, |header|, calls)), Response.Body(code, file);
      sent == header + tail && Response.ReadReply(sent, None) == Response.Reply(Some(|body|), body)
  {
    hide Calls, Fair, Sent, Counts, Response.ProcessWrite, Response.ReadReply, Response.HeadText, Response.InlineBody;
    var q := Response.ProcessWrite("", code, |file|, linger);
    Response.EverythingFits(code, |file|, linger);
    ToInt32Exactly(|q.head| + |FileOf(q, file)|);
    assert IsStart(w, q.head, FileOf(q, file));
    CompleteMeansSent(w, q.head, FileOf(q, file), calls);
    Response.FramingIsExact(code, file, linger);
    BodyIsShort(code, file, linger);
  }

  lemma BodyIsShort(code: HttpCode, file: string, linger: bool)
    requires Response.Handled(code)
    ensures var q := Response.ProcessWrite("", code, |file|, linger);
      && |Response.Body(code, file)| <= |q.head| + |FileOf(q, file)|
      && Response.QueuedBytes(code, file, linger) == q.head + FileOf(q, file)
  {
    Response.QueuedIs(code, file, linger);
  }

  // Whenever write is done with the reply, all of it is out.
  ghost predicate AlwaysDelivers(w: Writer, header: string, file: string) {
    forall calls :: Fair(w, header, file, calls) && Calls(w, |header|, calls).1 in {Complete, Idle} ==>
      Sent(w, header, file, Counts(w, |header|, calls)) == header + file
  }

  // A first writev that takes as much as the counter says, or a byte when it says
  // less, ends the reply.
  lemma OneWrite(w: Writer, header: string, file: string, n: nat)
    requires IsStart(w.(toSend := |header| + |file|), header, file) && w.toSend != 0
    requires 0 < n <= |header| + |file| && w.toSend <= n
    ensures var calls := [[Wrote(n)]];
      && Counts(w, |header|, calls) == [n] && Calls(w, |header|, calls).1 == Complete && Fair(w, header, file, calls)
      && Sent(w, header, file, [n]) == (header + file)[..n]
  {
    var calls, all := [[Wrote(n)]], header + file;
    ShapeDescribes(w.(toSend := |header| + |file|), header, file, 0);
    assert all[0..] == all && Described(w, header, file) == Some(all);
    assert [n][1..] == [] && [n] + [] == [n];
    assert LoopCounts(w, |header|, calls[0]) == [n];
    var w' := Advance(w, |header|, n);
    assert Obeys(w', header, file, []);
    assert Obeys(w, header, file, [n]);
    assert Got(w, header, file, [n], "") == [""] + Got(w', header, file, [], "" + all[..n]);
    assert "" + all[..n] == all[..n];
  }

  lemma NothingSent(w: Writer, header: string, file: string)
    requires w.toSend == 0
    ensures Calls(w, |header|, [[]]).1 == Idle && Counts(w, |header|, [[]]) == [] && Fair(w, header, file, [[]])
    ensures Sent(w, header, file, []) == ""
  {
  }

  // That is so exactly when header and file together fit the int.
  lemma DeliveredExactly(code: HttpCode, file: string, linger: bool, w: Writer)
    requires Response.Handled(code)
    requires Prepared(w, Response.ProcessWrite("", code, |file|, linger), file)
    ensures var q := Response.ProcessWrite("", code, |file|, linger);
      AlwaysDelivers(w, q.head, FileOf(q, file)) <==> |q.head| + |FileOf(q, file)| <= INT_MAX
  {
    hide Calls, Fair, AlwaysDelivers, Sent, Counts, Response.ProcessWrite, Response.HeadText, Response.InlineBody,
        IsStart;
    var q := Response.ProcessWrite("", code, |file|, linger);
    Response.EverythingFits(code, |file|, linger);
    var header, tail := q.head, FileOf(q, file);
    var total := |header| + |tail|;
    ToInt32Exactly(total);
    if total <= INT_MAX {
      assert w.(toSend := total) == w;
      Delivers(w, header, tail);
    } else {
      Truncates(w, header, tail);
    }
  }

  lemma Delivers(w: Writer, header: string, file: string)
    requires header != "" && IsStart(w, header, file)
    ensures AlwaysDelivers(w, header, file)
  {
    hide Calls, Sent, Counts, IsStart;
    forall calls | Fair(w, header, file, calls) && Calls(w, |header|, calls).1 in {Complete, Idle}
      ensures Sent(w, header, file, Counts(w, |header|, calls)) == header + file
    {
      CompleteMeansSent(w, header, file, calls);
    }
  }

  lemma Truncates(w: Writer, header: string, file: string)
    requires IsStart(w.(toSend := |header| + |file|), header, file) && w.toSend < |header| + |file| &&
      1 < |header| + |file|
    ensures !AlwaysDelivers(w, header, file)
  {
    hide Calls, Counts, IsStart;
    assert |header + file| == |header| + |file|;
    if w.toSend == 0 {
      NothingSent(w, header, file);
      assert "" != header + file;
    } else {
      var n := if w.toSend < 0 then 1 else w.toSend;
      OneWrite(w, header, file, n);
      assert |(header + file)[..n]| < |header + file|;
    }
  }
}
