// The scatter/gather writer of TinyWebServer's http_conn::write: two iovecs
// that are adjusted after every short writev.
module PartialWrite {
  import opened Common

  // base is an offset into the write buffer (iv0) or the mapped file (iv1).
  datatype Iov = Iov(base: int, len: int)

  datatype Writer = Writer(iv0: Iov, iv1: Iov, count: nat, toSend: int, haveSend: int)

  // As process_write leaves it: one iovec, or two when a file follows.
  function Start(header: string, file: string): Writer {
    Writer(Iov(0, |header|), Iov(0, |file|), if file == "" then 1 else 2, |header| + |file|, 0)
  }

  // The same, when the second iovec is not used and may hold anything.
  predicate IsStart(w: Writer, header: string, file: string) {
    var start := Start(header, file);
    w == if file == "" then start.(iv1 := w.iv1) else start
  }

  // The update after writev returned n; writeIdx is the header's length.
  function Advance(w: Writer, writeIdx: nat, n: nat): Writer {
    var have, left := w.haveSend + n, w.toSend - n;
    if have >= w.iv0.len then
      w.(haveSend := have, toSend := left, iv0 := w.iv0.(len := 0), iv1 := Iov(have - writeIdx, left))
    else
      w.(haveSend := have, toSend := left, iv0 := Iov(have, w.iv0.len - have))
  }

  // The bytes an iovec describes, if it stays inside its buffer.
  function Bytes(v: Iov, buffer: string): Option<string> {
    if 0 <= v.base && 0 <= v.len && v.base + v.len <= |buffer| then Some(buffer[v.base..v.base + v.len]) else None
  }

  // What the next writev is asked to send.
  function Described(w: Writer, header: string, file: string): Option<string> {
    match (Bytes(w.iv0, header), if w.count == 2 then Bytes(w.iv1, file) else Some(""))
    case (Some(a), Some(b)) => Some(a + b)
    case _ => None
  }

  // The connection has got sent; the iovecs describe exactly the rest.
  predicate Faithful(w: Writer, sent: string, header: string, file: string) {
    var d := Described(w, header, file);
    d.Some? && sent + d.value == header + file
  }

  // One successful writev: the kernel takes a non-empty prefix of what is
  // described. (EAGAIN changes nothing: the same call is made again later.)
  predicate CanWrite(w: Writer, header: string, file: string, n: nat) {
    var d := Described(w, header, file);
    w.toSend > 0 && n > 0 && d.Some? && n <= |d.value|
  }

  // A run of successful writevs of one reply; sents is what the peer has got.
  ghost predicate IsRun(header: string, file: string, ws: seq<Writer>, sents: seq<string>, ns: seq<nat>) {
    && |ws| == |sents| == |ns| + 1 && header != ""
    && IsStart(ws[0], header, file) && sents[0] == ""
    && forall i :: 0 <= i < |ns| ==>
         && CanWrite(ws[i], header, file, ns[i])
         && ws[i + 1] == Advance(ws[i], |header|, ns[i])
         && sents[i + 1] == sents[i] + Described(ws[i], header, file).value[..ns[i]]
  }

  // The i-th result left the writer strictly inside the header.
  predicate Inside(w: Writer, header: string) {
    0 < w.haveSend < |header|
  }

  ghost predicate AtMostOneInside(ws: seq<Writer>, header: string, upTo: nat)
    requires upTo < |ws|
  {
    forall i, j :: 0 <= i < j <= upTo ==> !(Inside(ws[i], header) && Inside(ws[j], header))
  }

  // ---------- counters ----------

  // Always: have plus left is the whole, and each successful write sends
  // something. The counters follow the bytes even after the iovecs go wrong.
  lemma {:induction false} CountersConserved(header: string, file: string, ws: seq<Writer>, sents: seq<string>,
          ns: seq<nat>, i: nat)
    requires IsRun(header, file, ws, sents, ns) && i <= |ns|
    ensures ws[i].haveSend + ws[i].toSend == |header| + |file|
    ensures ws[i].haveSend == |sents[i]|
    ensures i < |ns| ==> ws[i + 1].toSend < ws[i].toSend
  {
    if i == 0 {
    } else {
      CountersConserved(header, file, ws, sents, ns, i - 1);
    }
  }

  // ---------- the three good shapes ----------

  // Nothing sent, one stop at s inside the header, or past the header.
  ghost predicate Shape(w: Writer, header: string, file: string, s: nat) {
    && w.count == (if file == "" then 1 else 2)
    && w.haveSend == s && w.toSend == |header| + |file| - s && s <= |header| + |file|
    && if s < |header| then w.iv0 == Iov(s, |header| - s) && (file != "" ==> w.iv1 == Iov(0, |file|))
       else w.iv0.len == 0 && 0 <= w.iv0.base <= |header| && w.iv1 == Iov(s - |header|, |file| - (s - |header|))
  }

  lemma ShapeDescribes(w: Writer, header: string, file: string, s: nat)
    requires Shape(w, header, file, s)
    ensures Described(w, header, file) == Some((header + file)[s..])
  {
    if s < |header| {
      var a := header[s..];
      assert header[s..s + (|header| - s)] == a;
      assert Bytes(w.iv0, header) == Some(a);
      assert file[0..0 + |file|] == file;
      assert a + file == (header + file)[s..];
      if w.count == 1 {
        assert file == "" && a + "" == a;
      }
    } else {
      var a, k := header[w.iv0.base..w.iv0.base], s - |header|;
      var b := file[k..];
      assert file[k..k + (|file| - k)] == b;
      assert Bytes(w.iv1, file) == Some(b);
      assert a == "" && b == (header + file)[s..] && a + b == b;
      assert Bytes(w.iv0, header) == Some(a);
      if w.count == 1 {
        assert b == "" && a + "" == b;
      }
    }
  }

  // A write from a good shape leads to a good shape unless it stops inside the
  // header for the second time.
  lemma ShapeAdvances(w: Writer, header: string, file: string, s: nat, n: nat)
    requires Shape(w, header, file, s) && 0 < n && s + n <= |header| + |file|
    requires s == 0 || s + n >= |header|
    ensures Shape(Advance(w, |header|, n), header, file, s + n)
  {
  }

  // The second stop inside the header: the length is reduced by the cumulative
  // count, so the iovecs no longer describe the rest.
  lemma SecondStopBreaks(w: Writer, header: string, file: string, s: nat, n: nat, sent: string)
    requires Shape(w, header, file, s) && 0 < s && 0 < n && s + n < |header| && |sent| == s + n
    ensures !Faithful(Advance(w, |header|, n), sent, header, file)
  {
    var w' := Advance(w, |header|, n);
    var d := Described(w', header, file);
    if d.Some? {
      assert |d.value| == (if w.count == 2 then w'.iv1.len else 0) + w'.iv0.len;
      assert |sent + d.value| == |sent| + |d.value|;
      assert |header + file| == |header| + |file|;
    }
  }

  // What the next writev is asked for then: the last s bytes of the header are
  // skipped, or nothing that could be sent is described at all.
  lemma SecondStopExactly(w: Writer, header: string, file: string, s: nat, n: nat)
    requires Shape(w, header, file, s) && 0 < s && 0 < n && s + n < |header|
    ensures Described(Advance(w, |header|, n), header, file) ==
      if 2 * s + n < |header| then Some(header[s + n..|header| - s] + file)
      else if file == "" then Some("") else None
  {
    var w' := Advance(w, |header|, n);
    if 2 * s + n < |header| {
      assert Bytes(w'.iv0, header) == Some(header[s + n..|header| - s]);
      assert file[0..|file|] == file && header[s + n..|header| - s] + "" == header[s + n..|header| - s];
    } else {
      assert Bytes(w'.iv0, header) == Some(header[s..s]) && header[s..s] + "" == "";
    }
  }

  ghost predicate Good(w: Writer, sent: string, header: string, file: string) {
    0 <= w.haveSend <= |header + file| && Shape(w, header, file, w.haveSend) && sent == (header + file)[..w.haveSend]
  }

  lemma GoodIsFaithful(w: Writer, sent: string, header: string, file: string)
    requires Good(w, sent, header, file)
    ensures Faithful(w, sent, header, file)
  {
    ShapeDescribes(w, header, file, w.haveSend);
    var all := header + file;
    assert all[..w.haveSend] + all[w.haveSend..] == all;
  }

  lemma GoodAdvances(w: Writer, sent: string, header: string, file: string, n: nat)
    requires Good(w, sent, header, file) && CanWrite(w, header, file, n)
    requires !(Inside(w, header) && Inside(Advance(w, |header|, n), header))
    ensures Good(Advance(w, |header|, n), sent + Described(w, header, file).value[..n], header, file)
  {
    var all, s := header + file, w.haveSend;
    ShapeDescribes(w, header, file, s);
    assert |all[s..]| == |all| - s;
    ShapeAdvances(w, header, file, s, n);
    assert all[..s] + all[s..][..n] == all[..s + n];
  }

  lemma {:induction false} GoodWhileOneInside(header: string, file: string, ws: seq<Writer>, sents: seq<string>,
          ns: seq<nat>, i: nat)
    requires IsRun(header, file, ws, sents, ns) && i <= |ns| && AtMostOneInside(ws, header, i)
    ensures Good(ws[i], sents[i], header, file) && Faithful(ws[i], sents[i], header, file)
  {
    if i == 0 {
    } else {
      GoodWhileOneInside(header, file, ws, sents, ns, i - 1);
      assert !(Inside(ws[i - 1], header) && Inside(ws[i], header));
      GoodAdvances(ws[i - 1], sents[i - 1], header, file, ns[i - 1]);
    }
    GoodIsFaithful(ws[i], sents[i], header, file);
  }

  // Over every run of partial writes the bytes sent and the bytes described
  // make up header and file, all the way, exactly when at most one result ends
  // strictly inside the header.
  lemma FaithfulExactly(header: string, file: string, ws: seq<Writer>, sents: seq<string>, ns: seq<nat>)
    requires IsRun(header, file, ws, sents, ns)
    ensures (forall i :: 0 <= i <= |ns| ==> Faithful(ws[i], sents[i], header, file)) <==>
      AtMostOneInside(ws, header, |ns|)
  {
    if AtMostOneInside(ws, header, |ns|) {
      forall i | 0 <= i <= |ns|
        ensures Faithful(ws[i], sents[i], header, file)
      {
        GoodWhileOneInside(header, file, ws, sents, ns, i);
      }
    } else {
      var k := FirstViolation(header, ws, |ns|);
      GoodWhileOneInside(header, file, ws, sents, ns, k - 1);
      CountersConserved(header, file, ws, sents, ns, k);
      var i :| 0 <= i < k && Inside(ws[i], header) && Inside(ws[k], header);
      HaveGrows(header, file, ws, sents, ns, i, k - 1);
      SecondStopBreaks(ws[k - 1], header, file, ws[k - 1].haveSend, ns[k - 1], sents[k]);
    }
  }

  lemma {:induction false} FirstViolation(header: string, ws: seq<Writer>, n: nat) returns (k: nat)
    requires n < |ws| && !AtMostOneInside(ws, header, n)
    ensures 0 < k <= n && AtMostOneInside(ws, header, k - 1)
    ensures exists i :: 0 <= i < k && Inside(ws[i], header) && Inside(ws[k], header)
  {
    if AtMostOneInside(ws, header, n - 1) {
      k := n;
    } else {
      k := FirstViolation(header, ws, n - 1);
    }
  }

  lemma {:induction false} HaveGrows(header: string, file: string, ws: seq<Writer>, sents: seq<string>, ns: seq<nat>,
          i: nat, j: nat)
    requires IsRun(header, file, ws, sents, ns) && i <= j <= |ns|
    ensures ws[i].haveSend <= ws[j].haveSend
  {
    if i == j {
    } else {
      HaveGrows(header, file, ws, sents, ns, i, j - 1);
    }
  }

  // The failing case is real: a ten-byte header sent as six bytes, one byte, ...
  lemma TwoShortWritesLoseBytes()
    ensures var header, w := "HTTP/1.1 2", Advance(Advance(Start("HTTP/1.1 2", "ab"), 10, 6), 10, 1);
      !Faithful(w, header[..7], header, "ab")
  {
    var header := "HTTP/1.1 2";
    var w1 := Advance(Start(header, "ab"), 10, 6);
    assert Shape(Start(header, "ab"), header, "ab", 0);
    ShapeAdvancesInside(header, "ab", 6);
    SecondStopBreaks(w1, header, "ab", 6, 1, header[..7]);
  }

  lemma ShapeAdvancesInside(header: string, file: string, n: nat)
    requires 0 < n <= |header|
    ensures Shape(Advance(Start(header, file), |header|, n), header, file, n)
  {
    assert Shape(Start(header, file), header, file, 0);
    ShapeAdvances(Start(header, file), header, file, 0, n);
  }

  // When the loop ends a faithful writer has sent everything.
  lemma EndOfReply(header: string, file: string, ws: seq<Writer>, sents: seq<string>, ns: seq<nat>)
    requires IsRun(header, file, ws, sents, ns) && AtMostOneInside(ws, header, |ns|) && ws[|ns|].toSend <= 0
    ensures sents[|ns|] == header + file
  {
    GoodWhileOneInside(header, file, ws, sents, ns, |ns|);
    CountersConserved(header, file, ws, sents, ns, |ns|);
  }
}
