// Reading a request in pieces. Up to the blank line the pieces do not matter;
// in the body they matter exactly when a short read lets parse_line move on.
module HttpChunks {
  import opened Common
  import opened HttpCodes
  import opened CStrings
  import opened HttpParser
  import opened HttpScan

  // ---------- up to the blank line ----------

  // More bytes do not change a finished line, and an unfinished scan goes on
  // where it stopped.
  lemma {:induction false} ScanExtends(buf: string, more: string, i: nat)
    requires i <= |buf|
    ensures var r := ParseLine(buf, i);
      if r.status.LineOk? then ParseLine(buf + more, i) == Line(LineOk, r.buf + more, r.checked)
      else r.buf == buf && ParseLine(buf + more, i) == ParseLine(buf + more, r.checked)
    decreases |buf| - i
  {
    if i < |buf| && !Breaks(buf[i]) {
      ScanExtends(buf, more, i + 1);
    } else if ParseLine(buf, i).status.LineOk? {
      var r := ParseLine(buf, i);
      assert (buf + more)[r.checked - 2 := NUL][r.checked - 1 := NUL] == r.buf + more;
    }
  }

  lemma RequestLineExtends(p: Parser, text: nat, more: string)
    requires text <= p.checked <= |p.buf|
    ensures var (c, q) := DoRequestLine(p, text); DoRequestLine(Receive(p, more), text) == (c, Receive(q, more))
  {
    hide ParseRequestLine;
    var p' := Receive(p, more);
    assert p'.buf[text..p.checked] == p.buf[text..p.checked];
    var line := ParseRequestLine(p.buf[text..p.checked], p.verb, p.cgi).line;
    assert p'.buf[..text] + line + p'.buf[p.checked..] == (p.buf[..text] + line + p.buf[p.checked..]) + more;
  }

  lemma HeaderExtends(p: Parser, text: nat, more: string)
    requires text < p.checked <= |p.buf|
    ensures var (c, q) := DoHeader(p, text); DoHeader(Receive(p, more), text) == (c, Receive(q, more))
  {
    hide StartsIgnoringCase, SameIgnoringCase, CStr, Span, Atol;
    assert Receive(p, more).buf[text..p.checked] == p.buf[text..p.checked];
  }

  lemma LineExtends(p: Parser, more: string)
    requires p.start < p.checked <= |p.buf| && !p.state.Content?
    ensures var (c, q) := DoLine(p); DoLine(Receive(p, more)) == (c, Receive(q, more))
  {
    hide DoRequestLine, DoHeader;
    var p1 := p.(start := p.checked);
    assert Receive(p, more).(start := p.checked) == Receive(p1, more);
    if p.state.RequestLine? {
      RequestLineExtends(p1, p.start, more);
    } else {
      HeaderExtends(p1, p.start, more);
    }
  }

  ghost predicate Decided(c: HttpCode, q: Parser) {
    !c.NO_REQUEST? || q.state.Content?
  }

  lemma {:induction false} LinesExtend(p: Parser, more: string)
    requires Wf(p) && !p.state.Content?
    ensures var (c, q) := Lines(p);
      Lines(Receive(p, more)) == if Decided(c, q) then (c, Receive(q, more)) else Lines(Receive(q, more))
    decreases |p.buf| - p.checked
  {
    hide ParseLine, DoLine;
    ScanExtends(p.buf, more, p.checked);
    var s := Scanned(p);
    if ParseLine(p.buf, p.checked).status.LineOk? {
      assert Scanned(Receive(p, more)) == Receive(s, more);
      LineExtends(s, more);
      var (c, q) := DoLine(s);
      if !Decided(c, q) {
        LinesExtend(q, more);
      }
    } else {
      assert Scanned(Receive(p, more)) == Scanned(Receive(s, more));
    }
  }

  // ---------- what a caller sees ----------

  function Text(buf: string, o: Option<nat>): Option<string> {
    if o.None? then None else Some(CStr(buf, o.value))
  }

  datatype Fields = Fields(verb: Verb, cgi: bool, url: Option<string>, version: Option<string>, host: Option<string>,
                           contentLength: int, linger: bool, content: Option<string>)

  function Parsed(p: Parser): Fields {
    Fields(p.verb, p.cgi, Text(p.buf, p.url), Text(p.buf, p.version), Text(p.buf, p.host),
           p.contentLength, p.linger, Text(p.buf, p.content))
  }

  ghost predicate SameOutcome(a: (HttpCode, Parser), b: (HttpCode, Parser)) {
    a.0 == b.0 && Parsed(a.1) == Parsed(b.1) && (a.0.NO_REQUEST? ==> a.1 == b.1)
  }

  lemma CStrStep(s: string, p: nat)
    ensures CStr(s, p) == if p < |s| && s[p] != NUL then [s[p]] + CStr(s, p + 1) else ""
  {
  }

  lemma {:induction false} SameString(a: string, b: string, p: nat, end: nat)
    requires p <= end <= |a| && end <= |b| && forall k :: p <= k < end ==> a[k] == b[k]
    requires (end < |a| ==> a[end] == NUL) && (end < |b| ==> b[end] == NUL)
    ensures CStr(a, p) == CStr(b, p)
    decreases end - p
  {
    hide CStr, CLen;
    CStrStep(a, p);
    CStrStep(b, p);
    if p == end || a[p] == NUL {
    } else {
      SameString(a, b, p + 1, end);
    }
  }

  lemma SameText(a: string, b: string, o: Option<nat>, limit: nat)
    requires Stringy(a, o, limit) && limit <= |a| && limit <= |b| && forall k :: 0 <= k < limit ==> a[k] == b[k]
    ensures Text(a, o) == Text(b, o)
  {
    if o.Some? {
      var k: nat :| o.value <= k < limit && k < |a| && a[k] == NUL;
      SameString(a, b, o.value, k);
    }
  }

  lemma SameParsed(p: Parser, q: Parser, limit: nat)
    requires limit <= |p.buf| && limit <= |q.buf| && forall k :: 0 <= k < limit ==> p.buf[k] == q.buf[k]
    requires Stringy(p.buf, p.url, limit) && Stringy(p.buf, p.version, limit) && Stringy(p.buf, p.host, limit)
    requires q == p.(buf := q.buf) && Text(p.buf, p.content) == Text(q.buf, p.content)
    ensures Parsed(p) == Parsed(q)
  {
    hide Stringy, Text;
    SameText(p.buf, q.buf, p.url, limit);
    SameText(p.buf, q.buf, p.version, limit);
    SameText(p.buf, q.buf, p.host, limit);
  }

  // ---------- the body ----------

  // parse_line does not move on these bytes: nothing, an LF first, or a CR first
  // that is the last byte or not followed by an LF.
  predicate Stuck(body: string) {
    body == "" || body[0] == LF || (body[0] == CR && (|body| == 1 || body[1] != LF))
  }

  // No read ends at a place of the body from which parse_line moves on. got is
  // what earlier reads brought, the body is stream[start..start + length].
  predicate Unsplit(got: string, chunks: seq<string>, start: nat, length: int)
    decreases |chunks|
  {
    |chunks| <= 1 ||
    var now := got + chunks[0];
    (start <= |now| < start + length ==> Stuck(now[start..])) && Unsplit(now, chunks[1..], start, length)
  }

  // Waiting for the body with nothing of it scanned.
  ghost predicate Waiting(p: Parser) {
    Inv(p) && p.state.Content? && p.start == p.checked && p.contentLength != 0 && p.content.None?
  }

  lemma StuckExactly(p: Parser)
    requires Waiting(p)
    ensures var r := ParseLine(p.buf, p.checked);
      Stuck(p.buf[p.checked..]) <==> (!r.status.LineOk? && r.checked == p.checked)
  {
    var i := p.checked;
    if i < |p.buf| {
      assert p.buf[i..][0] == p.buf[i];
      if i + 1 < |p.buf| {
        assert p.buf[i..][1] == p.buf[i + 1];
      }
    }
  }

  lemma ShortBody(p: Parser)
    requires Waiting(p) && |p.buf| < p.contentLength + p.checked
    ensures Body(p, LineOk) == Body(p, LineOpen)
    ensures Stuck(p.buf[p.checked..]) ==> Body(p, LineOk) == (NO_REQUEST, p)
  {
    hide ParseLine, Stuck;
    StuckExactly(p);
    assert p.(start := p.checked) == p;
    if Stuck(p.buf[p.checked..]) {
      ScanExtends(p.buf, "", p.checked);
      assert Scanned(p) == p;
    }
  }

  // A body that has arrived is taken, whatever arrived behind it.
  lemma WholeBody(p: Parser, more: string)
    requires Waiting(p) && p.contentLength + p.checked <= |p.buf|
    ensures !Body(p, LineOk).0.NO_REQUEST?
    ensures SameOutcome(Body(p, LineOk), Body(Receive(p, more), LineOk))
  {
    hide Parsed, DoContent;
    var p' := Receive(p, more);
    assert p.(start := p.checked) == p && p'.(start := p.checked) == p';
    WholeContent(p, more);
    var (c, q) := Body(p, LineOk);
    var (c', q') := Body(p', LineOk);
    assert (c, q) == DoContent(p, p.start) && (c', q') == DoContent(p', p.start);
  }

  lemma WholeContent(p: Parser, more: string)
    requires Waiting(p) && p.contentLength + p.checked <= |p.buf|
    ensures !DoContent(p, p.start).0.NO_REQUEST?
    ensures SameOutcome(DoContent(p, p.start), DoContent(Receive(p, more), p.start))
  {
    hide Parsed, Stringy, Text;
    var end := p.start + p.contentLength;
    if p.contentLength < 0 || end >= READ_BUFFER_SIZE {
      HeadResult(p, more);
    } else {
      ContentResult(p.(content := Some(p.start)), end, p.buf + more);
    }
  }

  // A body that has arrived is answered, unless the length is negative or the
  // body ends at the very end of the buffer.
  lemma BodyCompletes(p: Parser)
    requires Wf(p) && p.state.Content? && p.contentLength + p.checked <= |p.buf|
    ensures var (c, q) := Body(p, LineOk);
      && (c.UNDEFINED? <==> p.contentLength < 0 || p.start + p.contentLength >= READ_BUFFER_SIZE)
      && (!c.UNDEFINED? ==> c.GET_REQUEST? && q.content == Some(p.start))
  {
  }

  function Cut(buf: string, end: nat): string {
    if end < |buf| then buf[end := NUL] else buf
  }

  lemma ContentResult(p: Parser, end: nat, longer: string)
    requires Wf(p) && FieldsEnd(p) && p.start <= end <= |p.buf| <= |longer| && longer[..|p.buf|] == p.buf
    requires p.content == Some(p.start)
    ensures Parsed(p.(buf := Cut(p.buf, end))) == Parsed(p.(buf := Cut(longer, end)))
  {
    hide Parsed, Stringy, CStr;
    var a, b := Cut(p.buf, end), Cut(longer, end);
    assert forall k :: 0 <= k < end ==> a[k] == p.buf[k] == longer[..|p.buf|][k] == b[k];
    SameString(a, b, p.start, end);
    if end < |p.buf| {
      NulStays(p.buf, end, p.start);
    }
    SameParsed(p.(buf := a), p.(buf := b), p.start);
  }

  lemma HeadResult(p: Parser, more: string)
    requires Inv(p) && p.content.None?
    ensures Parsed(p) == Parsed(Receive(p, more))
  {
    hide Stringy;
    SameParsed(p, Receive(p, more), p.start);
  }

  // Once parse_line has moved into the body, more bytes are needed than the
  // request has.
  lemma {:induction false} Lost(p: Parser, status: LineStatus)
    requires Wf(p) && p.state.Content? && |p.buf| < p.contentLength + p.checked
    ensures var (c, q) := Body(p, status);
      && c.NO_REQUEST? && q.state.Content? && p.checked <= q.checked
      && |q.buf| == |p.buf| && q.contentLength == p.contentLength
    decreases |p.buf| - p.checked, if status.LineOk? then 1 else 0
  {
    hide ParseLine;
    if status.LineOk? {
      Lost(p.(start := p.checked), LineOpen);
    } else if ParseLine(p.buf, p.checked).status.LineOk? {
      Lost(Scanned(p), LineOk);
    }
  }

  lemma {:induction false} LostForever(p: Parser, chunks: seq<string>)
    requires Wf(p) && p.state.Content? && |p.buf| + |Concat(chunks)| < p.contentLength + p.checked
    ensures Feed(p, chunks).0 == NO_REQUEST
    decreases |chunks|
  {
    if chunks == [] {
    } else {
      hide Body;
      var p1 := Receive(p, chunks[0]);
      Lost(p1, LineOk);
      LostForever(ProcessRead(p1).1, chunks[1..]);
    }
  }

  // The first short read that is not stuck moves into the body.
  lemma MovedOn(p: Parser)
    requires Waiting(p) && |p.buf| < p.contentLength + p.checked && !Stuck(p.buf[p.checked..])
    ensures var (c, q) := Body(p, LineOk);
      && c.NO_REQUEST? && Wf(q) && q.state.Content? && p.checked < q.checked
      && |q.buf| == |p.buf| && q.contentLength == p.contentLength
  {
    hide ParseLine, Stuck;
    ShortBody(p);
    StuckExactly(p);
    if ParseLine(p.buf, p.checked).status.LineOk? {
      Lost(Scanned(p), LineOk);
    }
  }

  // The call in which the head was completed, or any later one, and what follows.
  function Onward(p: Parser, chunks: seq<string>): (HttpCode, Parser)
    requires Wf(p) && p.state.Content?
  {
    var (c, q) := Body(p, LineOk);
    if c.NO_REQUEST? then Feed(q, chunks) else (c, q)
  }

  // Body bytes received so far: got[start..].
  ghost predicate Holds(p: Parser, got: string) {
    |p.buf| == |got| && p.checked <= |got| && p.buf[p.checked..] == got[p.checked..]
  }

  // The stretch just received and all later ones.
  predicate UnsplitFrom(got: string, rest: seq<string>, start: nat, length: int) {
    rest != [] ==> (start <= |got| < start + length ==> Stuck(got[start..])) && Unsplit(got, rest, start, length)
  }

  lemma {:induction false} BodyInPieces(p: Parser, got: string, rest: seq<string>)
    requires Waiting(p) && Holds(p, got)
    ensures UnsplitFrom(got, rest, p.checked, p.contentLength) ==>
      SameOutcome(Onward(p, rest), Body(Receive(p, Concat(rest)), LineOk))
    ensures |got| + |Concat(rest)| == p.checked + p.contentLength ==>
      !UnsplitFrom(got, rest, p.checked, p.contentLength) ==>
      Onward(p, rest).0 == NO_REQUEST
    decreases |rest|
  {
    hide Body, Parsed, Inv, Stuck;
    InvWf(p);
    if p.contentLength + p.checked <= |p.buf| {
      WholeBody(p, Concat(rest));
      Arrived(got, rest, p.checked, p.contentLength);
    } else if rest == [] {
      assert Receive(p, "") == p;
    } else if Stuck(p.buf[p.checked..]) {
      ShortBody(p);
      var p1 := Receive(p, rest[0]);
      WaitMore(p, got, rest[0]);
      assert Receive(p, Concat(rest)) == Receive(p1, Concat(rest[1..]));
      BodyInPieces(p1, got + rest[0], rest[1..]);
    } else {
      MovedOn(p);
      if |got| + |Concat(rest)| == p.checked + p.contentLength {
        LostForever(Body(p, LineOk).1, rest);
      }
    }
  }

  lemma WaitMore(p: Parser, got: string, more: string)
    requires Waiting(p) && Holds(p, got)
    ensures Waiting(Receive(p, more)) && Holds(Receive(p, more), got + more)
  {
    hide Inv;
    InvWf(p);
    ReceiveKeeps(p, more);
    assert (p.buf + more)[p.checked..] == p.buf[p.checked..] + more;
    assert (got + more)[p.checked..] == got[p.checked..] + more;
  }

  lemma {:induction false} Arrived(got: string, rest: seq<string>, start: nat, length: int)
    requires start + length <= |got|
    ensures UnsplitFrom(got, rest, start, length) && Unsplit(got, rest, start, length)
    decreases |rest|
  {
    if |rest| <= 1 {
    } else {
      Arrived(got + rest[0], rest[1..], start, length);
    }
  }

  // ---------- a whole request ----------

  // Everything received has been looked at, and the head is not complete.
  ghost predicate Settled(p: Parser) {
    Inv(p) && !p.state.Content? && p.content.None? && Lines(p) == (NO_REQUEST, p)
  }

  lemma SettledAfter(p: Parser)
    requires Inv(p) && !p.state.Content? && p.content.None? && !Decided(Lines(p).0, Lines(p).1)
    ensures Settled(Lines(p).1)
  {
    hide Inv, Lines;
    InvWf(p);
    LinesKeep(p);
    var q := Lines(p).1;
    InvWf(q);
    LinesExtend(p, "");
    assert Receive(p, "") == p && Receive(q, "") == q;
  }

  lemma LineEndsLater(buf: string, more: string, start: nat, i: nat)
    requires Scanning(buf, start, i) && !ParseLine(buf, i).status.LineOk?
    ensures var r := ParseLine(buf + more, i); r.status.LineOk? ==> |buf| < r.checked
  {
    hide ParseLine;
    AcceptedExactly(buf, start, i);
    FirstBreakDecides(buf + more, start, i);
    SameBreaks(buf, more, start);
  }

  lemma SameBreaks(buf: string, more: string, start: nat)
    ensures forall k: nat :: k + 2 <= |buf| && Unbroken(buf + more, start, k) && CrLfAt(buf + more, k) ==>
      Unbroken(buf, start, k) && CrLfAt(buf, k)
  {
    assert forall j :: 0 <= j < |buf| ==> (buf + more)[j] == buf[j];
  }

  // A head that was incomplete ends behind what had been received.
  lemma HeadEndsLater(p: Parser, more: string)
    requires Settled(p)
    ensures var q := Lines(Receive(p, more)).1; q.state.Content? ==> |p.buf| < q.checked
  {
    hide ParseLine, DoLine;
    if ParseLine(p.buf, p.checked).status.LineOk? {
      LineMovesOn(p);
    } else {
      LineEndsLater(p.buf, more, p.start, p.checked);
    }
  }

  lemma LineMovesOn(p: Parser)
    requires Wf(p) && !p.state.Content? && ParseLine(p.buf, p.checked).status.LineOk?
    ensures p.checked < Lines(p).1.checked
  {
    hide ParseLine, DoLine;
  }

  lemma HoldsAfter(p: Parser, got: string, more: string)
    requires Inv(p) && !p.state.Content? && Holds(p, got)
    ensures Holds(Lines(Receive(p, more)).1, got + more)
  {
    hide Inv, Lines;
    InvWf(p);
    ReceiveKeeps(p, more);
    var p1 := Receive(p, more);
    LinesKeep(p1);
    assert p1.buf[p.checked..] == p.buf[p.checked..] + more;
    assert (got + more)[p.checked..] == got[p.checked..] + more;
    TailStays(got + more, p1.buf, Lines(p1).1.buf, p.checked, Lines(p1).1.checked);
  }

  ghost predicate Safe(q: Parser, got: string, chunks: seq<string>) {
    q.state.Content? ==> Unsplit(got, chunks, q.checked, q.contentLength)
  }

  // The last byte received is the last byte of the body.
  ghost predicate EndsWithBody(q: Parser, size: nat) {
    q.state.Content? && size == q.checked + q.contentLength
  }

  lemma {:induction false} InPieces(p: Parser, got: string, chunks: seq<string>)
    requires Settled(p) && Holds(p, got) && chunks != []
    ensures var whole := Receive(p, Concat(chunks)); var q := Lines(whole).1;
      && (Safe(q, got, chunks) ==> SameOutcome(Feed(p, chunks), ProcessRead(whole)))
      && (EndsWithBody(q, |got| + |Concat(chunks)|) && !Safe(q, got, chunks) ==> Feed(p, chunks).0 == NO_REQUEST)
    decreases |chunks|
  {
    hide Lines, Body, Inv, Parsed, Stuck, Waiting;
    var p1 := Receive(p, chunks[0]);
    var rest := chunks[1..];
    var now := got + chunks[0];
    var e := Concat(rest);
    InvWf(p);
    ReceiveKeeps(p, chunks[0]);
    LinesKeep(p1);
    LinesExtend(p1, e);
    HoldsAfter(p, got, chunks[0]);
    var (c1, q1) := Lines(p1);
    assert Receive(p, Concat(chunks)) == Receive(p1, e);
    if q1.state.Content? {
      BeginsWaiting(q1);
      BodyInPieces(q1, now, rest);
    } else if c1.NO_REQUEST? {
      SettledAfter(p1);
      if rest == [] {
        assert Receive(p1, e) == p1;
      } else {
        InPieces(q1, now, rest);
        HeadEndsLater(q1, e);
      }
    } else {
      HeadResult(q1, e);
    }
  }

  lemma BeginsWaiting(q: Parser)
    requires Inv(q) && AfterLine(q) && q.state.Content? && q.content.None?
    ensures Waiting(q)
  {
  }

  lemma InitSettled()
    ensures Settled(INIT) && Holds(INIT, "")
  {
  }

  // The head of a stream, parsed in one go; its state is Content when a body follows.
  function Head(stream: string): Parser {
    Lines(Receive(INIT, stream)).1
  }

  // Chunk invariance: unless a read ends inside the body where parse_line can
  // move on, any way to split a stream gives the code, the fields and (without a
  // result) the parser state of a single read.
  lemma ChunkInvariance(chunks: seq<string>)
    requires chunks != []
    requires var head := Head(Concat(chunks));
      head.state.Content? ==> Unsplit("", chunks, head.checked, head.contentLength)
    ensures SameOutcome(Feed(INIT, chunks), ProcessRead(Receive(INIT, Concat(chunks))))
  {
    hide Lines, ProcessRead, Parsed;
    InitSettled();
    InPieces(INIT, "", chunks);
  }

  // A request that ends with its body is recognised exactly when its reads are so;
  // otherwise the server never answers it.
  lemma SplitBodyExactly(chunks: seq<string>)
    requires chunks != []
    requires var head := Head(Concat(chunks));
      && head.state.Content? && 0 < head.contentLength
      && |Concat(chunks)| == head.checked + head.contentLength < READ_BUFFER_SIZE
    ensures var head := Head(Concat(chunks));
      && (Feed(INIT, chunks).0 == GET_REQUEST <==> Unsplit("", chunks, head.checked, head.contentLength))
      && (Feed(INIT, chunks).0 != GET_REQUEST ==> Feed(INIT, chunks).0 == NO_REQUEST)
  {
    hide Lines, Parsed, Unsplit;
    InitSettled();
    InPieces(INIT, "", chunks);
    var whole := Receive(INIT, Concat(chunks));
    InitInv();
    ReceiveKeeps(INIT, Concat(chunks));
    LinesKeep(whole);
  }

  ghost predicate BoundaryInside(chunks: seq<string>, start: nat, length: int) {
    exists i :: 0 < i < |chunks| && start < |Concat(chunks[..i])| < start + length
  }

  // In particular when no read ends strictly inside the body.
  lemma BodyInOneRead(chunks: seq<string>)
    requires chunks != []
    requires var head := Head(Concat(chunks));
      head.state.Content? ==> !BoundaryInside(chunks, head.checked, head.contentLength)
    ensures SameOutcome(Feed(INIT, chunks), ProcessRead(Receive(INIT, Concat(chunks))))
  {
    hide Lines, Feed, ProcessRead, Parsed;
    var head := Head(Concat(chunks));
    if head.state.Content? {
      assert [] + chunks == chunks;
      NoBoundary([], chunks, head.checked, head.contentLength);
    }
    ChunkInvariance(chunks);
  }

  lemma {:induction false} NoBoundary(past: seq<string>, chunks: seq<string>, start: nat, length: int)
    requires chunks != [] && !BoundaryInside(past + chunks, start, length)
    ensures Unsplit(Concat(past), chunks, start, length)
    decreases |chunks|
  {
    if |chunks| == 1 {
    } else {
      var past' := past + chunks[..1];
      ConcatAppend(past, chunks[0]);
      assert past + [chunks[0]] == past';
      assert past' + chunks[1..] == past + chunks;
      assert (past + chunks)[..|past'|] == past';
      NoBoundary(past', chunks[1..], start, length);
    }
  }

  lemma {:induction false} ConcatAppend(chunks: seq<string>, last: string)
    ensures Concat(chunks + [last]) == Concat(chunks) + last
  {
    if chunks != [] {
      assert (chunks + [last])[1..] == chunks[1..] + [last];
      ConcatAppend(chunks[1..], last);
    } else {
      assert Concat([last]) == last + Concat([]);
    }
  }
}
