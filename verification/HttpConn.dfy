// TinyWebServer's parser as it runs: a fixed buffer edited in place and index
// fields, each method against the function it computes.
module HttpConn {
  import opened Common
  import opened HttpCodes
  import opened CStrings
  import opened HttpParser
  import opened HttpScan

  // Where the loop of process_read stands when parse_line is about to be tried,
  // or parse_content when the state is Content and the status LINE_OK.
  function Continue(p: Parser, status: LineStatus): (HttpCode, Parser)
    requires Wf(p)
  {
    if p.state.Content? then Body(p, status) else ProcessRead(p)
  }

  // One turn of the loop of parse_line.
  lemma ScanStep(buf: string, i: nat)
    requires i <= |buf|
    ensures HttpParser.ParseLine(buf, i) ==
      if i == |buf| then Line(LineOpen, buf, i)
      else if buf[i] == CR && i + 1 == |buf| then Line(LineOpen, buf, i)
      else if buf[i] == CR && buf[i + 1] == LF then Line(LineOk, buf[i := NUL][i + 1 := NUL], i + 2)
      else if buf[i] == LF && i > 1 && buf[i - 1] == CR then Line(LineOk, buf[i - 1 := NUL][i := NUL], i + 1)
      else if Breaks(buf[i]) then Line(LineBad, buf, i)
      else HttpParser.ParseLine(buf, i + 1)
  {
  }

  // ---------- read_once ----------

  // The result of one recv: some bytes, EAGAIN, another error, end of stream.
  datatype Recv = Bytes(s: string) | WouldBlock | Broken | Closed

  // A recv brings at least one byte and not more than there is room; asked for
  // none it reports end of stream.
  predicate Plausible(p: Parser, r: Recv) {
    r.Bytes? ==> 0 < |r.s| <= READ_BUFFER_SIZE - |p.buf|
  }

  // Edge-triggered: until recv would block.
  function ReadEdge(p: Parser, results: seq<Recv>): (bool, Parser)
    decreases |results|
  {
    if results == [] || results[0].WouldBlock? then (true, p)
    else if !results[0].Bytes? then (false, p)
    else ReadEdge(Receive(p, results[0].s), results[1..])
  }

  // The bytes of the first k results.
  function Brought(results: seq<Recv>, k: nat): string
    requires k <= |results| && forall j :: 0 <= j < k ==> results[j].Bytes?
  {
    if k == 0 then "" else Brought(results, k - 1) + results[k - 1].s
  }

  lemma {:induction false} BroughtFirst(results: seq<Recv>, k: nat)
    requires 0 < k <= |results| && forall j :: 0 <= j < k ==> results[j].Bytes?
    ensures Brought(results, k) == results[0].s + Brought(results[1..], k - 1)
  {
    if k == 1 {
    } else {
      BroughtFirst(results, k - 1);
    }
  }

  // The first k results bring bytes and the next one does not: all those bytes
  // are kept, and it is a success exactly if recv would block or was not asked
  // again.
  lemma {:induction false} ReadEdgeExactly(p: Parser, results: seq<Recv>, k: nat)
    requires k <= |results| && (forall j :: 0 <= j < k ==> results[j].Bytes?) && (k < |results| ==> !results[k].Bytes?)
    ensures ReadEdge(p, results) ==
      (k == |results| || results[k].WouldBlock?, p.(buf := p.buf + Brought(results, k)))
    decreases k
  {
    if k == 0 {
      assert p.buf + "" == p.buf;
    } else {
      ReadEdgeExactly(Receive(p, results[0].s), results[1..], k - 1);
      BroughtFirst(results, k);
      assert p.buf + results[0].s + Brought(results[1..], k - 1) == p.buf + Brought(results, k);
    }
  }

  ghost predicate PlausibleAll(p: Parser, results: seq<Recv>)
    decreases |results|
  {
    if results == [] then |p.buf| < READ_BUFFER_SIZE
    else
      && Plausible(p, results[0])
      && (|p.buf| == READ_BUFFER_SIZE ==> results[0].Closed?)
      && (results[0].Bytes? ==> PlausibleAll(Receive(p, results[0].s), results[1..]))
  }

  // Edge-triggered reading never succeeds with a full buffer: a request that
  // fills it exactly is dropped with its connection.
  lemma {:induction false} FullBufferIsDropped(p: Parser, results: seq<Recv>)
    requires |p.buf| <= READ_BUFFER_SIZE && PlausibleAll(p, results)
    ensures var (ok, q) := ReadEdge(p, results); |q.buf| <= READ_BUFFER_SIZE && (ok ==> |q.buf| < READ_BUFFER_SIZE)
    decreases |results|
  {
    if results == [] || !results[0].Bytes? {
    } else {
      FullBufferIsDropped(Receive(p, results[0].s), results[1..]);
    }
  }

  class HttpConnReader {
    const readBuf: array<char>
    var readIdx: nat
    var checkedIdx: nat
    var startLine: nat
    var checkState: CheckState
    var verb: Verb
    var cgi: bool
    var url: Option<nat>
    var version: Option<nat>
    var host: Option<nat>
    var contentLength: int
    var linger: bool
    var content: Option<nat>

    function Received(): string
      requires readIdx <= readBuf.Length
      reads this`readIdx, readBuf
    {
      readBuf[..readIdx]
    }

    function View(): Parser
      requires readIdx <= readBuf.Length
      reads this, readBuf
    {
      Parser(Received(), checkedIdx, startLine, checkState, verb, cgi, url, version, host, contentLength, linger,
          content)
    }

    ghost predicate Valid()
      reads this
    {
      startLine <= checkedIdx <= readIdx <= READ_BUFFER_SIZE == readBuf.Length
    }

    constructor ()
      ensures Valid() && View() == INIT && fresh(readBuf)
    {
      readBuf := new char[READ_BUFFER_SIZE](_ => NUL);
      readIdx, checkedIdx, startLine := 0, 0, 0;
      checkState, verb, cgi := RequestLine, GET, false;
      url, version, host, content := None, None, None, None;
      contentLength, linger := 0, false;
    }

    // What recv and strcat do to the array.
    method Store(at: nat, s: string)
      requires at + |s| <= readBuf.Length
      modifies readBuf
      ensures readBuf[..] == Stored(old(readBuf[..]), at, s)
    {
      for i := 0 to |s|
        invariant forall k :: 0 <= k < i ==> readBuf[at + k] == s[k]
        invariant forall k :: 0 <= k < at || at + i <= k < readBuf.Length ==> readBuf[k] == old(readBuf[k])
      {
        readBuf[at + i] := s[i];
      }
      StoredAt(old(readBuf[..]), at, s, readBuf[..]);
    }

    method Append(more: string)
      requires Valid() && readIdx + |more| <= READ_BUFFER_SIZE
      modifies this`readIdx, readBuf
      ensures Valid() && View() == Receive(old(View()), more)
    {
      ghost var was := readBuf[..];
      Store(readIdx, more);
      assert readBuf[..readIdx + |more|] == readBuf[..][..readIdx + |more|] == was[..readIdx] + more;
      readIdx := readIdx + |more|;
    }

    // Level-triggered: one recv.
    method ReadLevel(result: Recv) returns (ok: bool)
      requires Valid() && Plausible(View(), result)
      modifies this`readIdx, readBuf
      ensures Valid() && ok == (old(readIdx) < READ_BUFFER_SIZE && result.Bytes?)
      ensures View() == if ok then Receive(old(View()), result.s) else old(View())
    {
      if readIdx >= READ_BUFFER_SIZE {
        return false;
      }
      match result
      case Bytes(more) =>
        Append(more);
        return true;
      case _ => return false;
    }

    // Edge-triggered: recv until it would block.
    method ReadOnce(results: seq<Recv>) returns (ok: bool)
      requires Valid() && (readIdx < READ_BUFFER_SIZE ==> PlausibleAll(View(), results))
      modifies this`readIdx, readBuf
      ensures Valid()
      ensures (ok, View()) ==
        if old(readIdx) < READ_BUFFER_SIZE then ReadEdge(old(View()), results) else (false, old(View()))
      ensures ok ==> readIdx < READ_BUFFER_SIZE
    {
      if readIdx >= READ_BUFFER_SIZE {
        return false;
      }
      ghost var was := View();
      FullBufferIsDropped(was, results);
      var i := 0;
      while i < |results|
        invariant Valid() && 0 <= i <= |results| && PlausibleAll(View(), results[i..])
        invariant ReadEdge(was, results) == ReadEdge(View(), results[i..])
      {
        assert results[i..][1..] == results[i + 1..];
        match results[i] {
          case Bytes(more) => Append(more);
          case WouldBlock => return true;
          case _ => return false;
        }
        i := i + 1;
      }
      return true;
    }

    method ParseLine() returns (status: LineStatus)
      requires Valid()
      modifies this`checkedIdx, readBuf
      ensures Valid()
      ensures HttpParser.ParseLine(old(Received()), old(checkedIdx)) == Line(status, Received(), checkedIdx)
    {
      hide HttpParser.ParseLine;
      ghost var was := Received();
      while checkedIdx < readIdx
        invariant Valid() && Received() == was
        invariant HttpParser.ParseLine(was, old(checkedIdx)) == HttpParser.ParseLine(was, checkedIdx)
      {
        ScanStep(was, checkedIdx);
        var temp := readBuf[checkedIdx];
        if temp == CR {
          if checkedIdx + 1 == readIdx {
            return LineOpen;
          } else if readBuf[checkedIdx + 1] == LF {
            readBuf[checkedIdx] := NUL;
            checkedIdx := checkedIdx + 1;
            readBuf[checkedIdx] := NUL;
            checkedIdx := checkedIdx + 1;
            assert Received() == was[checkedIdx - 2 := NUL][checkedIdx - 1 := NUL];
            return LineOk;
          }
          return LineBad;
        } else if temp == LF {
          if checkedIdx > 1 && readBuf[checkedIdx - 1] == CR {
            readBuf[checkedIdx - 1] := NUL;
            readBuf[checkedIdx] := NUL;
            checkedIdx := checkedIdx + 1;
            assert Received() == was[checkedIdx - 2 := NUL][checkedIdx - 1 := NUL];
            return LineOk;
          }
          return LineBad;
        }
        checkedIdx := checkedIdx + 1;
      }
      ScanStep(was, checkedIdx);
      return LineOpen;
    }

    method ParseHeaders(text: nat) returns (code: HttpCode)
      requires Valid() && text < checkedIdx
      modifies this`checkState, this`linger, this`contentLength, this`host
      ensures Valid() && (code, View()) == DoHeader(old(View()), text)
    {
      hide StartsIgnoringCase, SameIgnoringCase, CStr, Span, Atol;
      var line := LineAt(text);
      if readBuf[text] == NUL {
        if contentLength != 0 {
          checkState := Content;
          return NO_REQUEST;
        }
        return GET_REQUEST;
      } else if StartsIgnoringCase(line, 0, "Connection:") {
        var value := Span(line, 11);
        if SameIgnoringCase(CStr(line, value), "keep-alive") {
          linger := true;
        }
      } else if StartsIgnoringCase(line, 0, "content-length:") {
        contentLength := Atol(CStr(line, Span(line, 15)));
      } else if StartsIgnoringCase(line, 0, "host:") {
        host := Some(text + Span(line, 5));
      }
      return NO_REQUEST;
    }

    method ParseContent(text: nat) returns (code: HttpCode)
      requires Valid() && text <= checkedIdx
      modifies this`content, readBuf
      ensures Valid() && (code, View()) == DoContent(old(View()), text)
    {
      if readIdx >= contentLength + checkedIdx {
        if contentLength < 0 || text + contentLength >= READ_BUFFER_SIZE {
          return UNDEFINED;
        }
        ghost var was := readBuf[..readIdx];
        readBuf[text + contentLength] := NUL;
        content := Some(text);
        assert readBuf[..readIdx] == if text + contentLength < readIdx then was[text + contentLength := NUL] else was;
        return GET_REQUEST;
      }
      return NO_REQUEST;
    }

    // strcat(m_read_buf + at, "judge.html") for the one-character string at that place
    method AppendJudge(text: nat, at: nat)
      requires Valid() && text <= at && at + 2 + |JUDGE| <= checkedIdx
      modifies readBuf
      ensures Valid()
      ensures Received() == Spliced(old(View()).buf, text, checkedIdx,
                              HttpParser.AppendJudge(old(View()).buf[text..checkedIdx], at - text))
    {
      ghost var was := readBuf[..];
      Store(at + 1, JUDGE + [NUL]);
      StoredPrefix(was, at + 1, JUDGE + [NUL], readIdx);
      assert readBuf[..readIdx] == readBuf[..][..readIdx] && was[..readIdx] == old(readBuf[..readIdx]);
      JudgeSpliced(was[..readIdx], text, at, checkedIdx);
    }

    // The C string functions see the line they start in.
    function LineAt(text: nat): string
      requires text <= checkedIdx <= readIdx <= readBuf.Length
      reads this`readIdx, this`checkedIdx, readBuf
    {
      Received()[text..checkedIdx]
    }

    method EndAt(text: nat, k: nat)
      requires Valid() && text + k < checkedIdx
      modifies readBuf
      ensures Valid() && LineAt(text) == old(LineAt(text))[k := NUL]
      ensures Received() == Spliced(old(Received()), text, checkedIdx, LineAt(text))
    {
      readBuf[text + k] := NUL;
      assert Received() == old(Received())[text + k := NUL];
      EndedSpliced(old(Received()), text, checkedIdx, k);
    }

    // The path, once http:// is off.
    method ParsePath(text: nat, start: Option<nat>, v: nat) returns (code: HttpCode)
      requires Valid() && text <= checkedIdx && text + v <= checkedIdx &&
        (start.Some? ==> text + start.value <= checkedIdx)
      requires EditedLine(LineAt(text), HttpParser.ParsePath(LineAt(text), start, v, verb, cgi))
      modifies this`url, this`checkState, readBuf
      ensures Valid()
      ensures var r := HttpParser.ParsePath(old(LineAt(text)), start, v, verb, cgi);
        && code == r.code && Received() == Spliced(old(Received()), text, checkedIdx, r.line)
        && url == Offset(text, r.url) && checkState == if code.NO_REQUEST? then Header else old(checkState)
    {
      hide StartsIgnoringCase, SkipScheme, HttpParser.AppendJudge, HttpParser.ParsePath, Spliced, EditedLine;
      var line := LineAt(text);
      PathSteps(line, start, v, verb, cgi);
      SplicedSame(Received(), text, checkedIdx);
      if start.None? {
        url := None;
        return UNDEFINED;
      }
      var path := SkipScheme(line, start.value, "https://");
      url := Offset(text, path);
      if path.None? || path.value >= |line| || line[path.value] != '/' {
        return BAD_REQUEST;
      }
      if CLen(line, path.value) == 1 {
        AppendJudge(text, text + path.value);
      }
      checkState := Header;
      return NO_REQUEST;
    }

    // From the version on; the target ends at b.
    method ParseVersion(text: nat, at: nat, b: nat) returns (code: HttpCode)
      requires Valid() && text <= at <= text + b < checkedIdx
      requires EditedLine(LineAt(text), HttpParser.ParseVersion(LineAt(text), at - text, b, verb, cgi))
      modifies this`url, this`version, this`checkState, readBuf
      ensures Valid()
      ensures var r := HttpParser.ParseVersion(old(LineAt(text)), at - text, b, verb, cgi);
        && code == r.code && Received() == Spliced(old(Received()), text, checkedIdx, r.line)
        && url == Offset(text, r.url) && version == Offset(text, r.version)
        && checkState == if code.NO_REQUEST? then Header else old(checkState)
    {
      hide SameIgnoringCase, CStr, Span, SkipScheme, HttpParser.ParsePath, EditedLine, Spliced;
      SplicedSame(Received(), text, checkedIdx);
      url := Some(at);
      var v := Span(LineAt(text), b + 1);
      version := Some(text + v);
      if !SameIgnoringCase(CStr(LineAt(text), v), VERSION) {
        return BAD_REQUEST;
      }
      var path := SkipScheme(LineAt(text), at - text, "http://");
      code := ParsePath(text, path, v);
    }

    // The request line from the target on.
    method ParseTarget(text: nat, at: nat) returns (code: HttpCode)
      requires Valid() && text <= at <= checkedIdx - 2 && Ended(LineAt(text))
      modifies this`url, this`version, this`checkState, readBuf
      ensures Valid()
      ensures var r := HttpParser.ParseTarget(old(LineAt(text)), at - text, verb, cgi);
        && code == r.code && Received() == Spliced(old(Received()), text, checkedIdx, r.line)
        && url == Offset(text, r.url) && version == (if r.version.None? then old(version) else Offset(text, r.version))
        && checkState == if code.NO_REQUEST? then Header else old(checkState)
    {
      hide Break, HttpParser.ParseVersion, EditedLine, Spliced, Ended;
      ghost var was, line := Received(), LineAt(text);
      TargetSteps(line, at - text, verb, cgi);
      SplicedSame(was, text, checkedIdx);
      url := Some(at);
      var b := Break(LineAt(text), at - text);
      if b.None? {
        return BAD_REQUEST;
      }
      EndAt(text, b.value);
      ghost var l2 := LineAt(text);
      code := ParseVersion(text, at, b.value);
      SplicedTwice(was, text, checkedIdx, l2, HttpParser.ParseVersion(l2, at - text, b.value, verb, cgi).line);
    }

    // From the method name on, which ends at b.
    method ParseVerb(text: nat, b: nat) returns (code: HttpCode)
      requires Valid() && text + b < checkedIdx
      requires Ended(LineAt(text)) && text + Span(LineAt(text), b + 1) <= checkedIdx - 2
      modifies this`verb, this`cgi, this`url, this`version, this`checkState, readBuf
      ensures Valid()
      ensures var r := HttpParser.ParseVerb(old(LineAt(text)), b, old(verb), old(cgi));
        && code == r.code && Received() == Spliced(old(Received()), text, checkedIdx, r.line)
        && verb == r.verb && cgi == r.cgi
        && url == Offset(text, r.url) && version == (if r.version.None? then old(version) else Offset(text, r.version))
        && checkState == if code.NO_REQUEST? then Header else old(checkState)
    {
      hide SameIgnoringCase, CStr, Span, HttpParser.ParseTarget, Spliced, Ended;
      SplicedSame(Received(), text, checkedIdx);
      url := Some(text + b + 1);
      var name := CStr(LineAt(text), 0);
      if SameIgnoringCase(name, "GET") {
        verb := GET;
      } else if SameIgnoringCase(name, "POST") {
        verb := POST;
        cgi := true;
      } else {
        return BAD_REQUEST;
      }
      code := ParseTarget(text, text + Span(LineAt(text), b + 1));
    }

    method ParseRequestLine(text: nat) returns (code: HttpCode)
      requires Valid() && text + 2 <= checkedIdx && Ended(LineAt(text)) && checkState.RequestLine?
      modifies this`verb, this`cgi, this`url, this`version, this`checkState, readBuf
      ensures Valid() && (code, View()) == DoRequestLine(old(View()), text)
    {
      hide Break, Span, HttpParser.ParseVerb, Spliced, Ended;
      ghost var was, line := Received(), LineAt(text);
      LineStops(line);
      SplicedSame(was, text, checkedIdx);
      SplicedIs(was, text, checkedIdx, HttpParser.ParseRequestLine(line, verb, cgi).line);
      var b := Break(LineAt(text), 0);
      if b.None? {
        url := None;
        return BAD_REQUEST;
      }
      EndAt(text, b.value);
      ghost var l1, r := LineAt(text), HttpParser.ParseVerb(LineAt(text), b.value, verb, cgi);
      code := ParseVerb(text, b.value);
      SplicedTwice(was, text, checkedIdx, l1, r.line);
    }

    // The switch of process_read on the text that starts at m_start_line.
    method TakeText() returns (code: HttpCode)
      requires Valid() && (!checkState.Content? ==> startLine + 2 <= checkedIdx && Ended(LineAt(startLine)))
      modifies this, readBuf
      ensures Valid() && readIdx == old(readIdx) && (code, View()) == Take(old(View()))
    {
      hide DoRequestLine, DoHeader, DoContent, Ended;
      var text := startLine;
      startLine := checkedIdx;
      match checkState
      case RequestLine => code := ParseRequestLine(text);
      case Header => code := ParseHeaders(text);
      case Content => code := ParseContent(text);
    }

    method ProcessRead() returns (code: HttpCode)
      requires Valid() && Inv(View())
      modifies this, readBuf
      ensures Valid() && readIdx == old(readIdx) && Inv(View()) && (code, View()) == HttpParser.ProcessRead(old(View()))
    {
      hide Inv, Continue, Take, Ended, HttpParser.ParseLine, HttpParser.ProcessRead;
      ghost var was := View();
      var status := LineOk;
      ProcessReadKeeps(was);
      Begin(was);
      while true
        invariant Valid() && readIdx == old(readIdx) && Inv(View())
        invariant status.LineOk? || checkState.Content?
        invariant Continue(View(), status) == HttpParser.ProcessRead(was)
        decreases readIdx - checkedIdx, if status.LineOk? then 1 else 0
      {
        ghost var p := View();
        var lineNeeded := !(checkState.Content? && status.LineOk?);
        if lineNeeded {
          ScanTurn(p, status);
          status := ParseLine();
          assert View() == Scanned(p);
          if !status.LineOk? {
            return NO_REQUEST;
          }
        } else {
          TakeTurn(p);
        }
        ghost var s := View();
        var wasContent := checkState.Content?;
        code := TakeText();
        if !code.NO_REQUEST? {
          return code;
        }
        if wasContent {
          status := LineOpen;
        }
      }
    }
  }

  // What the switch computes, and what is left to do after it.
  function Take(p: Parser): (r: (HttpCode, Parser))
    requires Wf(p) && (!p.state.Content? ==> p.start < p.checked)
    ensures r.1.checked == p.checked && |r.1.buf| == |p.buf| && Wf(r.1)
    ensures p.state.Content? ==> r.1.state.Content?
  {
    if p.state.Content? then DoContent(p.(start := p.checked), p.start) else DoLine(p)
  }

  function Rest(p: Parser, c: HttpCode, q: Parser): (HttpCode, Parser)
    requires Wf(q)
  {
    if !c.NO_REQUEST? then (c, q) else Continue(q, if p.state.Content? then LineOpen else LineOk)
  }

  lemma Begin(p: Parser)
    requires Wf(p)
    ensures Continue(p, LineOk) == HttpParser.ProcessRead(p)
  {
  }

  lemma TakeTurn(p: Parser)
    requires Inv(p) && p.state.Content?
    ensures var (c, q) := Take(p); Inv(q) && Continue(p, LineOk) == Rest(p, c, q)
  {
    hide Inv, DoContent, HttpParser.ParseLine;
    InvWf(p);
    ContentKeeps(p);
  }

  lemma ScanTurn(p: Parser, status: LineStatus)
    requires Inv(p) && (p.state.Content? <==> !status.LineOk?)
    ensures var r := HttpParser.ParseLine(p.buf, p.checked); var s := Scanned(p);
      if !r.status.LineOk? then Continue(p, status) == (NO_REQUEST, s)
      else
        && (!p.state.Content? ==> s.start + 2 <= s.checked && Ended(s.buf[s.start..s.checked]))
        && var (c, q) := Take(s); Inv(q) && Continue(p, status) == Rest(p, c, q)
  {
    hide Inv, DoContent, DoLine, HttpParser.ParseLine, Ended;
    InvWf(p);
    ScanKeeps(p);
    if HttpParser.ParseLine(p.buf, p.checked).status.LineOk? {
      var s := Scanned(p);
      if p.state.Content? {
        TakeTurn(s);
      } else {
        LineKeeps(p);
        LineTurn(p);
      }
    }
  }

  lemma LineTurn(p: Parser)
    requires Wf(p) && !p.state.Content? && HttpParser.ParseLine(p.buf, p.checked).status.LineOk?
    ensures var (c, q) := DoLine(Scanned(p)); Continue(p, LineOk) == Rest(p, c, q)
  {
    hide DoLine, HttpParser.ParseLine, Body;
  }

  // The method name ends before the two NULs.
  lemma LineStops(line: string)
    requires Ended(line)
    ensures var b := Break(line, 0);
      b.Some? ==> var l1 := line[b.value := NUL]; Span(l1, b.value + 1) <= |line| - 2 && Ended(l1)
  {
    BreakStops(line, 0, |line| - 2);
    var b := Break(line, 0);
    if b.Some? {
      SpanStops(line[b.value := NUL], b.value + 1, |line| - 2);
    }
  }

  lemma SplicedIs(buf: string, text: nat, end: nat, line: string)
    requires text <= end <= |buf|
    ensures Spliced(buf, text, end, line) == buf[..text] + line + buf[end..]
  {
  }

  lemma TargetSteps(line: string, at: nat, verb: Verb, cgi: bool)
    requires at <= |line| - 2 && Ended(line)
    ensures var b := Break(line, at);
      b.Some? ==>
        EditedLine(line[b.value := NUL], HttpParser.ParseVersion(line[b.value := NUL], at, b.value, verb, cgi))
  {
    hide HttpParser.ParseVersion, EditedLine;
    TargetFits(line, at, verb, cgi);
    var b := Break(line, at);
    if b.Some? {
      SameLine(line[b.value := NUL], line, HttpParser.ParseTarget(line, at, verb, cgi));
    }
  }

  lemma PathSteps(line: string, start: Option<nat>, v: nat, verb: Verb, cgi: bool)
    requires v <= |line| && (start.Some? ==> start.value <= |line|)
    requires EditedLine(line, HttpParser.ParsePath(line, start, v, verb, cgi))
    ensures var r := HttpParser.ParsePath(line, start, v, verb, cgi);
      if start.None? then r == Request(UNDEFINED, line, verb, cgi, None, Some(v)) else
      var path := SkipScheme(line, start.value, "https://");
      if path.None? || path.value >= |line| || line[path.value] != '/' then
        r == Request(BAD_REQUEST, line, verb, cgi, path, Some(v))
      else if CLen(line, path.value) != 1 then r == Request(NO_REQUEST, line, verb, cgi, path, Some(v))
      else
        && path.value + 2 + |JUDGE| <= |line|
        && r == Request(NO_REQUEST, HttpParser.AppendJudge(line, path.value), verb, cgi, path, Some(v))
  {
    hide SkipScheme, HttpParser.AppendJudge;
  }

  function Stored(buf: string, at: nat, s: string): string
    requires at + |s| <= |buf|
  {
    buf[..at] + s + buf[at + |s|..]
  }

  lemma StoredAt(buf: string, at: nat, s: string, now: string)
    requires at + |s| <= |buf| == |now|
    requires forall k :: 0 <= k < |s| ==> now[at + k] == s[k]
    requires forall k :: 0 <= k < at || at + |s| <= k < |buf| ==> now[k] == buf[k]
    ensures now == Stored(buf, at, s)
  {
    forall k | at <= k < at + |s|
      ensures now[k] == s[k - at]
    {
      assert now[at + (k - at)] == s[k - at];
    }
  }

  lemma StoredPrefix(buf: string, at: nat, s: string, n: nat)
    requires at + |s| <= n <= |buf|
    ensures Stored(buf, at, s)[..n] == Stored(buf[..n], at, s)
  {
  }

  function Spliced(buf: string, text: nat, end: nat, line: string): string
    requires text <= end <= |buf|
  {
    buf[..text] + line + buf[end..]
  }

  lemma EndedSpliced(buf: string, text: nat, end: nat, k: nat)
    requires text + k < end <= |buf|
    ensures var now := buf[text + k := NUL];
      now[text..end] == buf[text..end][k := NUL] && now == Spliced(buf, text, end, now[text..end])
  {
  }

  lemma SplicedTwice(buf: string, text: nat, end: nat, a: string, b: string)
    requires text <= end <= |buf| && |a| == |b| == end - text
    ensures Spliced(Spliced(buf, text, end, a), text, end, b) == Spliced(buf, text, end, b)
  {
  }

  lemma SplicedSame(buf: string, text: nat, end: nat)
    requires text <= end <= |buf|
    ensures Spliced(buf, text, end, buf[text..end]) == buf
  {
  }

  lemma JudgeSpliced(was: string, text: nat, at: nat, end: nat)
    requires text <= at && at + 2 + |JUDGE| <= end <= |was|
    ensures Stored(was, at + 1, JUDGE + [NUL]) ==
      Spliced(was, text, end, HttpParser.AppendJudge(was[text..end], at - text))
  {
    var line, j := was[text..end], JUDGE + [NUL];
    var k := at + 1 - text;
    assert HttpParser.AppendJudge(line, at - text) == line[..k] + j + line[k + |j|..];
    StoredInside(was, text, end, k, j);
  }

  // Storing inside a line is storing in the buffer.
  lemma StoredInside(was: string, text: nat, end: nat, k: nat, j: string)
    requires text + k + |j| <= end <= |was|
    ensures var line := was[text..end];
      Stored(was, text + k, j) == Spliced(was, text, end, line[..k] + j + line[k + |j|..])
  {
    var line := was[text..end];
    var front, back := line[..k], line[k + |j|..];
    assert was[..text] + front == was[..text + k];
    assert back + was[end..] == was[text + k + |j|..];
    assert was[..text] + (front + j + back) + was[end..] == (was[..text] + front) + j + (back + was[end..]);
  }
}
