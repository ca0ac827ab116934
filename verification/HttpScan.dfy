// What the scanner and the in-place edits of TinyWebServer's parser keep:
// where lines end, that no edit leaves its line, and that every parsed field is
// a terminated string.
module HttpScan {
  import opened Common
  import opened HttpCodes
  import opened CStrings
  import opened HttpParser

  predicate Breaks(c: char) { c == CR || c == LF }

  // A line that parse_line has terminated.
  predicate Ended(line: string) {
    2 <= |line| && line[|line| - 2] == NUL && line[|line| - 1] == NUL
  }

  // ---------- the scanner ----------

  ghost predicate Unbroken(buf: string, lo: nat, hi: nat) {
    hi <= |buf| && forall k :: lo <= k < hi ==> !Breaks(buf[k])
  }

  ghost predicate Scanning(buf: string, start: nat, i: nat) {
    start <= i && Unbroken(buf, start, i) && (0 < start ==> buf[start - 1] != CR)
  }

  ghost predicate CrLfAt(buf: string, k: nat) {
    k + 1 < |buf| && buf[k] == CR && buf[k + 1] == LF
  }

  // The first CR or LF of the line decides. A line that is accepted ends in a CR
  // found by this very scan: the branch for an LF whose CR was scanned by an
  // earlier call never accepts.
  lemma {:induction false} FirstBreakDecides(buf: string, start: nat, i: nat)
    requires Scanning(buf, start, i)
    ensures var r := ParseLine(buf, i);
      match r.status
      case LineOk => i <= r.checked - 2 && Unbroken(buf, start, r.checked - 2) && CrLfAt(buf, r.checked - 2)
      case LineOpen =>
        && Unbroken(buf, start, r.checked)
        && (r.checked < |buf| ==> r.checked == |buf| - 1 && buf[r.checked] == CR)
      case LineBad =>
        && Unbroken(buf, start, r.checked) && r.checked < |buf|
        && Breaks(buf[r.checked]) && !CrLfAt(buf, r.checked)
    decreases |buf| - i
  {
    if i >= |buf| || Breaks(buf[i]) {
    } else {
      FirstBreakDecides(buf, start, i + 1);
    }
  }

  lemma AcceptedExactly(buf: string, start: nat, i: nat)
    requires Scanning(buf, start, i)
    ensures ParseLine(buf, i).status.LineOk? <==> exists k: nat :: i <= k && Unbroken(buf, start, k) && CrLfAt(buf, k)
  {
    hide ParseLine;
    FirstBreakDecides(buf, start, i);
    var r := ParseLine(buf, i);
    if k: nat :| i <= k && Unbroken(buf, start, k) && CrLfAt(buf, k) {
      assert Breaks(buf[k]) && Breaks(buf[k + 1]);
    }
  }

  // ---------- the request line ----------

  lemma {:induction false} SpanStops(s: string, p: nat, k: nat)
    requires p <= k < |s| && !Blank(s[k])
    ensures Span(s, p) <= k
    decreases k - p
  {
    if p == k || !Blank(s[p]) {
    } else {
      SpanStops(s, p + 1, k);
    }
  }

  lemma {:induction false} BreakStops(s: string, p: nat, k: nat)
    requires p <= k < |s| && s[k] == NUL
    ensures Break(s, p).Some? ==> Break(s, p).value < k
    decreases k - p
  {
    if p == k || s[p] == NUL || Blank(s[p]) {
    } else {
      BreakStops(s, p + 1, k);
    }
  }

  lemma {:induction false} FindStops(s: string, p: nat, c: char, k: nat)
    requires p <= k < |s| && s[k] == NUL && c != NUL
    ensures Find(s, p, c).Some? ==> Find(s, p, c).value < k
    decreases k - p
  {
    if p == k || s[p] == NUL || s[p] == c {
    } else {
      FindStops(s, p + 1, c, k);
    }
  }

  lemma SameLength(s: string, t: string)
    requires SameIgnoringCase(s, t)
    ensures |s| == |t|
  {
  }

  // A scheme is skipped inside the string it begins.
  lemma SkipStops(line: string, url: nat, scheme: string, k: nat)
    requires url <= k < |line| && line[k] == NUL
    ensures var r := SkipScheme(line, url, scheme); r.Some? ==> r.value <= k
  {
    CLenBefore(line, url, k);
    if StartsIgnoringCase(line, url, scheme) {
      FindStops(line, url + |scheme|, '/', k);
    }
  }

  ghost predicate EditedLine(line: string, r: Request) {
    && |r.line| == |line| > 0
    && r.line[|line| - 1] == NUL
    && (r.url.Some? ==> r.url.value < |line|)
    && (r.version.Some? ==> r.version.value < |line|)
    && (r.code.UNDEFINED? ==> r.url.None?)
    && (r.code.NO_REQUEST? ==> r.url.Some? && r.line[r.url.value] == '/' && r.line[r.url.value + 1] != NUL)
  }

  lemma {:induction false} CLenExactly(s: string, p: nat, n: nat)
    requires p + n < |s| && s[p + n] == NUL && forall k :: p <= k < p + n ==> s[k] != NUL
    ensures CLen(s, p) == n
    decreases n
  {
    if n == 0 {
    } else {
      CLenExactly(s, p + 1, n - 1);
    }
  }

  // strcat turns the path "/" into "/judge.html" and changes nothing else.
  lemma JudgeAppended(line: string, url: nat)
    requires url + 2 + |JUDGE| <= |line| && line[url] == '/'
    ensures var r := AppendJudge(line, url);
      && CStr(r, url) == "/" + JUDGE
      && r[url + 1 + |JUDGE|] == NUL
      && forall k :: 0 <= k < |line| && !(url < k < url + 2 + |JUDGE|) ==> r[k] == line[k]
  {
    var r := AppendJudge(line, url);
    assert r[url] == '/' && r[url + 1..url + 1 + |JUDGE|] == JUDGE;
    assert forall k :: 0 <= k < |JUDGE| ==> r[url + 1 + k] == JUDGE[k];
    assert forall k :: 0 <= k < |JUDGE| ==> JUDGE[k] != NUL;
    forall k | url <= k < url + 1 + |JUDGE|
      ensures r[k] != NUL
    {
      if url < k {
        assert r[url + 1 + (k - url - 1)] == JUDGE[k - url - 1];
      }
    }
    assert r[url + 11] == NUL;
    CLenExactly(r, url, 1 + |JUDGE|);
    assert r[url..url + 11] == [r[url]] + r[url + 1..url + 11];
  }

  lemma Refused(line: string, edited: string, verb: Verb, cgi: bool, url: Option<nat>, version: Option<nat>)
    requires |edited| == |line| > 0 && edited[|line| - 1] == NUL
    requires (url.Some? ==> url.value < |line|) && (version.Some? ==> version.value < |line|)
    ensures EditedLine(line, Request(BAD_REQUEST, edited, verb, cgi, url, version))
  {
  }

  lemma Accepted(line: string, edited: string, verb: Verb, cgi: bool, path: nat, version: nat)
    requires |edited| == |line| && path + 1 < |line| && version < |line| && edited[|line| - 1] == NUL
    requires edited[path] == '/' && edited[path + 1] != NUL
    ensures EditedLine(line, Request(NO_REQUEST, edited, verb, cgi, Some(path), Some(version)))
  {
  }

  lemma Rewritten(l2: string, verb: Verb, cgi: bool, path: nat, version: nat)
    requires path + 2 + |JUDGE| <= |l2| && version < |l2| && l2[|l2| - 1] == NUL && l2[path] == '/'
    ensures EditedLine(l2, Request(NO_REQUEST, AppendJudge(l2, path), verb, cgi, Some(path), Some(version)))
  {
    hide AppendJudge, EditedLine;
    JudgeAppended(l2, path);
    var r := AppendJudge(l2, path);
    assert CStr(r, path)[1] == 'j';
    Accepted(l2, r, verb, cgi, path, version);
  }

  // The path "/" is followed by the blank that ended it, VERSION and two NULs:
  // that is all the room the rewriting needs.
  lemma PathFits(l2: string, url: Option<nat>, version: nat, b: nat, verb: Verb, cgi: bool)
    requires Ended(l2)
    requires b < version && version + |VERSION| <= |l2| - 2 && l2[b] == NUL
    requires url.Some? ==> url.value <= b && forall k :: url.value <= k < b ==> l2[k] != NUL
    ensures EditedLine(l2, ParsePath(l2, url, version, verb, cgi))
  {
    hide SkipScheme, AppendJudge, EditedLine;
    if url.None? {
      NullPath(l2, version, verb, cgi);
    } else {
      var path := SkipScheme(l2, url.value, "https://");
      SkipStops(l2, url.value, "https://", b);
      if path.None? || l2[path.value] != '/' {
        Refused(l2, l2, verb, cgi, path, Some(version));
      } else if CLen(l2, path.value) == 1 {
        assert path.value + 1 == b;
        Rewritten(l2, verb, cgi, path.value, version);
      } else {
        Accepted(l2, l2, verb, cgi, path.value, version);
      }
    }
  }

  lemma NullPath(l2: string, version: nat, verb: Verb, cgi: bool)
    requires version < |l2| && l2[|l2| - 1] == NUL
    ensures EditedLine(l2, Request(UNDEFINED, l2, verb, cgi, None, Some(version)))
  {
  }

  // The version starts behind the NUL that ends the target.
  lemma VersionFits(l1: string, b: nat)
    requires Ended(l1) && b < |l1| - 2
    ensures var l2 := l1[b := NUL]; var version := Span(l2, b + 1);
      && b < version <= |l1| - 2
      && (SameIgnoringCase(CStr(l2, version), VERSION) ==> version + |VERSION| <= |l1| - 2)
  {
    var l2 := l1[b := NUL];
    SpanStops(l2, b + 1, |l1| - 2);
    CLenBefore(l2, Span(l2, b + 1), |l1| - 2);
    if SameIgnoringCase(CStr(l2, Span(l2, b + 1)), VERSION) {
      SameLength(CStr(l2, Span(l2, b + 1)), VERSION);
    }
  }

  lemma TargetFits(l1: string, url: nat, verb: Verb, cgi: bool)
    requires Ended(l1) && url <= |l1| - 2
    ensures EditedLine(l1, ParseTarget(l1, url, verb, cgi))
  {
    hide SameIgnoringCase, SkipScheme, ParsePath, CStr, EditedLine;
    BreakStops(l1, url, |l1| - 2);
    if Break(l1, url).None? {
      Refused(l1, l1, verb, cgi, Some(url), None);
    } else {
      var b := Break(l1, url).value;
      var l2 := l1[b := NUL];
      var version := Span(l2, b + 1);
      VersionFits(l1, b);
      Refused(l1, l2, verb, cgi, Some(url), Some(version));
      if SameIgnoringCase(CStr(l2, version), VERSION) {
        SkipStops(l2, url, "http://", b);
        PathFits(l2, SkipScheme(l2, url, "http://"), version, b, verb, cgi);
        SameLine(l1, l2, ParsePath(l2, SkipScheme(l2, url, "http://"), version, verb, cgi));
      }
    }
  }

  lemma SameLine(line: string, other: string, r: Request)
    requires |line| == |other| && EditedLine(other, r)
    ensures EditedLine(line, r)
  {
  }

  // A request line is edited within itself; no room ever lacks for the path
  // "/judge.html", so the only undefined outcome is http:// without a path.
  lemma RequestLineFits(line: string, verb: Verb, cgi: bool)
    requires Ended(line)
    ensures EditedLine(line, ParseRequestLine(line, verb, cgi))
  {
    hide SameIgnoringCase, ParseTarget, CStr, EditedLine;
    BreakStops(line, 0, |line| - 2);
    if Break(line, 0).None? {
      Refused(line, line, verb, cgi, None, None);
    } else {
      var b := Break(line, 0).value;
      var l1 := line[b := NUL];
      Refused(line, l1, verb, cgi, Some(b + 1), None);
      SpanStops(l1, b + 1, |line| - 2);
      var url := Span(l1, b + 1);
      TargetFits(l1, url, GET, cgi);
      TargetFits(l1, url, POST, true);
      SameLine(line, l1, ParseTarget(l1, url, GET, cgi));
      SameLine(line, l1, ParseTarget(l1, url, POST, true));
    }
  }

  // ---------- the invariant of the parser ----------

  // The pointer is null or points at a string that ends before limit.
  ghost predicate Stringy(buf: string, o: Option<nat>, limit: nat) {
    o.Some? ==> exists k: nat :: o.value <= k < limit && k < |buf| && buf[k] == NUL
  }

  ghost predicate FieldsEnd(p: Parser) {
    Stringy(p.buf, p.url, p.start) && Stringy(p.buf, p.version, p.start) && Stringy(p.buf, p.host, p.start)
  }

  ghost predicate Inv(p: Parser) {
    Wf(p) && Scanning(p.buf, p.start, p.checked) && FieldsEnd(p)
  }

  // Just behind a line that was taken.
  ghost predicate AfterLine(p: Parser) {
    0 < p.start == p.checked <= |p.buf| && p.buf[p.start - 1] == NUL && (p.state.Content? ==> p.contentLength != 0)
  }

  lemma InitInv()
    ensures Inv(INIT)
  {
  }

  lemma ReceiveKeeps(p: Parser, more: string)
    requires Inv(p)
    ensures Inv(Receive(p, more))
  {
    StringyMoves(p.buf, p.buf + more, p.start, p.start);
  }

  lemma StringyMoves(a: string, b: string, n: nat, m: nat)
    requires n <= |a| <= |b| && n <= m && forall k :: 0 <= k < n ==> b[k] == a[k]
    ensures forall o: Option<nat> :: Stringy(a, o, n) ==> Stringy(b, o, m)
  {
  }

  lemma ScanKeeps(p: Parser)
    requires Inv(p)
    ensures Inv(Scanned(p))
    ensures ParseLine(p.buf, p.checked).status.LineOk? ==>
      var s := Scanned(p); s.start <= s.checked - 2 && Ended(s.buf[s.start..s.checked])
  {
    hide ParseLine, FieldsEnd;
    FirstBreakDecides(p.buf, p.start, p.checked);
    var s := Scanned(p);
    FieldsMove(p, s);
  }

  lemma FieldsMove(p: Parser, q: Parser)
    requires FieldsEnd(p) && p.start <= q.start && p.start <= |p.buf| == |q.buf|
    requires forall k :: 0 <= k < p.start ==> q.buf[k] == p.buf[k]
    requires q.url == p.url && q.version == p.version && q.host == p.host
    ensures FieldsEnd(q)
  {
    StringyMoves(p.buf, q.buf, p.start, q.start);
  }

  lemma RequestLineKeeps(s: Parser)
    requires Inv(s) && s.start <= s.checked - 2 && Ended(s.buf[s.start..s.checked]) && s.state.RequestLine?
    ensures var (c, q) := DoLine(s);
      && Inv(q) && AfterLine(q) && q.buf[s.checked..] == s.buf[s.checked..] && q.contentLength == s.contentLength
      && (c.UNDEFINED? ==> q.url.None?)
  {
    hide ParseRequestLine;
    var line := s.buf[s.start..s.checked];
    RequestLineFits(line, s.verb, s.cgi);
    var r := ParseRequestLine(line, s.verb, s.cgi);
    var (c, q) := DoLine(s);
    assert q.buf == s.buf[..s.start] + r.line + s.buf[s.checked..];
    assert q.buf[s.checked - 1] == r.line[|line| - 1] == NUL;
    StringyMoves(s.buf, q.buf, s.start, s.checked);
  }

  // A header line sets at most one field, and only the host is a pointer.
  lemma HeaderTouches(p: Parser, text: nat)
    requires text + 2 <= p.checked <= |p.buf| && Ended(p.buf[text..p.checked]) && p.state.Header?
    ensures var (c, q) := DoHeader(p, text);
      && (c.NO_REQUEST? || c.GET_REQUEST?) && q.url == p.url && q.version == p.version
      && (q.host == p.host || (q.host.Some? && text <= q.host.value <= p.checked - 2))
      && (q.state.Content? ==> c.NO_REQUEST? && q.contentLength != 0)
  {
    hide SameIgnoringCase, CStr, Atol;
    var line := p.buf[text..p.checked];
    if StartsIgnoringCase(line, 0, "host:") {
      CLenBefore(line, 0, |line| - 2);
      SpanStops(line, 5, |line| - 2);
    }
  }

  lemma HeaderKeeps(s: Parser)
    requires Inv(s) && s.start <= s.checked - 2 && Ended(s.buf[s.start..s.checked]) && s.state.Header?
    ensures var (c, q) := DoLine(s);
      && Inv(q) && AfterLine(q) && q.buf == s.buf && (c.NO_REQUEST? || c.GET_REQUEST?)
  {
    hide DoHeader;
    var line := s.buf[s.start..s.checked];
    HeaderTouches(s.(start := s.checked), s.start);
    assert s.buf[s.checked - 1] == line[|line| - 1] && s.buf[s.checked - 2] == line[|line| - 2];
    StringyMoves(s.buf, s.buf, s.start, s.checked);
  }

  lemma LineKeeps(p: Parser)
    requires Inv(p) && !p.state.Content? && ParseLine(p.buf, p.checked).status.LineOk?
    ensures var (c, q) := DoLine(Scanned(p));
      && Inv(q) && AfterLine(q) && q.buf[q.checked..] == p.buf[q.checked..]
      && (c.UNDEFINED? ==> q.url.None?) && (q.state.Content? ==> c.NO_REQUEST?)
  {
    hide ParseLine, DoLine, Inv, AfterLine;
    ScanKeeps(p);
    var s := Scanned(p);
    assert s.buf[s.checked..] == p.buf[s.checked..];
    if s.state.RequestLine? {
      RequestLineKeeps(s);
    } else {
      HeaderKeeps(s);
    }
    LineState(s);
  }

  lemma LineState(s: Parser)
    requires s.start + 2 <= s.checked <= |s.buf| && Ended(s.buf[s.start..s.checked]) && !s.state.Content?
    ensures var (c, q) := DoLine(s); q.state.Content? ==> c.NO_REQUEST?
  {
    hide ParseRequestLine, DoHeader;
    if s.state.Header? {
      HeaderTouches(s.(start := s.checked), s.start);
    }
  }

  // Every call before the body keeps the invariant, leaves the unread bytes alone,
  // and the body starts right behind the blank line.
  lemma {:induction false} LinesKeep(p: Parser)
    requires Inv(p) && !p.state.Content?
    ensures var (c, q) := Lines(p);
      && Inv(q) && q.buf[q.checked..] == p.buf[q.checked..]
      && (c.UNDEFINED? ==> q.url.None?)
      && (q.state.Content? ==> c.NO_REQUEST? && AfterLine(q))
    decreases |p.buf| - p.checked
  {
    hide ParseLine, DoLine, Inv, AfterLine;
    InvWf(p);
    if ParseLine(p.buf, p.checked).status.LineOk? {
      LineKeeps(p);
      var (c, q) := DoLine(Scanned(p));
      if c.NO_REQUEST? && !q.state.Content? {
        InvWf(q);
        LinesKeep(q);
        TailStays(p.buf, q.buf, Lines(q).1.buf, q.checked, Lines(q).1.checked);
      }
    } else {
      ScanKeeps(p);
    }
  }

  lemma InvWf(p: Parser)
    requires Inv(p)
    ensures Wf(p)
  {
  }

  lemma TailStays(a: string, b: string, c: string, i: nat, j: nat)
    requires |a| == |b| == |c| && i <= j <= |a| && b[i..] == a[i..] && c[j..] == b[j..]
    ensures c[j..] == a[j..]
  {
    assert a[j..] == a[i..][j - i..] && b[j..] == b[i..][j - i..];
  }

  lemma ContentKeeps(p: Parser)
    requires Inv(p) && p.state.Content?
    ensures Inv(DoContent(p.(start := p.checked), p.start).1)
  {
    var q := DoContent(p.(start := p.checked), p.start).1;
    StringyMoves(p.buf, p.buf, p.start, p.checked);
    if q.buf != p.buf {
      NulStays(p.buf, p.start + p.contentLength, p.checked);
    }
  }

  lemma NulStays(buf: string, end: nat, n: nat)
    requires end < |buf|
    ensures forall o: Option<nat> :: Stringy(buf, o, n) ==> Stringy(buf[end := NUL], o, n)
  {
    forall o: Option<nat> | Stringy(buf, o, n)
      ensures Stringy(buf[end := NUL], o, n)
    {
      if o.Some? {
        var k: nat :| o.value <= k < n && k < |buf| && buf[k] == NUL;
        assert buf[end := NUL][k] == NUL;
      }
    }
  }

  lemma {:induction false} BodyKeeps(p: Parser, status: LineStatus)
    requires Inv(p) && p.state.Content?
    ensures Inv(Body(p, status).1)
    decreases |p.buf| - p.checked, if status.LineOk? then 1 else 0
  {
    hide ParseLine, Inv, DoContent;
    InvWf(p);
    if status.LineOk? {
      ContentKeeps(p);
      var (c, q) := DoContent(p.(start := p.checked), p.start);
      if c.NO_REQUEST? {
        BodyKeeps(q, LineOpen);
      }
    } else {
      ScanKeeps(p);
      if ParseLine(p.buf, p.checked).status.LineOk? {
        BodyKeeps(Scanned(p), LineOk);
      }
    }
  }

  lemma ProcessReadKeeps(p: Parser)
    requires Inv(p)
    ensures Inv(ProcessRead(p).1)
  {
    hide Lines, Body, Inv;
    InvWf(p);
    if p.state.Content? {
      BodyKeeps(p, LineOk);
    } else {
      LinesKeep(p);
      if Lines(p).1.state.Content? {
        BodyKeeps(Lines(p).1, LineOk);
      }
    }
  }

  // Over every run of reads and calls.
  lemma {:induction false} FeedKeeps(p: Parser, chunks: seq<string>)
    requires Inv(p)
    ensures Inv(Feed(p, chunks).1)
    decreases |chunks|
  {
    if chunks == [] {
    } else {
      hide ProcessRead, Inv;
      ReceiveKeeps(p, chunks[0]);
      InvWf(p);
      InvWf(Receive(p, chunks[0]));
      ProcessReadKeeps(Receive(p, chunks[0]));
      var (c, q) := ProcessRead(Receive(p, chunks[0]));
      if c.NO_REQUEST? {
        FeedKeeps(q, chunks[1..]);
      }
    }
  }
}
