// The first line of a request as a client writes it, read back by the parser.
module HttpFirstLine {
  import opened Common
  import opened HttpCodes
  import opened CStrings
  import opened HttpParser
  import opened HttpScan
  import opened HttpChunks
  import opened HttpRequestLine

  const CRLF := [CR, LF]
  const NULS := [NUL, NUL]

  function Name(verb: Verb): string {
    if verb == GET then "GET" else "POST"
  }

  function FirstLine(verb: Verb, path: string): string {
    Name(verb) + " " + path + " " + VERSION
  }

  // A path in origin form without blanks or control characters.
  predicate PlainPath(path: string) {
    path != "" && path[0] == '/' && forall c :: c in path ==> !Blank(c) && !Breaks(c) && c != NUL
  }

  // ---------- one line ----------

  // Where the next CR LF stands when the unread bytes begin with a line.
  lemma LineAhead(buf: string, i: nat, text: string)
    requires i <= |buf| && text + CRLF <= buf[i..] && forall c :: c in text ==> !Breaks(c)
    ensures var k := i + |text|; Unbroken(buf, i, k) && CrLfAt(buf, k) && buf[i..k] == text
  {
    var k := i + |text|;
    var ahead := text + CRLF;
    assert forall j :: 0 <= j < |text| + 2 ==> buf[i + j] == buf[i..][j] == ahead[j];
    assert ahead[|text|] == CR && ahead[|text| + 1] == LF;
    forall j | i <= j < k
      ensures buf[j] == text[j - i]
    {
      assert buf[i + (j - i)] == ahead[j - i];
    }
    assert buf[i + |text|] == CR && buf[i + (|text| + 1)] == LF;
  }

  lemma LineFound(buf: string, start: nat, i: nat, k: nat)
    requires Scanning(buf, start, i) && i <= k && Unbroken(buf, i, k) && CrLfAt(buf, k)
    ensures ParseLine(buf, i) == Line(LineOk, buf[k := NUL][k + 1 := NUL], k + 2)
  {
    hide ParseLine;
    AcceptedExactly(buf, start, i);
    FirstBreakDecides(buf, start, i);
    var r := ParseLine(buf, i);
    assert Unbroken(buf, start, k) && Breaks(buf[k]) && Breaks(buf[r.checked - 2]);
    LineWritten(buf, i);
  }

  lemma LineWritten(buf: string, i: nat)
    requires ParseLine(buf, i).status.LineOk?
    ensures var r := ParseLine(buf, i); r.buf == buf[r.checked - 2 := NUL][r.checked - 1 := NUL]
  {
  }

  lemma LineTaken(p: Parser, text: string)
    requires Inv(p) && p.start == p.checked
    requires text + CRLF <= p.buf[p.checked..] && forall c :: c in text ==> !Breaks(c)
    ensures var s := Scanned(p);
      && ParseLine(p.buf, p.checked).status.LineOk? && s.checked == p.checked + |text| + 2
      && s.buf[p.checked..s.checked] == text + NULS
      && s.buf[..p.checked] == p.buf[..p.checked] && s.buf[s.checked..] == p.buf[s.checked..]
  {
    hide ParseLine, FieldsEnd, Breaks;
    var k := p.checked + |text|;
    LineAhead(p.buf, p.checked, text);
    LineFound(p.buf, p.start, p.checked, k);
    var s := Scanned(p);
    assert s.buf[p.checked..k] == p.buf[p.checked..k];
    assert s.buf[p.checked..s.checked] == s.buf[p.checked..k] + NULS;
  }

  // ---------- the first line ----------

  lemma CStrExactly(s: string, p: nat, text: string)
    requires p + |text| < |s| && s[p..p + |text|] == text && s[p + |text|] == NUL && NUL !in text
    ensures CStr(s, p) == text
  {
    forall k | p <= k < p + |text|
      ensures s[k] != NUL
    {
      assert s[k] == text[k - p];
    }
    CLenExactly(s, p, |text|);
  }

  lemma Placed(a: string, b: string, c: string)
    ensures (a + b + c)[|a|..|a| + |b|] == b
  {
  }

  lemma FirstLineParsed(verb: Verb, path: string)
    requires PlainPath(path)
    ensures var r := ParseRequestLine(FirstLine(verb, path) + NULS, GET, false);
      && r.code == NO_REQUEST && r.verb == verb && r.cgi == (verb == POST)
      && r.url.Some? && CStr(r.line, r.url.value) == Served(path)
  {
    hide ParseRequestLine, CStr, PlainPath, Served, IsRequestLine;
    var text := FirstLine(verb, path);
    var line := text + NULS;
    var w, t := Words(Name(verb), " ", path, " ", VERSION), Target("", "", path);
    assert line[0..|text|] == text;
    FirstLineCStr(verb, path);
    FirstLineFits(verb, path);
    RequestLineMeans(line, w, t, GET, false);
    assert Lower(Name(verb)[0]) == if verb == GET then 'g' else 'p';
  }

  lemma FirstLineCStr(verb: Verb, path: string)
    requires PlainPath(path)
    ensures CStr(FirstLine(verb, path) + NULS, 0) == FirstLine(verb, path)
  {
    var text := FirstLine(verb, path);
    assert NUL !in Name(verb) && NUL !in VERSION && NUL !in " ";
    assert (text + NULS)[0..|text|] == text && (text + NULS)[|text|] == NUL;
    CStrExactly(text + NULS, 0, text);
  }

  // What a client writes follows the grammar.
  lemma FirstLineFits(verb: Verb, path: string)
    requires PlainPath(path)
    ensures IsRequestLine(FirstLine(verb, path), Words(Name(verb), " ", path, " ", VERSION), Target("", "", path))
  {
    assert FirstLine(verb, path) == Name(verb) + " " + (path + " " + VERSION);
    assert "" + "" + path == path;
  }

  // The pointers of the parser after a request line that follows the grammar.
  lemma RequestLineTaken(p: Parser, text: nat, w: Words, t: Target)
    requires text <= p.checked <= |p.buf| && Ended(p.buf[text..p.checked])
    requires IsRequestLine(CStr(p.buf[text..p.checked], 0), w, t)
    ensures var (c, q) := DoRequestLine(p, text);
      && c.NO_REQUEST? && q.state.Header? && q.verb == VerbOf(w.name) && q.cgi == (p.cgi || q.verb == POST)
      && Text(q.buf, q.url) == Some(Served(t.path))
      && (t.path != "/" ==> Text(q.buf, q.version) == Some(w.version))
  {
    hide ParseRequestLine, CStr, Served, IsRequestLine, EditedLine, VerbOf, Text;
    var line := p.buf[text..p.checked];
    RequestLineMeans(line, w, t, p.verb, p.cgi);
    RequestLineFits(line, p.verb, p.cgi);
    LineEnds(line, ParseRequestLine(line, p.verb, p.cgi));
    LinePointers(p, text);
  }

  lemma LinePointers(p: Parser, text: nat)
    requires text <= p.checked <= |p.buf| && p.checked - text > 0
    requires var r := ParseRequestLine(p.buf[text..p.checked], p.verb, p.cgi);
      && r.line[|r.line| - 1] == NUL
      && r.url.Some? && r.url.value < |r.line| && r.version.Some? && r.version.value < |r.line|
    ensures var r, q := ParseRequestLine(p.buf[text..p.checked], p.verb, p.cgi), DoRequestLine(p, text).1;
      && Text(q.buf, q.url) == Some(CStr(r.line, r.url.value))
      && Text(q.buf, q.version) == Some(CStr(r.line, r.version.value))
  {
    hide ParseRequestLine, CStr, Text;
    var r, q := ParseRequestLine(p.buf[text..p.checked], p.verb, p.cgi), DoRequestLine(p, text).1;
    assert q.buf == p.buf[..text] + r.line + p.buf[p.checked..];
    Placed(p.buf[..text], r.line, p.buf[p.checked..]);
    InLine(q.buf, text, r.line, r.url.value);
    InLine(q.buf, text, r.line, r.version.value);
  }

  lemma LineEnds(line: string, r: Request)
    requires EditedLine(line, r) && r.url.Some? && r.version.Some?
    ensures |r.line| == |line| > 0 && r.line[|line| - 1] == NUL && r.url.value < |line| && r.version.value < |line|
  {
  }

  // A string inside a line that ends in a NUL is the same in the buffer.
  lemma StandsInside(buf: string, at: nat, line: string, p: nat, t: string)
    requires at + |line| <= |buf| && buf[at..at + |line|] == line && Stands(line, p, t)
    ensures Stands(buf, at + p, t)
  {
    Window(buf, at, at + |line|, p, p + |t|);
    assert buf[at + p + |t|] == buf[at..at + |line|][p + |t|];
  }

  lemma InLine(buf: string, at: nat, line: string, p: nat)
    requires p < |line| && line[|line| - 1] == NUL && at + |line| <= |buf| && buf[at..at + |line|] == line
    ensures Text(buf, Some(at + p)) == Some(CStr(line, p))
  {
    hide Stands, CStr;
    CLenBefore(line, p, |line| - 1);
    Stood(line, p);
    StandsInside(buf, at, line, p, CStr(line, p));
    StandsExactly(buf, at + p, CStr(line, p));
  }

  // A line that is refused leaves the parser where it was.
  lemma RequestLineRefused(p: Parser, text: nat)
    requires text <= p.checked <= |p.buf| && Ended(p.buf[text..p.checked])
    requires !exists w, t :: IsRequestLine(CStr(p.buf[text..p.checked], 0), w, t)
    ensures var (c, q) := DoRequestLine(p, text); (c.BAD_REQUEST? || c.UNDEFINED?) && q.state.RequestLine?
  {
    hide ParseRequestLine, CStr, IsRequestLine, IsPathless;
    RequestLineExactly(p.buf[text..p.checked], p.verb, p.cgi);
  }

  lemma FirstTaken(verb: Verb, path: string, rest: string)
    requires PlainPath(path)
    ensures var p := Receive(INIT, FirstLine(verb, path) + CRLF + rest);
      ParseLine(p.buf, p.checked).status.LineOk?
    ensures var p := Receive(INIT, FirstLine(verb, path) + CRLF + rest);
      var s := Scanned(p); var (c, q) := DoLine(s);
      && Inv(q) && q.start == q.checked == |FirstLine(verb, path)| + 2
      && q.buf[q.checked..] == rest
      && (c, q) == DoRequestLine(s.(start := s.checked), 0)
      && s.buf[..s.checked] == FirstLine(verb, path) + NULS
  {
    hide ParseLine, DoRequestLine, Inv, FirstLine;
    var text := FirstLine(verb, path);
    var p := Receive(INIT, text + CRLF + rest);
    InitInv();
    ReceiveKeeps(INIT, text + CRLF + rest);
    FirstLinePlain(verb, path);
    assert p.buf == text + CRLF + rest;
    assert p.buf[0..] == p.buf;
    LineTaken(p, text);
    LineKeeps(p);
    assert p.buf[|text| + 2..] == rest;
  }

  lemma FirstRead(s: Parser, verb: Verb, path: string)
    requires PlainPath(path) && s.checked <= |s.buf| && s.buf[..s.checked] == FirstLine(verb, path) + NULS
    requires s.verb == GET && !s.cgi
    ensures var (c, q) := DoRequestLine(s, 0);
      && c.NO_REQUEST? && q.state.Header? && q.verb == verb && q.cgi == (verb == POST)
      && q.contentLength == s.contentLength && q.content == s.content && q.host == s.host && q.linger == s.linger
      && Text(q.buf, q.url) == Some(Served(path))
  {
    hide ParseRequestLine, Served, CStr, Text, IsRequestLine;
    assert s.buf[0..s.checked] == s.buf[..s.checked];
    FirstLineCStr(verb, path);
    FirstLineFits(verb, path);
    assert Lower(Name(verb)[0]) == if verb == GET then 'g' else 'p';
    RequestLineTaken(s, 0, Words(Name(verb), " ", path, " ", VERSION), Target("", "", path));
  }

  lemma FirstLinePlain(verb: Verb, path: string)
    requires PlainPath(path)
    ensures forall c :: c in FirstLine(verb, path) ==> !Breaks(c)
  {
    assert forall c :: c in VERSION ==> !Breaks(c);
    assert forall c :: c in Name(verb) ==> !Breaks(c);
  }

  lemma FirstStep(p: Parser, verb: Verb, path: string)
    requires PlainPath(path) && Wf(p) && p.state.RequestLine? && p.start == 0
    requires ParseLine(p.buf, p.checked).status.LineOk? && p.verb == GET && !p.cgi && p.contentLength == 0 &&
      p.content.None?
    requires p.host.None? && !p.linger
    requires var s := Scanned(p); s.buf[..s.checked] == FirstLine(verb, path) + NULS
    ensures var (c, q) := DoLine(Scanned(p));
      && c.NO_REQUEST? && q.state.Header? && q.verb == verb && q.cgi == (verb == POST)
      && q.contentLength == 0 && q.content.None? && q.host.None? && !q.linger
      && Text(q.buf, q.url) == Some(Served(path))
  {
    hide ParseLine, DoRequestLine, FirstLine, Served, Text, PlainPath;
    var s := Scanned(p);
    FirstRead(s.(start := s.checked), verb, path);
  }
}
