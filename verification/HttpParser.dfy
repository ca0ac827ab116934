// TinyWebServer's request parser: parse_line, parse_request_line,
// parse_headers, parse_content and process_read as functions of the bytes
// received so far.
module HttpParser {
  import opened Common
  import opened HttpCodes
  import opened CStrings

  const CR: char := '\r'
  const LF: char := '\n'

  datatype CheckState = RequestLine | Header | Content
  datatype LineStatus = LineOk | LineBad | LineOpen
  datatype Verb = GET | POST

  // buf is m_read_buf up to m_read_idx; the pointers into it are offsets.
  datatype Parser = Parser(
    buf: string,
    checked: nat,
    start: nat,
    state: CheckState,
    verb: Verb,
    cgi: bool,
    url: Option<nat>,
    version: Option<nat>,
    host: Option<nat>,
    contentLength: int,
    linger: bool,
    content: Option<nat>)   // m_string

  const INIT := Parser("", 0, 0, RequestLine, GET, false, None, None, None, 0, false, None)

  // ---------- parse_line ----------

  datatype Line = Line(status: LineStatus, buf: string, checked: nat)

  function ParseLine(buf: string, i: nat): (r: Line)
    ensures |r.buf| == |buf| && (i <= |buf| ==> i <= r.checked <= |buf|)
    ensures r.status.LineOk? ==> i < r.checked <= |buf| && 2 <= r.checked
    ensures r.buf == if r.status.LineOk? then buf[r.checked - 2 := NUL][r.checked - 1 := NUL] else buf
    decreases |buf| - i
  {
    if i >= |buf| then Line(LineOpen, buf, i)
    else if buf[i] == CR then
      if i + 1 == |buf| then Line(LineOpen, buf, i)
      else if buf[i + 1] == LF then Line(LineOk, buf[i := NUL][i + 1 := NUL], i + 2)
      else Line(LineBad, buf, i)
    else if buf[i] == LF then
      if i > 1 && buf[i - 1] == CR then Line(LineOk, buf[i - 1 := NUL][i := NUL], i + 1)
      else Line(LineBad, buf, i)
    else ParseLine(buf, i + 1)
  }

  // ---------- parse_request_line ----------

  // Offsets are relative to the line, which keeps its length.
  datatype Request = Request(code: HttpCode, line: string, verb: Verb, cgi: bool, url: Option<nat>,
          version: Option<nat>)

  const JUDGE := "judge.html"
  const VERSION := "HTTP/1.1"

  // strcat(m_url, "judge.html")
  function AppendJudge(line: string, url: nat): (r: string)
    requires url + 2 + |JUDGE| <= |line|
    ensures |r| == |line|
  {
    line[..url + 1] + JUDGE + [NUL] + line[url + 2 + |JUDGE|..]
  }

  function ParseRequestLine(line: string, verb: Verb, cgi: bool): (r: Request)
    ensures |r.line| == |line|
    ensures r.url.Some? ==> r.url.value <= |line|
    ensures r.version.Some? ==> r.version.value <= |line|
  {
    match Break(line, 0)
    case None => Request(BAD_REQUEST, line, verb, cgi, None, None)
    case Some(b) => ParseVerb(line[b := NUL], b, verb, cgi)
  }

  // The method name ends at b.
  function ParseVerb(l1: string, b: nat, verb: Verb, cgi: bool): (r: Request)
    requires b < |l1|
    ensures |r.line| == |l1|
    ensures r.url.Some? ==> r.url.value <= |l1|
    ensures r.version.Some? ==> r.version.value <= |l1|
  {
    var name := CStr(l1, 0);
    if SameIgnoringCase(name, "GET") then ParseTarget(l1, Span(l1, b + 1), GET, cgi)
    else if SameIgnoringCase(name, "POST") then ParseTarget(l1, Span(l1, b + 1), POST, true)
    else Request(BAD_REQUEST, l1, verb, cgi, Some(b + 1), None)
  }

  // From the request target on.
  function ParseTarget(l1: string, url: nat, verb: Verb, cgi: bool): (r: Request)
    requires url <= |l1|
    ensures r.verb == verb && r.cgi == cgi
    ensures |r.line| == |l1|
    ensures r.url.Some? ==> r.url.value <= |l1|
    ensures r.version.Some? ==> r.version.value <= |l1|
  {
    match Break(l1, url)
    case None => Request(BAD_REQUEST, l1, verb, cgi, Some(url), None)
    case Some(b) => ParseVersion(l1[b := NUL], url, b, verb, cgi)
  }

  // The target ends at b.
  function ParseVersion(l2: string, url: nat, b: nat, verb: Verb, cgi: bool): (r: Request)
    requires url <= b < |l2|
    ensures r.verb == verb && r.cgi == cgi
    ensures |r.line| == |l2|
    ensures r.url.Some? ==> r.url.value <= |l2|
    ensures r.version.Some? && r.version.value <= |l2|
  {
    var version := Span(l2, b + 1);
    if !SameIgnoringCase(CStr(l2, version), VERSION) then Request(BAD_REQUEST, l2, verb, cgi, Some(url), Some(version))
    else ParsePath(l2, SkipScheme(l2, url, "http://"), version, verb, cgi)
  }

  function SkipScheme(line: string, url: nat, scheme: string): (r: Option<nat>)
    requires url <= |line|
    ensures r.Some? ==> url <= r.value <= |line|
  {
    if StartsIgnoringCase(line, url, scheme) then Find(line, url + |scheme|, '/') else Some(url)
  }

  // http:// is off; without a path after it the source goes on with a null pointer.
  function ParsePath(l2: string, url: Option<nat>, version: nat, verb: Verb, cgi: bool): (r: Request)
    requires url.Some? ==> url.value <= |l2|
    requires version <= |l2|
    ensures r.verb == verb && r.cgi == cgi
    ensures |r.line| == |l2|
    ensures r.url.Some? ==> r.url.value <= |l2|
    ensures r.version == Some(version)
  {
    if url.None? then Request(UNDEFINED, l2, verb, cgi, None, Some(version)) else
    var path := SkipScheme(l2, url.value, "https://");
    if path.None? || path.value >= |l2| || l2[path.value] != '/' then
      Request(BAD_REQUEST, l2, verb, cgi, path, Some(version))
    else if CLen(l2, path.value) != 1 then
      Request(NO_REQUEST, l2, verb, cgi, path, Some(version))
    else if path.value + 2 + |JUDGE| > |l2| then
      Request(UNDEFINED, l2, verb, cgi, path, Some(version))
    else
      Request(NO_REQUEST, AppendJudge(l2, path.value), verb, cgi, path, Some(version))
  }

  // ---------- the three states ----------

  function Offset(base: nat, o: Option<nat>): Option<nat> {
    if o.None? then None else Some(base + o.value)
  }

  // The request line is buf[text..checked].
  function DoRequestLine(p: Parser, text: nat): (r: (HttpCode, Parser))
    requires text <= p.checked <= |p.buf|
    ensures |r.1.buf| == |p.buf| && r.1.checked == p.checked && r.1.start == p.start && !r.1.state.Content?
  {
    var q := ParseRequestLine(p.buf[text..p.checked], p.verb, p.cgi);
    (q.code,
     p.(buf := p.buf[..text] + q.line + p.buf[p.checked..], verb := q.verb, cgi := q.cgi,
        url := Offset(text, q.url), version := if q.version.None? then p.version else Offset(text, q.version),
        state := if q.code.NO_REQUEST? then Header else RequestLine))
  }

  function DoHeader(p: Parser, text: nat): (r: (HttpCode, Parser))
    requires text < p.checked <= |p.buf|
    ensures r.1.buf == p.buf && r.1.checked == p.checked && r.1.start == p.start
  {
    var line := p.buf[text..p.checked];
    if line[0] == NUL then
      if p.contentLength != 0 then (NO_REQUEST, p.(state := Content)) else (GET_REQUEST, p)
    else if StartsIgnoringCase(line, 0, "Connection:") then
      (NO_REQUEST, if SameIgnoringCase(CStr(line, Span(line, 11)), "keep-alive") then p.(linger := true) else p)
    else if StartsIgnoringCase(line, 0, "content-length:") then
      (NO_REQUEST, p.(contentLength := Atol(CStr(line, Span(line, 15)))))
    else if StartsIgnoringCase(line, 0, "host:") then
      (NO_REQUEST, p.(host := Some(text + Span(line, 5))))
    else (NO_REQUEST, p)
  }

  // parse_content; the NUL after the body is written at text + m_content_length.
  function DoContent(p: Parser, text: nat): (r: (HttpCode, Parser))
    requires text <= p.checked <= |p.buf|
    ensures |r.1.buf| == |p.buf| && r.1.checked == p.checked && r.1.start == p.start && r.1.state == p.state
  {
    if |p.buf| < p.contentLength + p.checked then (NO_REQUEST, p)
    else
      var end := text + p.contentLength;
      if p.contentLength < 0 || end >= READ_BUFFER_SIZE then (UNDEFINED, p)
      else (GET_REQUEST, p.(buf := if end < |p.buf| then p.buf[end := NUL] else p.buf, content := Some(text)))
  }

  // ---------- process_read ----------

  // One LINE_OK line before the body.
  function DoLine(p: Parser): (r: (HttpCode, Parser))
    requires p.start < p.checked <= |p.buf| && !p.state.Content?
    ensures |r.1.buf| == |p.buf| && r.1.checked == p.checked && r.1.start == p.checked && r.1.content == p.content
  {
    var p1 := p.(start := p.checked);
    if p.state.RequestLine? then DoRequestLine(p1, p.start) else DoHeader(p1, p.start)
  }

  function Scanned(p: Parser): Parser {
    var r := ParseLine(p.buf, p.checked);
    p.(buf := r.buf, checked := r.checked)
  }

  ghost predicate Wf(p: Parser) {
    p.start <= p.checked <= |p.buf|
  }

  // The loop up to the blank line: it stops at an unfinished or bad line, at a
  // result, or when the state becomes Content.
  function Lines(p: Parser): (r: (HttpCode, Parser))
    requires Wf(p) && !p.state.Content?
    ensures Wf(r.1) && |r.1.buf| == |p.buf| && p.checked <= r.1.checked && r.1.content == p.content
    decreases |p.buf| - p.checked
  {
    if !ParseLine(p.buf, p.checked).status.LineOk? then (NO_REQUEST, Scanned(p))
    else
      var (c, q) := DoLine(Scanned(p));
      if !c.NO_REQUEST? || q.state.Content? then (c, q) else Lines(q)
  }

  // The loop in the Content state: with LINE_OK it tries parse_content, after a
  // short body it falls through to parse_line on the body's bytes.
  function Body(p: Parser, status: LineStatus): (r: (HttpCode, Parser))
    requires Wf(p) && p.state.Content?
    ensures Wf(r.1) && |r.1.buf| == |p.buf|
    decreases |p.buf| - p.checked, if status.LineOk? then 1 else 0
  {
    if status.LineOk? then
      var (c, q) := DoContent(p.(start := p.checked), p.start);
      if !c.NO_REQUEST? then (c, q) else Body(q, LineOpen)
    else if !ParseLine(p.buf, p.checked).status.LineOk? then (NO_REQUEST, Scanned(p))
    else Body(Scanned(p), LineOk)
  }

  // GET_REQUEST stands for the call of do_request.
  function ProcessRead(p: Parser): (r: (HttpCode, Parser))
    requires Wf(p)
    ensures Wf(r.1) && |r.1.buf| == |p.buf|
  {
    if p.state.Content? then Body(p, LineOk)
    else
      var (c, q) := Lines(p);
      if c.NO_REQUEST? && q.state.Content? then Body(q, LineOk) else (c, q)
  }

  // read_once brought more bytes.
  function Receive(p: Parser, more: string): (r: Parser)
    ensures Wf(p) ==> Wf(r)
  {
    p.(buf := p.buf + more)
  }

  // process after every read, until the first result.
  function Feed(p: Parser, chunks: seq<string>): (HttpCode, Parser)
    requires Wf(p)
    decreases |chunks|
  {
    if chunks == [] then (NO_REQUEST, p)
    else
      var (c, q) := ProcessRead(Receive(p, chunks[0]));
      if !c.NO_REQUEST? then (c, q) else Feed(q, chunks[1..])
  }

  function Concat(chunks: seq<string>): string {
    if chunks == [] then "" else chunks[0] + Concat(chunks[1..])
  }
}
