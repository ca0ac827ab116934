// Whole requests as a client writes them, read back by the parser.
module HttpRequests {
  import opened Common
  import opened HttpCodes
  import opened CStrings
  import opened HttpParser
  import opened HttpScan
  import opened HttpChunks
  import opened HttpFirstLine
  import opened HttpRequestLine
  import opened HttpFields

  datatype Request = Request(verb: Verb, path: string, fields: seq<Field>, body: string)

  function Rendered(r: Request): string {
    FirstLine(r.verb, r.path) + CRLF + FieldLines(r.fields) + CRLF + r.body
  }

  // A plain path and plain fields, the last length field counting the body.
  ghost predicate Proper(r: Request) {
    && PlainPath(r.path) && (forall f :: f in r.fields ==> PlainField(f))
    && SeeAll(NOTHING, r.fields).length == |r.body|
  }

  // Length of a rendered request without its body.
  function HeadSize(r: Request): nat {
    |Rendered(r)| - |r.body|
  }

  // What the parser has noted of a request.
  ghost predicate Noticed(q: Parser, r: Request) {
    && q.verb == r.verb && q.cgi == (r.verb == POST) && Text(q.buf, q.url) == Some(Served(r.path))
    && SeenBy(q, SeeAll(NOTHING, r.fields))
  }

  ghost predicate HeadRead(c: HttpCode, q: Parser, r: Request) {
    && Inv(q) && q.start == q.checked == HeadSize(r) && q.buf[q.checked..] == r.body && q.content.None?
    && Noticed(q, r)
    && (if r.body == "" then c.GET_REQUEST? else c.NO_REQUEST? && q.state.Content?)
  }

  // The lines behind the first one.
  lemma RestOf(q1: Parser, fields: seq<Field>, body: string)
    requires Inv(q1) && q1.start == q1.checked && q1.state.Header? && SeenBy(q1, NOTHING)
    requires q1.buf[q1.checked..] == FieldLines(fields) + (CRLF + body)
    requires (forall f :: f in fields ==> PlainField(f)) && SeeAll(NOTHING, fields).length == |body|
    ensures var (c, q) := Lines(q1);
      && Behind(q1, q, |FieldLines(fields)| + 2) && q.buf[q.checked..] == body && SeenBy(q, SeeAll(NOTHING, fields))
      && (if body == "" then c.GET_REQUEST? else c.NO_REQUEST? && q.state.Content?)
  {
    hide ParseLine, DoLine, Lines, Inv, Text, PlainField, SeeAll;
    var q2 := FieldsTaken(q1, fields, CRLF + body, NOTHING);
    InvWf(q2);
    BlankTaken(q2, body);
    OneLine(q2);
    Onto(q1, q2, DoLine(Scanned(q2)).1, |FieldLines(fields)|, 2);
  }

  // The parser behind the first line.
  function Started(verb: Verb, path: string, rest: string): (HttpCode, Parser)
    requires ParseLine(FirstLine(verb, path) + CRLF + rest, 0).status.LineOk?
  {
    DoLine(Scanned(Receive(INIT, FirstLine(verb, path) + CRLF + rest)))
  }

  lemma FirstParsed(verb: Verb, path: string, rest: string)
    requires PlainPath(path)
    ensures ParseLine(FirstLine(verb, path) + CRLF + rest, 0).status.LineOk?
    ensures var (c, q) := Started(verb, path, rest);
      && Inv(q) && q.start == q.checked == |FirstLine(verb, path)| + 2 && q.buf[q.checked..] == rest
      && c.NO_REQUEST? && q.state.Header? && q.verb == verb && q.cgi == (verb == POST) && q.content.None?
      && SeenBy(q, NOTHING) && Text(q.buf, q.url) == Some(Served(path))
      && Lines(Receive(INIT, FirstLine(verb, path) + CRLF + rest)) == Lines(q)
  {
    hide ParseLine, DoLine, Lines, Inv, FirstLine, Served, PlainPath;
    var w := FirstLine(verb, path) + CRLF + rest;
    var p := Receive(INIT, w);
    assert p.buf == w;
    FirstTaken(verb, path, rest);
    FirstStep(p, verb, path);
    OneLine(p);
  }

  lemma HeadOf(r: Request)
    requires Proper(r)
    ensures var (c, q) := Lines(Receive(INIT, Rendered(r))); HeadRead(c, q, r)
  {
    hide ParseLine, Started, Lines, Inv, FirstLine, FieldLines, Served, Text, PlainPath, PlainField, SeeAll, SeenBy;
    var rest := FieldLines(r.fields) + (CRLF + r.body);
    var w := FirstLine(r.verb, r.path) + CRLF + rest;
    assert Rendered(r) == w;
    FirstParsed(r.verb, r.path, rest);
    RestOf(Started(r.verb, r.path, rest).1, r.fields, r.body);
  }

  // What a client renders is what the parser reads: verb, path, fields and body,
  // the body up to its first NUL as the C string it becomes.
  lemma RequestRoundTrip(r: Request)
    requires Proper(r) && |Rendered(r)| < READ_BUFFER_SIZE
    ensures var (c, q) := ProcessRead(Receive(INIT, Rendered(r)));
      && c.GET_REQUEST? && Noticed(q, r)
      && Text(q.buf, q.content) == if r.body == "" then None else Some(CStr(r.body, 0))
  {
    hide Lines, Inv, Rendered, Served, PlainPath, PlainField, CStr, SeeAll;
    HeadOf(r);
    var q := Lines(Receive(INIT, Rendered(r))).1;
    if r.body != "" {
      InvWf(q);
      BodyRead(q, r.body);
    }
  }

  lemma BodyRead(p: Parser, body: string)
    requires Inv(p) && p.start == p.checked && p.state.Content? && p.contentLength == |body| > 0
    requires p.buf[p.checked..] == body && |p.buf| < READ_BUFFER_SIZE
    ensures var (c, q) := Body(p, LineOk);
      && c.GET_REQUEST? && q.verb == p.verb && q.cgi == p.cgi && q.contentLength == p.contentLength
      && q.linger == p.linger
      && Text(q.buf, q.url) == Text(p.buf, p.url) && Text(q.buf, q.host) == Text(p.buf, p.host)
      && Text(q.buf, q.content) == Some(CStr(body, 0))
  {
    hide CStr;
    CStrShift(p.buf, p.checked);
  }

  lemma CStrShift(s: string, p: nat)
    requires p <= |s|
    ensures CStr(s[p..], 0) == CStr(s, p)
  {
    CLenShift(s, p, p);
  }

  lemma {:induction false} CLenShift(s: string, p: nat, k: nat)
    requires p <= k <= |s|
    ensures CLen(s[p..], k - p) == CLen(s, k)
    decreases |s| - k
  {
    if k == |s| || s[k] == NUL {
    } else {
      CLenShift(s, p, k + 1);
    }
  }

  // Every way to read a rendered request: it is answered exactly when no read
  // ends inside the body where parse_line moves on.
  lemma RenderedInPieces(r: Request, chunks: seq<string>)
    requires Proper(r) && r.body != "" && |Rendered(r)| < READ_BUFFER_SIZE
    requires chunks != [] && Concat(chunks) == Rendered(r)
    ensures Feed(INIT, chunks).0 == GET_REQUEST <==> Unsplit("", chunks, HeadSize(r), |r.body|)
    ensures Feed(INIT, chunks).0 == GET_REQUEST || Feed(INIT, chunks).0 == NO_REQUEST
  {
    hide Lines, Feed, Unsplit, Inv, Rendered, Served, PlainPath, PlainField, SeeAll, Text;
    HeadOf(r);
    SplitBodyExactly(chunks);
  }

  // A second read after the first byte of an ordinary body: the request is whole
  // and the server never sees it.
  lemma SecondReadLosesRequest(r: Request)
    requires Proper(r) && |Rendered(r)| < READ_BUFFER_SIZE && 2 <= |r.body| && !Breaks(r.body[0])
    ensures var w, n := Rendered(r), HeadSize(r) + 1;
      && Feed(INIT, [w]).0 == GET_REQUEST
      && Feed(INIT, [w[..n], w[n..]]).0 == NO_REQUEST
  {
    hide Feed, Proper, FirstLine, FieldLines;
    var w, n := Rendered(r), HeadSize(r) + 1;
    var pieces := [w[..n], w[n..]];
    assert Concat([w]) == w + Concat([]) == w;
    assert Concat(pieces[1..]) == w[n..] + Concat([]) == w[n..];
    assert Concat(pieces) == w[..n] + w[n..] == w;
    RenderedInPieces(r, [w]);
    RenderedInPieces(r, pieces);
    assert ("" + pieces[0])[n - 1..] == [r.body[0]];
  }
}
