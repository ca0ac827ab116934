// The second HTTP parser (http_server): it collects chunks, cuts the header
// block off, splits it into fields and waits for Content-Length bytes of body.
module HttpServer {
  import opened Common
  import opened HttpCodes
  import CStrings
  import Response

  const CRLF: string := ['\r', '\n']
  const BLANK: string := ['\r', '\n', '\r', '\n']
  const SIZE_LIMIT: nat := 0x1_0000_0000_0000_0000

  // ---------- std::string ----------

  predicate At(s: string, t: string, k: nat) {
    k + |t| <= |s| && s[k..k + |t|] == t
  }

  // s.find(t, from)
  function Find(s: string, t: string, from: nat): (r: Option<nat>)
    ensures r.Some? ==> from <= r.value && At(s, t, r.value)
    ensures forall k: nat :: from <= k && (r.Some? ==> k < r.value) ==> !At(s, t, k)
    decreases |s| - from
  {
    if |s| < from + |t| then None
    else if At(s, t, from) then Some(from)
    else if |s| <= from then None
    else Find(s, t, from + 1)
  }

  function Lowered(s: string): string {
    seq(|s|, i requires 0 <= i < |s| => CStrings.Lower(s[i]))
  }

  function DigitPrefix(s: string): string {
    if s != "" && CStrings.IsDigit(s[0]) then [s[0]] + DigitPrefix(s[1..]) else ""
  }

  // std::from_chars into a size_t; None when it leaves the value unset.
  function FromChars(s: string): Option<nat> {
    match Response.ParseDecimal(DigitPrefix(s))
    case None => None
    case Some(n) => if n < SIZE_LIMIT then Some(n) else None
  }

  // ---------- fields ----------

  type Keys = map<string, string>

  // The lines between CRLFs.
  function Split(s: string): (r: seq<string>)
    ensures r != []
    decreases |s|
  {
    match Find(s, CRLF, 0)
    case None => [s]
    case Some(p) => [s[..p]] + Split(s[p + 2..])
  }

  // A line with a colon and a blank is a field; a name already known keeps its
  // first value.
  function Insert(keys: Keys, line: string): Keys {
    match Find(line, ": ", 0)
    case None => keys
    case Some(c) =>
      var key := Lowered(line[..c]);
      if key in keys then keys else keys[key := line[c + 2..]]
  }

  function InsertAll(keys: Keys, lines: seq<string>): Keys
    decreases |lines|
  {
    if lines == [] then keys else InsertAll(Insert(keys, lines[0]), lines[1..])
  }

  // ---------- the two parsers ----------

  datatype Head = Head(header: string, headingLine: string, body: string, keys: Keys, finished: bool)

  const NO_HEAD := Head("", "", "", map[], false)

  function HeadingLine(header: string): string {
    match Find(header, CRLF, 0)
    case None => header
    case Some(p) => header[..p]
  }

  // http11_header_parser::push_chunk; an unfinished header takes the chunk twice.
  function PushHead(h: Head, chunk: string): Head {
    if h.finished then h else
    var header := h.header + chunk;
    match Find(header, BLANK, 0)
    case None => h.(header := header + chunk)
    case Some(p) =>
      Head(header[..p], HeadingLine(header[..p]), h.body + header[p + 4..],
           InsertAll(h.keys, Split(header[..p])[1..]), true)
  }

  datatype Parser = Parser(head: Head, contentLength: nat, bodyFinished: bool)

  const INIT := Parser(NO_HEAD, 0, false)

  // None when from_chars fails: the source goes on with an unset number.
  function ContentLength(keys: Keys): Option<nat> {
    if "content-length" in keys then FromChars(keys["content-length"]) else Some(0)
  }

  // After the header is finished: is the body complete?
  function TakeBody(p: Parser, head: Head): Option<Parser> {
    match ContentLength(head.keys)
    case None => None
    case Some(n) =>
      if |head.body| >= n then Some(Parser(head.(body := head.body[..n]), n, true))
      else Some(Parser(head, n, p.bodyFinished))
  }

  // http_request_parser::push_chunk
  function Push(p: Parser, chunk: string): Option<Parser> {
    if !p.head.finished then
      var head := PushHead(p.head, chunk);
      if !head.finished then Some(p.(head := head, contentLength := 0)) else TakeBody(p, head)
    else TakeBody(p, p.head.(body := p.head.body + chunk))
  }

  // One after the other.
  function PushAll(p: Parser, chunks: seq<string>): Option<Parser>
    decreases |chunks|
  {
    if chunks == [] then Some(p) else
    match PushAll(p, chunks[..|chunks| - 1])
    case None => None
    case Some(q) => Push(q, chunks[|chunks| - 1])
  }

  function Received(chunks: seq<string>): string
    decreases |chunks|
  {
    if chunks == [] then "" else Received(chunks[..|chunks| - 1]) + chunks[|chunks| - 1]
  }

  // ---------- as it runs ----------

  class HeaderParser {
    var header: string
    var headingLine: string
    var body: string
    var headerKeys: Keys
    var headerFinished: bool

    constructor ()
      ensures View() == NO_HEAD
    {
      header, headingLine, body, headerKeys, headerFinished := "", "", "", map[], false;
    }

    function View(): Head
      reads this
    {
      Head(header, headingLine, body, headerKeys, headerFinished)
    }

    method ExtractHeaders()
      modifies this`headerKeys
      ensures headerKeys == InsertAll(old(headerKeys), Split(header)[1..])
    {
      hide Find, Split, Insert, InsertAll, FieldsFrom;
      ghost var was := headerKeys;
      AllFields(header, headerKeys);
      var pos := Find(header, CRLF, 0);
      while pos.Some?
        invariant pos.Some? ==> pos.value + 2 <= |header|
        invariant FieldsFrom(header, pos, headerKeys) == InsertAll(was, Split(header)[1..])
        decreases |header| - (if pos.Some? then pos.value else |header|), pos.Some?
      {
        var start := pos.value + 2;
        var next := Find(header, CRLF, start);
        var line := if next.Some? then header[start..next.value] else header[start..];
        NextField(header, start, headerKeys);
        AtField(header, pos.value, headerKeys);
        headerKeys := Insert(headerKeys, line);
        pos := Find(header, CRLF, start);
      }
      NoField(header, headerKeys);
    }

    method PushChunk(chunk: string)
      modifies this
      ensures View() == PushHead(old(View()), chunk)
    {
      if !headerFinished {
        header := header + chunk;
        var pos := Find(header, BLANK, 0);
        if pos.Some? {
          headerFinished := true;
          body := body + header[pos.value + 4..];
          header := header[..pos.value];
          headingLine := HeadingLine(header);
          ExtractHeaders();
        } else {
          header := header + chunk;
        }
      }
    }
  }

  lemma SplitStep(s: string)
    ensures Split(s) == match Find(s, CRLF, 0) case None => [s] case Some(p) => [s[..p]] + Split(s[p + 2..])
  {
  }

  // The line that starts at pos, and the lines behind it.
  lemma NextLine(s: string, pos: nat)
    requires pos <= |s|
    ensures var next := Find(s, CRLF, pos);
      Split(s[pos..]) == match next case None => [s[pos..]] case Some(q) => [s[pos..q]] + Split(s[q + 2..])
  {
    hide Find, Split;
    SplitStep(s[pos..]);
    FindShift(s, CRLF, pos, 0);
    var next := Find(s, CRLF, pos);
    if next.Some? {
      assert s[pos..][next.value - pos + 2..] == s[next.value + 2..];
      assert s[pos..][..next.value - pos] == s[pos..next.value];
    }
  }

  // One turn of the loop of _extract_headers.
  lemma NextField(header: string, start: nat, keys: Keys)
    requires start <= |header|
    ensures var next := Find(header, CRLF, start);
      var keys' := Insert(keys, if next.Some? then header[start..next.value] else header[start..]);
      InsertAll(keys, Split(header[start..])) == FieldsFrom(header, next, keys')
  {
    hide Find, Split, Insert;
    NextLine(header, start);
  }

  // What the loop still has to do when it stands at a CRLF.
  function FieldsFrom(header: string, pos: Option<nat>, keys: Keys): Keys
    requires pos.Some? ==> pos.value + 2 <= |header|
  {
    if pos.None? then keys else InsertAll(keys, Split(header[pos.value + 2..]))
  }

  lemma AtField(header: string, p: nat, keys: Keys)
    requires p + 2 <= |header|
    ensures FieldsFrom(header, Some(p), keys) == InsertAll(keys, Split(header[p + 2..]))
  {
  }

  lemma NoField(header: string, keys: Keys)
    ensures FieldsFrom(header, None, keys) == keys
  {
  }

  lemma AllFields(header: string, keys: Keys)
    ensures InsertAll(keys, Split(header)[1..]) == FieldsFrom(header, Find(header, CRLF, 0), keys)
  {
    hide Find, Split, Insert;
    SplitStep(header);
  }

  lemma {:induction false} FindShift(s: string, t: string, pos: nat, from: nat)
    requires pos + from <= |s|
    ensures Find(s[pos..], t, from) == match Find(s, t, pos + from) case None => None case Some(q) => Some(q - pos)
    decreases |s| - from
  {
    if |s| < pos + from + |t| {
    } else {
      assert s[pos..][from..from + |t|] == s[pos + from..pos + from + |t|];
      assert At(s[pos..], t, from) == At(s, t, pos + from);
      hide At;
      if !At(s, t, pos + from) && pos + from < |s| {
        FindShift(s, t, pos, from + 1);
      }
    }
  }

  class RequestParser {
    const headerParser: HeaderParser
    var contentLength: nat
    var bodyFinished: bool

    constructor ()
      ensures fresh(headerParser) && View() == INIT
    {
      headerParser := new HeaderParser();
      contentLength, bodyFinished := 0, false;
    }

    function View(): Parser
      reads this, headerParser
    {
      Parser(headerParser.View(), contentLength, bodyFinished)
    }

    // False when the content length is not a number.
    method PushChunk(chunk: string) returns (ok: bool)
      modifies this, headerParser
      ensures var r := Push(old(View()), chunk); ok == r.Some? && (ok ==> View() == r.value)
    {
      if !headerParser.headerFinished {
        headerParser.PushChunk(chunk);
        if !headerParser.headerFinished {
          contentLength := 0;
          return true;
        }
      } else {
        headerParser.body := headerParser.body + chunk;
      }
      var n := ContentLength(headerParser.headerKeys);
      if n.None? {
        return false;
      }
      contentLength := n.value;
      if |headerParser.body| >= contentLength {
        bodyFinished := true;
        headerParser.body := headerParser.body[..contentLength];
      }
      return true;
    }
  }
}
