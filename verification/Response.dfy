// The response text of TinyWebServer: what process_write puts into the write
// buffer and queues, read back by a client that follows RFC 9112, section 6.3:
// it takes as many bytes after the blank line as Content-Length says.
module Response {
  import opened Common
  import opened HttpCodes

  // ---------- decimal numbers ----------

  function Digit(d: nat): char
    requires d < 10
  {
    '0' + d as char
  }

  function Decimal(n: nat): (s: string)
    ensures s != [] && forall i :: 0 <= i < |s| ==> '0' <= s[i] <= '9'
  {
    if n < 10 then [Digit(n)] else Decimal(n / 10) + [Digit(n % 10)]
  }

  // What %d prints.
  function DecimalInt(n: int): string {
    if n < 0 then "-" + Decimal(-n) else Decimal(n)
  }

  function ParseDecimal(s: string): Option<nat> {
    if s == [] then None
    else
      var last := s[|s| - 1];
      if !('0' <= last <= '9') then None
      else if |s| == 1 then Some(last as nat - '0' as nat)
      else
        match ParseDecimal(s[..|s| - 1])
        case None => None
        case Some(n) => Some(10 * n + (last as nat - '0' as nat))
  }

  lemma {:induction false} DecimalRoundTrip(n: nat)
    ensures ParseDecimal(Decimal(n)) == Some(n)
  {
    if n < 10 {
    } else {
      DecimalRoundTrip(n / 10);
      assert Decimal(n)[..|Decimal(n)| - 1] == Decimal(n / 10);
    }
  }

  lemma {:induction false} DecimalShort(n: nat, digits: nat)
    requires digits > 0 && n < Power10(digits)
    ensures |Decimal(n)| <= digits
  {
    if n < 10 {
    } else {
      DecimalShort(n / 10, digits - 1);
    }
  }

  function Power10(k: nat): nat {
    if k == 0 then 1 else 10 * Power10(k - 1)
  }

  // ---------- the write buffer ----------

  // m_write_buf up to m_write_idx, and whether the last text fitted.
  datatype Buf = Buf(ok: bool, text: string)

  function AddResponse(w: string, s: string): Buf {
    if |w| >= WRITE_BUFFER_SIZE then Buf(false, w)
    else if |s| >= WRITE_BUFFER_SIZE - 1 - |w| then Buf(false, w)
    else Buf(true, w + s)
  }

  const CRLF := "\r\n"
  const LENGTH_NAME := "Content-Length:"

  function StatusLine(status: nat, title: string): string {
    "HTTP/1.1 " + Decimal(status) + " " + title
  }

  function LengthLine(contentLen: int): string {
    LENGTH_NAME + DecimalInt(contentLen)
  }

  function LingerLine(linger: bool): string {
    "Connection:" + if linger then "keep-alive" else "close"
  }

  function AddStatusLine(w: string, status: nat, title: string): Buf {
    AddResponse(w, StatusLine(status, title) + CRLF)
  }

  function AddHeaders(w: string, contentLen: int, linger: bool): Buf {
    var b1 := AddResponse(w, LengthLine(contentLen) + CRLF);
    if !b1.ok then b1 else
    var b2 := AddResponse(b1.text, LingerLine(linger) + CRLF);
    if !b2.ok then b2 else
    AddResponse(b2.text, CRLF)
  }

  function Status(code: HttpCode): nat {
    match code
    case INTERNAL_ERROR => 500
    case BAD_REQUEST => 404
    case FORBIDDEN_REQUEST => 403
    case _ => 200
  }

  function Title(code: HttpCode): string {
    match code
    case INTERNAL_ERROR => "Internal Error"
    case BAD_REQUEST => "Not Found"
    case FORBIDDEN_REQUEST => "Forbidden"
    case _ => "OK"
  }

  // The page that process_write puts into the buffer itself; for FILE_REQUEST
  // the one that stands in for an empty file.
  function Form(code: HttpCode): string {
    match code
    case INTERNAL_ERROR => "There was an unusual problem serving the request file.\n"
    case BAD_REQUEST => "The requested file was not found on this server.\n"
    case FORBIDDEN_REQUEST => "You do not have permission to get file form this server.\n"
    case _ => "<html><body></body></html>"
  }

  // What process_write leaves behind: its result, the buffer, whether the file
  // is queued after it, and bytes_to_send.
  datatype Queued = Queued(ok: bool, head: string, file: bool, bytesToSend: int)

  function Page(w: string, code: HttpCode, linger: bool): Queued {
    var b := AddHeaders(AddStatusLine(w, Status(code), Title(code)).text, ToInt32(|Form(code)|), linger);
    var c := AddResponse(b.text, Form(code));
    Queued(c.ok, c.text, false, if c.ok then |c.text| else 0)
  }

  // fileSize is m_file_stat.st_size, which is wider than the int it becomes.
  function ProcessWrite(w: string, code: HttpCode, fileSize: nat, linger: bool): Queued {
    match code
    case INTERNAL_ERROR => Page(w, code, linger)
    case BAD_REQUEST => Page(w, code, linger)
    case FORBIDDEN_REQUEST => Page(w, code, linger)
    case FILE_REQUEST =>
      if fileSize != 0 then
        var h := AddHeaders(AddStatusLine(w, Status(code), Title(code)).text, ToInt32(fileSize), linger).text;
        Queued(true, h, true, ToInt32(|h| + fileSize))
      else Page(w, code, linger)
    case _ => Queued(true, w, false, 0)
  }

  predicate Handled(code: HttpCode) {
    code.INTERNAL_ERROR? || code.BAD_REQUEST? || code.FORBIDDEN_REQUEST? || code.FILE_REQUEST?
  }

  // ---------- everything fits ----------

  function HeadText(status: nat, title: string, contentLen: int, linger: bool): string {
    (StatusLine(status, title) + CRLF) + (LengthLine(contentLen) + CRLF) + (LingerLine(linger) + CRLF) + CRLF
  }

  lemma LinesShort(status: nat, title: string, n: int, linger: bool)
    requires status < 1000 && |title| <= 20
    ensures |StatusLine(status, title)| <= 33 && |LengthLine(ToInt32(n))| <= 26 && |LingerLine(linger)| <= 21
  {
    assert Power10(3) == 1000;
    DecimalShort(status, 3);
    var m := ToInt32(n);
    assert Power10(10) == 10000000000;
    DecimalShort(if m < 0 then -m else m, 10);
  }

  lemma HeadFits(status: nat, title: string, n: int, linger: bool)
    requires status < 1000 && |title| <= 20
    ensures var b := AddHeaders(AddStatusLine("", status, title).text, ToInt32(n), linger);
      b.ok && b.text == HeadText(status, title, ToInt32(n), linger) && |b.text| <= 88
  {
    LinesShort(status, title, n, linger);
    hide StatusLine, LengthLine, LingerLine;
    assert "" + (StatusLine(status, title) + CRLF) == StatusLine(status, title) + CRLF;
  }

  predicate SendsFile(code: HttpCode, fileSize: nat) {
    code.FILE_REQUEST? && fileSize != 0
  }

  function InlineBody(code: HttpCode, fileSize: nat): string {
    if SendsFile(code, fileSize) then "" else Form(code)
  }

  function BodySize(code: HttpCode, fileSize: nat): nat {
    if SendsFile(code, fileSize) then fileSize else |Form(code)|
  }

  lemma FormShort(code: HttpCode)
    ensures 0 < |Form(code)| <= 60 && |Title(code)| <= 20
  {
  }

  lemma TitleIsPlain(code: HttpCode)
    ensures forall i :: 0 <= i < |Title(code)| ==> Title(code)[i] != '\r'
  {
  }

  lemma PageFits(code: HttpCode, linger: bool)
    ensures var q, h := Page("", code, linger), HeadText(Status(code), Title(code), |Form(code)|, linger);
      q == Queued(true, h + Form(code), false, |q.head|) && 0 < |q.head| <= 148
  {
    FormShort(code);
    HeadFits(Status(code), Title(code), |Form(code)|, linger);
    ToInt32Exactly(|Form(code)|);
    hide AddHeaders, AddStatusLine, HeadText, Form, Title, ToInt32;
  }

  lemma FileFits(fileSize: nat, linger: bool)
    requires fileSize > 0
    ensures var q, code := ProcessWrite("", FILE_REQUEST, fileSize, linger), FILE_REQUEST;
      && q == Queued(true, HeadText(Status(code), Title(code), ToInt32(fileSize), linger), true,
           ToInt32(|q.head| + fileSize))
      && 0 < |q.head| <= 88
  {
    FormShort(FILE_REQUEST);
    HeadFits(Status(FILE_REQUEST), Title(FILE_REQUEST), fileSize, linger);
    hide AddHeaders, AddStatusLine, Form, Title, ToInt32;
  }

  // Every add_* call of every handled code fits, for every file size: the
  // buffer ends up holding exactly head and inline body, far from its end, and
  // process_write succeeds.
  lemma EverythingFits(code: HttpCode, fileSize: nat, linger: bool)
    requires Handled(code)
    ensures var q := ProcessWrite("", code, fileSize, linger);
      && q.ok && 0 < |q.head| < WRITE_BUFFER_SIZE - 1
      && q.head == HeadText(Status(code), Title(code), ToInt32(BodySize(code, fileSize)), linger) +
           InlineBody(code, fileSize)
      && (q.file <==> SendsFile(code, fileSize))
      && q.bytesToSend == ToInt32(|q.head| + if q.file then fileSize else 0)
  {
    PageFits(code, linger);
    FormShort(code);
    hide HeadText, Page, Form, Title;
    if SendsFile(code, fileSize) {
      FileFits(fileSize, linger);
      var h := HeadText(Status(code), Title(code), ToInt32(fileSize), linger);
      assert h + "" == h;
    }
  }

  // process_write never fails when the buffer is empty before it.
  lemma ProcessWriteNeverFails(code: HttpCode, fileSize: nat, linger: bool)
    ensures ProcessWrite("", code, fileSize, linger).ok
  {
    if Handled(code) {
      EverythingFits(code, fileSize, linger);
    }
  }

  // ---------- replies behind replies ----------

  // The largest text that a reply to a request puts into the buffer: the 403
  // page of a connection that is kept.
  const LARGEST: nat := 125

  // How many of them fit.
  const REPLIES: nat := (WRITE_BUFFER_SIZE - 2) / LARGEST

  // What process_read can return when it has a request; its default branch,
  // INTERNAL_ERROR, is for a fourth parser state.
  predicate Produced(code: HttpCode) {
    code.BAD_REQUEST? || code.NO_RESOURCE? || code.FORBIDDEN_REQUEST? || code.FILE_REQUEST?
  }

  lemma StatusShort(code: HttpCode)
    requires Produced(code)
    ensures |StatusLine(Status(code), Title(code))| <= 22
    ensures code.FORBIDDEN_REQUEST? ==> |StatusLine(Status(code), Title(code))| == 22
  {
    DecimalShort(Status(code), 3);
    assert Power10(3) == 1000;
    if code.FORBIDDEN_REQUEST? {
      assert Decimal(403) == Decimal(40) + [Digit(3)] && Decimal(40) == Decimal(4) + [Digit(0)];
    }
  }

  lemma FormLength(code: HttpCode)
    requires Produced(code)
    ensures 10 <= |Form(code)| <= 57 && (code.FORBIDDEN_REQUEST? ==> |Form(code)| == 57)
  {
  }

  lemma LengthShort(code: HttpCode)
    requires Produced(code)
    ensures ToInt32(|Form(code)|) == |Form(code)| && |LengthLine(|Form(code)|)| == 17
  {
    FormLength(code);
    var n := |Form(code)|;
    ToInt32Exactly(n);
    assert Decimal(n) == Decimal(n / 10) + [Digit(n % 10)] && |Decimal(n / 10)| == 1;
  }

  lemma LingerShort(linger: bool)
    ensures |LingerLine(linger)| <= 21 && (linger ==> |LingerLine(linger)| == 21)
  {
  }

  lemma HeadBehind(w: string, status: nat, title: string, n: int, linger: bool)
    requires |w| + |HeadText(status, title, n, linger)| < WRITE_BUFFER_SIZE - 1
    ensures var b := AddHeaders(AddStatusLine(w, status, title).text, n, linger);
      b.ok && b.text == w + HeadText(status, title, n, linger)
  {
    hide StatusLine, LengthLine, LingerLine;
    Joined(w, StatusLine(status, title) + CRLF, LengthLine(n) + CRLF, LingerLine(linger) + CRLF, CRLF);
  }

  lemma Joined(w: string, a: string, b: string, c: string, d: string)
    ensures w + (a + b + c + d) == w + a + b + c + d
  {
  }

  lemma PageBehind(w: string, code: HttpCode, linger: bool)
    requires Produced(code) && |w| + LARGEST < WRITE_BUFFER_SIZE - 1
    ensures var q := Page(w, code, linger);
      && q.ok && |q.head| <= |w| + LARGEST
      && (code.FORBIDDEN_REQUEST? && linger ==> |q.head| == |w| + LARGEST)
      && q.head == w + HeadText(Status(code), Title(code), |Form(code)|, linger) + Form(code)
  {
    StatusShort(code);
    FormLength(code);
    LengthShort(code);
    LingerShort(linger);
    hide StatusLine, LengthLine, LingerLine, Form, Title, Status, AddHeaders, AddStatusLine, ToInt32;
    HeadBehind(w, Status(code), Title(code), |Form(code)|, linger);
  }

  lemma FileBehind(w: string, fileSize: nat, linger: bool)
    requires |w| + LARGEST < WRITE_BUFFER_SIZE - 1
    ensures var b := AddHeaders(AddStatusLine(w, 200, "OK").text, ToInt32(fileSize), linger);
      |b.text| <= |w| + LARGEST && b.text == w + HeadText(200, "OK", ToInt32(fileSize), linger)
  {
    LinesShort(200, "OK", fileSize, linger);
    hide StatusLine, LengthLine, LingerLine, ToInt32;
    HeadBehind(w, 200, "OK", ToInt32(fileSize), linger);
  }

  // A reply that has LARGEST bytes of room fits, whatever is in front of it.
  lemma FitsBehind(w: string, code: HttpCode, fileSize: nat, linger: bool)
    requires Produced(code) && |w| + LARGEST < WRITE_BUFFER_SIZE - 1
    ensures var q := ProcessWrite(w, code, fileSize, linger); q.ok && |q.head| <= |w| + LARGEST
  {
    hide Page, AddHeaders, AddStatusLine, ToInt32;
    PageBehind(w, code, linger);
    FileBehind(w, fileSize, linger);
  }

  // It goes behind that text as it would go into an empty buffer.
  lemma WrittenBehind(w: string, code: HttpCode, fileSize: nat, linger: bool)
    requires Produced(code) && |w| + LARGEST < WRITE_BUFFER_SIZE - 1
    ensures ProcessWrite(w, code, fileSize, linger).head == w + ProcessWrite("", code, fileSize, linger).head
  {
    hide Page, AddHeaders, AddStatusLine, ToInt32, HeadText, Form, Title, Status;
    if SendsFile(code, fileSize) {
      FileBehind(w, fileSize, linger);
      FileBehind("", fileSize, linger);
      assert Status(code) == 200 && Title(code) == "OK" by { FileStatus(); }
      var head := HeadText(200, "OK", ToInt32(fileSize), linger);
      assert "" + head == head;
    } else if code.NO_RESOURCE? {
      assert w + "" == w;
    } else {
      PageBehind(w, code, linger);
      PageBehind("", code, linger);
      var head := HeadText(Status(code), Title(code), |Form(code)|, linger);
      Behind(w, head, Form(code));
    }
  }

  lemma FileStatus()
    ensures Status(FILE_REQUEST) == 200 && Title(FILE_REQUEST) == "OK"
  {
  }

  lemma Behind(w: string, head: string, body: string)
    ensures w + head + body == w + ("" + head + body)
  {
  }

  // Behind eight pages of that size a ninth does not fit.
  lemma NinthFails(w: string, fileSize: nat)
    requires |w| == 8 * LARGEST
    ensures !ProcessWrite(w, FORBIDDEN_REQUEST, fileSize, true).ok
  {
    var code := FORBIDDEN_REQUEST;
    StatusShort(code);
    FormLength(code);
    LengthShort(code);
    LingerShort(true);
    hide StatusLine, LengthLine, LingerLine, Form, Title, Status, ToInt32;
  }

  // ---------- a client reads it back ----------

  datatype Reply = Unreadable | Reply(length: Option<nat>, body: string)

  // The index of the first CRLF.
  function FindCrlf(s: string): (r: Option<nat>)
    ensures r.Some? ==> r.value + 2 <= |s| && s[r.value..r.value + 2] == CRLF
  {
    if |s| < 2 then None
    else if s[..2] == CRLF then Some(0)
    else
      match FindCrlf(s[1..])
      case None => None
      case Some(i) => Some(i + 1)
  }

  // Header lines up to the blank line; the bytes after it are the body.
  function ReadReply(s: string, length: Option<nat>): Reply
    decreases |s|
  {
    match FindCrlf(s)
    case None => Unreadable
    case Some(i) =>
      var line, rest := s[..i], s[i + 2..];
      if i == 0 then Reply(length, rest)
      else if LENGTH_NAME <= line then ReadReply(rest, ParseDecimal(line[|LENGTH_NAME|..]))
      else ReadReply(rest, length)
  }

  predicate OneLine(s: string) {
    s != [] && forall i :: 0 <= i < |s| ==> s[i] != '\r'
  }

  lemma {:induction false} FindAfterLine(line: string, rest: string)
    requires forall i :: 0 <= i < |line| ==> line[i] != '\r'
    ensures FindCrlf(line + CRLF + rest) == Some(|line|)
  {
    var s := line + CRLF + rest;
    if line == [] {
      assert s == CRLF + rest && s[..2] == CRLF;
    } else {
      var more := line[1..];
      FindAfterLine(more, rest);
      var next := more + CRLF + rest;
      assert s == [line[0]] + next && s[1..] == next;
      assert s[..2][0] == line[0] != CRLF[0];
    }
  }

  lemma ReadLine(line: string, rest: string, length: Option<nat>)
    requires OneLine(line)
    ensures ReadReply(line + CRLF + rest, length) ==
      ReadReply(rest, if LENGTH_NAME <= line then ParseDecimal(line[|LENGTH_NAME|..]) else length)
  {
    FindAfterLine(line, rest);
    var s := line + CRLF + rest;
    assert s[..|line|] == line && s[|line| + 2..] == rest;
  }

  lemma ReadBlank(rest: string, length: Option<nat>)
    ensures ReadReply(CRLF + rest, length) == Reply(length, rest)
  {
    FindAfterLine("", rest);
    assert "" + CRLF + rest == CRLF + rest;
    assert (CRLF + rest)[2..] == rest;
  }

  lemma LinesAreLines(status: nat, title: string, linger: bool)
    requires forall i :: 0 <= i < |title| ==> title[i] != '\r'
    ensures OneLine(StatusLine(status, title)) && !(LENGTH_NAME <= StatusLine(status, title))
    ensures OneLine(LingerLine(linger)) && !(LENGTH_NAME <= LingerLine(linger))
  {
    assert StatusLine(status, title)[0] == 'H' && LENGTH_NAME[0] == 'C';
    assert LingerLine(linger)[3] == 'n' && LENGTH_NAME[3] == 't';
  }

  lemma LengthIsLine(n: int)
    ensures OneLine(LengthLine(n)) && LENGTH_NAME <= LengthLine(n)
    ensures LengthLine(n)[|LENGTH_NAME|..] == DecimalInt(n)
  {
    NameIsPlain();
    var d := DecimalInt(n);
    assert forall i :: 0 <= i < |d| ==> d[i] != '\r';
  }

  lemma NameIsPlain()
    ensures LENGTH_NAME != [] && forall i :: 0 <= i < |LENGTH_NAME| ==> LENGTH_NAME[i] != '\r'
  {
  }

  lemma MinusIsNoNumber(n: nat)
    ensures ParseDecimal("-" + Decimal(n)) == None
  {
    MinusPrefix(Decimal(n));
  }

  lemma {:induction false} MinusPrefix(d: string)
    requires d != []
    ensures ParseDecimal("-" + d) == None
  {
    var s := "-" + d;
    if |d| > 1 {
      assert s[..|s| - 1] == "-" + d[..|d| - 1];
      MinusPrefix(d[..|d| - 1]);
    } else {
      assert s[..|s| - 1] == "-";
    }
  }

  lemma ReadHead(status: nat, title: string, n: int, linger: bool, body: string)
    requires forall i :: 0 <= i < |title| ==> title[i] != '\r'
    ensures ReadReply(HeadText(status, title, n, linger) + body, None) == Reply(ParseDecimal(DecimalInt(n)), body)
  {
    LinesAreLines(status, title, linger);
    LengthIsLine(n);
    hide StatusLine, LengthLine, LingerLine, ReadReply, ParseDecimal, DecimalInt, OneLine;
    var l1, l2, l3 := StatusLine(status, title), LengthLine(n), LingerLine(linger);
    var r3 := CRLF + body;
    var r2 := l3 + CRLF + r3;
    var r1 := l2 + CRLF + r2;
    assert HeadText(status, title, n, linger) + body == l1 + CRLF + r1;
    ReadLine(l1, r1, None);
    ReadLine(l2, r2, None);
    ReadLine(l3, r3, ParseDecimal(l2[|LENGTH_NAME|..]));
    ReadBlank(body, ParseDecimal(l2[|LENGTH_NAME|..]));
  }

  // ---------- framing ----------

  // The bytes that process_write queues for a reply with this file.
  function QueuedBytes(code: HttpCode, file: string, linger: bool): string {
    var q := ProcessWrite("", code, |file|, linger);
    q.head + if q.file then file else ""
  }

  function Body(code: HttpCode, file: string): string {
    if SendsFile(code, |file|) then file else Form(code)
  }

  lemma ParseInt32(size: nat)
    ensures ParseDecimal(DecimalInt(ToInt32(size))) == Some(size) <==> size <= INT_MAX
  {
    var m := ToInt32(size);
    ToInt32Exactly(size);
    if m >= 0 {
      DecimalRoundTrip(m);
    } else {
      MinusIsNoNumber(-m);
    }
  }

  lemma QueuedIs(code: HttpCode, file: string, linger: bool)
    requires Handled(code)
    ensures QueuedBytes(code, file, linger) ==
      HeadText(Status(code), Title(code), ToInt32(|Body(code, file)|), linger) + Body(code, file)
  {
    hide ProcessWrite, HeadText, Form, Title, Status, ToInt32;
    EverythingFits(code, |file|, linger);
    var h := HeadText(Status(code), Title(code), ToInt32(|Body(code, file)|), linger);
    assert h + "" == h && (h + Form(code)) + "" == h + Form(code);
  }

  // For every handled code and every file a client finds, after the blank line,
  // exactly the body; the Content-Length it reads is the number of those bytes
  // exactly when the file size fits an int.
  lemma FramingIsExact(code: HttpCode, file: string, linger: bool)
    requires Handled(code)
    ensures var r, body := ReadReply(QueuedBytes(code, file, linger), None), Body(code, file);
      r.Reply? && r.body == body && (r.length == Some(|body|) <==> |body| <= INT_MAX)
  {
    hide QueuedBytes, Body, HeadText, Form, Title, Status, ToInt32, ReadReply, ParseDecimal, DecimalInt;
    QueuedIs(code, file, linger);
    TitleIsPlain(code);
    ReadHead(Status(code), Title(code), ToInt32(|Body(code, file)|), linger, Body(code, file));
    ParseInt32(|Body(code, file)|);
  }

  // ---------- what it says ----------

  // The header lines and what follows the blank line.
  function HeaderLines(s: string): (seq<string>, string)
    decreases |s|
  {
    match FindCrlf(s)
    case None => ([s], "")
    case Some(i) =>
      if i == 0 then ([], s[2..])
      else
        var (lines, body) := HeaderLines(s[i + 2..]);
        ([s[..i]] + lines, body)
  }

  lemma LineSplit(line: string, rest: string)
    requires OneLine(line)
    ensures var (lines, body) := HeaderLines(rest); HeaderLines(line + CRLF + rest) == ([line] + lines, body)
  {
    FindAfterLine(line, rest);
    var s := line + CRLF + rest;
    assert s[..|line|] == line && s[|line| + 2..] == rest;
  }

  lemma BlankSplit(rest: string)
    ensures HeaderLines(CRLF + rest) == ([], rest)
  {
    FindAfterLine("", rest);
    assert "" + CRLF + rest == CRLF + rest;
    assert (CRLF + rest)[2..] == rest;
  }

  lemma HeadAsLines(l1: string, l2: string, l3: string, body: string)
    ensures (l1 + CRLF) + (l2 + CRLF) + (l3 + CRLF) + CRLF + body ==
      l1 + CRLF + (l2 + CRLF + (l3 + CRLF + (CRLF + body)))
  {
  }

  lemma HeadSplit(status: nat, title: string, n: int, linger: bool, body: string)
    requires forall i :: 0 <= i < |title| ==> title[i] != '\r'
    ensures HeaderLines(HeadText(status, title, n, linger) + body) ==
      ([StatusLine(status, title), LengthLine(n), LingerLine(linger)], body)
  {
    LinesAreLines(status, title, linger);
    LengthIsLine(n);
    var l1, l2, l3 := StatusLine(status, title), LengthLine(n), LingerLine(linger);
    hide StatusLine, LengthLine, LingerLine, OneLine, HeaderLines;
    HeadAsLines(l1, l2, l3, body);
    ThreeSplit(l1, l2, l3, body);
  }

  lemma ThreeSplit(l1: string, l2: string, l3: string, body: string)
    requires OneLine(l1) && OneLine(l2) && OneLine(l3)
    ensures HeaderLines(l1 + CRLF + (l2 + CRLF + (l3 + CRLF + (CRLF + body)))) == ([l1, l2, l3], body)
  {
    hide HeaderLines, OneLine;
    BlankSplit(body);
    LineSplit(l3, CRLF + body);
    LineSplit(l2, l3 + CRLF + (CRLF + body));
    LineSplit(l1, l2 + CRLF + (l3 + CRLF + (CRLF + body)));
    assert [l1] + ([l2] + ([l3] + [])) == [l1, l2, l3];
  }

  // The status line and the page, word for word.
  function StatusWords(code: HttpCode): string {
    match code
    case INTERNAL_ERROR => "HTTP/1.1 " + "500" + " " + "Internal Error"
    case BAD_REQUEST => "HTTP/1.1 " + "404" + " " + "Not Found"
    case FORBIDDEN_REQUEST => "HTTP/1.1 " + "403" + " " + "Forbidden"
    case _ => "HTTP/1.1 " + "200" + " " + "OK"
  }

  function PageWords(code: HttpCode, file: string): string {
    match code
    case INTERNAL_ERROR => "There was an unusual problem serving the request file.\n"
    case BAD_REQUEST => "The requested file was not found on this server.\n"
    case FORBIDDEN_REQUEST => "You do not have permission to get file form this server.\n"
    case _ => if file == "" then "<html><body></body></html>" else file
  }

  lemma ThreeDigits(n: nat)
    requires 100 <= n < 1000
    ensures Decimal(n) == [Digit(n / 100), Digit(n / 10 % 10), Digit(n % 10)]
  {
    assert Decimal(n / 10) == Decimal(n / 100) + [Digit(n / 10 % 10)];
  }

  lemma StatusText(code: HttpCode)
    requires Handled(code)
    ensures StatusLine(Status(code), Title(code)) == StatusWords(code)
  {
    ThreeDigits(Status(code));
    hide Decimal;
    assert code.INTERNAL_ERROR? ==> Decimal(500) == "500";
    assert code.BAD_REQUEST? ==> Decimal(404) == "404";
    assert code.FORBIDDEN_REQUEST? ==> Decimal(403) == "403";
    assert code.FILE_REQUEST? ==> Decimal(200) == "200";
  }

  // What a client gets: the three header lines and the page.
  lemma ReplyText(code: HttpCode, file: string, linger: bool)
    requires Handled(code)
    ensures HeaderLines(QueuedBytes(code, file, linger)) ==
      ([StatusWords(code), "Content-Length:" + DecimalInt(ToInt32(|PageWords(code, file)|)),
        if linger then "Connection:keep-alive" else "Connection:close"], PageWords(code, file))
  {
    LingerText(linger);
    StatusText(code);
    BodyText(code, file);
    hide QueuedBytes, Body, HeadText, Form, Title, Status, ToInt32, DecimalInt, HeaderLines, LingerLine, StatusLine,
        StatusWords, PageWords;
    QueuedIs(code, file, linger);
    TitleIsPlain(code);
    HeadSplit(Status(code), Title(code), ToInt32(|Body(code, file)|), linger, Body(code, file));
  }

  lemma LingerText(linger: bool)
    ensures LingerLine(linger) == if linger then "Connection:keep-alive" else "Connection:close"
  {
  }

  lemma BodyText(code: HttpCode, file: string)
    requires Handled(code)
    ensures Body(code, file) == PageWords(code, file)
  {
  }
}
