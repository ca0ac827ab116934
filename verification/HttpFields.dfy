// Header lines as a client writes them, read back by the parser.
module HttpFields {
  import opened Common
  import opened HttpCodes
  import opened CStrings
  import opened HttpParser
  import opened HttpScan
  import opened HttpChunks
  import opened HttpFirstLine
  import opened HttpRequestLine
  import Response

  // The three fields that parse_headers knows, and any other line.
  datatype Field = Host(value: string) | Connection(value: string) | Length(size: nat) | Other(text: string)

  const HOST := "Host: "
  const CONNECTION := "Connection: "
  const LENGTH := "Content-Length: "

  function FieldLine(f: Field): string {
    match f
    case Host(value) => HOST + value
    case Connection(value) => CONNECTION + value
    case Length(size) => LENGTH + Response.Decimal(size)
    case Other(text) => text
  }

  function FieldLines(fields: seq<Field>): string {
    if fields == [] then "" else FieldLine(fields[0]) + CRLF + FieldLines(fields[1..])
  }

  predicate PlainText(text: string) {
    forall c :: c in text ==> !Breaks(c) && c != NUL
  }

  // The text begins with the name, in any case.
  predicate Named(text: string, name: string) {
    |name| <= |text| && SameIgnoringCase(text[..|name|], name)
  }

  // A value does not begin with a blank, another line with none of the names.
  predicate PlainField(f: Field) {
    match f
    case Host(value) => PlainText(value) && (value == "" || !Blank(value[0]))
    case Connection(value) => PlainText(value) && (value == "" || !Blank(value[0]))
    case Length(_) => true
    case Other(text) =>
      && text != "" && PlainText(text)
      && !Named(text, "Connection:") && !Named(text, "content-length:") && !Named(text, "host:")
  }

  // ---------- what a client means ----------

  // The last host and length count, one keep-alive is enough.
  datatype Seen = Seen(host: Option<string>, linger: bool, length: nat)

  const NOTHING := Seen(None, false, 0)

  function See(seen: Seen, f: Field): Seen {
    match f
    case Host(value) => seen.(host := Some(value))
    case Connection(value) => seen.(linger := seen.linger || SameIgnoringCase(value, "keep-alive"))
    case Length(size) => seen.(length := size)
    case Other(_) => seen
  }

  function SeeAll(seen: Seen, fields: seq<Field>): Seen
    decreases |fields|
  {
    if fields == [] then seen else SeeAll(See(seen, fields[0]), fields[1..])
  }

  ghost predicate SeenBy(p: Parser, seen: Seen) {
    Text(p.buf, p.host) == seen.host && p.linger == seen.linger && p.contentLength == seen.length
  }

  // ---------- one header line ----------

  lemma {:induction false} DigitsAppend(s: string, last: char, acc: int)
    requires IsDigit(last) && forall i :: 0 <= i < |s| ==> IsDigit(s[i])
    ensures Digits(s + [last], acc) == 10 * Digits(s, acc) + (last as int - '0' as int)
    decreases |s|
  {
    if s == "" {
      assert [last][1..] == "";
    } else {
      assert (s + [last])[1..] == s[1..] + [last];
      DigitsAppend(s[1..], last, 10 * acc + (s[0] as int - '0' as int));
    }
  }

  predicate Digital(d: string) {
    d != "" && forall c :: c in d ==> IsDigit(c)
  }

  // The digits in front of anything else.
  lemma {:induction false} DigitsRead(d: string, rest: string, acc: int)
    requires Digital(d) && (rest != "" ==> !IsDigit(rest[0]))
    ensures Digits(d + rest, acc) == Digits(d, acc)
  {
    assert (d + rest)[1..] == d[1..] + rest;
    if |d| == 1 {
      assert d[1..] == "" && "" + rest == rest;
    } else {
      DigitsRead(d[1..], rest, 10 * acc + (d[0] as int - '0' as int));
    }
  }

  lemma {:induction false} DigitsAreDecimal(d: string)
    requires Digital(d)
    ensures Response.ParseDecimal(d) == Some(Digits(d, 0))
  {
    if |d| == 1 {
      assert d[1..] == "";
    } else {
      var front, last := d[..|d| - 1], d[|d| - 1];
      assert d == front + [last] && last in d;
      DigitsAreDecimal(front);
      DigitsAppend(front, last, 0);
    }
  }

  lemma {:induction false} SpaceSkipped(spaces: string, t: string)
    requires (forall c :: c in spaces ==> Space(c)) && (t != "" ==> !Space(t[0]))
    ensures SkipSpace(spaces + t) == t
  {
    if spaces == "" {
      assert spaces + t == t;
    } else {
      assert (spaces + t)[1..] == spaces[1..] + t;
      SpaceSkipped(spaces[1..], t);
    }
  }

  // atol: white space, a sign, and the number that the digits up to the first
  // other character make.
  lemma AtolMeans(spaces: string, sign: string, d: string, rest: string)
    requires forall c :: c in spaces ==> Space(c)
    requires sign in {"", "+", "-"} && Digital(d) && (rest != "" ==> !IsDigit(rest[0]))
    ensures var n := Response.ParseDecimal(d);
      n.Some? && Atol(spaces + (sign + (d + rest))) == if sign == "-" then 0 - n.value else n.value
  {
    var t := sign + (d + rest);
    DigitsAreDecimal(d);
    DigitsRead(d, rest, 0);
    assert IsDigit(d[0]) && t[0] == if sign == "" then d[0] else sign[0];
    SpaceSkipped(spaces, t);
    assert sign != "" ==> t[1..] == d + rest;
    assert sign == "" ==> t == d + rest;
  }

  lemma AtolOf(n: nat)
    ensures Atol(Response.Decimal(n)) == n
  {
    var d := Response.Decimal(n);
    Response.DecimalRoundTrip(n);
    AtolMeans("", "", d, "");
    assert "" + ("" + (d + "")) == d;
  }

  lemma SameName(line: string, text: string, name: string)
    requires CStr(line, 0) == text
    ensures StartsIgnoringCase(line, 0, name) <==> Named(text, name)
  {
  }

  lemma SameNames(line: string, text: string)
    requires CStr(line, 0) == text
    ensures StartsIgnoringCase(line, 0, "Connection:") <==> Named(text, "Connection:")
    ensures StartsIgnoringCase(line, 0, "content-length:") <==> Named(text, "content-length:")
    ensures StartsIgnoringCase(line, 0, "host:") <==> Named(text, "host:")
  {
    hide StartsIgnoringCase, Named, CStr;
    SameName(line, text, "Connection:");
    SameName(line, text, "content-length:");
    SameName(line, text, "host:");
  }

  lemma OtherName(text: string, name: string, k: nat)
    requires k < |text| && k < |name| && Lower(text[k]) != Lower(name[k])
    ensures !Named(text, name)
  {
    if |name| <= |text| {
      assert text[..|name|][k] == text[k];
    }
  }

  // ---------- any header line ----------

  predicate AllBlank(gap: string) {
    forall c :: c in gap ==> Blank(c)
  }

  // A name in any case, any number of blanks, and a value.
  ghost predicate IsHeader(line: string, name: string, gap: string, value: string) {
    && Ended(line) && CStr(line, 0) == name + gap + value
    && AllBlank(gap) && (value != "" ==> !Blank(value[0]))
  }

  // Blanks stand at p, and no more than these.
  predicate GapAt(l: string, p: nat, gap: string) {
    p + |gap| < |l| && l[p..p + |gap|] == gap && !Blank(l[p + |gap|]) && AllBlank(gap)
  }

  lemma GapStands(l: string, t: string, name: string, gap: string, value: string)
    requires Stands(l, 0, t) && t == name + gap + value && AllBlank(gap) && (value != "" ==> !Blank(value[0]))
    ensures Stands(l, |name| + |gap|, value) && GapAt(l, |name|, gap)
  {
    var k := |name| + |gap|;
    TailStands(l, 0, name + gap, value);
    Three(l, 0, name, gap, value);
    assert l[k] == if value == "" then NUL else l[k..k + |value|][0];
  }

  lemma GapSpanned(l: string, p: nat, gap: string)
    requires GapAt(l, p, gap)
    ensures Span(l, p) == p + |gap|
  {
    SpanOver(l, p, gap);
  }

  lemma ValueRead(line: string, name: string, gap: string, value: string)
    requires IsHeader(line, name, gap, value)
    ensures var k := |name| + |gap|; k <= |line| && Span(line, |name|) == k && CStr(line, k) == value
  {
    hide Stands, GapAt, Blank, Span, CLen, CStr, AllBlank, Ended;
    EndedStands(line);
    GapStands(line, CStr(line, 0), name, gap, value);
    GapSpanned(line, |name|, gap);
    StandsExactly(line, |name| + |gap|, value);
  }

  // A text that has one of the names does not have another.
  lemma NamesDiffer(text: string, name: string)
    requires |name| <= |text| && text[..|name|] == name
    ensures SameIgnoringCase(name, "Connection:") ==> Named(text, "Connection:")
    ensures SameIgnoringCase(name, "content-length:") ==>
      Named(text, "content-length:") && !Named(text, "Connection:")
    ensures SameIgnoringCase(name, "host:") ==>
      Named(text, "host:") && !Named(text, "Connection:") && !Named(text, "content-length:")
  {
    if SameIgnoringCase(name, "content-length:") {
      assert text[3] == name[3] && Lower(name[3]) == 't' && Lower("Connection:"[3]) == 'n';
      OtherName(text, "Connection:", 3);
    } else if SameIgnoringCase(name, "host:") {
      assert text[0] == name[0] && Lower(name[0]) == 'h' && Lower("Connection:"[0]) == 'c';
      OtherName(text, "Connection:", 0);
      OtherName(text, "content-length:", 0);
    }
  }

  // What parse_headers makes of a line, however its name is written and however
  // many blanks follow; any other line changes nothing.
  lemma HeaderMeans(p: Parser, text: nat, name: string, gap: string, value: string)
    requires text < p.checked <= |p.buf| && IsHeader(p.buf[text..p.checked], name, gap, value) && name != ""
    ensures SameIgnoringCase(name, "Connection:") ==>
      DoHeader(p, text) == (NO_REQUEST, if SameIgnoringCase(value, "keep-alive") then p.(linger := true) else p)
    ensures SameIgnoringCase(name, "content-length:") ==>
      DoHeader(p, text) == (NO_REQUEST, p.(contentLength := Atol(value)))
    ensures SameIgnoringCase(name, "host:") ==>
      DoHeader(p, text) == (NO_REQUEST, p.(host := Some(text + |name| + |gap|)))
    ensures CStr(p.buf[text..p.checked], |name| + |gap|) == value
  {
    var line, t := p.buf[text..p.checked], name + gap + value;
    ValueRead(line, name, gap, value);
    assert t[..|name|] == name;
    NamesDiffer(t, name);
    SameNames(line, t);
    FirstOf(line, name);
    hide StartsIgnoringCase, SameIgnoringCase, CStr, Atol, Named, Span;
    SameLengths(name);
  }

  lemma SameLengths(name: string)
    ensures SameIgnoringCase(name, "Connection:") ==> |name| == 11
    ensures SameIgnoringCase(name, "content-length:") ==> |name| == 15
    ensures SameIgnoringCase(name, "host:") ==> |name| == 5
  {
  }

  lemma FirstOf(line: string, name: string)
    requires |line| > 0 && name <= CStr(line, 0) && name != ""
    ensures line[0] != NUL
  {
  }

  // The blank line ends the head, a line with none of the three names is skipped.
  lemma OtherHeader(p: Parser, text: nat)
    requires text < p.checked <= |p.buf|
    ensures var t := CStr(p.buf[text..p.checked], 0);
      && (t == "" && p.contentLength != 0 ==> DoHeader(p, text) == (NO_REQUEST, p.(state := Content)))
      && (t == "" && p.contentLength == 0 ==> DoHeader(p, text) == (GET_REQUEST, p))
      && (t != "" && !Named(t, "Connection:") && !Named(t, "content-length:") && !Named(t, "host:") ==>
           DoHeader(p, text) == (NO_REQUEST, p))
  {
    var line := p.buf[text..p.checked];
    SameNames(line, CStr(line, 0));
    if CStr(line, 0) != "" {
      FirstOf(line, CStr(line, 0));
    }
    hide StartsIgnoringCase, SameIgnoringCase, Atol, Named;
  }

  // ---------- header lines as a client writes them ----------

  // What a field does to the parser; its line begins at text.
  function Noted(p: Parser, text: nat, f: Field): Parser {
    match f
    case Host(_) => p.(host := Some(text + |HOST|))
    case Connection(value) => if SameIgnoringCase(value, "keep-alive") then p.(linger := true) else p
    case Length(size) => p.(contentLength := size)
    case Other(_) => p
  }

  ghost predicate IsLine(p: Parser, text: nat, f: Field) {
    text < p.checked <= |p.buf| && p.buf[text..p.checked] == FieldLine(f) + NULS && PlainField(f)
  }

  lemma LineIsHeader(text: string, name: string, value: string)
    requires text == name + " " + value && NUL !in text && (value != "" ==> !Blank(value[0]))
    ensures IsHeader(text + NULS, name, " ", value)
  {
    assert (text + NULS)[0..|text|] == text && (text + NULS)[|text|] == NUL;
    CStrExactly(text + NULS, 0, text);
  }

  lemma NamesPlain()
    ensures HOST == "Host:" + " " && CONNECTION == "Connection:" + " " && LENGTH == "Content-Length:" + " "
    ensures NUL !in HOST && NUL !in CONNECTION && NUL !in LENGTH
    ensures SameIgnoringCase("Host:", "host:") && SameIgnoringCase("Connection:", "Connection:")
    ensures SameIgnoringCase("Content-Length:", "content-length:")
  {
  }

  lemma FieldNoted(p: Parser, text: nat, f: Field)
    requires IsLine(p, text, f)
    ensures DoHeader(p, text) == (NO_REQUEST, Noted(p, text, f))
  {
    hide DoHeader, SameIgnoringCase, CStr, Atol, Response.Decimal, IsHeader;
    NamesPlain();
    match f
    case Host(value) =>
      LineIsHeader(FieldLine(f), "Host:", value);
      HeaderMeans(p, text, "Host:", " ", value);
    case Connection(value) =>
      LineIsHeader(FieldLine(f), "Connection:", value);
      HeaderMeans(p, text, "Connection:", " ", value);
    case Length(size) =>
      var d := Response.Decimal(size);
      assert NUL !in d && IsDigit(d[0]);
      LineIsHeader(FieldLine(f), "Content-Length:", d);
      HeaderMeans(p, text, "Content-Length:", " ", d);
      AtolOf(size);
    case Other(t) =>
      assert (t + NULS)[0..|t|] == t && (t + NULS)[|t|] == NUL;
      CStrExactly(t + NULS, 0, t);
      OtherHeader(p, text);
  }

  // A line that parse_headers takes and the line that is left.
  ghost predicate Behind(p: Parser, q: Parser, size: nat) {
    && Inv(q) && q.start == q.checked == p.checked + size <= |q.buf| == |p.buf|
    && q.buf[q.checked..] == p.buf[q.checked..]
    && q.verb == p.verb && q.cgi == p.cgi && q.content == p.content
    && Text(q.buf, q.url) == Text(p.buf, p.url)
  }

  lemma HeaderBehind(p: Parser, text: string)
    requires Inv(p) && p.start == p.checked && p.state.Header? && text + CRLF <= p.buf[p.checked..]
    requires forall c :: c in text ==> !Breaks(c)
    ensures ParseLine(p.buf, p.checked).status.LineOk?
    ensures var s := Scanned(p); var q := DoLine(s).1;
      && Behind(p, q, |text| + 2)
      && DoLine(s) == DoHeader(s.(start := s.checked), p.start)
      && s.buf[p.start..s.checked] == text + NULS
  {
    hide ParseLine, DoHeader;
    LineTaken(p, text);
    ScanKeeps(p);
    var s := Scanned(p);
    HeaderKeeps(s);
    HeaderTouches(s.(start := s.checked), s.start);
    LineKeeps(p);
    HeaderSame(s.(start := s.checked), s.start);
    SameText(p.buf, s.buf, p.url, p.start);
  }

  lemma HeaderSame(p: Parser, text: nat)
    requires text < p.checked <= |p.buf|
    ensures var q := DoHeader(p, text).1; q.verb == p.verb && q.cgi == p.cgi && q.content == p.content
  {
    hide StartsIgnoringCase, SameIgnoringCase, CStr, Atol;
  }

  lemma FieldPlain(f: Field)
    requires PlainField(f)
    ensures forall c :: c in FieldLine(f) ==> !Breaks(c)
  {
    assert forall c :: c in HOST ==> !Breaks(c);
    assert forall c :: c in CONNECTION ==> !Breaks(c);
    assert forall c :: c in LENGTH ==> !Breaks(c);
  }

  lemma FieldTaken(p: Parser, f: Field, rest: string, seen: Seen)
    requires Inv(p) && p.start == p.checked && p.state.Header? && p.buf[p.checked..] == FieldLine(f) + CRLF + rest
    requires PlainField(f) && SeenBy(p, seen)
    ensures ParseLine(p.buf, p.checked).status.LineOk?
    ensures var (c, q) := DoLine(Scanned(p));
      && Behind(p, q, |FieldLine(f)| + 2) && c.NO_REQUEST? && q.state.Header?
      && q.buf[q.checked..] == rest && SeenBy(q, See(seen, f))
  {
    hide ParseLine, DoHeader, Inv, FieldLine, Text, PlainField;
    InvWf(p);
    var text := FieldLine(f);
    assert text + CRLF <= p.buf[p.checked..];
    FieldPlain(f);
    HeaderBehind(p, text);
    var s := Scanned(p);
    FieldNoted(s.(start := s.checked), p.start, f);
    var q := DoLine(s).1;
    assert q.buf[q.checked..] == p.buf[p.checked..][|text| + 2..] == rest;
    HostStays(p, f);
  }

  // The host is the value just read, or still the string it was.
  lemma HostStays(p: Parser, f: Field)
    requires Inv(p) && p.start == p.checked && ParseLine(p.buf, p.checked).status.LineOk?
    requires PlainField(f)
    requires var s := Scanned(p); p.checked <= s.checked && s.buf[p.start..s.checked] == FieldLine(f) + NULS
    ensures var s := Scanned(p); var q := Noted(s, p.start, f);
      Text(s.buf, q.host) == if f.Host? then Some(f.value) else Text(p.buf, p.host)
  {
    hide ParseLine, CStr, Inv, Text, FieldLine;
    var s := Scanned(p);
    if f.Host? {
      HostRead(s.buf, p.start, s.checked, f);
    } else {
      HostKept(p);
    }
  }

  lemma HostInLine(f: Field)
    requires PlainField(f) && f.Host?
    ensures var line := FieldLine(f) + NULS;
      |HOST| < |line| && line[|line| - 1] == NUL && CStr(line, |HOST|) == f.value
  {
    hide CStr, IsHeader;
    NamesPlain();
    LineIsHeader(FieldLine(f), "Host:", f.value);
    ValueRead(FieldLine(f) + NULS, "Host:", " ", f.value);
  }

  lemma HostRead(buf: string, start: nat, end: nat, f: Field)
    requires start <= end <= |buf| && buf[start..end] == FieldLine(f) + NULS && PlainField(f) && f.Host?
    ensures Text(buf, Some(start + |HOST|)) == Some(f.value)
  {
    hide CStr, Text, FieldLine, PlainField;
    HostInLine(f);
    InLine(buf, start, buf[start..end], |HOST|);
  }

  lemma HostKept(p: Parser)
    requires Inv(p) && p.start == p.checked && ParseLine(p.buf, p.checked).status.LineOk?
    ensures Text(Scanned(p).buf, p.host) == Text(p.buf, p.host)
  {
    hide ParseLine;
    FirstBreakDecides(p.buf, p.start, p.checked);
    SameText(p.buf, Scanned(p).buf, p.host, p.start);
  }

  lemma BlankTaken(p: Parser, rest: string)
    requires Inv(p) && p.start == p.checked && p.state.Header? && p.buf[p.checked..] == CRLF + rest
    ensures ParseLine(p.buf, p.checked).status.LineOk?
    ensures var (c, q) := DoLine(Scanned(p));
      && Behind(p, q, 2)
      && q.contentLength == p.contentLength && q.linger == p.linger && Text(q.buf, q.host) == Text(p.buf, p.host)
      && q.buf[q.checked..] == rest
      && (c.GET_REQUEST? <==> p.contentLength == 0)
      && (p.contentLength != 0 ==> c.NO_REQUEST? && q.state.Content?)
  {
    hide ParseLine, Inv, Text;
    InvWf(p);
    assert "" + CRLF == CRLF;
    HeaderBehind(p, "");
    HostKept(p);
    var q := DoLine(Scanned(p)).1;
    assert q.buf[q.checked..] == p.buf[p.checked..][2..] == rest;
  }

  // ---------- any header lines ----------

  lemma Onto(p: Parser, q: Parser, r: Parser, m: nat, n: nat)
    requires Behind(p, q, m) && Behind(q, r, n)
    ensures Behind(p, r, m + n)
  {
    hide Inv, Text;
    TailStays(p.buf, q.buf, r.buf, q.checked, r.checked);
  }

  // The parser goes through any header lines and has seen what they mean.
  lemma {:induction false} FieldsTaken(p: Parser, fields: seq<Field>, rest: string, seen: Seen) returns (q: Parser)
    requires Inv(p) && p.start == p.checked && p.state.Header? && p.buf[p.checked..] == FieldLines(fields) + rest
    requires (forall f :: f in fields ==> PlainField(f)) && SeenBy(p, seen)
    ensures Behind(p, q, |FieldLines(fields)|) && q.state.Header? && q.buf[q.checked..] == rest
    ensures SeenBy(q, SeeAll(seen, fields)) && Lines(p) == Lines(q)
    decreases |fields|
  {
    hide ParseLine, DoLine, Lines, Inv, Text, FieldLine, PlainField, See;
    InvWf(p);
    if fields == [] {
      assert FieldLines(fields) + rest == rest;
      q := p;
    } else {
      var f, more := fields[0], FieldLines(fields[1..]) + rest;
      assert FieldLines(fields) + rest == FieldLine(f) + CRLF + more;
      FieldTaken(p, f, more, seen);
      var p1 := DoLine(Scanned(p)).1;
      OneLine(p);
      q := FieldsTaken(p1, fields[1..], rest, See(seen, f));
      Onto(p, p1, q, |FieldLine(f)| + 2, |FieldLines(fields[1..])|);
    }
  }

  lemma OneLine(p: Parser)
    requires Wf(p) && !p.state.Content? && ParseLine(p.buf, p.checked).status.LineOk?
    ensures var (c, q) := DoLine(Scanned(p)); Lines(p) == if Decided(c, q) then (c, q) else Lines(q)
  {
    hide ParseLine, DoLine;
  }
}
