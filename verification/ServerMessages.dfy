// Messages that http_server's parser reads back, and the reads that break it.
module ServerMessages {
  import opened Common
  import opened HttpCodes
  import opened HttpServer
  import CStrings
  import Response

  // ---------- splitting into lines ----------

  function Join(lines: seq<string>): string
    requires lines != []
  {
    if |lines| == 1 then lines[0] else lines[0] + CRLF + Join(lines[1..])
  }

  ghost predicate Without(s: string, t: string) {
    forall k: nat :: !At(s, t, k)
  }

  lemma {:induction false} JoinSplit(s: string)
    ensures Join(Split(s)) == s
    ensures forall line :: line in Split(s) ==> Without(line, CRLF)
    decreases |s|
  {
    hide Find;
    var p := Find(s, CRLF, 0);
    if p.None? {
    } else {
      JoinSplit(s[p.value + 2..]);
      assert s == s[..p.value] + CRLF + s[p.value + 2..];
      assert Split(s)[1..] == Split(s[p.value + 2..]);
      forall k: nat
        ensures !At(s[..p.value], CRLF, k)
      {
        if k + 2 <= p.value {
          assert s[..p.value][k..k + 2] == s[k..k + 2];
          assert !At(s, CRLF, k);
        }
      }
    }
  }

  lemma {:induction false} SplitJoin(lines: seq<string>)
    requires lines != [] && forall line :: line in lines ==> Without(line, CRLF)
    ensures Split(Join(lines)) == lines
    decreases |lines|
  {
    hide Find, Split;
    var s := Join(lines);
    SplitStep(s);
    if |lines| == 1 {
      assert Without(lines[0], CRLF);
    } else {
      var rest := Join(lines[1..]);
      assert Without(lines[0], CRLF);
      FirstCrlf(lines[0], rest);
      assert s[..|lines[0]|] == lines[0] && s[|lines[0]| + 2..] == rest;
      SplitJoin(lines[1..]);
    }
  }

  lemma FirstCrlf(line: string, rest: string)
    requires Without(line, CRLF)
    ensures Find(line + CRLF + rest, CRLF, 0) == Some(|line|)
  {
    hide Find;
    var s := line + CRLF + rest;
    assert At(s, CRLF, |line|);
    forall k: nat | k < |line|
      ensures !At(s, CRLF, k)
    {
      if k + 1 < |line| {
        assert s[k..k + 2] == line[k..k + 2];
        assert !At(line, CRLF, k);
      } else {
        assert s[k..k + 2][1] == '\r';
      }
    }
  }

  // ---------- fields ----------

  function FieldOf(line: string): Option<(string, string)> {
    match Find(line, ": ", 0)
    case None => None
    case Some(c) => Some((Lowered(line[..c]), line[c + 2..]))
  }

  ghost predicate FirstWith(lines: seq<string>, key: string, i: nat) {
    && i < |lines| && FieldOf(lines[i]).Some? && FieldOf(lines[i]).value.0 == key
    && forall j :: 0 <= j < i ==> FieldOf(lines[j]).None? || FieldOf(lines[j]).value.0 != key
  }

  // The value of a key is that of the first line that has it.
  lemma {:induction false} FirstKeyWins(keys: Keys, lines: seq<string>, key: string)
    ensures key in InsertAll(keys, lines) <==> key in keys || exists i: nat :: FirstWith(lines, key, i)
    ensures key in keys ==> key in InsertAll(keys, lines) && InsertAll(keys, lines)[key] == keys[key]
    ensures forall i: nat :: key !in keys && FirstWith(lines, key, i) ==>
      key in InsertAll(keys, lines) && InsertAll(keys, lines)[key] == FieldOf(lines[i]).value.1
    decreases |lines|
  {
    if lines == [] {
    } else {
      hide Find, Lowered;
      var rest := lines[1..];
      var keys' := Insert(keys, lines[0]);
      FirstKeyWins(keys', rest, key);
      var here := FieldOf(lines[0]).Some? && FieldOf(lines[0]).value.0 == key;
      if here {
        assert FirstWith(lines, key, 0);
      } else {
        forall i: nat
          ensures FirstWith(rest, key, i) <==> FirstWith(lines, key, i + 1)
        {
          Shifted(lines, key, i);
        }
      }
      forall i: nat | FirstWith(lines, key, i)
        ensures here ==> i == 0
        ensures !here ==> 0 < i && FirstWith(rest, key, i - 1)
      {
        if !here && 0 < i {
          Shifted(lines, key, i - 1);
        }
      }
    }
  }

  lemma Shifted(lines: seq<string>, key: string, i: nat)
    requires lines != [] && (FieldOf(lines[0]).None? || FieldOf(lines[0]).value.0 != key)
    ensures FirstWith(lines[1..], key, i) <==> FirstWith(lines, key, i + 1)
  {
    hide FieldOf;
    var rest := lines[1..];
    assert forall j :: 0 <= j < |rest| ==> rest[j] == lines[j + 1];
    if FirstWith(rest, key, i) {
      forall j | 0 <= j < i + 1
        ensures FieldOf(lines[j]).None? || FieldOf(lines[j]).value.0 != key
      {
        if 0 < j {
          assert lines[j] == rest[j - 1];
        }
      }
    }
  }

  // ---------- the end of the header block ----------

  // Header lines as they are printed: none empty, no CR inside.
  ghost predicate Good(lines: seq<string>) {
    lines != [] && forall line :: line in lines ==> line != "" && '\r' !in line
  }

  function Message(lines: seq<string>, body: string): string
    requires lines != []
  {
    Join(lines) + BLANK + body
  }

  lemma AtShift(a: string, b: string, t: string, k: nat)
    ensures At(a + b, t, |a| + k) <==> At(b, t, k)
  {
    if k + |t| <= |b| {
      assert (a + b)[|a| + k..|a| + k + |t|] == b[k..k + |t|];
    }
  }

  lemma NoBlankHere(s: string, k: nat)
    requires k + 4 <= |s| && (s[k] != '\r' || s[k + 2] != '\r')
    ensures !At(s, BLANK, k)
  {
    assert s[k..k + 4][0] == s[k] && s[k..k + 4][2] == s[k + 2];
  }

  lemma JoinStarts(lines: seq<string>)
    requires Good(lines)
    ensures Join(lines) != "" && Join(lines)[0] != '\r'
  {
    assert lines[0] in lines;
  }

  lemma {:induction false} NoBlankInside(lines: seq<string>, rest: string, k: nat)
    requires Good(lines) && k < |Join(lines)|
    ensures !At(Join(lines) + BLANK + rest, BLANK, k)
    decreases |lines|
  {
    var line := lines[0];
    assert line in lines;
    var s := Join(lines) + BLANK + rest;
    if k < |line| {
      assert s[k] == line[k] && line[k] in line;
      NoBlankHere(s, k);
    } else {
      var more := lines[1..];
      var tail := Join(more) + BLANK + rest;
      assert forall l :: l in more ==> l in lines;
      JoinStarts(more);
      assert s == (line + CRLF) + tail;
      if k < |line| + 2 {
        assert s[|line| + 1] == '\n' && s[|line| + 2] == tail[0] == Join(more)[0];
        NoBlankHere(s, k);
      } else {
        NoBlankInside(more, rest, k - |line| - 2);
        AtShift(line + CRLF, tail, BLANK, k - |line| - 2);
      }
    }
  }

  lemma BlankFound(lines: seq<string>, rest: string)
    requires Good(lines)
    ensures Find(Join(lines) + BLANK + rest, BLANK, 0) == Some(|Join(lines)|)
  {
    hide Find, Join;
    var s := Join(lines) + BLANK + rest;
    assert s[|Join(lines)|..|Join(lines)| + 4] == BLANK;
    assert At(s, BLANK, |Join(lines)|);
    forall k: nat | k < |Join(lines)|
      ensures !At(s, BLANK, k)
    {
      NoBlankInside(lines, rest, k);
    }
  }

  lemma GoodLines(lines: seq<string>)
    requires Good(lines)
    ensures Split(Join(lines)) == lines && HeadingLine(Join(lines)) == lines[0]
  {
    hide Find, Split, Join;
    forall line, k: nat | line in lines
      ensures !At(line, CRLF, k)
    {
      if k + 2 <= |line| {
        assert line[k..k + 2][0] == line[k] && line[k] in line;
      }
    }
    forall line | line in lines
      ensures Without(line, CRLF)
    {
    }
    SplitJoin(lines);
    SplitStep(Join(lines));
  }

  // ---------- reading in chunks ----------

  // The fields say how long the body is.
  ghost predicate Complete(lines: seq<string>, body: string) {
    Good(lines) && ContentLength(InsertAll(map[], lines[1..])) == Some(|body|)
  }

  // The parser once the header block and this part of the body have arrived.
  function Reading(lines: seq<string>, body: string, part: string): Parser
    requires lines != []
  {
    Parser(HttpServer.Head(Join(lines), lines[0], part, InsertAll(map[], lines[1..]), true), |body|, |body| <= |part|)
  }

  // At most n bytes of what has arrived behind the header block.
  function Taken(part: string, n: nat): string {
    if |part| <= n then part else part[..n]
  }

  lemma FirstChunk(lines: seq<string>, body: string, part: string)
    requires Complete(lines, body)
    ensures Push(INIT, Message(lines, part)) == Some(Reading(lines, body, Taken(part, |body|)))
  {
    hide Find, Split, Join, HeadingLine, ContentLength, InsertAll;
    var s := Message(lines, part);
    BlankFound(lines, part);
    GoodLines(lines);
    assert "" + s == s && "" + part == part;
    assert s[..|Join(lines)|] == Join(lines) && s[|Join(lines)| + 4..] == part;
    if |part| >= |body| {
      assert part[..|body|] == Taken(part, |body|);
    }
  }

  lemma NextChunk(lines: seq<string>, body: string, part: string, chunk: string)
    requires Complete(lines, body)
    ensures Push(Reading(lines, body, Taken(part, |body|)), chunk) ==
      Some(Reading(lines, body, Taken(part + chunk, |body|)))
  {
    hide Join, ContentLength, InsertAll;
    var all := Taken(part, |body|) + chunk;
    if |all| >= |body| {
      assert all[..|body|] == Taken(part + chunk, |body|);
    } else {
      assert all == part + chunk;
    }
  }

  lemma NothingYet()
    ensures Push(INIT, "") == Some(INIT)
  {
    assert |BLANK| == 4;
  }

  // No read ends inside the first n bytes: the first one that brings anything
  // brings them all.
  ghost predicate Covers(chunks: seq<string>, n: nat) {
    forall i :: 0 <= i <= |chunks| ==> Received(chunks[..i]) == "" || n <= |Received(chunks[..i])|
  }

  lemma CoversPrefix(chunks: seq<string>, n: nat)
    requires Covers(chunks, n) && chunks != []
    ensures Covers(chunks[..|chunks| - 1], n)
    ensures Received(chunks) == "" || n <= |Received(chunks)|
  {
    var front := chunks[..|chunks| - 1];
    forall i | 0 <= i <= |front|
      ensures Received(front[..i]) == "" || n <= |Received(front[..i])|
    {
      assert front[..i] == chunks[..i];
    }
    assert chunks[..|chunks|] == chunks;
  }

  function HeadSize(lines: seq<string>): nat
    requires lines != []
  {
    |Join(lines)| + 4
  }

  // The parser once this much has arrived, nothing or at least the header block.
  function StateAt(lines: seq<string>, body: string, got: string): Parser
    requires lines != []
    requires got == "" || HeadSize(lines) <= |got|
  {
    if got == "" then INIT else Reading(lines, body, Taken(got[HeadSize(lines)..], |body|))
  }

  lemma PushOn(lines: seq<string>, body: string, more: string, before: string, last: string)
    requires Complete(lines, body) && before + last <= Message(lines, body + more)
    requires before == "" || HeadSize(lines) <= |before|
    requires before + last == "" || HeadSize(lines) <= |before + last|
    ensures Push(StateAt(lines, body, before), last) == Some(StateAt(lines, body, before + last))
  {
    CompleteIsGood(lines, body);
    hide Join, Complete, Good, Push, Taken, Reading;
    var n, w, got := HeadSize(lines), Message(lines, body + more), before + last;
    if got == "" {
      NothingYet();
    } else if before == "" {
      assert got == last == w[..n] + last[n..] && w[..n] == Join(lines) + BLANK;
      FirstChunk(lines, body, got[n..]);
    } else {
      assert got[n..] == before[n..] + last;
      NextChunk(lines, body, before[n..], last);
    }
  }

  // Printer and parser: after any reads that cover the header block the parser
  // holds exactly the header, its fields and the part of the body received, and
  // is finished exactly when the whole body has arrived; whatever follows the
  // body is cut off. The body may contain anything, blank lines included.
  lemma {:induction false} ReadBack(lines: seq<string>, body: string, more: string, chunks: seq<string>)
    requires Complete(lines, body) && Covers(chunks, HeadSize(lines))
    requires Received(chunks) <= Message(lines, body + more)
    ensures Received(chunks) == "" || HeadSize(lines) <= |Received(chunks)|
    ensures PushAll(INIT, chunks) == Some(StateAt(lines, body, Received(chunks)))
    ensures Received(chunks) != "" ==>
      var part := Taken(Received(chunks)[HeadSize(lines)..], |body|);
      part <= body && (part == body <==> Message(lines, body) <= Received(chunks))
    decreases |chunks|
  {
    CompleteIsGood(lines, body);
    hide Join, Complete, Push, Covers, Message, StateAt, Taken, HeadSize;
    if chunks == [] {
      assert StateAt(lines, body, "") == INIT by { NothingAt(lines, body); }
    } else {
      var front, last := chunks[..|chunks| - 1], chunks[|chunks| - 1];
      CoversPrefix(chunks, HeadSize(lines));
      Prefix(Received(front), last, Message(lines, body + more));
      ReadBack(lines, body, more, front);
      PushOn(lines, body, more, Received(front), last);
      if Received(chunks) != "" {
        TakenPart(lines, body, more, Received(chunks));
      }
    }
  }

  lemma NothingAt(lines: seq<string>, body: string)
    requires lines != []
    ensures StateAt(lines, body, "") == INIT
  {
  }

  // How much of the body is there.
  lemma TakenPart(lines: seq<string>, body: string, more: string, got: string)
    requires Good(lines) && got <= Message(lines, body + more) && HeadSize(lines) <= |got|
    ensures var part := Taken(got[HeadSize(lines)..], |body|);
      part <= body && (part == body <==> Message(lines, body) <= got)
  {
    hide Join;
    var w, n, rest := Message(lines, body + more), HeadSize(lines), got[HeadSize(lines)..];
    Tail(got, w, n);
    assert w[n..] == body + more;
    assert w == Message(lines, body) + more;
    assert Taken(rest, |body|) <= body by {
      assert rest == (body + more)[..|rest|];
    }
    if |rest| >= |body| {
      assert Message(lines, body) == w[..|Message(lines, body)|];
    }
  }

  lemma Prefix(a: string, b: string, w: string)
    requires a + b <= w
    ensures a <= w
  {
    assert w[..|a|] == (a + b)[..|a|] == a;
  }

  lemma Tail(got: string, w: string, n: nat)
    requires got <= w && n <= |got|
    ensures got[n..] <= w[n..]
    ensures |got| == |w| ==> got == w
  {
    assert w[..|got|][n..] == w[n..][..|got| - n];
  }

  // ---------- a header block in pieces ----------

  function Block(lines: seq<string>): string
    requires lines != []
  {
    Join(lines) + BLANK
  }

  // The first k bytes of the block come again right behind themselves, as far
  // as the block reaches.
  predicate Echoes(block: string, k: nat) {
    0 < k < |block| && (if 2 * k <= |block| then block[k..2 * k] == block[..k] else block[k..] == block[..|block| - k])
  }

  // The first read that brought anything.
  function FirstPiece(chunks: seq<string>): string
    decreases |chunks|
  {
    if chunks == [] then ""
    else
      var front := chunks[..|chunks| - 1];
      if Received(front) == "" then chunks[|chunks| - 1] else FirstPiece(front)
  }

  // A first piece c went in twice, or the header was cut out of what that made.
  ghost predicate Spoiled(h: Head, c: string, header: string) {
    if h.finished then h.header != header else c + c <= h.header
  }

  // Nothing shorter than the block holds a blank line.
  lemma NoBlankYet(lines: seq<string>, body: string, c: string)
    requires Good(lines) && |c| < HeadSize(lines) && c <= Message(lines, body)
    ensures Find(c, BLANK, 0) == None
  {
    hide Find, Join;
    var w := Message(lines, body);
    forall k: nat
      ensures !At(c, BLANK, k)
    {
      if k + 4 <= |c| {
        NoBlankInside(lines, body, k);
        assert c[k..k + 4] == w[k..k + 4] by { assert w[..|c|] == c; }
      }
    }
  }

  lemma SpoilStarts(lines: seq<string>, body: string, c: string)
    requires Good(lines) && c != "" && |c| < HeadSize(lines) && c <= Message(lines, body)
    ensures Push(INIT, c) == Some(Parser(HttpServer.Head(c + c, "", "", map[], false), 0, false))
  {
    hide Find, Join;
    assert "" + c == c;
    NoBlankYet(lines, body, c);
  }

  // In what starts with a piece twice, the header is found only if the piece
  // comes twice in the block.
  lemma FoundOnlyInEcho(s: string, c: string, header: string)
    requires c <= header + BLANK && 0 < |c| < |header| + 4 && c + c <= s
    requires Find(s, BLANK, 0) == Some(|header|) && s[..|header|] == header
    ensures Echoes(header + BLANK, |c|)
  {
    hide Find;
    var block, k := header + BLANK, |c|;
    assert s[..|block|] == s[..|header|] + s[|header|..|header| + 4] == block;
    TwiceIsEcho(s, block, k);
  }

  lemma TwiceIsEcho(s: string, block: string, k: nat)
    requires 0 < k < |block| && block <= s && block[..k] + block[..k] <= s
    ensures Echoes(block, k)
  {
    var c := block[..k];
    var e := if 2 * k <= |block| then 2 * k else |block|;
    forall i | k <= i < e
      ensures block[i] == block[i - k]
    {
      assert block[i] == s[i] == (c + c)[i] == c[i - k];
    }
  }

  lemma SpoilStays(p: Parser, c: string, header: string, chunk: string)
    requires c <= header + BLANK && 0 < |c| < |header| + 4 && !Echoes(header + BLANK, |c|) && Spoiled(p.head, c, header)
    ensures var r := Push(p, chunk); r.Some? ==> Spoiled(r.value.head, c, header)
  {
    hide Find, Split, InsertAll, ContentLength, HeadingLine, Echoes;
    if !p.head.finished {
      var s := p.head.header + chunk;
      assert s[..|c + c|] == p.head.header[..|c + c|];
      if Find(s, BLANK, 0) == Some(|header|) && s[..|header|] == header {
        FoundOnlyInEcho(s, c, header);
      }
      assert (s + chunk)[..|c + c|] == s[..|c + c|];
    }
  }

  // Reads that do not cover the block: the first piece spoils the header for good.
  lemma {:induction false} SpoiledForever(lines: seq<string>, body: string, chunks: seq<string>)
    requires Good(lines) && !Echoes(Block(lines), |FirstPiece(chunks)|)
    requires Received(chunks) <= Message(lines, body) && !Covers(chunks, HeadSize(lines))
    ensures var c := FirstPiece(chunks); c != "" && |c| < HeadSize(lines) && c <= Block(lines)
    ensures var r := PushAll(INIT, chunks); r.Some? ==> Spoiled(r.value.head, FirstPiece(chunks), Join(lines))
    decreases |chunks|
  {
    assert lines != [];
    hide Join, Push, Spoiled, Good, Echoes;
    var n, w := HeadSize(lines), Message(lines, body);
    if chunks == [] {
      assert false;
    } else {
      var front, last := chunks[..|chunks| - 1], chunks[|chunks| - 1];
      Prefix(Received(front), last, w);
      if Covers(front, n) {
        LastBreaks(chunks, n);
        NothingSo(lines, body, front);
        assert Received(chunks) == last;
        SpoilStarts(lines, body, last);
        assert last == w[..|last|] == Block(lines)[..|last|];
        SpoiledNow(last, Join(lines));
      } else {
        NotNothing(front, n);
        SpoiledForever(lines, body, front);
        var r := PushAll(INIT, front);
        if r.Some? {
          SpoilStays(r.value, FirstPiece(front), Join(lines), last);
        }
      }
    }
  }

  lemma {:induction false} NotNothing(chunks: seq<string>, n: nat)
    requires !Covers(chunks, n)
    ensures Received(chunks) != ""
    decreases |chunks|
  {
    if Received(chunks) == "" {
      assert chunks[..|chunks|] == chunks;
      if chunks != [] {
        var front := chunks[..|chunks| - 1];
        if Covers(front, n) {
          LastBreaks(chunks, n);
        } else {
          NotNothing(front, n);
        }
      }
    }
  }

  lemma SpoiledNow(c: string, header: string)
    ensures Spoiled(HttpServer.Head(c + c, "", "", map[], false), c, header)
  {
  }

  // Only the last read brought the stream to a length inside the block.
  lemma LastBreaks(chunks: seq<string>, n: nat)
    requires chunks != [] && !Covers(chunks, n) && Covers(chunks[..|chunks| - 1], n)
    ensures Received(chunks) != "" && |Received(chunks)| < n && Received(chunks[..|chunks| - 1]) == ""
  {
    var front := chunks[..|chunks| - 1];
    forall i | 0 <= i < |chunks|
      ensures Received(chunks[..i]) == "" || n <= |Received(chunks[..i])|
    {
      assert front[..i] == chunks[..i];
    }
    var i :| 0 <= i <= |chunks| && Received(chunks[..i]) != "" && |Received(chunks[..i])| < n;
    assert i == |chunks|;
    assert chunks[..i] == chunks && front[..|front|] == front;
  }

  lemma {:induction false} NothingSo(lines: seq<string>, body: string, chunks: seq<string>)
    requires Received(chunks) == ""
    ensures PushAll(INIT, chunks) == Some(INIT)
    decreases |chunks|
  {
    if chunks == [] {
    } else {
      NothingSo(lines, body, chunks[..|chunks| - 1]);
      NothingYet();
    }
  }

  ghost predicate HeaderRead(r: Option<Parser>, header: string) {
    r.Some? && r.value.head.finished && r.value.head.header == header
  }

  // A piece of the header is stored twice. So the header is what was printed
  // exactly when the first bytes that arrive are the whole header block, for
  // any reads whose first piece does not come again right behind itself.
  lemma RawHeaderExactly(lines: seq<string>, body: string, chunks: seq<string>)
    requires Complete(lines, body) && Received(chunks) == Message(lines, body)
    ensures Covers(chunks, HeadSize(lines)) ==> HeaderRead(PushAll(INIT, chunks), Join(lines))
    ensures HeaderRead(PushAll(INIT, chunks), Join(lines)) ==>
      Covers(chunks, HeadSize(lines)) || Echoes(Block(lines), |FirstPiece(chunks)|)
  {
    hide Join, Echoes, PushAll, Received, Covers, InsertAll, FirstPiece;
    if Covers(chunks, HeadSize(lines)) {
      ReadAll(lines, body, chunks);
    } else if !Echoes(Block(lines), |FirstPiece(chunks)|) {
      SpoiledForever(lines, body, chunks);
      var r := PushAll(INIT, chunks);
      if r.Some? {
        NotRead(r.value.head, FirstPiece(chunks), Join(lines));
      }
    }
  }

  // The same without anything behind the body.
  lemma ReadAll(lines: seq<string>, body: string, chunks: seq<string>)
    requires Complete(lines, body) && Covers(chunks, HeadSize(lines)) && Received(chunks) <= Message(lines, body)
    ensures Received(chunks) == "" || HeadSize(lines) <= |Received(chunks)|
    ensures var got := Received(chunks);
      PushAll(INIT, chunks) == Some(if got == "" then INIT else Reading(lines, body, got[HeadSize(lines)..]))
    ensures Received(chunks) != "" ==> (Reading(lines, body, Received(chunks)[HeadSize(lines)..]).bodyFinished <==>
      Received(chunks) == Message(lines, body))
  {
    hide PushAll, Covers, Received, Complete, Join;
    assert body + "" == body;
    CompleteIsGood(lines, body);
    ReadBack(lines, body, "", chunks);
    if Received(chunks) != "" {
      Tail(Received(chunks), Message(lines, body), HeadSize(lines));
      assert Message(lines, body)[HeadSize(lines)..] == body;
    }
  }

  lemma CompleteIsGood(lines: seq<string>, body: string)
    requires Complete(lines, body)
    ensures Good(lines)
  {
  }

  lemma NotRead(h: Head, c: string, header: string)
    requires Spoiled(h, c, header)
    ensures !(h.finished && h.header == header)
  {
  }

  // The block begins with t, and t does not come again in it.
  ghost predicate OpensOnce(block: string, t: string) {
    && t != "" && t <= block && '\n' !in t
    && (forall i :: 0 < i < |t| ==> t[i] != t[0])
    && (forall k: nat :: 0 < k ==> !At(block, t, k))
  }

  lemma NoEcho(block: string, t: string, k: nat)
    requires OpensOnce(block, t) && block[|block| - 1] == '\n'
    ensures !Echoes(block, k)
  {
    if 0 < k < |block| {
      var n := if 2 * k <= |block| then k else |block| - k;
      var again := block[k..k + n];
      assert block[..|t|] == t;
      assert again[0] == block[k];
      if |t| <= k && |t| <= n {
        assert !At(block, t, k);
        assert again[..|t|] == block[k..k + |t|];
        assert block[..n][..|t|] == t;
      } else if |t| <= k {
        assert again[n - 1] == block[|block| - 1];
        assert block[..n][n - 1] == t[n - 1] && t[n - 1] in t;
      } else {
        assert block[k] == t[k] && block[..n][0] == t[0];
      }
    }
  }

  // So for a request the reads decide alone, unless its method name and blank
  // come again in the header.
  lemma OpenedOnceExactly(lines: seq<string>, body: string, chunks: seq<string>, t: string)
    requires Complete(lines, body) && Received(chunks) == Message(lines, body) && OpensOnce(Block(lines), t)
    ensures HeaderRead(PushAll(INIT, chunks), Join(lines)) <==> Covers(chunks, HeadSize(lines))
  {
    hide Join, Echoes, PushAll, Received, Covers, InsertAll, FirstPiece, OpensOnce;
    NoEcho(Block(lines), t, |FirstPiece(chunks)|);
    RawHeaderExactly(lines, body, chunks);
  }

  const ECHO_LINES := ["a", "a", "aa"]
  const ECHO_READS := ["a\r\n", "a", "\r\n", "aa\r\n\r\n"]

  // An echo is no idle exception: stored twice, the pieces of this message make
  // up its header although the first read has not brought the block.
  lemma EchoHidesTheLoss()
    ensures Complete(ECHO_LINES, "") && Received(ECHO_READS) == Message(ECHO_LINES, "")
    ensures HeaderRead(PushAll(INIT, ECHO_READS), Join(ECHO_LINES))
    ensures !Covers(ECHO_READS, HeadSize(ECHO_LINES))
  {
    hide PushAll, Received, HeaderRead, InsertAll, ContentLength, Complete, Covers, Join;
    EchoComplete();
    var c0, c1, c2, c3 := ECHO_READS[0], ECHO_READS[1], ECHO_READS[2], ECHO_READS[3];
    assert ECHO_READS == [c0, c1, c2, c3];
    EchoPushed(c0, c1, c2, c3);
    assert c0 + c1 + c2 + c3 == Message(ECHO_LINES, "");
    EchoEnds(c3);
    EchoUncovered(c0);
  }

  lemma EchoPushed(c0: string, c1: string, c2: string, c3: string)
    requires c0 + c0 + c1 + c1 == Join(ECHO_LINES) && c2 == CRLF && c0 + c0 + c1 < Block(ECHO_LINES) &&
      c0 < Block(ECHO_LINES)
    ensures PushAll(INIT, [c0, c1, c2, c3]) == Push(Unfinished(Block(ECHO_LINES)), c3)
    ensures Received([c0, c1, c2, c3]) == c0 + c1 + c2 + c3
  {
    hide Push, PushAll, Received, Join;
    var h := Join(ECHO_LINES);
    assert BLANK == c2 + c2;
    assert h + c2 + c2 == Block(ECHO_LINES);
    assert [] + [c0] == [c0] && [c0] + [c1] == [c0, c1] && [c0, c1] + [c2] == [c0, c1, c2];
    assert [c0, c1, c2] + [c3] == [c0, c1, c2, c3];
    PushMore([], c0);
    PushMore([c0], c1);
    PushMore([c0, c1], c2);
    PushMore([c0, c1, c2], c3);
    NothingPushed();
    assert "" + c0 == c0 && "" + c0 + c0 == c0 + c0;
    EchoStored("", c0);
    EchoStored(c0 + c0, c1);
    EchoStored(h, c2);
  }

  lemma NothingPushed()
    ensures PushAll(INIT, []) == Some(Unfinished("")) && Received([]) == ""
  {
  }

  // The parser with this much of a header, unfinished.
  function Unfinished(header: string): Parser {
    INIT.(head := NO_HEAD.(header := header))
  }

  lemma EchoStored(header: string, chunk: string)
    requires header + chunk <= Block(ECHO_LINES) && |header + chunk| < |Block(ECHO_LINES)|
    ensures Push(Unfinished(header), chunk) == Some(Unfinished(header + chunk + chunk))
  {
    hide Find, Join;
    EchoComplete();
    assert Message(ECHO_LINES, "") == Block(ECHO_LINES);
    NoBlankYet(ECHO_LINES, "", header + chunk);
  }

  lemma EchoEnds(chunk: string)
    ensures var r := Push(Unfinished(Block(ECHO_LINES)), chunk); HeaderRead(r, Join(ECHO_LINES))
  {
    hide Find, Join, Split, HeadingLine;
    EchoComplete();
    BlankFound(ECHO_LINES, chunk);
    GoodLines(ECHO_LINES);
    var s := Block(ECHO_LINES) + chunk;
    assert s[..|Join(ECHO_LINES)|] == Join(ECHO_LINES);
  }

  lemma EchoUncovered(c0: string)
    requires ECHO_READS[0] == c0 && |c0| == 3
    ensures !Covers(ECHO_READS, HeadSize(ECHO_LINES))
  {
    assert ECHO_READS[..1] == [] + [c0];
    PushMore([], c0);
    assert |Received(ECHO_READS[..1])| == 3 && HeadSize(ECHO_LINES) == 12;
  }

  lemma EchoComplete()
    ensures Join(ECHO_LINES) == "a\r\na\r\naa" && Complete(ECHO_LINES, "")
  {
    hide Find;
    var rest := ECHO_LINES[1..];
    assert rest == ["a", "aa"] && rest[1..] == ["aa"];
    forall line, k: nat | line in ECHO_LINES
      ensures !At(line, ": ", k)
    {
      if k + 2 <= |line| {
        assert line[k..k + 2][0] == line[k] == 'a';
      }
    }
    assert Find("a", ": ", 0) == None && Find("aa", ": ", 0) == None;
    assert InsertAll(map[], rest) == InsertAll(map[], rest[1..]) == InsertAll(map[], rest[1..][1..]);
  }

  lemma PushMore(front: seq<string>, last: string)
    ensures Received(front + [last]) == Received(front) + last
    ensures PushAll(INIT, front + [last]) == match PushAll(INIT, front) case None => None case Some(q) => Push(q, last)
  {
    assert (front + [last])[..|front|] == front;
  }

  // ---------- the reply that main writes ----------

  const STATUS := "HTTP/1.1 200 ok"
  const SERVER := "Server: proanimer"
  const CONNECTION := "Connection: close"
  const LENGTH := "Content-length: "

  function Reply(body: string): string {
    STATUS + CRLF + SERVER + CRLF + CONNECTION + CRLF + LENGTH + Response.Decimal(|body|) + CRLF + CRLF + body
  }

  function ReplyLines(n: nat): seq<string> {
    [STATUS, SERVER, CONNECTION, LENGTH + Response.Decimal(n)]
  }

  lemma ReplyIsMessage(body: string)
    ensures Reply(body) == Message(ReplyLines(|body|), body)
  {
    var last := LENGTH + Response.Decimal(|body|);
    JoinMore(STATUS, [SERVER, CONNECTION, last]);
    JoinMore(SERVER, [CONNECTION, last]);
    JoinMore(CONNECTION, [last]);
    assert ReplyLines(|body|) == [STATUS] + [SERVER, CONNECTION, last];
    assert BLANK == CRLF + CRLF;
  }

  lemma JoinMore(line: string, lines: seq<string>)
    requires lines != []
    ensures Join([line] + lines) == line + CRLF + Join(lines)
  {
  }

  // Letters of the header that are not H, CR, LF.
  ghost predicate Plain(s: string) {
    s != "" && forall c :: c in s ==> c != '\r' && c != '\n' && c != 'H'
  }

  lemma PlainLines(n: nat)
    ensures Plain(SERVER) && Plain(CONNECTION) && Plain(LENGTH + Response.Decimal(n)) && Plain(STATUS[1..]) &&
      STATUS[0] == 'H'
  {
    assert Plain(LENGTH);
    forall c | c in LENGTH + Response.Decimal(n)
      ensures c != '\r' && c != '\n' && c != 'H'
    {
    }
  }

  lemma ReplyGood(n: nat)
    ensures Good(ReplyLines(n))
  {
    hide Response.Decimal;
    PlainLines(n);
    assert STATUS == STATUS[..1] + STATUS[1..];
  }

  lemma {:induction false} FirstIsFirst(lines: seq<string>)
    requires lines != [] && forall line :: line in lines ==> Plain(line)
    ensures forall c :: c in Join(lines) ==> c != 'H'
    decreases |lines|
  {
    assert Plain(lines[0]) by { assert lines[0] in lines; }
    if |lines| == 1 {
    } else {
      assert forall line :: line in lines[1..] ==> line in lines;
      FirstIsFirst(lines[1..]);
      assert forall c :: c in CRLF ==> c != 'H';
    }
  }

  lemma ReplyFirst(n: nat)
    ensures OpensOnce(Block(ReplyLines(n)), "H")
  {
    hide Plain;
    PlainLines(n);
    var lines := ReplyLines(n);
    FirstIsFirst(lines[1..]);
    var rest := Join(lines[1..]);
    PlainChars(STATUS[1..]);
    var j := Join(lines);
    assert j == STATUS + CRLF + rest;
    forall k | 0 < k < |j|
      ensures j[k] != 'H'
    {
      if k < |STATUS| {
        assert j[k] == STATUS[1..][k - 1] && STATUS[1..][k - 1] in STATUS[1..];
      } else if |STATUS| + 2 <= k {
        assert j[k] == rest[k - |STATUS| - 2] && rest[k - |STATUS| - 2] in rest;
      }
    }
    var block := Block(lines);
    forall k: nat | 0 < k < |block|
      ensures !At(block, "H", k)
    {
      assert block[k] == if k < |j| then j[k] else BLANK[k - |j|];
      assert block[k..k + 1][0] == block[k];
    }
    assert block[..1] == "H";
  }

  lemma PlainChars(s: string)
    requires Plain(s)
    ensures forall c :: c in s ==> c != 'H'
  {
  }

  lemma ColonFound(key: string, value: string)
    requires ':' !in key
    ensures Find(key + ": " + value, ": ", 0) == Some(|key|)
  {
    hide Find;
    var s := key + ": " + value;
    assert s[|key|..|key| + 2] == ": ";
    assert At(s, ": ", |key|);
    forall k: nat | k < |key|
      ensures !At(s, ": ", k)
    {
      assert s[k] == key[k] && key[k] in key;
      assert s[k..k + 2][0] == s[k];
    }
  }

  lemma {:induction false} DigitsOnly(s: string)
    requires forall i :: 0 <= i < |s| ==> CStrings.IsDigit(s[i])
    ensures DigitPrefix(s) == s
    decreases |s|
  {
    if s == "" {
    } else {
      DigitsOnly(s[1..]);
      assert s == [s[0]] + s[1..];
    }
  }

  lemma LengthKey(n: nat)
    ensures FieldOf(LENGTH + Response.Decimal(n)) == Some(("content-length", Response.Decimal(n)))
  {
    hide Find;
    var key := "Content-length";
    var line := LENGTH + Response.Decimal(n);
    assert line == key + ": " + Response.Decimal(n);
    ColonFound(key, Response.Decimal(n));
    assert line[..14] == key && line[16..] == Response.Decimal(n);
    assert Lowered(key) == "content-length";
  }

  lemma OtherKeys()
    ensures FieldOf(SERVER).Some? && FieldOf(SERVER).value.0 != "content-length"
    ensures FieldOf(CONNECTION).Some? && FieldOf(CONNECTION).value.0 != "content-length"
  {
    hide Find;
    ColonFound("Server", "proanimer");
    assert SERVER == "Server" + ": " + "proanimer";
    assert |Lowered(SERVER[..6])| == 6;
    ColonFound("Connection", "close");
    assert CONNECTION == "Connection" + ": " + "close";
    assert |Lowered(CONNECTION[..10])| == 10;
  }

  lemma ReplyComplete(body: string)
    requires |body| < SIZE_LIMIT
    ensures Complete(ReplyLines(|body|), body)
  {
    hide FieldOf, Join, Response.Decimal, InsertAll, DigitPrefix;
    var n := |body|;
    ReplyGood(n);
    LengthKey(n);
    OtherKeys();
    var lines := ReplyLines(n)[1..];
    assert lines == [SERVER, CONNECTION, LENGTH + Response.Decimal(n)];
    assert FirstWith(lines, "content-length", 2);
    FirstKeyWins(map[], lines, "content-length");
    DigitsOnly(Response.Decimal(n));
    Response.DecimalRoundTrip(n);
  }

  lemma {:induction false} DigitsFirst(d: string, rest: string)
    requires (forall c :: c in d ==> CStrings.IsDigit(c)) && (rest != "" ==> !CStrings.IsDigit(rest[0]))
    ensures DigitPrefix(d + rest) == d
  {
    if d == "" {
      assert d + rest == rest;
    } else {
      assert (d + rest)[1..] == d[1..] + rest;
      DigitsFirst(d[1..], rest);
    }
  }

  // from_chars reads the digits in front of anything else; it leaves the length
  // unset exactly when there are none or they do not fit 64 bits.
  lemma LengthMeans(keys: Keys, d: string, rest: string)
    requires "content-length" in keys && keys["content-length"] == d + rest
    requires (forall c :: c in d ==> CStrings.IsDigit(c)) && (rest != "" ==> !CStrings.IsDigit(rest[0]))
    ensures var n := Response.ParseDecimal(d);
      && (n.Some? <==> d != "")
      && ContentLength(keys) == if n.Some? && n.value < SIZE_LIMIT then n else None
  {
    DigitsFirst(d, rest);
    DigitsParse(d);
  }

  lemma {:induction false} DigitsParse(d: string)
    requires forall c :: c in d ==> CStrings.IsDigit(c)
    ensures Response.ParseDecimal(d).Some? <==> d != ""
  {
    if |d| <= 1 {
      assert d != "" ==> d[0] in d;
    } else {
      assert d[|d| - 1] in d;
      DigitsParse(d[..|d| - 1]);
    }
  }

  // The client that this server would be: it reads its own reply back, byte for
  // byte, for every body, whatever follows, and any reads that cover the header
  // block.
  lemma ReplyReadBack(body: string, more: string, chunks: seq<string>)
    requires |body| < SIZE_LIMIT && Received(chunks) <= Reply(body) + more && Received(chunks) != ""
    requires Covers(chunks, HeadSize(ReplyLines(|body|)))
    ensures var r := PushAll(INIT, chunks);
      && r.Some? && r.value.head.header == Join(ReplyLines(|body|))
      && (r.value.bodyFinished <==> Reply(body) <= Received(chunks))
      && (r.value.bodyFinished ==> r.value.head.body == body)
  {
    hide Join, Reply, ReplyLines, Complete, Covers, PushAll, Received;
    ReplyIsMessage(body);
    ReplyComplete(body);
    var lines := ReplyLines(|body|);
    GoodReply(|body|);
    assert Message(lines, body) + more == Message(lines, body + more);
    ReadBack(lines, body, more, chunks);
  }

  lemma GoodReply(n: nat)
    ensures ReplyLines(n) != []
  {
  }

  lemma ReplyHeaderExactly(body: string, chunks: seq<string>)
    requires |body| < SIZE_LIMIT && Received(chunks) == Reply(body)
    ensures HeaderRead(PushAll(INIT, chunks), Join(ReplyLines(|body|))) <==>
      Covers(chunks, HeadSize(ReplyLines(|body|)))
  {
    hide Join, Reply, Complete, Covers, PushAll, Received, OpensOnce;
    ReplyIsMessage(body);
    ReplyComplete(body);
    ReplyFirst(|body|);
    OpenedOnceExactly(ReplyLines(|body|), body, chunks, "H");
  }
}
