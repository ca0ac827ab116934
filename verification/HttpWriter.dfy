// The writing half of TinyWebServer's http_conn: the write buffer filled by the
// add_* family, and write, proved against Response and PartialWrite.
module HttpWriter {
  import opened Common
  import opened HttpCodes
  import Response
  import opened ReplyDelivery
  import PartialWrite

  // ---------- from process_write to the last byte ----------

  // process_write leaves the writer in its starting position, with the right
  // counter exactly when the total fits an int.
  lemma ProcessWriteStartsWriter(code: HttpCode, file: string, linger: bool)
    requires Response.Handled(code)
    ensures var q := Response.ProcessWrite("", code, |file|, linger);
      var w := PartialWrite.Start(q.head, if q.file then file else "");
      && q.head != "" && w.count == (if q.file then 2 else 1)
      && (w.toSend == q.bytesToSend <==> w.toSend <= INT_MAX)
  {
    hide Response.ProcessWrite, Response.HeadText, Response.InlineBody, Response.BodySize;
    Response.EverythingFits(code, |file|, linger);
    var q := Response.ProcessWrite("", code, |file|, linger);
    ToInt32Exactly(|q.head| + if q.file then |file| else 0);
  }

  class HttpConnWriter {
    var writeBuf: array<char>
    var writeIdx: nat
    var iv0Base: int
    var iv0Len: int
    var iv1Base: int
    var iv1Len: int
    var ivCount: nat
    var bytesToSend: int
    var bytesHaveSend: int
    var linger: bool

    ghost predicate Valid()
      reads this, writeBuf
    {
      writeBuf.Length == WRITE_BUFFER_SIZE && writeIdx < WRITE_BUFFER_SIZE
    }

    ghost function Text(): string
      requires Valid()
      reads this, writeBuf
    {
      writeBuf[..writeIdx]
    }

    ghost function Writer(): PartialWrite.Writer
      reads this
    {
      PartialWrite.Writer(PartialWrite.Iov(iv0Base, iv0Len), PartialWrite.Iov(iv1Base, iv1Len), ivCount, bytesToSend,
          bytesHaveSend)
    }

    // init for a new request.
    constructor (linger: bool)
      ensures Valid() && fresh(writeBuf) && writeIdx == 0 && bytesToSend == 0 && bytesHaveSend == 0 &&
        this.linger == linger
    {
      writeBuf := new char[WRITE_BUFFER_SIZE](_ => 0 as char);
      writeIdx, bytesToSend, bytesHaveSend := 0, 0, 0;
      iv0Base, iv0Len, iv1Base, iv1Len, ivCount := 0, 0, 0, 0, 0;
      this.linger := linger;
    }

    // vsnprintf into the rest of the buffer: it stores what fits and a final
    // NUL, and the index moves only if everything fitted.
    method AddResponse(s: string) returns (ok: bool)
      requires Valid()
      modifies this`writeIdx, writeBuf
      ensures Valid()
      ensures Response.Buf(ok, Text()) == Response.AddResponse(old(Text()), s)
    {
      if writeIdx >= WRITE_BUFFER_SIZE {
        return false;
      }
      var room := WRITE_BUFFER_SIZE - 1 - writeIdx;
      var stored := if room == 0 then 0 else if |s| < room then |s| else room - 1;
      forall i | 0 <= i < stored {
        writeBuf[writeIdx + i] := s[i];
      }
      if room > 0 {
        writeBuf[writeIdx + stored] := 0 as char;
      }
      assert writeBuf[..writeIdx] == old(writeBuf[..writeIdx]);
      if |s| >= room {
        return false;
      }
      assert writeBuf[writeIdx..writeIdx + |s|] == s;
      assert writeBuf[..writeIdx + |s|] == writeBuf[..writeIdx] + writeBuf[writeIdx..writeIdx + |s|];
      writeIdx := writeIdx + |s|;
      return true;
    }

    method AddStatusLine(status: nat, title: string) returns (ok: bool)
      requires Valid()
      modifies this`writeIdx, writeBuf
      ensures Valid()
      ensures Response.Buf(ok, Text()) == Response.AddStatusLine(old(Text()), status, title)
    {
      ok := AddResponse(Response.StatusLine(status, title) + Response.CRLF);
    }

    method AddHeaders(contentLen: int) returns (ok: bool)
      requires Valid()
      modifies this`writeIdx, writeBuf
      ensures Valid()
      ensures Response.Buf(ok, Text()) == Response.AddHeaders(old(Text()), contentLen, linger)
    {
      ok := AddResponse(Response.LengthLine(contentLen) + Response.CRLF);
      if ok {
        ok := AddResponse(Response.LingerLine(linger) + Response.CRLF);
      }
      if ok {
        ok := AddResponse(Response.CRLF);
      }
    }

    // A page out of the buffer: status line, headers, content.
    method AddPage(code: HttpCode) returns (ok: bool)
      requires Valid()
      modifies this`writeIdx, writeBuf
      ensures Valid()
      ensures var q := Response.Page(old(Text()), code, linger); ok == q.ok && Text() == q.head
    {
      hide Response.StatusLine, Response.LengthLine, Response.LingerLine, Response.Form, Response.Title,
          Response.AddHeaders;
      var _ := AddStatusLine(Response.Status(code), Response.Title(code));
      var _ := AddHeaders(ToInt32(|Response.Form(code)|));
      ok := AddResponse(Response.Form(code));
    }

    method ProcessWrite(code: HttpCode, fileSize: nat) returns (ok: bool)
      requires Valid()
      modifies this, writeBuf
      ensures Valid() && writeBuf == old(writeBuf) && linger == old(linger) && bytesHaveSend == old(bytesHaveSend)
      ensures var q := Response.ProcessWrite(old(Text()), code, fileSize, linger);
        && (!q.file ==> iv1Base == old(iv1Base) && iv1Len == old(iv1Len))
        && ok == q.ok && Text() == q.head
        && (ok && Response.Handled(code) ==>
             && bytesToSend == q.bytesToSend && iv0Base == 0 && iv0Len == |q.head|
             && ivCount == (if q.file then 2 else 1)
             && (q.file ==> iv1Base == 0 && iv1Len == fileSize))
        && (!Response.Handled(code) ==> bytesToSend == old(bytesToSend) && writeIdx == old(writeIdx))
    {
      hide Response.AddHeaders, Response.AddStatusLine, Response.AddResponse, Response.Title, Response.Form;
      match code {
      case INTERNAL_ERROR => ok := AddPage(code);
      case BAD_REQUEST => ok := AddPage(code);
      case FORBIDDEN_REQUEST => ok := AddPage(code);
      case FILE_REQUEST =>
        if fileSize != 0 {
          var _ := AddStatusLine(Response.Status(code), Response.Title(code));
          var _ := AddHeaders(ToInt32(fileSize));
          iv0Base, iv0Len := 0, writeIdx;
          iv1Base, iv1Len := 0, fileSize;
          ivCount := 2;
          bytesToSend := ToInt32(writeIdx + fileSize);
          return true;
        }
        ok := AddPage(code);
      case _ => return true;
      }
      if !ok {
        return false;
      }
      iv0Base, iv0Len := 0, writeIdx;
      ivCount := 1;
      bytesToSend := writeIdx;
    }

    // init after a reply, as far as the writer goes.
    method Reset()
      requires Valid()
      modifies this`bytesToSend, this`bytesHaveSend, this`writeIdx, this`linger, writeBuf
      ensures Valid() && IsReset()
    {
      bytesToSend, bytesHaveSend, writeIdx, linger := 0, 0, 0, false;
      forall i | 0 <= i < WRITE_BUFFER_SIZE {
        writeBuf[i] := 0 as char;
      }
    }

    ghost predicate IsReset()
      requires Valid()
      reads this, writeBuf
    {
      bytesToSend == 0 && bytesHaveSend == 0 && Text() == "" && !linger
    }

    // The loop of write, given what the successive writev calls will return.
    method Loop(results: seq<Writev>) returns (outcome: Outcome)
      modifies this`iv0Base, this`iv0Len, this`iv1Base, this`iv1Len, this`bytesToSend, this`bytesHaveSend
      ensures (Writer(), outcome) == WriteLoop(old(Writer()), writeIdx, results)
    {
      ghost var start := Writer();
      var i := 0;
      while i < |results|
        invariant 0 <= i <= |results|
        invariant WriteLoop(start, writeIdx, results) == WriteLoop(Writer(), writeIdx, results[i..])
      {
        assert results[i..][1..] == results[i + 1..];
        match results[i]
        case Again => return Retry;
        case Failed => return Error;
        case Wrote(n) =>
          bytesHaveSend := bytesHaveSend + n;
          bytesToSend := bytesToSend - n;
          if bytesHaveSend >= iv0Len {
            iv0Len := 0;
            iv1Base, iv1Len := bytesHaveSend - writeIdx, bytesToSend;
          } else {
            iv0Len := iv0Len - bytesHaveSend;
            iv0Base := bytesHaveSend;
          }
          if bytesToSend <= 0 {
            return Complete;
          }
        i := i + 1;
      }
      return Unfinished;
    }

    // write: false closes the connection. A finished reply of a connection that
    // is kept, and a call with nothing to send, start over.
    method Write(results: seq<Writev>) returns (outcome: Outcome, ok: bool)
      requires Valid()
      modifies this, writeBuf
      ensures Valid() && writeBuf == old(writeBuf)
      ensures outcome == WriteCall(old(Writer()), old(writeIdx), results).1
      ensures ok == (outcome == Idle || outcome == Retry || (outcome == Complete && old(linger)))
      ensures if outcome == Idle || (outcome == Complete && old(linger)) then IsReset()
        else
          && Writer() == WriteCall(old(Writer()), old(writeIdx), results).0
          && Text() == old(Text()) && linger == old(linger)
    {
      if bytesToSend == 0 {
        Reset();
        return Idle, true;
      }
      LoopNotIdle(Writer(), writeIdx, results);
      outcome := Loop(results);
      ok := outcome == Retry;
      if outcome == Complete && linger {
        Reset();
        ok := true;
      }
    }

    // The calls of the event loop for one reply.
    method WriteAll(calls: seq<seq<Writev>>) returns (outcome: Outcome, ok: bool)
      requires Valid()
      modifies this, writeBuf
      ensures Valid() && outcome == Calls(old(Writer()), old(writeIdx), calls).1
      ensures ok == (outcome == Idle || outcome == Retry || (outcome == Complete && old(linger)))
      ensures old(bytesToSend) > 0 && Failed !in Used(old(Writer()), old(writeIdx), calls) ==>
        ok || outcome == Unfinished || (outcome == Complete && !old(linger))
    {
      if bytesToSend > 0 {
        CallsEnd(Writer(), writeIdx, calls);
        CallsAreGoing(Writer(), writeIdx, calls);
      }
      outcome, ok := Retry, true;
      ghost var start := Writer();
      var i := 0;
      while i < |calls| && outcome == Retry
        invariant 0 <= i <= |calls| && Valid() && writeBuf == old(writeBuf)
        invariant outcome == Retry ==> writeIdx == old(writeIdx) && linger == old(linger) && ok
        invariant outcome == Retry ==> Calls(start, old(writeIdx), calls) == Calls(Writer(), writeIdx, calls[i..])
        invariant outcome != Retry ==> outcome == Calls(start, old(writeIdx), calls).1
        invariant outcome != Retry ==> ok == (outcome == Idle || (outcome == Complete && old(linger)))
      {
        assert calls[i..][1..] == calls[i + 1..];
        outcome, ok := Write(calls[i]);
        i := i + 1;
      }
    }

    // A reply from process_write to the last call of write: when write is done
    // with it, a client has it.
    method Respond(code: HttpCode, file: string, calls: seq<seq<Writev>>) returns (outcome: Outcome, ok: bool)
      requires Valid() && Text() == "" && bytesHaveSend == 0 && Response.Handled(code)
      modifies this, writeBuf
      ensures Valid()
      ensures var q := Response.ProcessWrite("", code, |file|, old(linger));
        var header, tail, w := q.head, FileOf(q, file), Left(q, file, old(Writer()).iv1);
        && outcome == Calls(w, |header|, calls).1
        && (outcome == Complete && Fair(w, header, tail, calls) && |header| + |tail| <= INT_MAX ==>
             Response.ReadReply(Sent(w, header, tail, Counts(w, |header|, calls)), None) ==
               Response.Reply(Some(|Response.Body(code, file)|), Response.Body(code, file)))
    {
      hide Response.ProcessWrite, Response.ReadReply, Fair, Sent, Counts, Calls;
      ghost var q := Response.ProcessWrite("", code, |file|, linger);
      ghost var w := Left(q, file, Writer().iv1);
      ghost var kept, iv1 := linger, Writer().iv1;
      Response.ProcessWriteNeverFails(code, |file|, linger);
      var _ := ProcessWrite(code, |file|);
      LeftIsPrepared(code, file, kept, iv1);
      assert Writer() == w;
      outcome, ok := WriteAll(calls);
      if outcome == Complete && Fair(w, q.head, FileOf(q, file), calls) && |q.head| + |FileOf(q, file)| <= INT_MAX {
        ReplyIsDelivered(code, file, kept, w, calls);
      }
    }
  }
}
