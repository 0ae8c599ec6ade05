/** The end of a worker's task, and what the client finally reads. */
module Delivery {
  import opened Wrappers
  import opened Text
  import opened Request
  import opened Parsing
  import opened Grammar
  import opened Responses
  import WritePath

  const CONNECTION := "connection"

  /** What a job makes of the handler's answer; None stands for no matching route. */
  function TaskResponse(handled: Option<Response>, keepAlive: bool): Response {
    var r := match handled { case None => ErrorResponse(NotFound, "") case Some(r) => r };
    r.(headers := r.headers[CONNECTION := if keepAlive then "keep-alive" else "close"])
  }

  /** The tail of a submitted job: the connection header, then the descriptor, then the text. */
  method FinishTask(resp: HttpResponse, keepAlive: bool, order: seq<string>) returns (data: string, fd: int, size: nat)
    requires OrderOf(order, TaskResponse(Some(resp.View()), keepAlive).headers)
    modifies resp
    ensures var r := TaskResponse(Some(old(resp.View())), keepAlive);
            && data == Posted(r).Serialized(order) && fd == r.sendfileFd && size == r.sendfileSize
            && resp.View() == Posted(r)
  {
    hide Response.Serialized, ErrorResponse, Lower, OrderOf;
    ConnectionIsLower();
    resp.SetHeader(CONNECTION, if keepAlive then "keep-alive" else "close");
    fd := resp.TakeSendfileFd();
    size := resp.sendfileSize;
    data := resp.Serialize(order);
  }

  lemma ConnectionIsLower()
    ensures Lower(CONNECTION) == CONNECTION && ':' !in CONNECTION && LF !in CONNECTION
  {
    hide Lower;
    assert forall i :: 0 <= i < |CONNECTION| ==> NameChar(CONNECTION[i]);
    LowerFixes(CONNECTION);
  }

  lemma ConnectionIsPrintable(keepAlive: bool)
    ensures Printable(CONNECTION, if keepAlive then "keep-alive" else "close")
  {
    hide Lower;
    ConnectionIsLower();
    var value := if keepAlive then "keep-alive" else "close";
    assert keepAlive ==> value[0] == 'k' && value[|value| - 1] == 'e';
    assert !keepAlive ==> value[0] == 'c' && value[|value| - 1] == 'e';
  }

  lemma TaskIsPrintable(handled: Option<Response>, keepAlive: bool)
    requires handled.Some? ==> AllPrintable(handled.value.headers)
    ensures AllPrintable(TaskResponse(handled, keepAlive).headers)
  {
    ConnectionIsPrintable(keepAlive);
    PlainTextIsPrintable();
    hide Printable;
  }

  /** Bytes that follow the text of a response with an announced length read as the continuation of its body. */
  lemma ReadWithTail(r: Response, order: seq<string>, tail: string)
    requires OrderOf(order, r.headers) && AllPrintable(r.headers) && LENGTH in r.headers && !r.HasSendfile()
    ensures ReadHead(r.Serialized(order) + tail) == Head(r.StatusLine(), r.headers, r.body + tail)
  {
    hide AllPrintable, ReadHead, Join, HeaderBlock;
    var longer := r.(body := r.body + tail);
    ResponseRoundTrip(longer, order);
    var head := r.StatusLine() + CRLF + Join(HeaderBlock(r.headers, order)) + "" + CRLF;
    assert r.Serialized(order) == head + r.body;
    assert longer.Serialized(order) == head + (r.body + tail);
    assert head + r.body + tail == head + (r.body + tail);
  }

  /**
   * A file response end to end, on an idle connection and against any answers of the kernel: as soon as
   * everything owed is sent, the client reads the status line, the headers and a body that ends with the
   * file; the body is the announced one exactly when the handler set no string body beside the file.
   */
  lemma FileResponseDelivered(s: WritePath.Sender, handled: Response, keepAlive: bool, order: seq<string>,
                              scripts: seq<seq<WritePath.Answer>>, files: WritePath.Files)
    requires WritePath.Ok(s) && s.out == "" && s.op.None?
    requires AllPrintable(handled.headers) && handled.HasSendfile() && LENGTH in handled.headers
    requires handled.headers[LENGTH] == Numeral(handled.sendfileSize) && handled.sendfileSize < SIZE_LIMIT
    requires |files(handled.sendfileFd)| == handled.sendfileSize
    requires OrderOf(order, TaskResponse(Some(handled), keepAlive).headers)
    ensures var r := TaskResponse(Some(handled), keepAlive);
            var file := files(r.sendfileFd);
            var queued := WritePath.Respond(s, Posted(r).Serialized(order), r.sendfileFd, r.sendfileSize);
            var t := WritePath.FlushAll(queued, scripts, files).0;
            t.Alive() && t.out == "" && t.op.None? ==>
              && s.wire <= t.wire
              && var head := ReadHead(t.wire[|s.wire|..]);
                 && head == Head(r.StatusLine(), r.headers, r.body + file)
                 && (Announced(head.headers) == Some(|head.rest|) <==> r.body == "")
  {
    hide WritePath.FlushAll, WritePath.Respond, Printable, OrderOf, ReadHead, Numeral, Response.Serialized,
        SizeFromChars;
    var r := TaskResponse(Some(handled), keepAlive);
    var file := files(r.sendfileFd);
    TaskIsPrintable(Some(handled), keepAlive);
    var data := Posted(r).Serialized(order);
    WritePath.OneResponseInFlight(s, data, r.sendfileFd, r.sendfileSize, scripts, files);
    assert file[..|file|] == file;
    ReadWithTail(Posted(r), order, file);
    SizeRoundTrip(r.sendfileSize);
    assert r.headers[LENGTH] == Numeral(r.sendfileSize);
    assert (s.wire + data + file)[|s.wire|..] == data + file;
  }
}
