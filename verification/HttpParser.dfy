/** The parser object: the loops and field updates of the code, each method tied to the function that specifies it. */
module HttpParsing {
  import opened Text
  import opened Request
  import opened Parsing
  import opened ByteMachine

  /** The two while loops that shrink the view from its ends. */
  method Trim(view: string) returns (sv: string)
    ensures sv == Trimmed(view)
  {
    sv := view;
    while sv != "" && Blank(sv[0])
      invariant TrimLeft(sv) == TrimLeft(view)
      decreases |sv|
    {
      sv := sv[1..];
    }
    assert sv == TrimLeft(view);
    while sv != "" && Blank(sv[|sv| - 1])
      invariant TrimRight(sv) == TrimRight(TrimLeft(view))
      decreases |sv|
    {
      sv := sv[..|sv| - 1];
    }
  }

  method ToLower(s: string) returns (str: string)
    ensures str == Lower(s)
  {
    str := s;
    for i := 0 to |s|
      invariant |str| == |s|
      invariant forall k :: 0 <= k < i ==> str[k] == LowerChar(s[k])
      invariant forall k :: i <= k < |s| ==> str[k] == s[k]
    {
      str := str[i := LowerChar(str[i])];
    }
  }

  class HttpParser {
    const reading: Reading
    var state: Phase
    var request: HttpRequest
    var lineBuf: string
    var error: string
    var bodyRemaining: nat
    var maxBodySize: nat

    function View(): Parser
      reads this
    {
      Parser(state, request, lineBuf, error, bodyRemaining, maxBodySize)
    }

    constructor (reading: Reading)
      ensures View() == Fresh(MAX_BODY_SIZE) && this.reading == reading
    {
      this.reading := reading;
      state, request, lineBuf, error, bodyRemaining, maxBodySize :=
          RequestLine, EMPTY_REQUEST, "", "", 0, MAX_BODY_SIZE;
    }

    method SetMaxBodySize(size: nat)
      modifies this
      ensures View() == old(View()).(maxBodySize := size)
    {
      maxBodySize := size;
    }

    /** Only the body limit survives a reset. */
    method Reset()
      modifies this
      ensures View() == Fresh(old(maxBodySize))
    {
      state, request, lineBuf, bodyRemaining, error := RequestLine, EMPTY_REQUEST, "", 0, "";
    }

    method SetError(msg: string)
      modifies this
      ensures View() == Parsing.SetError(old(View()), msg)
    {
      error := msg;
      state := Complete;
    }

    method ConsumeLine(data: string) returns (consumed: nat)
      modifies this
      ensures (View(), consumed) == Parsing.ConsumeLine(reading, old(View()), data)
      ensures consumed <= |data|
    {
      var pos := Find(data, LF);
      if pos == |data| {
        if |lineBuf| + |data| > MAX_HEADER_SIZE {
          SetError(TOO_LONG);
          return 0;
        }
        lineBuf := lineBuf + data;
        return if reading.AsWritten? then |data| else 0;
      }
      consumed := pos + 1;
      var chunk := data[..consumed];
      if |lineBuf| + |chunk| > MAX_HEADER_SIZE {
        SetError(TOO_LONG);
        return 0;
      }
      lineBuf := lineBuf + chunk;
      if lineBuf != "" && lineBuf[|lineBuf| - 1] == LF { lineBuf := lineBuf[..|lineBuf| - 1]; }
      if lineBuf != "" && lineBuf[|lineBuf| - 1] == CR { lineBuf := lineBuf[..|lineBuf| - 1]; }
    }

    method ParseRequestLine(line: string) returns (res: Verdict)
      modifies this
      ensures (View(), res) == Parsing.ParseRequestLine(old(View()), line)
    {
      hide StringToMethod, Find;
      if |line| > MAX_REQUEST_LINE {
        SetError("request line too long");
        return Failed;
      }
      var sp1 := Find(line, SP);
      if sp1 == |line| {
        SetError("malformed request line: missing first SP");
        return Failed;
      }
      var rest := line[sp1 + 1..];
      var sp2 := Find(rest, SP);
      if sp2 == |rest| {
        SetError("malformed request line: missing second SP");
        return Failed;
      }
      request := request.(verb := StringToMethod(line[..sp1]));
      request := request.(path := rest[..sp2]);
      request := request.(version := rest[sp2 + 1..]);
      if request.verb == UNKNOWN {
        SetError("unknown HTTP method");
        return Failed;
      }
      if request.version != "HTTP/1.1" && request.version != "HTTP/1.0" {
        SetError("unsupported HTTP version: " + request.version);
        return Failed;
      }
      state := Headers;
      return NeedMore;
    }

    method ParseHeaderLine(line: string) returns (res: Verdict)
      modifies this
      ensures (View(), res) == Parsing.ParseHeaderLine(old(View()), line)
    {
      hide HttpRequest.ContentLength, Find, Lower, Trimmed;
      if line == "" {
        bodyRemaining := request.ContentLength();
        if bodyRemaining > 0 {
          if bodyRemaining > maxBodySize {
            SetError("body too large");
            return Failed;
          }
          state := Body;
        } else {
          state := Complete;
          return Done;
        }
        return NeedMore;
      }
      if |request.headers| >= MAX_HEADER_COUNT {
        SetError("too many headers");
        return Failed;
      }
      var colon := Find(line, ':');
      if colon == |line| {
        SetError("malformed header: no colon");
        return Failed;
      }
      var name := ToLower(line[..colon]);
      var value := Trim(line[colon + 1..]);
      request := request.(headers := request.headers[name := value]);
      return NeedMore;
    }

    /** Takes what the body still needs from the front of remaining. */
    method ParseBody(remaining: string) returns (res: Verdict, rest: string)
      modifies this
      ensures (View(), res) == Parsing.ParseBody(old(View()), remaining)
      ensures res == NeedMore ==> rest == ""
    {
      var take := if |remaining| < bodyRemaining then |remaining| else bodyRemaining;
      request := request.(body := request.body + remaining[..take]);
      rest := remaining[take..];
      bodyRemaining := bodyRemaining - take;
      if bodyRemaining == 0 {
        state := Complete;
        return Done, rest;
      }
      return NeedMore, rest;
    }

    method Feed(bytes: string) returns (res: Verdict)
      modifies this
      ensures (View(), res) == Parsing.Feed(reading, old(View()), bytes)
      ensures reading.AsDocumented? && Ok(old(View())) ==>
                res == Outcome(Run(old(View()), bytes)) && SameResult(View(), Run(old(View()), bytes))
    {
      hide Parsing.ParseRequestLine, Parsing.ParseHeaderLine, Parsing.ConsumeLine, Parsing.ParseBody;
      if Ok(View()) { FeedIsRun(View(), bytes); }
      var data := bytes;
      while data != "" && !(reading.AsDocumented? && state.Complete?)
        invariant Parsing.Feed(reading, View(), data) == Parsing.Feed(reading, old(View()), bytes)
        decreases |data|
      {
        if state.Body? {
          var verdict, rest := ParseBody(data);
          if verdict != NeedMore { return verdict; }
          data := rest;
          break;
        }
        var consumed := ConsumeLine(data);
        if consumed == 0 { break; }
        data := data[consumed..];

        res := NeedMore;
        if state.RequestLine? {
          res := ParseRequestLine(lineBuf);
        } else if state.Headers? {
          res := ParseHeaderLine(lineBuf);
        }
        lineBuf := "";
        if res != NeedMore { return; }
      }
      return Settled(reading, View());
    }
  }
}
