/** The Socket object of socket.go: its close flag, its session ids, the
    connection handshake of Init, and the dispatch of a read message.
    The websocket itself is not modelled: whether a dial, a write or a
    close succeeds, what the first read returns and what json.Marshal and
    json.Unmarshal produce are parameters. */
module Connection {
  import opened Outcomes
  import opened JsonModel
  import opened Decimal
  import opened Framing
  import opened RandomLetters
  import opened SeqFacts

  /** websocket.TextMessage of gorilla/websocket. */
  const TextMessage: int := 1

  /** An outbound SocketMessage as getSocketMessage builds it, with a []string payload. */
  datatype Outbound = Outbound(m: string, p: seq<string>)

  /** The quote fields every connection subscribes to, after the session id. */
  const DefaultFields: seq<string> := ["lp", "lp_time", "ch", "ch_time"]

  function SessionPrefix(isQuoteSession: bool): string
  {
    if isQuoteSession then "qs_" else "cs_"
  }

  /** generateSessionID: the session kind's prefix and twelve random letters. */
  method GenerateSessionId(isQuoteSession: bool, words: seq<Word>) returns (x: string)
    requires |words| >= 1 && 12 <= |Accepted(Chunks(words))|
    ensures x == SessionPrefix(isQuoteSession) + RandomString(12, words)
  {
    x := "cs_";
    if isQuoteSession {
      x := "qs_";
    }
    var letters := GetRandomString(12, words);
    x := x + letters;
  }

  /** A session id is its kind's three-character prefix and twelve letters. */
  lemma SessionIdFormat(isQuoteSession: bool, words: seq<Word>)
    requires 12 <= |Accepted(Chunks(words))|
    ensures var x := SessionPrefix(isQuoteSession) + RandomString(12, words);
      |x| == 15 && x[..3] == (if isQuoteSession then "qs_" else "cs_") &&
      forall k :: 3 <= k < 15 ==> x[k] in Alphabet
  {
    RandomStringLetters(12, words);
  }

  /** The field list of the "quote_set_fields" message: the quote session
      id, the default fields, then the caller's fields. */
  function FieldList(quoteSessionId: string, fields: seq<string>): seq<string>
  {
    [quoteSessionId] + DefaultFields + fields
  }

  /** The field list has the session id first, then the four default
      fields, then every caller's field in the order given. */
  lemma FieldListLayout(quoteSessionId: string, fields: seq<string>)
    ensures var m := FieldList(quoteSessionId, fields);
      && |m| == 1 + |DefaultFields| + |fields|
      && m[0] == quoteSessionId && m[1..5] == ["lp", "lp_time", "ch", "ch_time"]
      && forall k :: 0 <= k < |fields| ==> m[5 + k] == fields[k]
  {
  }

  /** The list building in sendConnectionSetupMessages: the defaults, then
      one append per caller's field. */
  method SetupFields(quoteSessionId: string, fields: seq<string>) returns (m: seq<string>)
    ensures m == FieldList(quoteSessionId, fields)
  {
    m := [quoteSessionId, "lp", "lp_time", "ch", "ch_time"];
    if |fields| > 0 {
      for k := 0 to |fields|
        invariant m == FieldList(quoteSessionId, fields[..k])
      {
        AppendField(quoteSessionId, fields, k);
        m := m + [fields[k]];
      }
    }
    assert fields[..|fields|] == fields;
  }

  lemma AppendField(quoteSessionId: string, fields: seq<string>, k: nat)
    requires k < |fields|
    ensures FieldList(quoteSessionId, fields[..k]) + [fields[k]] == FieldList(quoteSessionId, fields[..k + 1])
  {
    assert fields[..k + 1] == fields[..k] + [fields[k]];
  }

  /** The four messages sendConnectionSetupMessages sends, in order. */
  function SetupMessages(quoteSessionId: string, chartSessionId: string, fields: seq<string>): seq<Outbound>
  {
    [ Outbound("set_auth_token", ["unauthorized_user_token"]),
      Outbound("chart_create_session", [chartSessionId, ""]),
      Outbound("quote_create_session", [quoteSessionId]),
      Outbound("quote_set_fields", FieldList(quoteSessionId, fields)) ]
  }

  /** What one goroutine started by connectionLoop does with a read message. */
  datatype Reaction = Ignored | Echoed(frame: string) | Parsed(packet: string) | Crashed

  /** A message that is not text is dropped; a keep-alive is written back
      as it came; anything else goes to parsePacket. isKeepAliveMsg panics
      on a message too short for its header scan. */
  function Dispatch(msgType: int, msg: string): Reaction
  {
    if msgType != TextMessage then Ignored
    else
      match IsKeepAlive(msg)
      case Ok(keepAlive) => if keepAlive then Echoed(msg) else Parsed(msg)
      case _ => Crashed
  }

  /** A text frame whose payload starts with '~' is echoed unchanged and
      never reaches parsePacket; a frame with any other non-empty payload
      is handed to parsePacket whole. */
  lemma DispatchFrame(p: string, rest: string)
    requires |p| > 0
    ensures p[0] == '~' ==> Dispatch(TextMessage, EncodeFrame(p) + rest) == Echoed(EncodeFrame(p) + rest)
    ensures p[0] != '~' ==> Dispatch(TextMessage, EncodeFrame(p) + rest) == Parsed(EncodeFrame(p) + rest)
  {
    KeepAliveOfFrame(p, rest);
  }

  /** A text message whose first frame is empty is judged by the byte after
      that frame's header: nothing there is a crash, a '~' an echo, and
      anything else goes to parsePacket. */
  lemma DispatchEmptyFrame(rest: string)
    ensures rest == "" ==> Dispatch(TextMessage, EncodeFrame("") + rest) == Crashed
    ensures rest != "" && rest[0] == '~' ==> Dispatch(TextMessage, EncodeFrame("") + rest) == Echoed(EncodeFrame("") + rest)
    ensures rest != "" && rest[0] != '~' ==> Dispatch(TextMessage, EncodeFrame("") + rest) == Parsed(EncodeFrame("") + rest)
  {
    EmptyFrameKeepAlive(rest);
  }

  /** An empty frame followed by any frame is echoed whole as a keep-alive,
      so none of the frames of that message reach parsePacket. */
  lemma EmptyFirstFrameEchoed(q: string)
    ensures Dispatch(TextMessage, EncodeFrame("") + EncodeFrame(q)) == Echoed(EncodeFrame("") + EncodeFrame(q))
  {
    assert EncodeFrame(q)[0] == '~';
    DispatchEmptyFrame(EncodeFrame(q));
  }

  /** The fields of a Socket, as one value. `hasConn` stands for conn !=
      nil; `connCloses` and `written` count the conn.Close calls and list
      the frames handed to conn.WriteMessage on the current connection;
      `reported` lists the contexts handed to onError, which passes each
      to OnErrorCallback when one is set. */
  datatype SocketState = SocketState(
    isClosed: bool,
    hasConn: bool,
    connCloses: nat,
    written: seq<string>,
    reported: seq<string>,
    hasErrorCallback: bool,
    quoteSessionId: string,
    chartSessionId: string,
    chartSessionName: string)

  /** A result and the state a Socket method leaves behind. */
  datatype After = After(result: Outcome<()>, state: SocketState)

  /** A socket that is not closed has a connection. */
  predicate Valid(st: SocketState)
  {
    !st.isClosed ==> st.hasConn
  }

  /** onError: close the connection if there is one, then report. */
  function OnErrorOf(st: SocketState, context: string): SocketState
  {
    st.(connCloses := st.connCloses + (if st.hasConn then 1 else 0), reported := st.reported + [context])
  }

  /** Init reports a failed step only when an error callback is set. */
  function ReportIfCallback(st: SocketState, context: string): SocketState
  {
    if st.hasErrorCallback then OnErrorOf(st, context) else st
  }

  /** sendSocketMessage once the frame is built: write it; `accepts(k)`
      says whether the k-th write on the connection succeeds. Writing on a
      nil connection panics. */
  function SendOf(st: SocketState, frame: string, accepts: nat -> bool): After
  {
    if !st.hasConn then After(Panicked, st)
    else
      var sent := st.(written := st.written + [frame]);
      if accepts(|st.written|) then After(Ok(()), sent)
      else After(Failed(TransportError), OnErrorOf(sent, SendMessageErrorContext + " - " + frame))
  }

  /** Sending frames in order, stopping at the first that does not succeed. */
  function SendAllOf(st: SocketState, frames: seq<string>, accepts: nat -> bool): After
    decreases |frames|
  {
    if frames == [] then After(Ok(()), st)
    else
      var a := SendOf(st, frames[0], accepts);
      if !a.result.Ok? then a else SendAllOf(a.state, frames[1..], accepts)
  }

  /** The frames sendSocketMessage builds for a list of messages. */
  function Frames(msgs: seq<Outbound>, marshal: Outbound -> string): (r: seq<string>)
  {
    seq(|msgs|, k requires 0 <= k < |msgs| => EncodeFrame(marshal(msgs[k])))
  }

  /** sendConnectionSetupMessages: the first three messages stop at an
      error; the result of the "quote_set_fields" message is ignored. */
  function SetupOf(st: SocketState, fields: seq<string>, marshal: Outbound -> string, accepts: nat -> bool): After
  {
    var frames := Frames(SetupMessages(st.quoteSessionId, st.chartSessionId, fields), marshal);
    var a := SendAllOf(st, frames[..3], accepts);
    if !a.result.Ok? then a
    else
      var b := SendOf(a.state, frames[3], accepts);
      if b.result.Panicked? then b else After(Ok(()), b.state)
  }

  /** checkFirstReceivedMessage: the first message read must decode, from
      its payload start on, to an object with a non-nil "session_id".
      Decoding into a map accepts an object or null; null leaves the map
      nil, so the lookup finds nothing. Slicing past the end panics. */
  function CheckFirstOf(st: SocketState, first: Option<string>, decode: string -> Option<Json>): After
  {
    if !st.hasConn then After(Panicked, st)
    else
      match first
      case None => After(Failed(TransportError), OnErrorOf(st, ReadFirstMessageErrorContext))
      case Some(msg) =>
        match PayloadStart(msg)
        case Ok(k) =>
          if k > |msg| then After(Panicked, st)
          else
            (match decode(msg[k..])
             case None => After(Failed(DecodeError), OnErrorOf(st, DecodeFirstMessageErrorContext))
             case Some(v) =>
               if v.JObject? && !IsNil(v.fields, "session_id") then After(Ok(()), st)
               else if v.JObject? || v.JNull? then
                 After(Failed(HandshakeError), OnErrorOf(st, FirstMessageWithoutSessionIdErrorContext))
               else After(Failed(DecodeError), OnErrorOf(st, DecodeFirstMessageErrorContext)))
        case _ => After(Panicked, st)
  }

  /** Init with the two session ids already drawn: mark the socket closed,
      dial, and go on on the new connection. */
  function InitOf(st: SocketState, fields: seq<string>, quoteId: string, chartId: string, dialOk: bool,
                  first: Option<string>, decode: string -> Option<Json>,
                  marshal: Outbound -> string, accepts: nat -> bool): After
  {
    var s0 := st.(isClosed := true, chartSessionName := "price", quoteSessionId := quoteId, chartSessionId := chartId);
    if !dialOk then After(Failed(TransportError), ReportIfCallback(s0.(hasConn := false), InitErrorContext))
    else ConnectedOf(s0.(hasConn := true, connCloses := 0, written := []), fields, first, decode, marshal, accepts)
  }

  /** The rest of Init on a fresh connection: check the first message,
      send the setup messages, and clear the flag only when both succeeded. */
  function ConnectedOf(st: SocketState, fields: seq<string>, first: Option<string>, decode: string -> Option<Json>,
                       marshal: Outbound -> string, accepts: nat -> bool): After
  {
    var a := CheckFirstOf(st, first, decode);
    if a.result.Panicked? then a
    else if a.result.Failed? then After(a.result, ReportIfCallback(a.state, InitErrorContext))
    else
      var b := SetupOf(a.state, fields, marshal, accepts);
      if b.result.Panicked? then b
      else if b.result.Failed? then After(b.result, ReportIfCallback(b.state, InitErrorContext))
      else After(Ok(()), b.state.(isClosed := false))
  }

  /** Close: nothing to do on a closed socket; otherwise set the flag and
      close the connection once. Closing a nil connection panics. */
  function CloseOf(st: SocketState, closeOk: bool): After
  {
    if st.isClosed then After(Ok(()), st)
    else if !st.hasConn then After(Panicked, st.(isClosed := true))
    else After(if closeOk then Ok(()) else Failed(TransportError), st.(isClosed := true, connCloses := st.connCloses + 1))
  }

  class Socket {
    var isClosed: bool
    var hasConn: bool
    var connCloses: nat
    var written: seq<string>
    var reported: seq<string>
    var hasErrorCallback: bool
    var quoteSessionId: string
    var chartSessionId: string
    var chartSessionName: string

    function Snapshot(): SocketState
      reads this
    {
      SocketState(isClosed, hasConn, connCloses, written, reported, hasErrorCallback,
        quoteSessionId, chartSessionId, chartSessionName)
    }

    /** Connect's &Socket{...}: the callbacks set, every other field at its zero value. */
    constructor (hasErrorCallback: bool)
      ensures Snapshot() == SocketState(false, false, 0, [], [], hasErrorCallback, "", "", "")
    {
      isClosed := false;
      hasConn := false;
      connCloses := 0;
      written := [];
      reported := [];
      this.hasErrorCallback := hasErrorCallback;
      quoteSessionId := "";
      chartSessionId := "";
      chartSessionName := "";
    }

    method OnError(context: string)
      modifies this
      ensures Snapshot() == OnErrorOf(old(Snapshot()), context)
    {
      if hasConn {
        connCloses := connCloses + 1;
      }
      reported := reported + [context];
    }

    method SendSocketMessage(msg: Outbound, marshal: Outbound -> string, accepts: nat -> bool) returns (r: Outcome<()>)
      modifies this
      ensures After(r, Snapshot()) == SendOf(old(Snapshot()), EncodeFrame(marshal(msg)), accepts)
    {
      var payload := marshal(msg);
      var payloadWithHeader := Marker + Itoa(|payload|) + Marker + payload;
      if !hasConn {
        return Panicked;
      }
      var ok := accepts(|written|);
      written := written + [payloadWithHeader];
      if !ok {
        OnError(SendMessageErrorContext + " - " + payloadWithHeader);
        return Failed(TransportError);
      }
      return Ok(());
    }

    method SendConnectionSetupMessages(fields: seq<string>, marshal: Outbound -> string, accepts: nat -> bool)
      returns (r: Outcome<()>)
      modifies this
      ensures After(r, Snapshot()) == SetupOf(old(Snapshot()), fields, marshal, accepts)
    {
      var messages := [
        Outbound("set_auth_token", ["unauthorized_user_token"]),
        Outbound("chart_create_session", [chartSessionId, ""]),
        Outbound("quote_create_session", [quoteSessionId])];
      ghost var start := Snapshot();
      ghost var frames := Frames(SetupMessages(quoteSessionId, chartSessionId, fields), marshal);
      assert forall k :: 0 <= k < 3 ==> frames[k] == EncodeFrame(marshal(messages[k]));
      for k := 0 to 3
        invariant quoteSessionId == start.quoteSessionId && chartSessionId == start.chartSessionId
        invariant SendAllOf(start, frames[..k], accepts) == After(Ok(()), Snapshot())
      {
        SendAllPrefix(start, frames, k, accepts);
        r := SendSocketMessage(messages[k], marshal, accepts);
        if !r.Ok? {
          SendAllStops(start, frames, k + 1, 3, accepts);
          return;
        }
      }
      var m := SetupFields(quoteSessionId, fields);
      var last := SendSocketMessage(Outbound("quote_set_fields", m), marshal, accepts);
      if last.Panicked? {
        return Panicked;
      }
      return Ok(());
    }

    method CheckFirstReceivedMessage(first: Option<string>, decode: string -> Option<Json>) returns (r: Outcome<()>)
      modifies this
      ensures After(r, Snapshot()) == CheckFirstOf(old(Snapshot()), first, decode)
    {
      if !hasConn {
        return Panicked;
      }
      if first.None? {
        OnError(ReadFirstMessageErrorContext);
        return Failed(TransportError);
      }
      var msg := first.value;
      var start := GetPayloadStartingIndex(msg);
      if !start.Ok? || start.value > |msg| {
        return Panicked;
      }
      var payload := msg[start.value..];
      match decode(payload)
      case None =>
        OnError(DecodeFirstMessageErrorContext);
        return Failed(DecodeError);
      case Some(v) =>
        if !(v.JObject? || v.JNull?) {
          OnError(DecodeFirstMessageErrorContext);
          return Failed(DecodeError);
        }
        if v.JNull? || IsNil(v.fields, "session_id") {
          OnError(FirstMessageWithoutSessionIdErrorContext);
          return Failed(HandshakeError);
        }
        return Ok(());
    }

    /** Init. The two session ids draw on separately seeded sources, here
        two word streams; the dial's success and the first message read
        are parameters. */
    method Init(fields: seq<string>, quoteWords: seq<Word>, chartWords: seq<Word>, dialOk: bool,
                first: Option<string>, decode: string -> Option<Json>,
                marshal: Outbound -> string, accepts: nat -> bool) returns (r: Outcome<()>)
      requires |quoteWords| >= 1 && 12 <= |Accepted(Chunks(quoteWords))|
      requires |chartWords| >= 1 && 12 <= |Accepted(Chunks(chartWords))|
      modifies this
      ensures After(r, Snapshot()) ==
        InitOf(old(Snapshot()), fields, SessionPrefix(true) + RandomString(12, quoteWords),
          SessionPrefix(false) + RandomString(12, chartWords), dialOk, first, decode, marshal, accepts)
    {
      isClosed := true;
      chartSessionName := "price";
      quoteSessionId := GenerateSessionId(true, quoteWords);
      chartSessionId := GenerateSessionId(false, chartWords);
      if !dialOk {
        hasConn := false;
        if hasErrorCallback {
          OnError(InitErrorContext);
        }
        return Failed(TransportError);
      }
      hasConn, connCloses, written := true, 0, [];
      r := Connected(fields, first, decode, marshal, accepts);
    }

    method Connected(fields: seq<string>, first: Option<string>, decode: string -> Option<Json>,
                     marshal: Outbound -> string, accepts: nat -> bool) returns (r: Outcome<()>)
      modifies this
      ensures After(r, Snapshot()) == ConnectedOf(old(Snapshot()), fields, first, decode, marshal, accepts)
    {
      r := CheckFirstReceivedMessage(first, decode);
      if r.Panicked? {
        return;
      }
      if r.Failed? {
        if hasErrorCallback {
          OnError(InitErrorContext);
        }
        return;
      }
      r := SendConnectionSetupMessages(fields, marshal, accepts);
      if r.Panicked? {
        return;
      }
      if r.Failed? {
        if hasErrorCallback {
          OnError(InitErrorContext);
        }
        return;
      }
      isClosed := false;
    }

    method Close(closeOk: bool) returns (r: Outcome<()>)
      modifies this
      ensures After(r, Snapshot()) == CloseOf(old(Snapshot()), closeOk)
    {
      if isClosed {
        return Ok(());
      }
      isClosed := true;
      if !hasConn {
        return Panicked;
      }
      connCloses := connCloses + 1;
      r := if closeOk then Ok(()) else Failed(TransportError);
    }
  }

  /** Sending one more frame after a run: it is sent only when the run succeeded. */
  lemma {:induction false} SendAllSnoc(st: SocketState, frames: seq<string>, f: string, accepts: nat -> bool)
    ensures var a := SendAllOf(st, frames, accepts);
      SendAllOf(st, frames + [f], accepts) == if a.result.Ok? then SendOf(a.state, f, accepts) else a
    decreases |frames|
  {
    if frames == [] {
      assert frames + [f] == [f];
    } else {
      assert (frames + [f])[0] == frames[0] && (frames + [f])[1..] == frames[1..] + [f];
      var a := SendOf(st, frames[0], accepts);
      if a.result.Ok? {
        SendAllSnoc(a.state, frames[1..], f, accepts);
      }
    }
  }

  lemma SendAllPrefix(st: SocketState, frames: seq<string>, k: nat, accepts: nat -> bool)
    requires k < |frames|
    ensures var a := SendAllOf(st, frames[..k], accepts);
      SendAllOf(st, frames[..k + 1], accepts) == if a.result.Ok? then SendOf(a.state, frames[k], accepts) else a
  {
    assert frames[..k + 1] == frames[..k] + [frames[k]];
    SendAllSnoc(st, frames[..k], frames[k], accepts);
  }

  /** A run that has not succeeded after its first n frames sends nothing more. */
  lemma {:induction false} SendAllStops(st: SocketState, frames: seq<string>, n: nat, m: nat, accepts: nat -> bool)
    requires n <= m <= |frames| && !SendAllOf(st, frames[..n], accepts).result.Ok?
    ensures SendAllOf(st, frames[..m], accepts) == SendAllOf(st, frames[..n], accepts)
    decreases m
  {
    if n < m {
      SendAllStops(st, frames, n, m - 1, accepts);
      SendAllPrefix(st, frames, m - 1, accepts);
    }
  }

  /** A run of sends succeeds exactly when there is a connection and every
      write is accepted; it then writes exactly its frames, in order, and
      touches nothing else. */
  lemma {:induction false} SendAllWrites(st: SocketState, frames: seq<string>, accepts: nat -> bool)
    ensures var a := SendAllOf(st, frames, accepts);
      a.result.Ok? ==> a.state == st.(written := st.written + frames)
    ensures var a := SendAllOf(st, frames, accepts);
      a.result.Ok? <==> frames == [] || (st.hasConn && forall k :: |st.written| <= k < |st.written| + |frames| ==> accepts(k))
    decreases |frames|
  {
    if frames != [] {
      var a := SendOf(st, frames[0], accepts);
      if a.result.Ok? {
        SendAllWrites(a.state, frames[1..], accepts);
        AppendAssoc(st.written, [frames[0]], frames[1..]);
        assert [frames[0]] + frames[1..] == frames;
      }
    }
  }

  /** Sends never change the close flag, the connection or the session ids. */
  lemma {:induction false} SendAllKeeps(st: SocketState, frames: seq<string>, accepts: nat -> bool)
    ensures var s := SendAllOf(st, frames, accepts).state;
      s.isClosed == st.isClosed && s.hasConn == st.hasConn && s.hasErrorCallback == st.hasErrorCallback
      && s.quoteSessionId == st.quoteSessionId && s.chartSessionId == st.chartSessionId
      && s.chartSessionName == st.chartSessionName
    decreases |frames|
  {
    if frames != [] {
      var a := SendOf(st, frames[0], accepts);
      if a.result.Ok? {
        SendAllKeeps(a.state, frames[1..], accepts);
      }
    }
  }

  /** Closing twice: the second Close returns nil and changes nothing,
      whatever the connection would answer. */
  lemma CloseIdempotent(st: SocketState, firstOk: bool, secondOk: bool)
    requires Valid(st)
    ensures var a := CloseOf(st, firstOk);
      a.state.isClosed && Valid(a.state) && CloseOf(a.state, secondOk) == After(Ok(()), a.state)
    ensures var a := CloseOf(st, firstOk);
      a.state.connCloses == st.connCloses + (if st.isClosed then 0 else 1)
      && (a.result.Ok? <==> st.isClosed || firstOk)
  {
  }

  /** The handshake check changes at most the error trace and the close count. */
  lemma CheckFirstKeeps(st: SocketState, first: Option<string>, decode: string -> Option<Json>)
    ensures var a := CheckFirstOf(st, first, decode);
      a.state == st.(connCloses := a.state.connCloses, reported := a.state.reported)
      && (a.result.Ok? ==> a.state == st)
  {
  }

  /** The setup messages succeed exactly when the first three writes are
      accepted; then the four frames are written in order, and a refused
      fourth write is reported and closes the connection, yet the result
      is nil. Nothing else changes. */
  lemma SetupWrites(st: SocketState, fields: seq<string>, marshal: Outbound -> string, accepts: nat -> bool)
    requires st.hasConn
    ensures var a := SetupOf(st, fields, marshal, accepts);
      var frames := Frames(SetupMessages(st.quoteSessionId, st.chartSessionId, fields), marshal);
      && (a.result.Ok? <==> forall k :: |st.written| <= k < |st.written| + 3 ==> accepts(k))
      && (a.result.Ok? ==>
            a.state == st.(written := st.written + frames,
              connCloses := st.connCloses + (if accepts(|st.written| + 3) then 0 else 1),
              reported := st.reported + (if accepts(|st.written| + 3) then [] else [SendMessageErrorContext + " - " + frames[3]])))
      && (!a.result.Ok? ==> a.result.Failed? && a.state.isClosed == st.isClosed && a.state.hasConn)
      && a.state.quoteSessionId == st.quoteSessionId && a.state.chartSessionId == st.chartSessionId
      && a.state.chartSessionName == st.chartSessionName && a.state.hasErrorCallback == st.hasErrorCallback
  {
    var frames := Frames(SetupMessages(st.quoteSessionId, st.chartSessionId, fields), marshal);
    SendAllWrites(st, frames[..3], accepts);
    SendAllKeeps(st, frames[..3], accepts);
    SendAllFails(st, frames[..3], accepts);
    AppendAssoc(st.written, frames[..3], [frames[3]]);
    assert frames[..3] + [frames[3]] == frames;
  }

  /** A run of sends on a connection that does not succeed has failed, not panicked. */
  lemma {:induction false} SendAllFails(st: SocketState, frames: seq<string>, accepts: nat -> bool)
    requires st.hasConn
    ensures !SendAllOf(st, frames, accepts).result.Panicked?
    decreases |frames|
  {
    if frames != [] {
      var a := SendOf(st, frames[0], accepts);
      if a.result.Ok? {
        SendAllFails(a.state, frames[1..], accepts);
      }
    }
  }

  /** After Init the socket is open exactly when Init succeeded, an open
      socket has its connection, and the session ids are the drawn ones. */
  lemma InitOpenIffOk(st: SocketState, fields: seq<string>, quoteId: string, chartId: string, dialOk: bool,
                      first: Option<string>, decode: string -> Option<Json>,
                      marshal: Outbound -> string, accepts: nat -> bool)
    ensures var a := InitOf(st, fields, quoteId, chartId, dialOk, first, decode, marshal, accepts);
      (a.result.Ok? <==> !a.state.isClosed) && Valid(a.state)
      && a.state.quoteSessionId == quoteId && a.state.chartSessionId == chartId && a.state.chartSessionName == "price"
  {
    if dialOk {
      var s1 := st.(isClosed := true, chartSessionName := "price", quoteSessionId := quoteId, chartSessionId := chartId,
        hasConn := true, connCloses := 0, written := []);
      CheckFirstKeeps(s1, first, decode);
      var c := CheckFirstOf(s1, first, decode);
      if c.result.Ok? {
        SetupWrites(c.state, fields, marshal, accepts);
      }
    }
  }

  /** A successful Init has written the four setup frames and nothing
      else on its new connection, and its first three writes were
      accepted. A refused fourth write is reported and closes the
      connection, yet Init returns nil and leaves the socket open. */
  lemma InitWrites(st: SocketState, fields: seq<string>, quoteId: string, chartId: string, dialOk: bool,
                   first: Option<string>, decode: string -> Option<Json>,
                   marshal: Outbound -> string, accepts: nat -> bool)
    ensures var a := InitOf(st, fields, quoteId, chartId, dialOk, first, decode, marshal, accepts);
      var frames := Frames(SetupMessages(quoteId, chartId, fields), marshal);
      a.result.Ok? ==>
        && a.state.written == frames
        && (forall k :: 0 <= k < 3 ==> accepts(k))
        && a.state.connCloses == (if accepts(3) then 0 else 1)
        && a.state.reported == st.reported + (if accepts(3) then [] else [SendMessageErrorContext + " - " + frames[3]])
  {
    if dialOk {
      var s1 := st.(isClosed := true, chartSessionName := "price", quoteSessionId := quoteId, chartSessionId := chartId,
        hasConn := true, connCloses := 0, written := []);
      CheckFirstKeeps(s1, first, decode);
      var c := CheckFirstOf(s1, first, decode);
      assert InitOf(st, fields, quoteId, chartId, dialOk, first, decode, marshal, accepts)
        == ConnectedOf(s1, fields, first, decode, marshal, accepts);
      if c.result.Ok? {
        var frames := Frames(SetupMessages(quoteId, chartId, fields), marshal);
        SetupWrites(c.state, fields, marshal, accepts);
        assert [] + frames == frames;
      }
    }
  }
}
