/** parsePacket: one received text message walked as a concatenation of
    frames, each payload classified by parseJSON, then the quotes of the
    packet filtered for duplicates and delivered. */
module Packet {
  import opened Outcomes
  import opened Decimal
  import opened Framing
  import opened JsonModel
  import opened Series
  import opened Envelope
  import opened Dedup
  import opened SeqFacts

  /** One entry of parsePacket's parallel dataArr and symbolsArr. */
  datatype Quote = Quote(symbol: string, data: QuoteData)

  /** What the packet goroutine makes visible, in order. */
  datatype Event =
    | SeriesDelivered(symbol: string, bars: seq<Bar>)  // OnReceiveQuoteCallback
    | QuoteDelivered(symbol: string, data: QuoteData)   // OnReceiveMarketDataCallback
    | Reported(context: string)                         // onError: closes the connection, then calls OnErrorCallback

  /** A payload cut out of the packet, and the cursor after it. */
  datatype Cut = Cut(payload: string, next: nat)

  /** One turn of the cursor loop at `index`: read the length, recompute the
      header length from it, slice the payload. A negative length or a
      slice past the end is a panic (the packet's capacity is taken to be
      its length). `length` is getPayloadLength: PacketSpec passes
      PayloadLength, and the splitting lemmas need only its round trip
      (ReadsFrames). */
  function NextFrame(packet: string, index: nat, length: string -> Outcome<int>): (r: Outcome<Cut>)
    requires index < |packet|
    ensures r.Ok? ==> index < r.value.next <= |packet|
    ensures r.Failed? <==> length(packet[index..]).Failed?
  {
    match length(packet[index..])
    case Ok(n) =>
      var h := HeaderLength(n);
      if n < 0 || index + h + n > |packet| then Panicked
      else Ok(Cut(packet[index + h..index + h + n], index + h + n))
    case Failed(e) => Failed(e)
    case Panicked => Panicked
  }

  /** How the cursor loop stops: at the end of the packet, on a length
      Atoi refuses, or on a panic of the scanner or the slice. */
  datatype SplitEnd = Exhausted | BadLength | SplitPanic

  /** The payloads the cursor loop visits, and how it stops. */
  datatype Split = Split(payloads: seq<string>, end: SplitEnd)

  function SplitFrom(packet: string, index: nat, length: string -> Outcome<int>): Split
    requires index <= |packet|
    decreases |packet| - index
  {
    if index == |packet| then Split([], Exhausted)
    else
      match NextFrame(packet, index, length)
      case Ok(c) =>
        var rest := SplitFrom(packet, c.next, length);
        Split([c.payload] + rest.payloads, rest.end)
      case Failed(_) => Split([], BadLength)
      case Panicked => Split([], SplitPanic)
  }

  /** What the loop has gathered: the events so far, the quotes kept for the
      duplicate filter, and whether a panic ended it. */
  datatype State = State(events: seq<Event>, quotes: seq<Quote>, crashed: bool)

  const Start := State([], [], false)

  function Reports(contexts: seq<string>): (r: seq<Event>)
    ensures |r| == |contexts| && forall i :: 0 <= i < |r| ==> r[i] == Reported(contexts[i])
  {
    seq(|contexts|, i requires 0 <= i < |contexts| => Reported(contexts[i]))
  }

  /** The body of the cursor loop once parseJSON has returned: deliver a
      series, keep a quote, or skip the frame; a panic ends everything. */
  function Apply(st: State, r: Parse, hasSeriesCallback: bool): State
  {
    var events := st.events + Reports(r.reports);
    match r.result
    case Panicked => State(events, st.quotes, true)
    case Failed(_) => State(events, st.quotes, false)
    case Ok(SeriesUpdate(symbol, bars)) =>
      State(events + (if hasSeriesCallback then [SeriesDelivered(symbol, bars)] else []), st.quotes, false)
    case Ok(QuoteUpdate(symbol, data)) => State(events, st.quotes + [Quote(symbol, data)], false)
    case Ok(NoData) => State(events, st.quotes, false)
  }

  /** The body of the cursor loop after the slice; `parse` is parseJSON. */
  function Step(st: State, payload: string, parse: string -> Parse, hasSeriesCallback: bool): State
  {
    if st.crashed then st else Apply(st, parse(payload), hasSeriesCallback)
  }

  /** parseJSON over a fixed json.Unmarshal. */
  function Parser(decode: string -> Option<Json>): string -> Parse
  {
    payload => ParseJson(payload, decode)
  }

  /** The loop body applied to payloads in order. */
  function Run(st: State, payloads: seq<string>, parse: string -> Parse, hasSeriesCallback: bool): State
    decreases |payloads|
  {
    if payloads == [] then st
    else Step(Run(st, payloads[..|payloads| - 1], parse, hasSeriesCallback), payloads[|payloads| - 1], parse, hasSeriesCallback)
  }

  function Deliveries(qs: seq<Quote>): (r: seq<Event>)
    ensures |r| == |qs| && forall i :: 0 <= i < |r| ==> r[i] == QuoteDelivered(qs[i].symbol, qs[i].data)
  {
    seq(|qs|, i requires 0 <= i < |qs| => QuoteDelivered(qs[i].symbol, qs[i].data))
  }

  /** How parsePacket ends: after the duplicate filter, returning early on a
      bad length, or in a panic that takes the process down. */
  datatype PacketEnd = Finished | Aborted | Crashed

  datatype PacketResult = PacketResult(events: seq<Event>, end: PacketEnd)

  /** The events of parsePacket on one packet. `parse` is parseJSON
      (Parser(decode) in this model), and `key` stands for the
      comparison of the duplicate filter (the source compares the JSON text of
      the quote data alone, see DataKey). */
  function PacketSpec<K(==)>(packet: string, parse: string -> Parse, key: Quote -> K, hasSeriesCallback: bool): PacketResult
  {
    var sp := SplitFrom(packet, 0, PayloadLength);
    var st := Run(Start, sp.payloads, parse, hasSeriesCallback);
    if st.crashed then PacketResult(st.events, Crashed)
    else
      match sp.end
      case Exhausted => PacketResult(st.events + Deliveries(Survivors(st.quotes, key)), Finished)
      case BadLength => PacketResult(st.events + [Reported(GetPayloadLengthErrorContext + " - " + packet)], Aborted)
      case SplitPanic => PacketResult(st.events, Crashed)
  }

  /** parsePacket with its index cursor, its appends and the nested
      duplicate loop. */
  method ParsePacket<K(==)>(packet: string, parse: string -> Parse, key: Quote -> K, hasSeriesCallback: bool)
    returns (r: PacketResult)
    ensures r == PacketSpec(packet, parse, key, hasSeriesCallback)
  {
    var events: seq<Event> := [];
    var dataArr: seq<Quote> := [];
    ghost var seen: seq<string> := [];
    var index: nat := 0;
    while index < |packet|
      invariant index <= |packet|
      invariant SplitSoFar(packet, index, seen, PayloadLength)
      invariant Run(Start, seen, parse, hasSeriesCallback) == State(events, dataArr, false)
      decreases |packet| - index
    {
      var cut := NextPayload(packet, index);
      SplitStopsHere(packet, index, seen, PayloadLength);
      if cut.Panicked? {
        PacketSpecOf(packet, parse, key, hasSeriesCallback, State(events, dataArr, false));
        return PacketResult(events, Crashed);
      }
      if cut.Failed? {
        PacketSpecOf(packet, parse, key, hasSeriesCallback, State(events, dataArr, false));
        events := events + [Reported(GetPayloadLengthErrorContext + " - " + packet)];
        return PacketResult(events, Aborted);
      }
      var payload := cut.value.payload;
      SplitCarries(packet, index, cut.value, seen, PayloadLength);
      RunSnoc(Start, seen, payload, parse, hasSeriesCallback);
      seen := seen + [payload];
      index := cut.value.next;
      var parsed := parse(payload);
      ghost var before := State(events, dataArr, false);
      assert Step(before, payload, parse, hasSeriesCallback) == Apply(before, parsed, hasSeriesCallback);
      var crashed;
      events, dataArr, crashed := Handle(events, dataArr, parsed, hasSeriesCallback);
      if crashed {
        SplitCrashes(packet, index, seen, PayloadLength, parse, hasSeriesCallback);
        PacketSpecOf(packet, parse, key, hasSeriesCallback, State(events, dataArr, true));
        return PacketResult(events, Crashed);
      }
    }
    SplitStopsHere(packet, index, seen, PayloadLength);
    PacketSpecOf(packet, parse, key, hasSeriesCallback, State(events, dataArr, false));
    var delivered := DeliverSurvivors(dataArr, key);
    events := events + Deliveries(delivered);
    return PacketResult(events, Finished);
  }

  /** The head of parsePacket's loop body: getPayloadLength on the rest of
      the packet, the header length recomputed from the number, the payload
      slice and the advanced cursor. */
  method NextPayload(packet: string, index: nat) returns (r: Outcome<Cut>)
    requires index < |packet|
    ensures r == NextFrame(packet, index, PayloadLength)
  {
    var payloadLength := GetPayloadLength(packet[index..]);
    match payloadLength {
      case Panicked => return Panicked;
      case Failed(e) => return Failed(e);
      case Ok(n) =>
        var headerLength := 6 + |Itoa(n)|;
        if n < 0 || index + headerLength + n > |packet| {
          return Panicked;
        }
        var payload := packet[index + headerLength..index + headerLength + n];
        return Ok(Cut(payload, index + headerLength + |payload|));
    }
  }

  /** PacketSpec once the split and the state it reaches are known. */
  lemma PacketSpecOf<K>(packet: string, parse: string -> Parse, key: Quote -> K, cb: bool, st: State)
    requires Run(Start, SplitFrom(packet, 0, PayloadLength).payloads, parse, cb) == st
    ensures var end := SplitFrom(packet, 0, PayloadLength).end;
      PacketSpec(packet, parse, key, cb) ==
        if st.crashed || end == SplitPanic then PacketResult(st.events, Crashed)
        else if end == Exhausted then PacketResult(st.events + Deliveries(Survivors(st.quotes, key)), Finished)
        else PacketResult(st.events + [Reported(GetPayloadLengthErrorContext + " - " + packet)], Aborted)
  {
  }

  /** The loop invariant of parsePacket: the payloads `seen` so far are the
      first ones of the split, and the rest of the split starts at `index`. */
  ghost predicate SplitSoFar(packet: string, index: nat, seen: seq<string>, length: string -> Outcome<int>)
    requires index <= |packet|
  {
    && SplitFrom(packet, 0, length).payloads == seen + SplitFrom(packet, index, length).payloads
    && SplitFrom(packet, 0, length).end == SplitFrom(packet, index, length).end
  }

  /** The invariant carried over one sliced frame. */
  lemma SplitCarries(packet: string, index: nat, c: Cut, seen: seq<string>, length: string -> Outcome<int>)
    requires index < |packet| && NextFrame(packet, index, length) == Ok(c)
    requires SplitSoFar(packet, index, seen, length)
    ensures SplitSoFar(packet, c.next, seen + [c.payload], length)
  {
    SplitAdvance(packet, index, c, length);
    AppendAssoc(seen, [c.payload], SplitFrom(packet, c.next, length).payloads);
  }

  /** Where the loop leaves without slicing, the split has no payloads left. */
  lemma SplitStopsHere(packet: string, index: nat, seen: seq<string>, length: string -> Outcome<int>)
    requires index <= |packet| && SplitSoFar(packet, index, seen, length)
    ensures index == |packet| ==> SplitFrom(packet, 0, length) == Split(seen, Exhausted)
    ensures index < |packet| && NextFrame(packet, index, length).Failed? ==> SplitFrom(packet, 0, length) == Split(seen, BadLength)
    ensures index < |packet| && NextFrame(packet, index, length).Panicked? ==> SplitFrom(packet, 0, length) == Split(seen, SplitPanic)
  {
    AppendEmpty(seen);
  }

  /** A payload that panics ends the packet with the events so far. */
  lemma SplitCrashes(packet: string, index: nat, seen: seq<string>, length: string -> Outcome<int>,
                     parse: string -> Parse, cb: bool)
    requires index <= |packet| && SplitSoFar(packet, index, seen, length)
    requires Run(Start, seen, parse, cb).crashed
    ensures Run(Start, SplitFrom(packet, 0, length).payloads, parse, cb) == Run(Start, seen, parse, cb)
  {
    RunCrashedStays(Start, seen, SplitFrom(packet, index, length).payloads, parse, cb);
  }

  /** The statements of the loop body after parseJSON returns. */
  method Handle(events: seq<Event>, dataArr: seq<Quote>, parsed: Parse, hasSeriesCallback: bool)
    returns (events': seq<Event>, dataArr': seq<Quote>, crashed: bool)
    ensures State(events', dataArr', crashed) == Apply(State(events, dataArr, false), parsed, hasSeriesCallback)
  {
    events' := events + Reports(parsed.reports);
    dataArr' := dataArr;
    crashed := false;
    match parsed.result {
      case Panicked =>
        crashed := true;
      case Failed(_) =>
      case Ok(SeriesUpdate(symbol, bars)) =>
        if hasSeriesCallback {
          events' := events' + [SeriesDelivered(symbol, bars)];
        }
      case Ok(NoData) =>
      case Ok(QuoteUpdate(symbol, data)) =>
        dataArr' := dataArr' + [Quote(symbol, data)];
    }
  }

  /** One turn of the cursor loop that slices a payload. */
  lemma SplitAdvance(packet: string, index: nat, c: Cut, length: string -> Outcome<int>)
    requires index < |packet| && NextFrame(packet, index, length) == Ok(c)
    ensures SplitFrom(packet, index, length).payloads == [c.payload] + SplitFrom(packet, c.next, length).payloads
    ensures SplitFrom(packet, index, length).end == SplitFrom(packet, c.next, length).end
  {
  }

  /** The cut NextFrame makes once the length is known. */
  lemma NextFrameCut(packet: string, index: nat, n: int, length: string -> Outcome<int>)
    requires index < |packet| && length(packet[index..]) == Ok(n)
    requires n >= 0 && index + HeaderLength(n) + n <= |packet|
    ensures NextFrame(packet, index, length)
      == Ok(Cut(packet[index + HeaderLength(n)..index + HeaderLength(n) + n], index + HeaderLength(n) + n))
  {
  }

  lemma RunSnoc(st: State, a: seq<string>, p: string, parse: string -> Parse, cb: bool)
    ensures Run(st, a + [p], parse, cb) == Step(Run(st, a, parse, cb), p, parse, cb)
  {
    assert (a + [p])[..|a|] == a;
  }

  /** Run over a concatenation is Run over the second part from where the first left off. */
  lemma {:induction false} RunAppend(st: State, a: seq<string>, b: seq<string>, parse: string -> Parse, cb: bool)
    ensures Run(st, a + b, parse, cb) == Run(Run(st, a, parse, cb), b, parse, cb)
    decreases |b|
  {
    if b == [] {
      assert a + b == a;
    } else {
      assert (a + b)[..|a + b| - 1] == a + b[..|b| - 1];
      RunAppend(st, a, b[..|b| - 1], parse, cb);
    }
  }

  /** Once a payload panics, nothing after it is processed. */
  lemma {:induction false} RunCrashedStays(st: State, a: seq<string>, b: seq<string>, parse: string -> Parse, cb: bool)
    requires Run(st, a, parse, cb).crashed
    ensures Run(st, a + b, parse, cb) == Run(st, a, parse, cb)
    decreases |b|
  {
    if b == [] {
      assert a + b == a;
    } else {
      assert (a + b)[..|a + b| - 1] == a + b[..|b| - 1];
      RunCrashedStays(st, a, b[..|b| - 1], parse, cb);
    }
  }

  /** The quotes kept and the panic flag do not depend on the events already gathered. */
  lemma {:induction false} RunIgnoresEvents(st1: State, st2: State, b: seq<string>, parse: string -> Parse, cb: bool)
    requires st1.quotes == st2.quotes && st1.crashed == st2.crashed
    ensures Run(st1, b, parse, cb).quotes == Run(st2, b, parse, cb).quotes
    ensures Run(st1, b, parse, cb).crashed == Run(st2, b, parse, cb).crashed
    decreases |b|
  {
    if b != [] {
      RunIgnoresEvents(st1, st2, b[..|b| - 1], parse, cb);
    }
  }

  /** A frame whose parse returns an error is skipped: the frames after it
      are processed, and the packet keeps the same quotes and panics the
      same way as if that frame were absent; only its reports are added. */
  lemma FailedFrameSkipped(a: seq<string>, f: string, b: seq<string>, parse: string -> Parse, cb: bool)
    requires parse(f).result.Failed?
    requires !Run(Start, a, parse, cb).crashed
    ensures var before := Run(Start, a, parse, cb);
      Run(Start, a + [f] + b, parse, cb)
        == Run(State(before.events + Reports(parse(f).reports), before.quotes, false), b, parse, cb)
    ensures Run(Start, a + [f] + b, parse, cb).quotes == Run(Start, a + b, parse, cb).quotes
    ensures Run(Start, a + [f] + b, parse, cb).crashed == Run(Start, a + b, parse, cb).crashed
  {
    RunAppend(Start, a + [f], b, parse, cb);
    RunAppend(Start, a, [f], parse, cb);
    RunAppend(Start, a, b, parse, cb);
    assert [f][..0] == [];
    var before := Run(Start, a, parse, cb);
    RunIgnoresEvents(Run(Start, a + [f], parse, cb), before, b, parse, cb);
  }

  /** The frames of a sequence of payloads, concatenated with no separator. */
  function EncodeAll(ps: seq<string>): string
  {
    if ps == [] then [] else EncodeFrame(ps[0]) + EncodeAll(ps[1..])
  }

  /** Payloads whose length a 64-bit int can hold. */
  predicate Encodable(ps: seq<string>)
  {
    forall i :: 0 <= i < |ps| ==> |ps[i]| <= MaxInt
  }

  /** A length reader that recovers the length the encoder wrote in front
      of a payload, whatever follows the frame. */
  ghost predicate ReadsFrames(length: string -> Outcome<int>)
  {
    forall p: string, rest: string {:trigger length(EncodeFrame(p) + rest)} :: |p| <= MaxInt ==> length(EncodeFrame(p) + rest) == Ok(|p|)
  }

  /** getPayloadLength is such a reader. */
  lemma PayloadLengthReadsFrames()
    ensures ReadsFrames(PayloadLength)
  {
    forall p: string, rest: string | |p| <= MaxInt
      ensures PayloadLength(EncodeFrame(p) + rest) == Ok(|p|)
    {
      PayloadLengthOfFrame(p, rest);
    }
  }

  /** Where the payload and the rest of an encoded frame sit in the packet. */
  lemma SliceOfEncoded(packet: string, index: nat, p: string, rest: string)
    requires index <= |packet| && packet[index..] == EncodeFrame(p) + rest
    ensures index + |EncodeFrame(p)| <= |packet|
    ensures packet[index + HeaderLength(|p|)..index + HeaderLength(|p|) + |p|] == p
    ensures packet[index + |EncodeFrame(p)|..] == rest
  {
    var f := EncodeFrame(p);
    var h := HeaderLength(|p|);
    assert packet[index + h..index + h + |p|] == packet[index..][h..h + |p|] == f[h..];
    assert packet[index + |f|..] == packet[index..][|f|..];
  }

  /** The cursor loop cuts an encoded frame back into its payload. */
  lemma NextFrameOfEncoded(packet: string, index: nat, p: string, rest: string, length: string -> Outcome<int>)
    requires ReadsFrames(length) && |p| <= MaxInt
    requires index <= |packet| && packet[index..] == EncodeFrame(p) + rest
    ensures index < index + |EncodeFrame(p)| <= |packet|
    ensures NextFrame(packet, index, length) == Ok(Cut(p, index + |EncodeFrame(p)|))
  {
    assert length(EncodeFrame(p) + rest) == Ok(|p|);
    SliceOfEncoded(packet, index, p, rest);
    NextFrameCut(packet, index, |p|, length);
  }

  /** The cursor loop, started at `index`, cuts out the payloads `ps` in
      turn and arrives at `end`. */
  ghost predicate Visits(packet: string, index: nat, ps: seq<string>, end: nat, length: string -> Outcome<int>)
    decreases |ps|
  {
    if ps == [] then index == end
    else
      && index < |packet|
      && NextFrame(packet, index, length).Ok?
      && NextFrame(packet, index, length).value.payload == ps[0]
      && Visits(packet, NextFrame(packet, index, length).value.next, ps[1..], end, length)
  }

  lemma VisitsCons(packet: string, index: nat, c: Cut, ps: seq<string>, end: nat, length: string -> Outcome<int>)
    requires index < |packet| && NextFrame(packet, index, length) == Ok(c)
    requires ps != [] && c.payload == ps[0] && Visits(packet, c.next, ps[1..], end, length)
    ensures Visits(packet, index, ps, end, length)
  {
  }

  /** Visited payloads come first in the split, in order. */
  lemma {:induction false} VisitsSplit(packet: string, index: nat, ps: seq<string>, end: nat, length: string -> Outcome<int>)
    requires index <= |packet| && Visits(packet, index, ps, end, length)
    ensures end <= |packet|
    ensures SplitFrom(packet, index, length).payloads == ps + SplitFrom(packet, end, length).payloads
    ensures SplitFrom(packet, index, length).end == SplitFrom(packet, end, length).end
    decreases |ps|
  {
    if ps == [] {
      assert ps + SplitFrom(packet, end, length).payloads == SplitFrom(packet, end, length).payloads;
    } else {
      var c := NextFrame(packet, index, length).value;
      SplitAdvance(packet, index, c, length);
      VisitsSplit(packet, c.next, ps[1..], end, length);
      HeadTailAppend(ps, SplitFrom(packet, end, length).payloads);
    }
  }

  /** The first of a run of encoded frames is cut out, and the rest of
      the run follows it. */
  lemma EncodedStep(packet: string, index: nat, ps: seq<string>, tail: string, length: string -> Outcome<int>)
    requires ReadsFrames(length) && Encodable(ps) && ps != []
    requires index <= |packet| && packet[index..] == EncodeAll(ps) + tail
    ensures index < |packet|
    ensures var next := index + |EncodeFrame(ps[0])|;
      && next <= |packet|
      && NextFrame(packet, index, length) == Ok(Cut(ps[0], next))
      && packet[next..] == EncodeAll(ps[1..]) + tail
      && next + |EncodeAll(ps[1..])| == index + |EncodeAll(ps)|
    ensures Encodable(ps[1..])
  {
    EncodeAllCons(ps, tail);
    EncodableTail(ps);
    assert |ps[0]| <= MaxInt;
    var rest := EncodeAll(ps[1..]) + tail;
    SliceOfEncoded(packet, index, ps[0], rest);
    NextFrameOfEncoded(packet, index, ps[0], rest, length);
  }

  lemma EncodeAllCons(ps: seq<string>, tail: string)
    requires ps != []
    ensures EncodeAll(ps) + tail == EncodeFrame(ps[0]) + (EncodeAll(ps[1..]) + tail)
    ensures |EncodeAll(ps)| == |EncodeFrame(ps[0])| + |EncodeAll(ps[1..])|
  {
    AppendAssoc(EncodeFrame(ps[0]), EncodeAll(ps[1..]), tail);
  }

  lemma EncodableTail(ps: seq<string>)
    requires Encodable(ps) && ps != []
    ensures Encodable(ps[1..])
  {
    assert forall i :: 0 <= i < |ps| - 1 ==> ps[1..][i] == ps[i + 1];
  }

  /** Encoded frames are visited one by one, and the cursor ends right after them. */
  lemma {:induction false} EncodedVisits(packet: string, index: nat, ps: seq<string>, tail: string, length: string -> Outcome<int>)
    requires ReadsFrames(length) && Encodable(ps)
    requires index <= |packet| && packet[index..] == EncodeAll(ps) + tail
    ensures index + |EncodeAll(ps)| <= |packet|
    ensures Visits(packet, index, ps, index + |EncodeAll(ps)|, length)
    decreases |ps|
  {
    if ps == [] {
      assert EncodeAll(ps) == [];
      PrependEmpty(tail);
    } else {
      EncodedStep(packet, index, ps, tail, length);
      var next: nat := index + |EncodeFrame(ps[0])|;
      var c := Cut(ps[0], next);
      assert NextFrame(packet, index, length) == Ok(c);
      EncodedVisits(packet, next, ps[1..], tail, length);
      var end := next + |EncodeAll(ps[1..])|;
      assert Visits(packet, c.next, ps[1..], end, length);
      VisitsCons(packet, index, c, ps, end, length);
    }
  }

  /** After a run of encoded frames the cursor loop goes on with whatever
      follows them: it visits exactly those payloads first, in order, each
      identical to the original. */
  lemma SplitEncodedPrefix(packet: string, index: nat, ps: seq<string>, tail: string, length: string -> Outcome<int>)
    requires ReadsFrames(length) && Encodable(ps)
    requires index <= |packet| && packet[index..] == EncodeAll(ps) + tail
    ensures index + |EncodeAll(ps)| <= |packet|
    ensures SplitFrom(packet, index, length).payloads == ps + SplitFrom(packet, index + |EncodeAll(ps)|, length).payloads
    ensures SplitFrom(packet, index, length).end == SplitFrom(packet, index + |EncodeAll(ps)|, length).end
  {
    EncodedVisits(packet, index, ps, tail, length);
    VisitsSplit(packet, index, ps, index + |EncodeAll(ps)|, length);
  }

  /** Splitting the concatenation of N encoded frames visits exactly the N
      payloads, in order, and the cursor ends at the packet length. */
  lemma SplitEncoded(packet: string, ps: seq<string>, length: string -> Outcome<int>)
    requires ReadsFrames(length) && Encodable(ps) && packet == EncodeAll(ps)
    ensures SplitFrom(packet, 0, length) == Split(ps, Exhausted)
  {
    DropZero(packet);
    AppendEmpty(EncodeAll(ps));
    SplitEncodedPrefix(packet, 0, ps, [], length);
    AppendEmpty(ps);
  }

  /** A length the reader refuses stops the packet right there: the payloads
      before it are visited and nothing after it. */
  lemma SplitStopsAtBadLength(packet: string, ps: seq<string>, bad: string, length: string -> Outcome<int>)
    requires ReadsFrames(length) && Encodable(ps) && packet == EncodeAll(ps) + bad
    requires |bad| > 0 && length(bad).Failed?
    ensures SplitFrom(packet, 0, length) == Split(ps, BadLength)
  {
    DropZero(packet);
    SplitEncodedPrefix(packet, 0, ps, bad, length);
    var k := |EncodeAll(ps)|;
    DropPrefix(EncodeAll(ps), bad);
    assert NextFrame(packet, k, length).Failed?;
    AppendEmpty(ps);
  }

  /** End to end: a packet made of encoded frames gives the events of its
      frames in order, then the surviving quotes in packet order. */
  lemma PacketOfFrames<K>(packet: string, ps: seq<string>, parse: string -> Parse, key: Quote -> K, cb: bool)
    requires Encodable(ps) && packet == EncodeAll(ps)
    ensures var st := Run(Start, ps, parse, cb);
      PacketSpec(packet, parse, key, cb)
        == if st.crashed then PacketResult(st.events, Crashed)
           else PacketResult(st.events + Deliveries(Survivors(st.quotes, key)), Finished)
  {
    PayloadLengthReadsFrames();
    SplitEncoded(packet, ps, PayloadLength);
  }

  predicate NoQuoteDelivered(events: seq<Event>)
  {
    forall i :: 0 <= i < |events| ==> !events[i].QuoteDelivered?
  }

  /** The loop itself never delivers a quote: quotes reach the callback only
      through the duplicate filter after the loop. */
  lemma {:induction false} RunDeliversNoQuote(st: State, ps: seq<string>, parse: string -> Parse, cb: bool)
    requires NoQuoteDelivered(st.events)
    ensures NoQuoteDelivered(Run(st, ps, parse, cb).events)
    decreases |ps|
  {
    if ps != [] {
      var before := Run(st, ps[..|ps| - 1], parse, cb);
      RunDeliversNoQuote(st, ps[..|ps| - 1], parse, cb);
      if !before.crashed {
        var r := parse(ps[|ps| - 1]);
        var events := before.events + Reports(r.reports);
        assert NoQuoteDelivered(events);
      }
    }
  }

  /** A bad length after valid frames aborts the packet: the error is
      reported once and none of the quotes already gathered is delivered. */
  lemma BadLengthDropsQuotes<K>(packet: string, ps: seq<string>, bad: string, parse: string -> Parse, key: Quote -> K, cb: bool)
    requires Encodable(ps) && packet == EncodeAll(ps) + bad
    requires |bad| > 0 && PayloadLength(bad).Failed?
    requires !Run(Start, ps, parse, cb).crashed
    ensures var r := PacketSpec(packet, parse, key, cb);
      && r.end == Aborted
      && r.events == Run(Start, ps, parse, cb).events + [Reported(GetPayloadLengthErrorContext + " - " + packet)]
      && NoQuoteDelivered(r.events)
  {
    PayloadLengthReadsFrames();
    SplitStopsAtBadLength(packet, ps, bad, PayloadLength);
    RunDeliversNoQuote(Start, ps, parse, cb);
  }

  /** The comparison the source makes: the JSON text of the quote data,
      without the symbol. */
  function DataKey(repr: QuoteData -> string): Quote -> string
  {
    (q: Quote) => repr(q.data)
  }

  /** The comparison that suppresses only true repeats: symbol and data. */
  function SymbolDataKey(repr: QuoteData -> string): Quote -> (string, string)
  {
    (q: Quote) => (q.symbol, repr(q.data))
  }

  /** As written, two symbols whose updates carry the same data in one
      packet lose the first symbol's update: only the second is delivered. */
  lemma DataKeyDropsSymbol(repr: QuoteData -> string, a: Quote, b: Quote)
    requires a.symbol != b.symbol && a.data == b.data
    ensures Survivors([a, b], DataKey(repr)) == [b]
  {
    var s := [a, b];
    var key := DataKey(repr);
    assert key(s[1]) == repr(b.data) == repr(a.data) == key(s[0]);
    assert !IsLast(s, key, 0);
    assert IsLast(s, key, 1);
    assert Kept(s, key, 1) == [];
    assert Kept(s, key, 2) == [1];
  }

  /** With symbol and data compared, every update of the packet is
      delivered, by itself or by a later update of the same symbol with
      the same data. */
  lemma SymbolDataKeyKeepsEverySymbol(repr: QuoteData -> string, qs: seq<Quote>, i: nat)
    requires i < |qs|
    ensures exists j ::
      && i <= j < |qs|
      && qs[j].symbol == qs[i].symbol && repr(qs[j].data) == repr(qs[i].data)
      && j in Kept(qs, SymbolDataKey(repr), |qs|)
  {
    LastOccurrenceSurvives(qs, SymbolDataKey(repr), i);
  }
}
