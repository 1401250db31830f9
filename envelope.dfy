/** parseJSON: decodes one frame payload into an envelope {m, p} and
    classifies it by its message kind. */
module Envelope {
  import opened Outcomes
  import opened JsonModel
  import opened Series

  /** The QuoteData record of types.go: every field optional, numbers opaque. */
  datatype QuoteData = QuoteData(
    price: Option<real>,
    prevClosePrice: Option<real>,
    regularClosePrice: Option<real>,
    regularCloseTime: Option<real>,
    highPrice: Option<real>,
    lowPrice: Option<real>,
    openPrice: Option<real>,
    openTime: Option<real>,
    volume: Option<real>,
    bid: Option<real>,
    ask: Option<real>,
    change: Option<real>,
    time: Option<real>)

  /** The QuoteMessage record of types.go: symbol "n", status "s", data "v". */
  datatype QuoteMessage = QuoteMessage(symbol: string, status: string, data: Option<QuoteData>)

  /** The SocketMessage record of types.go after decoding; p is None for a nil payload. */
  datatype SocketMessage = SocketMessage(m: string, p: Option<Json>)

  /** What parseJSON hands back to parsePacket when it returns no error. */
  datatype Parsed =
    | QuoteUpdate(symbol: string, data: QuoteData)
    | SeriesUpdate(symbol: string, bars: seq<Bar>)
    | NoData

  /** The result of parseJSON with the contexts it passes to onError on the way. */
  datatype Parse = Parse(reports: seq<string>, result: Outcome<Parsed>)

  /** The mapstructure keys of QuoteData, in declaration order. */
  const QuoteKeys: seq<string> := ["lp", "prev_close_price", "regular_close_price", "regular_close_time",
    "high_price", "low_price", "open_price", "open_time", "volume", "bid", "ask", "ch", "lp_time"]

  /** mapstructure into a *float64 or *int64 field: nil leaves it nil, a
      number sets it, anything else is a decode error. */
  function NumberField(o: map<string, Json>, key: string): Outcome<Option<real>>
  {
    if IsNil(o, key) then Ok(None)
    else if o[key].JNumber? then Ok(Some(o[key].n))
    else Failed(FieldDecodeError)
  }

  function NumberOr(o: map<string, Json>, key: string): Option<real>
  {
    if NumberField(o, key).Ok? then NumberField(o, key).value else None
  }

  /** mapstructure into a string field: nil leaves it empty. */
  function StringField(o: map<string, Json>, key: string): Outcome<string>
  {
    if IsNil(o, key) then Ok("")
    else if o[key].JString? then Ok(o[key].s)
    else Failed(FieldDecodeError)
  }

  /** mapstructure of the "v" object into QuoteData. */
  function DecodeQuoteData(o: map<string, Json>): Outcome<QuoteData>
  {
    if forall k :: k in QuoteKeys ==> NumberField(o, k).Ok? then
      Ok(QuoteData(NumberOr(o, "lp"), NumberOr(o, "prev_close_price"), NumberOr(o, "regular_close_price"),
        NumberOr(o, "regular_close_time"), NumberOr(o, "high_price"), NumberOr(o, "low_price"),
        NumberOr(o, "open_price"), NumberOr(o, "open_time"), NumberOr(o, "volume"), NumberOr(o, "bid"),
        NumberOr(o, "ask"), NumberOr(o, "ch"), NumberOr(o, "lp_time")))
    else Failed(FieldDecodeError)
  }

  /** mapstructure.Decode of p[1] into a QuoteMessage. */
  function DecodeQuoteMessage(o: map<string, Json>): Outcome<QuoteMessage>
  {
    var n := StringField(o, "n");
    var s := StringField(o, "s");
    var v: Outcome<Option<QuoteData>> :=
      if IsNil(o, "v") then Ok(None)
      else if o["v"].JObject? then
        (match DecodeQuoteData(o["v"].fields) case Ok(d) => Ok(Some(d)) case _ => Failed(FieldDecodeError))
      else Failed(FieldDecodeError);
    if n.Ok? && s.Ok? && v.Ok? then Ok(QuoteMessage(n.value, s.value, v.value))
    else Failed(FieldDecodeError)
  }

  /** json.Unmarshal into a *SocketMessage. A JSON null leaves the pointer
      nil and the next line dereferences it; any other non-object, or an
      "m" that is not a string, is an unmarshal error. */
  function DecodeEnvelope(v: Json): (r: Outcome<SocketMessage>)
    ensures r.Ok? ==> v.JObject?
    ensures r.Panicked? <==> v == JNull
    ensures r.Failed? ==> r.error == DecodeError
  {
    match v
    case JNull => Panicked
    case JObject(o) =>
      if !IsNil(o, "m") && !o["m"].JString? then Failed(DecodeError)
      else
        Ok(SocketMessage(if IsNil(o, "m") then "" else o["m"].s, if IsNil(o, "p") then None else Some(o["p"])))
    case _ => Failed(DecodeError)
  }

  /** The "qsd" branch of parseJSON, from the nil check of "p" on. */
  function QuotePayload(p: Option<Json>, payload: string): Parse
  {
    match p
    case None => Parse([DecodedMessageDoesNotIncludePayloadErrorContext], Failed(MissingPayload))
    case Some(pv) =>
      if !pv.JArray? || |pv.elems| != 2 then Parse([], Failed(PayloadShape))
      else if !pv.elems[1].JObject? then Parse([], Panicked)
      else
        match DecodeQuoteMessage(pv.elems[1].fields)
        case Ok(q) =>
          if q.status != "ok" || q.symbol == "" || q.data.None? then
            Parse([FinalPayloadHasMissingPropertiesErrorContext], Failed(ValidationError))
          else Parse([], Ok(QuoteUpdate(q.symbol, q.data.value)))
        case _ => Parse([FinalPayloadCantBeParsedErrorContext + " - " + payload], Failed(FieldDecodeError))
  }

  /** parseJSON. `decode` stands for json.Unmarshal of the payload text; the
      series branch re-decodes the same text into a map, which gives the
      same object. */
  function ParseJson(payload: string, decode: string -> Option<Json>): (r: Parse)
    ensures r.result.Ok? && r.result.value.QuoteUpdate? ==> r.result.value.symbol != "" && r.reports == []
    ensures r.result.Panicked? ==> r.reports == []
    ensures r.result.Failed? ==> |r.reports| <= 1
  {
    match decode(payload)
    case None => Parse([DecodeMessageErrorContext + " - " + payload], Failed(DecodeError))
    case Some(v) =>
      match DecodeEnvelope(v)
      case Panicked => Parse([], Panicked)
      case Failed(e) => Parse([DecodeMessageErrorContext + " - " + payload], Failed(e))
      case Ok(msg) =>
        if msg.m == "critical_error" || msg.m == "error" then
          Parse([DecodedMessageHasErrorPropertyErrorContext], Failed(RemoteError))
        else if msg.m == "timescale_update" then
          match SeriesBars(v.fields)
          case Ok(bars) => Parse([], Ok(SeriesUpdate("", bars)))
          case Failed(e) => Parse([], Failed(e))
          case Panicked => Parse([], Panicked)
        else if msg.m != "qsd" then Parse([], Ok(NoData))
        else QuotePayload(msg.p, payload)
  }

  /** The message kind of a decoded envelope object, "" when absent or null. */
  function Kind(o: map<string, Json>): string
  {
    if "m" in o && o["m"].JString? then o["m"].s else ""
  }

  /** The payload "p" of a "qsd" envelope that carries a deliverable quote,
      stated on the JSON directly: a two-element array whose second element
      is an object with status "ok", the non-empty symbol "n" and a data
      object "v" whose listed fields are numbers or nil. */
  ghost predicate DeliverablePayload(pv: Json, symbol: string, data: QuoteData)
  {
    && pv.JArray? && |pv.elems| == 2 && pv.elems[1].JObject?
    && var o := pv.elems[1].fields;
    && "s" in o && o["s"] == JString("ok")
    && "n" in o && o["n"] == JString(symbol) && symbol != ""
    && "v" in o && o["v"].JObject?
    && DecodeQuoteData(o["v"].fields) == Ok(data)
  }

  /** A decoded envelope of kind "qsd" whose payload is deliverable. */
  ghost predicate DeliverableQuote(v: Json, symbol: string, data: QuoteData)
  {
    && v.JObject? && "m" in v.fields && v.fields["m"] == JString("qsd")
    && "p" in v.fields && DeliverablePayload(v.fields["p"], symbol, data)
  }

  lemma StringFieldIs(o: map<string, Json>, key: string, s: string)
    requires s != ""
    ensures StringField(o, key) == Ok(s) <==> key in o && o[key] == JString(s)
  {
  }

  lemma QuotePayloadDeliverable(pv: Json, payload: string, symbol: string, data: QuoteData)
    ensures QuotePayload(Some(pv), payload).result == Ok(QuoteUpdate(symbol, data))
        <==> DeliverablePayload(pv, symbol, data)
  {
    if pv.JArray? && |pv.elems| == 2 && pv.elems[1].JObject? {
      var o := pv.elems[1].fields;
      StringFieldIs(o, "s", "ok");
      if symbol != "" {
        StringFieldIs(o, "n", symbol);
      }
    }
  }

  /** parseJSON yields a quote exactly for the deliverable "qsd" envelopes. */
  lemma ParseJsonQuote(payload: string, decode: string -> Option<Json>, symbol: string, data: QuoteData)
    ensures ParseJson(payload, decode).result == Ok(QuoteUpdate(symbol, data))
        <==> decode(payload).Some? && DeliverableQuote(decode(payload).value, symbol, data)
  {
    if decode(payload).Some? && decode(payload).value.JObject? {
      var o := decode(payload).value.fields;
      if Kind(o) == "qsd" {
        var p := if IsNil(o, "p") then None else Some(o["p"]);
        assert ParseJson(payload, decode) == QuotePayload(p, payload);
        if p.Some? {
          QuotePayloadDeliverable(o["p"], payload, symbol, data);
        }
      } else {
        ParseJsonOtherKind(payload, decode);
      }
    }
  }

  /** Only a "qsd" envelope yields a quote. */
  lemma ParseJsonOtherKind(payload: string, decode: string -> Option<Json>)
    requires decode(payload).Some? && decode(payload).value.JObject?
    requires Kind(decode(payload).value.fields) != "qsd"
    ensures !(ParseJson(payload, decode).result.Ok? && ParseJson(payload, decode).result.value.QuoteUpdate?)
  {
  }

  /** A "qsd" envelope without "p" is reported once and skipped. */
  lemma ParseJsonMissingPayload(payload: string, decode: string -> Option<Json>)
    requires decode(payload).Some? && decode(payload).value.JObject?
    requires Kind(decode(payload).value.fields) == "qsd" && IsNil(decode(payload).value.fields, "p")
    ensures ParseJson(payload, decode) == Parse([DecodedMessageDoesNotIncludePayloadErrorContext], Failed(MissingPayload))
  {
  }

  /** A "qsd" envelope whose "p" is not an array of two elements is
      dropped with an error but without any report. */
  lemma ParseJsonBadPayloadShape(payload: string, decode: string -> Option<Json>)
    requires decode(payload).Some? && decode(payload).value.JObject?
    requires var o := decode(payload).value.fields;
      Kind(o) == "qsd" && !IsNil(o, "p") && (!o["p"].JArray? || |o["p"].elems| != 2)
    ensures ParseJson(payload, decode) == Parse([], Failed(PayloadShape))
  {
  }

  /** A "qsd" quote message that decodes but fails validation (status not
      "ok", empty symbol or no data) delivers nothing and is reported once. */
  lemma ParseJsonInvalidQuote(payload: string, decode: string -> Option<Json>, q: QuoteMessage)
    requires decode(payload).Some? && decode(payload).value.JObject?
    requires var o := decode(payload).value.fields;
      && Kind(o) == "qsd" && "p" in o && o["p"].JArray? && |o["p"].elems| == 2
      && o["p"].elems[1].JObject? && DecodeQuoteMessage(o["p"].elems[1].fields) == Ok(q)
    requires q.status != "ok" || q.symbol == "" || q.data.None?
    ensures ParseJson(payload, decode) == Parse([FinalPayloadHasMissingPropertiesErrorContext], Failed(ValidationError))
  {
  }

  /** An "error" or "critical_error" envelope is reported once and skipped. */
  lemma ParseJsonRemoteError(payload: string, decode: string -> Option<Json>)
    requires decode(payload).Some? && decode(payload).value.JObject?
    requires Kind(decode(payload).value.fields) in {"error", "critical_error"}
    ensures ParseJson(payload, decode) == Parse([DecodedMessageHasErrorPropertyErrorContext], Failed(RemoteError))
  {
  }

  /** Any other kind than "qsd" and "timescale_update" is ignored silently. */
  lemma ParseJsonIgnored(payload: string, decode: string -> Option<Json>)
    requires decode(payload).Some? && decode(payload).value.JObject?
    requires var o := decode(payload).value.fields; IsNil(o, "m") || o["m"].JString?
    requires Kind(decode(payload).value.fields) !in {"qsd", "timescale_update", "error", "critical_error"}
    ensures ParseJson(payload, decode) == Parse([], Ok(NoData))
  {
  }

  /** A "timescale_update" envelope goes to the series parser and nowhere else. */
  lemma ParseJsonSeries(payload: string, decode: string -> Option<Json>)
    requires decode(payload).Some? && decode(payload).value.JObject?
    requires Kind(decode(payload).value.fields) == "timescale_update"
    ensures var r := ParseJson(payload, decode);
      && r.reports == []
      && (r.result.Ok? <==> SeriesBars(decode(payload).value.fields).Ok?)
      && (r.result.Ok? ==> r.result.value == SeriesUpdate("", SeriesBars(decode(payload).value.fields).value))
  {
  }
}
