/** Result shapes shared by the whole model. */
module Outcomes {

  datatype Option<+T> = None | Some(value: T)

  /** The ways a Go call of the client can end: it returns a value, it
      returns a non-nil `error`, or it panics (index out of range, failed
      type assertion, nil dereference). A panic in the packet goroutine ends
      the whole process, so the model keeps it apart from an error. */
  datatype Outcome<+T> = Ok(value: T) | Failed(error: Error) | Panicked

  /** The error kinds the client produces, named after the failing step. */
  datatype Error =
    | SyntaxError       // strconv.Atoi: not an optionally signed decimal number
    | RangeError        // strconv.Atoi: outside the range of a 64-bit int
    | DecodeError       // json.Unmarshal refused the text or its shape
    | RemoteError       // the envelope is an "error" or "critical_error" message
    | MissingPayload    // a "qsd" envelope without "p"
    | PayloadShape      // "p" of a "qsd" envelope is not an array of length 2
    | FieldDecodeError  // mapstructure could not decode the quote message
    | ValidationError   // status not "ok", empty symbol or no data
    | SeriesShape       // parseTimeScaleUpdate's "parsing error"
    | TransportError    // dial, read, write or close of the websocket failed
    | HandshakeError    // the first message carries no session id

  /** The context strings of constants.go that the client passes to its error callback. */
  const InitErrorContext := "Initializing the connection"
  const ReadFirstMessageErrorContext := "Reading the first message after stablishing the connection"
  const DecodeFirstMessageErrorContext := "Decoding the first message after stablishing the connection"
  const FirstMessageWithoutSessionIdErrorContext := "Does not have 'session_id' property"
  const SendMessageErrorContext := "Sending a message"
  const GetPayloadLengthErrorContext := "Getting the payload length"
  const DecodeMessageErrorContext := "Decoding the JSON message"
  const DecodedMessageHasErrorPropertyErrorContext := "JSON message has an error message"
  const DecodedMessageDoesNotIncludePayloadErrorContext := "JSON message does not include the payload"
  const FinalPayloadCantBeParsedErrorContext := "The final JSON payload of the socket message couldn't be parsed"
  const FinalPayloadHasMissingPropertiesErrorContext := "The final JSON payload doesn't have the expected data"
}
