/** The "~m~<length>~m~<payload>" frame of the wire protocol: the encoder of
    sendSocketMessage and the two header scanners of socket.go. */
module Framing {
  import opened Outcomes
  import opened Decimal

  const Marker: string := "~m~"

  /** The frame sendSocketMessage writes around the JSON text of a message. */
  function EncodeFrame(payload: string): (frame: string)
    ensures |frame| == HeaderLength(|payload|) + |payload|
    ensures frame[HeaderLength(|payload|)..] == payload
  {
    Marker + Itoa(|payload|) + Marker + payload
  }

  /** The header length parsePacket computes from a parsed length: the two
      markers plus the digits Itoa gives for it. */
  function HeaderLength(n: int): nat
  {
    6 + |Itoa(n)|
  }

  /** The first index at or after `from` holding '~'; None when there is none. */
  function FirstTilde(msg: string, from: nat): (r: Option<nat>)
    ensures r.Some? ==> from <= r.value < |msg| && msg[r.value] == '~'
    ensures r.Some? ==> forall k :: from <= k < r.value ==> msg[k] != '~'
    ensures r.None? ==> forall k :: from <= k < |msg| ==> msg[k] != '~'
    decreases |msg| - from
  {
    if from >= |msg| then None
    else if msg[from] == '~' then Some(from)
    else FirstTilde(msg, from + 1)
  }

  /** What getPayloadStartingIndex computes: it reads from index 3 up to the
      first '~' and returns two past it. It never checks the markers, and
      indexing past the end (no '~' from index 3 on) panics. */
  function PayloadStart(msg: string): Outcome<nat>
  {
    match FirstTilde(msg, 3)
    case None => Panicked
    case Some(k) => Ok(k + 3)
  }

  /** What getPayloadLength computes: Atoi of the text between index 3 and
      the first '~' after it, with the same panic as PayloadStart. */
  function PayloadLength(msg: string): Outcome<int>
  {
    match FirstTilde(msg, 3)
    case None => Panicked
    case Some(k) => Atoi(msg[3..k])
  }

  /** isKeepAliveMsg: the character at the payload start is '~'. Indexing
      at or past the end panics. */
  function IsKeepAlive(msg: string): Outcome<bool>
  {
    match PayloadStart(msg)
    case Ok(i) => if i < |msg| then Ok(msg[i] == '~') else Panicked
    case _ => Panicked
  }

  /** getPayloadStartingIndex, scanning with a cursor as the source does. */
  method GetPayloadStartingIndex(msg: string) returns (r: Outcome<nat>)
    ensures r == PayloadStart(msg)
    ensures r.Ok? ==> 6 <= r.value
  {
    var ch := "";
    var index := 3;
    while ch != "~"
      invariant 3 <= index
      invariant index == 3 || index <= |msg|
      invariant ch != "~" ==> FirstTilde(msg, 3) == FirstTilde(msg, index)
      invariant ch == "~" ==> 4 <= index && FirstTilde(msg, 3) == Some(index - 1)
      decreases |msg| + 3 - index
    {
      if index >= |msg| {
        return Panicked;
      }
      ch := [msg[index]];
      index := index + 1;
    }
    index := index + 2;
    return Ok(index);
  }

  /** getPayloadLength, accumulating the digits as the source does. */
  method GetPayloadLength(msg: string) returns (r: Outcome<int>)
    ensures r == PayloadLength(msg)
  {
    var ch := "";
    var index := 3;
    var lengthAsString := "";
    while ch != "~"
      invariant 3 <= index
      invariant index == 3 || index <= |msg|
      invariant ch != "~" ==> FirstTilde(msg, 3) == FirstTilde(msg, index)
      invariant index == 3 ==> lengthAsString == ""
      invariant ch != "~" && index <= |msg| ==> lengthAsString == msg[3..index]
      invariant ch == "~" ==> 4 <= index && FirstTilde(msg, 3) == Some(index - 1)
      invariant ch == "~" ==> lengthAsString == msg[3..index - 1]
      decreases |msg| + 3 - index
    {
      if index >= |msg| {
        return Panicked;
      }
      ch := [msg[index]];
      if ch != "~" {
        lengthAsString := lengthAsString + ch;
      }
      index := index + 1;
    }
    r := Atoi(lengthAsString);
  }

  /** FirstTilde is determined by the first '~' at or after `from`. */
  lemma {:induction false} FirstTildeAt(msg: string, from: nat, k: nat)
    requires from <= k < |msg| && msg[k] == '~'
    requires forall i :: from <= i < k ==> msg[i] != '~'
    ensures FirstTilde(msg, from) == Some(k)
    decreases k - from
  {
    if from < k {
      FirstTildeAt(msg, from + 1, k);
    }
  }

  /** In a frame whose length field is all digits, the first '~' after
      index 3 ends the length field. */
  lemma FrameTildeDigits(digits: string, p: string, rest: string)
    requires AllDigits(digits)
    ensures FirstTilde(Marker + digits + Marker + p + rest, 3) == Some(3 + |digits|)
  {
    var m := Marker + digits + Marker + p + rest;
    forall i | 3 <= i < 3 + |digits| ensures m[i] != '~' {
      assert m[i] == digits[i - 3];
    }
    FirstTildeAt(m, 3, 3 + |digits|);
  }

  lemma FrameTilde(p: string, rest: string)
    ensures FirstTilde(EncodeFrame(p) + rest, 3) == Some(3 + |Itoa(|p|)|)
  {
    FrameTildeDigits(Itoa(|p|), p, rest);
  }

  /** getPayloadStartingIndex on an encoded frame returns the header length
      that parsePacket recomputes from the parsed length. */
  lemma PayloadStartOfFrame(p: string, rest: string)
    ensures PayloadStart(EncodeFrame(p) + rest) == Ok(HeaderLength(|p|))
  {
    FrameTilde(p, rest);
  }

  /** Round trip: getPayloadLength reads back the length the encoder wrote. */
  lemma PayloadLengthOfFrame(p: string, rest: string)
    requires |p| <= MaxInt
    ensures PayloadLength(EncodeFrame(p) + rest) == Ok(|p|)
  {
    FrameTilde(p, rest);
    var m := EncodeFrame(p) + rest;
    assert m[3..3 + |Itoa(|p|)|] == Itoa(|p|);
    AtoiItoa(|p|);
  }

  /** A frame is a keep-alive exactly when its payload starts with '~'. */
  lemma KeepAliveOfFrame(p: string, rest: string)
    requires |p| > 0
    ensures IsKeepAlive(EncodeFrame(p) + rest) == Ok(p[0] == '~')
  {
    PayloadStartOfFrame(p, rest);
    assert (EncodeFrame(p) + rest)[HeaderLength(|p|)] == EncodeFrame(p)[HeaderLength(|p|)];
  }

  /** After an empty frame isKeepAliveMsg reads the byte that follows the
      header, which is the first byte of the rest of the message: it panics
      when there is none, and otherwise the answer is about that byte. */
  lemma EmptyFrameKeepAlive(rest: string)
    ensures EncodeFrame("") == "~m~0~m~"
    ensures IsKeepAlive(EncodeFrame("") + rest) == (if rest == "" then Panicked else Ok(rest[0] == '~'))
  {
    PayloadStartOfFrame("", rest);
    if rest != "" {
      assert (EncodeFrame("") + rest)[HeaderLength(0)] == rest[0];
    }
  }

  /** A header written with a leading zero ("~m~07~m~"): getPayloadLength
      still reads n, but the payload really starts one character later than
      the header length parsePacket recomputes from n, so the slice it takes
      begins with the last '~' of the header. */
  lemma LeadingZeroMisaligns(p: string)
    requires 0 < |p| <= MaxInt
    ensures PayloadLength(ZeroPaddedFrame(p)) == Ok(|p|)
    ensures PayloadStart(ZeroPaddedFrame(p)) == Ok(HeaderLength(|p|) + 1)
    ensures ZeroPaddedFrame(p)[HeaderLength(|p|)..HeaderLength(|p|) + |p|] == "~" + p[..|p| - 1]
  {
    var z := "0" + Itoa(|p|);
    var m := ZeroPaddedFrame(p);
    assert m == Marker + z + Marker + p + "";
    FrameTildeDigits(z, p, "");
    assert m[3..3 + |z|] == z;
    assert PayloadLength(m) == Atoi(z);
    AtoiAcceptsLongerForms(|p|);
    assert PayloadStart(m) == Ok(HeaderLength(|p|) + 1);
    ZeroPaddedSlice(p);
  }

  /** The frame of p whose length field carries one leading zero. */
  function ZeroPaddedFrame(p: string): string
  {
    Marker + "0" + Itoa(|p|) + Marker + p
  }

  lemma ZeroPaddedSlice(p: string)
    requires 0 < |p|
    ensures HeaderLength(|p|) + |p| <= |ZeroPaddedFrame(p)|
    ensures ZeroPaddedFrame(p)[HeaderLength(|p|)..HeaderLength(|p|) + |p|] == "~" + p[..|p| - 1]
  {
    var m := ZeroPaddedFrame(p);
    var h := HeaderLength(|p|);
    var head, tail := Marker + "0" + Itoa(|p|) + "~m", "~" + p;
    assert m == head + tail;
    assert |head| == h;
    assert m[h..h + |p|] == tail[..|p|];
    assert tail[..|p|] == "~" + p[..|p| - 1];
  }
}
