/**
 WebSocket frames: CWSMessage::ParseMessage and CProtocolWS::SendProtocolMessage, against the base
 framing protocol of section 5.2 and the masking of section 5.3 of RFC 6455.
 */
module WsFrame {
  import opened Bytes

  type Key = k: seq<byte> | |k| == 4 witness [0, 0, 0, 0]

  /** Section 5.3: byte i is combined with byte i mod 4 of the key. */
  function Mask(data: seq<byte>, key: Key): (r: seq<byte>)
    ensures |r| == |data|
  {
    seq(|data|, i requires 0 <= i < |data| => Xor(data[i], key[i % 4]))
  }

  lemma MaskTwice(data: seq<byte>, key: Key)
    ensures Mask(Mask(data, key), key) == data
  {
    forall i | 0 <= i < |data| ensures Mask(Mask(data, key), key)[i] == data[i] {
      XorTwice(data[i], key[i % 4]);
    }
  }

  /** Section 5.3, bit by bit: a bit is set if and only if exactly one of the data's and the key byte's is. */
  lemma MaskBits(data: seq<byte>, key: Key, i: nat, k: nat)
    requires i < |data| && k < 8
    ensures BitSet(Mask(data, key)[i], k) <==> BitSet(data[i], k) != BitSet(key[i % 4], k)
  {
    XorBit(data[i], key[i % 4], k);
  }

  /** Masking leaves the data alone exactly when every key byte that is used is zero. */
  lemma MaskIsIdentityIff(data: seq<byte>, key: Key)
    ensures Mask(data, key) == data <==> forall i :: 0 <= i < |data| ==> key[i % 4] == 0
  {
    forall i | 0 <= i < |data| ensures Mask(data, key)[i] == data[i] <==> key[i % 4] == 0 {
      XorSameIff(data[i], key[i % 4]);
    }
  }

  // -------- Decoding --------

  /** Where the payload starts (before the masking key) and how long it says it is. */
  datatype Header = Incomplete | Header(length: nat, keyIndex: nat)

  /** b & 0x7F. */
  function LowSeven(b: byte): byte {
    b % 0x80
  }

  /** b & 0x80 is not zero. */
  predicate TopBit(b: byte) {
    b >= 0x80
  }

  function ReadHeader(b: seq<byte>): Header
    requires |b| >= 2
  {
    var indicator := LowSeven(b[1]) as nat;
    if indicator <= 125 then Header(indicator, 2)
    else if indicator == 126 && |b| >= 4 then Header(FromBigEndian(b[2..4]), 4)
    else if indicator == 127 && |b| >= 10 then Header(FromBigEndian(b[2..10]), 10)
    else Incomplete
  }

  predicate IsMasked(b: seq<byte>)
    requires |b| >= 2
  {
    TopBit(b[1])
  }

  function PayloadIndex(b: seq<byte>, h: Header): nat
    requires |b| >= 2 && h.Header?
  {
    h.keyIndex + if IsMasked(b) then 4 else 0
  }

  /**
   The payload of a whole frame; empty when the buffer is not exactly one frame. `junk` is the unset key of an
   unmasked frame.
   */
  function Payload(b: seq<byte>, junk: Key): seq<byte>
    requires |b| >= 2
  {
    var h := ReadHeader(b);
    if h.Incomplete? || PayloadIndex(b, h) + h.length != |b| then []
    else Mask(b[PayloadIndex(b, h)..], if IsMasked(b) then b[h.keyIndex..h.keyIndex + 4] else junk)
  }

  method ParseMessage(b: seq<byte>, junk: Key) returns (payload: seq<byte>)
    requires |b| >= 2
    ensures payload == Payload(b, junk)
  {
    payload := [];
    var l := |b|;
    var payloadLength, maskingKeyIndex := 0, 0;
    var indicator := LowSeven(b[1]);
    if indicator <= 125 {
      payloadLength, maskingKeyIndex := indicator as nat, 2;
    } else if indicator == 126 && l >= 2 + 2 {
      payloadLength, maskingKeyIndex := FromBigEndian(b[2..4]), 4;
    } else if indicator == 127 && l >= 2 + 8 {
      payloadLength, maskingKeyIndex := FromBigEndian(b[2..10]), 10;
    } else {
      return;
    }
    var maskingKey: seq<byte> := junk;
    if IsMasked(b) && l >= maskingKeyIndex + 4 {
      for i := 0 to 4
        invariant |maskingKey| == 4
        invariant forall j :: 0 <= j < i ==> maskingKey[j] == b[maskingKeyIndex + j]
      {
        maskingKey := maskingKey[i := b[maskingKeyIndex + i]];
      }
      assert maskingKey == b[maskingKeyIndex..maskingKeyIndex + 4];
    }
    var payloadIndex := maskingKeyIndex + if IsMasked(b) then 4 else 0;
    if payloadIndex + payloadLength == l {
      payload := Unmask(b[payloadIndex..], maskingKey);
    }
  }

  /** The inner loop of ParseMessage: append one unmasked byte at a time. */
  method Unmask(data: seq<byte>, maskingKey: Key) returns (payload: seq<byte>)
    ensures payload == Mask(data, maskingKey)
  {
    payload := [];
    for i := 0 to |data|
      invariant payload == Mask(data, maskingKey)[..i]
    {
      payload := payload + [Xor(data[i], maskingKey[i % 4])];
    }
  }

  // -------- Encoding --------

  /** The three ways of writing a payload length. */
  datatype LengthForm = Short | Medium | Long

  /**
   A frame as its sender means it: first byte (FIN and opcode), masking key if any, length form, application data.
   */
  datatype Frame = Frame(first: byte, masked: bool, key: Key, form: LengthForm, data: seq<byte>)

  predicate Fits(form: LengthForm, n: nat) {
    match form
    case Short => n <= 125
    case Medium => n < 0x1_0000
    case Long => n < 0x8000_0000_0000_0000
  }

  /** The shortest form that fits, which is what a sender must use. */
  function MinimalForm(n: nat): LengthForm {
    if n <= 125 then Short else if n <= 0xFFFF then Medium else Long
  }

  lemma MinimalFormIsMinimal(n: nat, form: LengthForm)
    requires n < 0x8000_0000_0000_0000
    ensures Fits(MinimalForm(n), n)
    ensures Fits(form, n) ==> |LengthBytes(MinimalForm(n), n)| <= |LengthBytes(form, n)|
  {
  }

  function Indicator(form: LengthForm, n: nat): (i: byte)
    requires Fits(form, n)
    ensures i < 0x80
  {
    match form
    case Short => n as byte
    case Medium => 126
    case Long => 127
  }

  function LengthBytes(form: LengthForm, n: nat): seq<byte> {
    match form
    case Short => []
    case Medium => ToBigEndian(n, 2)
    case Long => ToBigEndian(n, 8)
  }

  function Preamble(f: Frame): seq<byte>
    requires Fits(f.form, |f.data|)
  {
    var i := Indicator(f.form, |f.data|);
    [f.first, if f.masked then i + 0x80 else i] + LengthBytes(f.form, |f.data|)
  }

  function Encode(f: Frame): seq<byte>
    requires Fits(f.form, |f.data|)
  {
    Preamble(f) + if f.masked then f.key + Mask(f.data, f.key) else f.data
  }

  /** What the receiver's parser makes of the frame. */
  function Received(f: Frame, junk: Key): seq<byte> {
    if f.masked then f.data else Mask(f.data, junk)
  }

  /** LTOB: overwrite `k` bytes of the frame from index 2 with the length, most significant first. */
  method WriteLength(len: nat, frame: array<byte>, k: nat)
    requires 2 + k <= frame.Length
    modifies frame
    ensures frame[2..2 + k] == ToBigEndian(len, k)
    ensures frame[..2] == old(frame[..2])
  {
    var b := ToBigEndian(len, k);
    for i := 0 to k
      invariant frame[2..2 + i] == b[..i]
      invariant frame[..2] == old(frame[..2])
    {
      frame[2 + i] := b[i];
    }
  }

  method SendProtocolMessage(data: seq<byte>) returns (message: seq<byte>)
    requires |data| < 0x8000_0000_0000_0000
    ensures message == Encode(Frame(0x81, false, [0, 0, 0, 0], MinimalForm(|data|), data))
  {
    var len := |data|;
    var frame := new byte[10];
    var frameLength := 0;
    frame[0] := 0x81;
    frameLength := frameLength + 1;
    if len <= 125 {
      frame[1] := len as byte;
    } else if len <= 0xFFFF {
      frame[1] := 126;
      frameLength := frameLength + 2;
      WriteLength(len, frame, 2);
      assert frame[..2] == [0x81, 126];
    } else {
      frame[1] := 127;
      frameLength := frameLength + 8;
      WriteLength(len, frame, 8);
      assert frame[..2] == [0x81, 127];
    }
    frameLength := frameLength + 1;
    assert frame[..frameLength] == frame[..2] + frame[2..frameLength];
    message := frame[..frameLength] + data;
  }

  // -------- Theorems --------

  lemma IndicatorByte(f: Frame)
    requires Fits(f.form, |f.data|)
    ensures var x := Preamble(f)[1];
            && (TopBit(x) <==> f.masked)
            && LowSeven(x) as nat == (match f.form case Short => |f.data| case Medium => 126 case Long => 127)
  {
  }

  lemma LengthRoundTrip(form: LengthForm, n: nat)
    requires Fits(form, n)
    ensures !form.Short? ==> FromBigEndian(LengthBytes(form, n)) == n
  {
    Pow256Values();
    match form
    case Short =>
    case Medium => BigEndianRoundTrip(n, 2);
    case Long => BigEndianRoundTrip(n, 8);
  }

  /** Any buffer that starts like the frame announces the frame's length, or not enough is there yet. */
  lemma HeaderOfPrefix(f: Frame, b: seq<byte>)
    requires Fits(f.form, |f.data|) && |b| >= 2
    requires b[..2] == Preamble(f)[..2]
    requires |b| >= |Preamble(f)| ==> b[..|Preamble(f)|] == Preamble(f)
    ensures IsMasked(b) <==> f.masked
    ensures ReadHeader(b) == if |b| >= |Preamble(f)| then Header(|f.data|, |Preamble(f)|) else Incomplete
  {
    IndicatorByte(f);
    assert b[1] == b[..2][1] == Preamble(f)[1];
    if |b| >= |Preamble(f)| {
      var n := |Preamble(f)|;
      assert b[2..n] == b[..n][2..] == LengthBytes(f.form, |f.data|);
      LengthRoundTrip(f.form, |f.data|);
    }
  }

  lemma StartsLike(f: Frame, b: seq<byte>, rest: seq<byte>)
    requires Fits(f.form, |f.data|) && |b| >= 2 && b <= Encode(f) + rest
    ensures b[..2] == Preamble(f)[..2]
    ensures |b| >= |Preamble(f)| ==> b[..|Preamble(f)|] == Preamble(f)
  {
    var m := Encode(f) + rest;
    assert m[..|Preamble(f)|] == Preamble(f);
    assert b == m[..|b|];
  }

  /**
   The header of section 5.2, byte by byte: the first byte, the mask bit and the length or 126 or 127, and in the last
   two cases the length in two or eight bytes, the most significant one first.
   */
  lemma HeaderLayout(f: Frame, i: nat)
    requires Fits(f.form, |f.data|)
    ensures var p, n, more := Preamble(f), |f.data|, match f.form case Short => 0 case Medium => 2 case Long => 8;
            && |p| == 2 + more && p[0] == f.first
            && p[1] as nat == (if f.masked then 128 else 0)
                              + (match f.form case Short => n case Medium => 126 case Long => 127)
            && (i < more ==> p[2 + i] as nat == n / Pow256(more - 1 - i) % 256)
  {
    match f.form
    case Short =>
    case Medium =>
      if i < 2 {
        BigEndianDigit(|f.data|, 2, i);
      }
    case Long =>
      if i < 8 {
        BigEndianDigit(|f.data|, 8, i);
      }
  }

  /** The payload read off the whole frame. */
  lemma WholeFramePayload(f: Frame, junk: Key)
    requires Fits(f.form, |f.data|)
    ensures Payload(Encode(f), junk) == Received(f, junk)
  {
    var b, n := Encode(f), |Preamble(f)|;
    assert b + [] == b;
    StartsLike(f, b, []);
    HeaderOfPrefix(f, b);
    if f.masked {
      assert b[n..n + 4] == f.key;
      assert b[n + 4..] == Mask(f.data, f.key);
      MaskTwice(f.data, f.key);
    } else {
      assert b[n..] == f.data;
    }
  }

  /**
   On any prefix of a frame and whatever follows it, the parser yields the frame's payload on the frame itself
   and nothing anywhere else.
   */
  lemma PayloadOnlyOnWholeFrame(f: Frame, rest: seq<byte>, b: seq<byte>, junk: Key)
    requires Fits(f.form, |f.data|) && |b| >= 2 && b <= Encode(f) + rest
    ensures Payload(b, junk) == if |b| == |Encode(f)| then Received(f, junk) else []
  {
    if |b| == |Encode(f)| {
      assert b == (Encode(f) + rest)[..|b|] == Encode(f);
      WholeFramePayload(f, junk);
    } else {
      StartsLike(f, b, rest);
      HeaderOfPrefix(f, b);
    }
  }

  /**
   What a masked frame delivers, from the bytes on the wire: behind any header and key, as many bytes as announced, and
   each bit is the exclusive or of the bit received and the key's.
   */
  lemma DeliversUnmasked(first: byte, key: Key, form: LengthForm, w: seq<byte>, junk: Key)
    requires Fits(form, |w|)
    ensures var payload := Payload(Preamble(Frame(first, true, key, form, w)) + (key + w), junk);
            && |payload| == |w|
            && forall i, k: nat :: 0 <= i < |w| && k < 8 ==>
                 (BitSet(payload[i], k) <==> BitSet(w[i], k) != BitSet(key[i % 4], k))
  {
    var f := Frame(first, true, key, form, Mask(w, key));
    MaskTwice(w, key);
    WholeFramePayload(f, junk);
    assert Encode(f) == Preamble(Frame(first, true, key, form, w)) + (key + w);
    forall i, k: nat | 0 <= i < |w| && k < 8
      ensures BitSet(Mask(w, key)[i], k) <==> BitSet(w[i], k) != BitSet(key[i % 4], k)
    {
      MaskBits(w, key, i, k);
    }
  }

  /**
   What the parser makes of a message the encoder produced: the same length, and the same bytes exactly
   when the unset key bytes it combines them with are zero.
   */
  lemma EncoderRoundTrip(data: seq<byte>, junk: Key)
    requires |data| < 0x8000_0000_0000_0000
    ensures var m := Encode(Frame(0x81, false, [0, 0, 0, 0], MinimalForm(|data|), data));
            && Payload(m, junk) == Mask(data, junk)
            && (Payload(m, junk) == data <==> forall i :: 0 <= i < |data| ==> junk[i % 4] == 0)
  {
    var f := Frame(0x81, false, [0, 0, 0, 0], MinimalForm(|data|), data);
    assert Encode(f) + [] == Encode(f);
    PayloadOnlyOnWholeFrame(f, [], Encode(f), junk);
    MaskIsIdentityIff(data, junk);
  }
}
