/**
 CProtocolWS: the upgrade handshake, the switch from HTTP heads to frames in the middle of the byte stream,
 and the delivery of payloads.
 */
module WsProtocol {
  import opened Wrappers
  import opened Bytes
  import opened Framing
  import WsFrame
  import HttpMessage

  /** What this model leaves open: HTTP body lengths, the unset masking key, and the digest of the handshake key. */
  datatype Environment = Environment(
    bodyLength: seq<byte> -> nat,
    junk: seq<byte> -> WsFrame.Key,
    digest: seq<byte> -> seq<byte>)

  datatype Message = Hello(headers: HttpMessage.Headers) | Data(payload: seq<byte>)

  /** `aborted`: the assertion on the handshake key has failed. */
  datatype Session = Session(
    isClient: bool, hasCallback: bool, handshakeDone: bool, aborted: bool,
    written: seq<seq<byte>>, received: seq<seq<byte>>)

  const KEY_FIELD := Ascii("Sec-WebSocket-Key")
  const GUID := Ascii("258EAFA5-E914-47DA-95CA-C5AB0DC85B11")

  function ServerHello(accept: seq<byte>): seq<byte> {
    Ascii("HTTP/1.1 101 Switching Protocols\r\n")
    + Ascii("Upgrade: websocket\r\n")
    + Ascii("Connection: Upgrade\r\n")
    + Ascii("Sec-WebSocket-Accept: ") + accept + Ascii("\r\n")
    + Ascii("\r\n")
  }

  /** GetHeader: the empty text when the header is missing. */
  function GetHeader(h: HttpMessage.Headers, name: seq<byte>): seq<byte> {
    if name in h then h[name] else []
  }

  function PayloadString(m: Message): seq<byte> {
    if m.Data? then m.payload else []
  }

  /** StateMachine. */
  function Handle(env: Environment, p: Session, m: Message): Session {
    if p.aborted then p
    else if !p.handshakeDone then
      if p.isClient then p.(handshakeDone := true)
      else
        var key := if m.Hello? then GetHeader(m.headers, KEY_FIELD) else [];
        if key == [] then p.(aborted := true)
        else p.(handshakeDone := true, written := p.written + [ServerHello(env.digest(key + GUID))])
    else if p.hasCallback then p.(received := p.received + [PayloadString(m)])
    else p
  }

  /** IsMessageComplete: an HTTP head before the handshake, a frame after it. */
  function Complete(env: Environment, p: Session, b: seq<byte>): Option<Message> {
    if p.aborted then None
    else if p.handshakeDone then
      if |b| < 2 then None
      else
        var payload := WsFrame.Payload(b, env.junk(b));
        if payload != [] then Some(Data(payload)) else None
    else
      var h := HttpMessage.HeadersOf(b, env.bodyLength);
      if h != map[] then Some(Hello(h)) else None
  }

  function WsFramer(env: Environment): Framer<Session, Message> {
    Framer((p, b) => Complete(env, p, b), (p, m) => Handle(env, p, m))
  }

  class CProtocolWS {
    const env: Environment
    const isClient: bool
    const hasCallback: bool
    var iWsHandshakeDone: bool
    var aborted: bool
    var written: seq<seq<byte>>
    var received: seq<seq<byte>>

    constructor (env: Environment, isClient: bool, hasCallback: bool)
      ensures this.env == env
      ensures State() == Session(isClient, hasCallback, false, false, [], [])
    {
      this.env, this.isClient, this.hasCallback := env, isClient, hasCallback;
      iWsHandshakeDone, aborted, written, received := false, false, [], [];
    }

    ghost function State(): Session
      reads this
    {
      Session(isClient, hasCallback, iWsHandshakeDone, aborted, written, received)
    }

    method SendServerHello(m: Message) returns (ok: bool)
      requires !aborted && !iWsHandshakeDone && !isClient
      modifies this`written, this`aborted
      ensures State().(handshakeDone := ok) == Handle(env, old(State()), m)
    {
      var key := [];
      if m.Hello? {
        key := GetHeader(m.headers, KEY_FIELD);
      }
      if |key| == 0 {
        aborted := true;
        return false;
      }
      key := key + GUID;
      written := written + [ServerHello(env.digest(key))];
      return true;
    }

    method StateMachine(m: Message)
      modifies this
      ensures State() == Handle(env, old(State()), m)
    {
      if aborted {
        return;
      }
      if !iWsHandshakeDone {
        var fRet := true;
        if !isClient {
          fRet := SendServerHello(m);
        }
        if fRet {
          iWsHandshakeDone := true;
        }
      } else if hasCallback {
        received := received + [PayloadString(m)];
      }
    }

    method IsMessageComplete(b: seq<byte>) returns (m: Option<Message>)
      ensures m == Complete(env, State(), b)
    {
      if aborted {
        return None;
      }
      if iWsHandshakeDone {
        if |b| < 2 {
          return None;
        }
        var payload := WsFrame.ParseMessage(b, env.junk(b));
        return if |payload| != 0 then Some(Data(payload)) else None;
      } else {
        var headers := HttpMessage.ParseMessage(b, env.bodyLength);
        return if headers != map[] then Some(Hello(headers)) else None;
      }
    }
  }

  // -------- Frames after the handshake --------

  predicate ValidFrames(fs: seq<WsFrame.Frame>) {
    forall f <- fs :: WsFrame.Fits(f.form, |f.data|)
  }

  function EncodeFrames(fs: seq<WsFrame.Frame>): (r: seq<seq<byte>>)
    requires ValidFrames(fs)
    ensures |r| == |fs|
  {
    if fs == [] then [] else [WsFrame.Encode(fs[0])] + EncodeFrames(fs[1..])
  }

  /** What the receiver makes of each frame. */
  function Payloads(env: Environment, fs: seq<WsFrame.Frame>): (r: seq<seq<byte>>)
    requires ValidFrames(fs)
    ensures |r| == |fs|
  {
    if fs == [] then []
    else [WsFrame.Received(fs[0], env.junk(WsFrame.Encode(fs[0])))] + Payloads(env, fs[1..])
  }

  function DataMessages(payloads: seq<seq<byte>>): (r: seq<Message>)
    ensures |r| == |payloads|
  {
    seq(|payloads|, i requires 0 <= i < |payloads| => Data(payloads[i]))
  }

  /** How many frames come before the first one without application data. */
  function BeforeEmpty(fs: seq<WsFrame.Frame>): (n: nat)
    ensures n <= |fs|
    ensures forall i :: 0 <= i < n ==> fs[i].data != []
    ensures n < |fs| ==> fs[n].data == []
  {
    if fs == [] || fs[0].data == [] then 0 else 1 + BeforeEmpty(fs[1..])
  }

  predicate Open(p: Session) {
    p.handshakeDone && !p.aborted
  }

  lemma FramePrefixWaits(env: Environment, p: Session, f: WsFrame.Frame, rest: seq<byte>, b: seq<byte>)
    requires Open(p) && WsFrame.Fits(f.form, |f.data|) && b <= WsFrame.Encode(f) + rest
    requires f.data == [] || |b| < |WsFrame.Encode(f)|
    ensures Complete(env, p, b).None?
  {
    if |b| >= 2 {
      WsFrame.PayloadOnlyOnWholeFrame(f, rest, b, env.junk(b));
    }
  }

  lemma WholeFrame(env: Environment, p: Session, f: WsFrame.Frame)
    requires Open(p) && WsFrame.Fits(f.form, |f.data|)
    ensures var m := WsFrame.Encode(f);
            |m| >= 2 && (Complete(env, p, m) == Some(Data(WsFrame.Received(f, env.junk(m)))) <==> f.data != [])
  {
    WsFrame.WholeFramePayload(f, env.junk(WsFrame.Encode(f)));
  }

  lemma FrameWaits(env: Environment, p: Session, f: WsFrame.Frame)
    requires Open(p) && WsFrame.Fits(f.form, |f.data|)
    ensures var m := WsFrame.Encode(f);
            |m| > 0 && Quiet(WsFramer(env), p, m[..|m| - 1])
  {
    var m := WsFrame.Encode(f);
    var m' := m[..|m| - 1];
    forall k: nat | 0 < k <= |m'| ensures Complete(env, p, m'[..k]).None? {
      assert m'[..k] <= m + [];
      FramePrefixWaits(env, p, f, [], m'[..k]);
    }
  }

  /** A frame is framed exactly if and only if it carries data. */
  lemma FrameIsExactIff(env: Environment, p: Session, f: WsFrame.Frame)
    requires Open(p) && WsFrame.Fits(f.form, |f.data|)
    ensures var m := WsFrame.Encode(f);
            Exact(WsFramer(env), p, m, Data(WsFrame.Received(f, env.junk(m)))) <==> f.data != []
  {
    WholeFrame(env, p, f);
    FrameWaits(env, p, f);
  }

  /** An empty frame, whatever follows it, never completes: the stream is stuck from there on. */
  lemma EmptyFrameStalls(env: Environment, p: Session, f: WsFrame.Frame, rest: seq<byte>)
    requires Open(p) && WsFrame.Fits(f.form, |f.data|) && f.data == []
    ensures Quiet(WsFramer(env), p, WsFrame.Encode(f) + rest)
  {
    var b := WsFrame.Encode(f) + rest;
    forall k: nat | 0 < k <= |b| ensures Complete(env, p, b[..k]).None? {
      FramePrefixWaits(env, p, f, rest, b[..k]);
    }
  }

  function Deliver(p: Session, payloads: seq<seq<byte>>): Session {
    p.(received := p.received + payloads)
  }

  lemma DeliverFirst(p: Session, payloads: seq<seq<byte>>)
    requires payloads != []
    ensures Deliver(Deliver(p, [payloads[0]]), payloads[1..]) == Deliver(p, payloads)
  {
    Regroup(p.received, [payloads[0]], payloads[1..]);
    assert [payloads[0]] + payloads[1..] == payloads;
  }

  lemma {:induction false} FramesFramed(env: Environment, p: Session, fs: seq<WsFrame.Frame>)
    requires Open(p) && p.hasCallback && ValidFrames(fs) && (forall f <- fs :: f.data != [])
    ensures Framed(WsFramer(env), p, EncodeFrames(fs), DataMessages(Payloads(env, fs)), Deliver(p, Payloads(env, fs)))
    decreases |fs|
  {
    var ps := Payloads(env, fs);
    if fs == [] {
      assert p.received + [] == p.received;
    } else {
      var p1 := Deliver(p, [ps[0]]);
      FrameIsExactIff(env, p, fs[0]);
      assert Handle(env, p, Data(ps[0])) == p1;
      FramesFramed(env, p1, fs[1..]);
      DeliverFirst(p, ps);
      assert DataMessages(ps)[1..] == DataMessages(ps[1..]);
      assert EncodeFrames(fs)[1..] == EncodeFrames(fs[1..]);
    }
  }

  lemma {:induction false} EncodeFramesSplit(fs: seq<WsFrame.Frame>, n: nat)
    requires ValidFrames(fs) && n <= |fs|
    ensures Flatten(EncodeFrames(fs)) == Flatten(EncodeFrames(fs[..n])) + Flatten(EncodeFrames(fs[n..]))
    decreases n
  {
    if n == 0 {
      assert fs[0..] == fs;
    } else {
      EncodeFramesSplit(fs[1..], n - 1);
      assert fs[1..][..n - 1] == fs[..n][1..];
      assert fs[1..][n - 1..] == fs[n..];
      assert EncodeFrames(fs)[1..] == EncodeFrames(fs[1..]);
      assert EncodeFrames(fs[..n])[1..] == EncodeFrames(fs[..n][1..]);
      Regroup(WsFrame.Encode(fs[0]), Flatten(EncodeFrames(fs[..n][1..])), Flatten(EncodeFrames(fs[n..])));
    }
  }

  lemma RestIsQuiet(env: Environment, p: Session, fs: seq<WsFrame.Frame>)
    requires Open(p) && ValidFrames(fs) && (fs != [] ==> fs[0].data == [])
    ensures Quiet(WsFramer(env), p, Flatten(EncodeFrames(fs)))
    ensures Flatten(EncodeFrames(fs)) == [] <==> fs == []
  {
    if fs != [] {
      EmptyFrameStalls(env, p, fs[0], Flatten(EncodeFrames(fs)[1..]));
    }
  }

  // -------- The whole stream --------

  lemma RequestPrefixWaits(env: Environment, p: Session, r: HttpMessage.Request, k: nat)
    requires !p.handshakeDone && HttpMessage.ValidRequest(r) && k < |HttpMessage.Encode(r)|
    ensures Complete(env, p, HttpMessage.Encode(r)[..k]).None?
  {
    HttpMessage.PrefixHasNoHead(r, k, env.bodyLength);
  }

  lemma RequestCompletes(env: Environment, p: Session, r: HttpMessage.Request)
    requires !p.handshakeDone && !p.aborted && HttpMessage.ValidRequest(r) && r.fields != []
    ensures Complete(env, p, HttpMessage.Encode(r)) == Some(Hello(HttpMessage.FieldMap(r.fields, map[])))
  {
    HttpMessage.RequestRoundTrip(r, env.bodyLength);
    HttpMessage.FieldMapKeys(r.fields, map[]);
  }

  lemma RequestIsExact(env: Environment, p: Session, r: HttpMessage.Request)
    requires !p.handshakeDone && !p.aborted && HttpMessage.ValidRequest(r) && r.fields != []
    ensures Exact(WsFramer(env), p, HttpMessage.Encode(r), Hello(HttpMessage.FieldMap(r.fields, map[])))
  {
    var m := HttpMessage.Encode(r);
    RequestCompletes(env, p, r);
    assert |m| >= 4;
    var m' := m[..|m| - 1];
    forall k: nat | 0 < k <= |m'| ensures Complete(env, p, m'[..k]).None? {
      assert m'[..k] == m[..k];
      RequestPrefixWaits(env, p, r, k);
    }
  }

  /** The state of a server that has answered the upgrade request and delivered the payloads of `fs`. */
  function Upgraded(env: Environment, key: seq<byte>, payloads: seq<seq<byte>>): Session {
    Session(false, true, true, false, [ServerHello(env.digest(key + GUID))], payloads)
  }

  /**
   An upgrade request with a key, then frames, cut into reads in any way: the server answers the handshake once and
   hands its callback the payloads of the frames before the first one without data; all bytes from that frame on stay
   in the buffer. So everything is delivered, and the buffer left empty, if and only if every frame carries data.
   */
  lemma UpgradeThenFrames(env: Environment, r: HttpMessage.Request, fs: seq<WsFrame.Frame>, chunks: seq<seq<byte>>)
    requires HttpMessage.ValidRequest(r) && ValidFrames(fs)
    requires GetHeader(HttpMessage.FieldMap(r.fields, map[]), KEY_FIELD) != []
    requires Flatten(chunks) == HttpMessage.Encode(r) + Flatten(EncodeFrames(fs))
    ensures var start := Session(false, true, false, false, [], []);
            var end := FeedAll(WsFramer(env), Link(start, [], [], []), chunks);
            var key := GetHeader(HttpMessage.FieldMap(r.fields, map[]), KEY_FIELD);
            var n := BeforeEmpty(fs);
            && end.protocol == Upgraded(env, key, Payloads(env, fs[..n]))
            && end.buffer == Flatten(EncodeFrames(fs[n..]))
            && (end.buffer == [] <==> forall f <- fs :: f.data != [])
  {
    var g, n, headers := WsFramer(env), BeforeEmpty(fs), HttpMessage.FieldMap(r.fields, map[]);
    var start := Session(false, true, false, false, [], []);
    var c: Link<Session, Message> := Link(start, [], [], []);
    var m, sent, rest := HttpMessage.Encode(r), EncodeFrames(fs[..n]), Flatten(EncodeFrames(fs[n..]));
    var open := Upgraded(env, GetHeader(headers, KEY_FIELD), []);
    RequestIsExact(env, start, r);
    assert start.written + [ServerHello(env.digest(GetHeader(headers, KEY_FIELD) + GUID))] == open.written;
    assert g.handle(start, Hello(headers)) == open;
    FramesFramed(env, open, fs[..n]);
    var ps := Payloads(env, fs[..n]);
    assert [] + ps == ps;
    assert ([m] + sent)[1..] == sent && ([Hello(headers)] + DataMessages(ps))[1..] == DataMessages(ps);
    assert Framed(g, start, [m] + sent, [Hello(headers)] + DataMessages(ps), open.(received := ps));
    RestIsQuiet(env, open.(received := ps), fs[n..]);
    FeedComplete(g, c, [m] + sent, [Hello(headers)] + DataMessages(ps), open.(received := ps), rest);
    EncodeFramesSplit(fs, n);
    Regroup(m, Flatten(sent), rest);
    ChunkIndependence(g, c, chunks);
  }

  /** For masked frames that all carry data, the callback receives the senders' own bytes. */
  lemma {:induction false} MaskedPayloads(env: Environment, fs: seq<WsFrame.Frame>)
    requires ValidFrames(fs) && forall f <- fs :: f.masked
    ensures forall i :: 0 <= i < |fs| ==> Payloads(env, fs)[i] == fs[i].data
  {
    if fs != [] {
      MaskedPayloads(env, fs[1..]);
    }
  }

  /** Without a handshake key the server aborts on the request itself. */
  lemma MissingKeyAborts(env: Environment, r: HttpMessage.Request)
    requires HttpMessage.ValidRequest(r) && r.fields != []
    ensures var start := Session(false, true, false, false, [], []);
            var end := Feed(WsFramer(env), Link(start, [], [], []), HttpMessage.Encode(r));
            end.protocol.aborted
            <==> GetHeader(HttpMessage.FieldMap(r.fields, map[]), Ascii("Sec-WebSocket-Key")) == []
  {
    var start := Session(false, true, false, false, [], []);
    RequestIsExact(env, start, r);
    FeedExact(WsFramer(env), Link(start, [], [], []), HttpMessage.Encode(r),
              Hello(HttpMessage.FieldMap(r.fields, map[])));
  }

  /** A client takes any head for the server's answer: its handshake is done, and it has written nothing. */
  lemma ClientTakesAnyHead(env: Environment, hasCallback: bool, r: HttpMessage.Request)
    requires HttpMessage.ValidRequest(r) && r.fields != []
    ensures var start := Session(true, hasCallback, false, false, [], []);
            var end := Feed(WsFramer(env), Link(start, [], [], []), HttpMessage.Encode(r));
            end.protocol == Session(true, hasCallback, true, false, [], []) && end.buffer == []
  {
    var start := Session(true, hasCallback, false, false, [], []);
    RequestIsExact(env, start, r);
    FeedExact(WsFramer(env), Link(start, [], [], []), HttpMessage.Encode(r),
              Hello(HttpMessage.FieldMap(r.fields, map[])));
  }

  // -------- What the server answers --------

  /** The answer of section 4.2.2 of RFC 6455 as a head with three fields. */
  function AnswerHead(accept: seq<byte>): HttpMessage.Request {
    HttpMessage.Request(
      Ascii("HTTP/1.1 101 Switching Protocols"),
      [(Ascii("Upgrade"), Ascii("websocket")), (Ascii("Connection"), Ascii("Upgrade")),
       (Ascii("Sec-WebSocket-Accept"), accept)])
  }

  lemma AsciiConcat(s: string, t: string)
    ensures Ascii(s + t) == Ascii(s) + Ascii(t)
  {
  }

  /** A text of printing characters holds no line break, and none of them is a colon. */
  predicate Plain(s: string) {
    forall i :: 0 <= i < |s| ==> 32 <= s[i] as int < 127 && s[i] != ':'
  }

  lemma PlainAscii(s: string)
    requires Plain(s)
    ensures HttpMessage.NoLineBreak(Ascii(s)) && COLON !in Ascii(s)
    ensures !Occurs(Ascii(s), HttpMessage.SEPARATOR)
  {
    forall x <- Ascii(s) ensures x != CR && x != LF && x != COLON {
      var i :| 0 <= i < |s| && Ascii(s)[i] == x;
      assert 32 <= s[i] as int < 127 && s[i] != ':';
    }
    forall i: nat | i <= |s| ensures !OccursAt(Ascii(s), HttpMessage.SEPARATOR, i) {
      if i + 2 <= |s| {
        assert Ascii(s)[i..i + 2][0] == Ascii(s)[i] && Ascii(s)[i] in Ascii(s);
      }
    }
  }

  lemma LineEnds()
    ensures Ascii("\r\n") == HttpMessage.LINE_END && Ascii(": ") == HttpMessage.SEPARATOR
  {
  }

  /** A field as one text. */
  lemma FieldText(name: string, value: string)
    ensures HttpMessage.FieldLine((Ascii(name), Ascii(value))) + HttpMessage.LINE_END
            == Ascii(name + ": " + value + "\r\n")
  {
    LineEnds();
    AsciiConcat(name, ": ");
    AsciiConcat(name + ": ", value);
    AsciiConcat(name + ": " + value, "\r\n");
  }

  lemma FieldsText(accept: seq<byte>)
    ensures HttpMessage.FieldLines(AnswerHead(accept).fields)
            == Ascii("Upgrade: websocket\r\n") + (Ascii("Connection: Upgrade\r\n")
               + (HttpMessage.FieldLine((Ascii("Sec-WebSocket-Accept"), accept)) + HttpMessage.LINE_END))
  {
    var fields := AnswerHead(accept).fields;
    FieldText("Upgrade", "websocket");
    FieldText("Connection", "Upgrade");
    assert "Upgrade" + ": " + "websocket" + "\r\n" == "Upgrade: websocket\r\n";
    assert "Connection" + ": " + "Upgrade" + "\r\n" == "Connection: Upgrade\r\n";
    assert fields[1..][1..] == [fields[2]];
    assert HttpMessage.FieldLines([fields[2]]) == HttpMessage.FieldLine(fields[2]) + HttpMessage.LINE_END;
  }

  lemma StatusText()
    ensures Ascii("HTTP/1.1 101 Switching Protocols\r\n")
            == Ascii("HTTP/1.1 101 Switching Protocols") + HttpMessage.LINE_END
  {
    LineEnds();
    AsciiConcat("HTTP/1.1 101 Switching Protocols", "\r\n");
    assert "HTTP/1.1 101 Switching Protocols" + "\r\n" == "HTTP/1.1 101 Switching Protocols\r\n";
  }

  lemma AcceptText(accept: seq<byte>)
    ensures Ascii("Sec-WebSocket-Accept: ") + accept + Ascii("\r\n")
            == HttpMessage.FieldLine((Ascii("Sec-WebSocket-Accept"), accept)) + HttpMessage.LINE_END
  {
    LineEnds();
    AsciiConcat("Sec-WebSocket-Accept", ": ");
    assert "Sec-WebSocket-Accept" + ": " == "Sec-WebSocket-Accept: ";
  }

  lemma Nested(a: seq<byte>, b: seq<byte>, c: seq<byte>, d: seq<byte>, e: seq<byte>, x: seq<byte>, f: seq<byte>)
    ensures a + b + c + d + x + e + f == a + (b + (c + (d + x + e))) + f
  {
  }

  lemma AnswerIsHead(accept: seq<byte>)
    ensures ServerHello(accept) == HttpMessage.Encode(AnswerHead(accept))
  {
    LineEnds();
    FieldsText(accept);
    StatusText();
    AcceptText(accept);
    Nested(Ascii("HTTP/1.1 101 Switching Protocols\r\n"), Ascii("Upgrade: websocket\r\n"),
           Ascii("Connection: Upgrade\r\n"), Ascii("Sec-WebSocket-Accept: "), Ascii("\r\n"), accept, Ascii("\r\n"));
  }

  lemma AnswerPrints(accept: seq<byte>)
    requires HttpMessage.NoLineBreak(accept)
    ensures HttpMessage.WellFormed(AnswerHead(accept))
  {
    PlainAscii("HTTP/1.1 101 Switching Protocols");
    PlainAscii("Upgrade");
    PlainAscii("websocket");
    PlainAscii("Connection");
    PlainAscii("Sec-WebSocket-Accept");
  }

  /**
   What the server writes in answer to a request with a key: a head with status 101 and the three fields of section
   4.2.2 of RFC 6455, the last of them the digest of the key followed by the GUID. A client that parses it as the server
   parses requests reads exactly these fields.
   */
  lemma AnswerSays(env: Environment, key: seq<byte>)
    requires var accept := env.digest(key + Ascii("258EAFA5-E914-47DA-95CA-C5AB0DC85B11"));
             HttpMessage.NoLineBreak(accept)
             && !Occurs(HttpMessage.Encode(AnswerHead(accept)), HttpMessage.CONTENT_LENGTH)
    ensures var accept := env.digest(key + Ascii("258EAFA5-E914-47DA-95CA-C5AB0DC85B11"));
            var answer := Upgraded(env, key, []).written[0];
            && answer == HttpMessage.Encode(AnswerHead(accept))
            && HttpMessage.HeadersOf(answer, env.bodyLength)
               == HttpMessage.FieldMap(AnswerHead(accept).fields, map[])
  {
    var accept := env.digest(key + GUID);
    AnswerIsHead(accept);
    AnswerPrints(accept);
    HttpMessage.RequestRoundTrip(AnswerHead(accept), env.bodyLength);
  }
}
