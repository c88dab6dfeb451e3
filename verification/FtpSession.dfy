/**
 The receive loop and the engine together: bytes from the control channel, cut up in any way, interleaved with API
 calls and events of the data channel and the local file.
 */
module FtpSession {
  import opened Bytes
  import opened Framing
  import opened FtpReply
  import opened FtpModel

  /** A read on the control channel, or any other event. */
  datatype Input = Read(data: seq<byte>) | Happens(event: Event)

  /** The engine, and how many replies it has been handed: each buffer is tested once at each count. */
  datatype Endpoint = Endpoint(ftp: Ftp, replies: nat)

  function Hand(p: Endpoint, msg: seq<byte>): Endpoint {
    Endpoint(OnReply(p.ftp, msg), p.replies + 1)
  }

  /** The engine behind its framer; `m` is what memory holds behind each buffer, whenever it is tested. */
  function Engine(m: Memory<Endpoint>): Framer<Endpoint, seq<byte>> {
    FtpFramer(Hand, m)
  }

  function Start(s: Ftp): Link<Endpoint, seq<byte>> {
    Link(Endpoint(s, 0), [], [], [])
  }

  /** With something behind it the scan finds the message complete. */
  ghost predicate Findable(b: seq<byte>) {
    exists x: Margin :: ScanFinds(b, x)
  }

  function Take(m: Memory<Endpoint>, c: Link<Endpoint, seq<byte>>, i: Input): Link<Endpoint, seq<byte>> {
    match i
    case Read(data) => Feed(Engine(m), c, data)
    case Happens(e) => c.(protocol := c.protocol.(ftp := Step(c.protocol.ftp, e)))
  }

  function TakeAll(m: Memory<Endpoint>, c: Link<Endpoint, seq<byte>>, inputs: seq<Input>): Link<Endpoint, seq<byte>>
    decreases |inputs|
  {
    if inputs == [] then c else Take(m, TakeAll(m, c, inputs[..|inputs| - 1]), inputs[|inputs| - 1])
  }

  /** All bytes read from the control channel. */
  function Received(inputs: seq<Input>): seq<byte> {
    if inputs == [] then []
    else
      var last := inputs[|inputs| - 1];
      Received(inputs[..|inputs| - 1]) + if last.Read? then last.data else []
  }

  /** The events that are not replies, in order. */
  function Others(es: seq<Event>): seq<Event> {
    if es == [] then []
    else Others(es[..|es| - 1]) + if es[|es| - 1].Reply? then [] else [es[|es| - 1]]
  }

  function Happenings(inputs: seq<Input>): seq<Event> {
    if inputs == [] then []
    else
      var last := inputs[|inputs| - 1];
      Happenings(inputs[..|inputs| - 1]) + if last.Happens? then [last.event] else []
  }

  /** The bytes of the replies among the events. */
  function ReplyBytes(es: seq<Event>): seq<byte> {
    if es == [] then []
    else ReplyBytes(es[..|es| - 1]) + if es[|es| - 1].Reply? then es[|es| - 1].msg else []
  }

  /**
   `es` is what the engine has been through when the connection stands as `c`: `others` and replies spelling out
   `bytes`.
   */
  ghost predicate Explains(s: Ftp, c: Link<Endpoint, seq<byte>>, es: seq<Event>, others: seq<Event>, bytes: seq<byte>) {
    && c.protocol.ftp == Run(s, es) && Others(es) == others
    && bytes == ReplyBytes(es) + c.buffer
    && forall e <- es :: e.Reply? ==> Findable(e.msg)
  }

  lemma OneMore(s: Ftp, es: seq<Event>, e: Event)
    ensures Run(s, es + [e]) == Step(Run(s, es), e)
    ensures Others(es + [e]) == if e.Reply? then Others(es) else Others(es) + [e]
    ensures ReplyBytes(es + [e]) == if e.Reply? then ReplyBytes(es) + e.msg else ReplyBytes(es)
  {
    assert (es + [e])[..|es|] == es;
  }

  lemma EngineByte(m: Memory<Endpoint>, c: Link<Endpoint, seq<byte>>, x: byte)
    ensures var b := c.buffer + [x];
            FeedByte(Engine(m), c, x)
            == if ScanFinds(b, m(c.protocol, b)) then Link(Hand(c.protocol, b), [], c.messages + [b], c.notified + [b])
               else c.(buffer := b)
  {
  }

  lemma ReplyExplained(s: Ftp, c: Link<Endpoint, seq<byte>>, es: seq<Event>, others: seq<Event>, bytes: seq<byte>,
                       b: seq<byte>)
    requires Explains(s, c, es, others, bytes) && Findable(b)
    ensures var e := Event.Reply(b);
            && Run(s, es + [e]) == OnReply(c.protocol.ftp, b) && Others(es + [e]) == others
            && ReplyBytes(es + [e]) == ReplyBytes(es) + b
            && forall x <- es + [e] :: x.Reply? ==> Findable(x.msg)
  {
    OneMore(s, es, Event.Reply(b));
  }

  /** One byte: kept, or the last of a reply that the engine then handles. */
  lemma ByteExplained(m: Memory<Endpoint>, s: Ftp, c: Link<Endpoint, seq<byte>>, es: seq<Event>, others: seq<Event>,
                      bytes: seq<byte>,
                      x: byte)
    returns (es': seq<Event>)
    requires Explains(s, c, es, others, bytes)
    ensures Explains(s, FeedByte(Engine(m), c, x), es', others, bytes + [x])
  {
    var b := c.buffer + [x];
    Regroup(ReplyBytes(es), c.buffer, [x]);
    EngineByte(m, c, x);
    if ScanFinds(b, m(c.protocol, b)) {
      assert Findable(b);
      ReplyExplained(s, c, es, others, bytes, b);
      es' := es + [Event.Reply(b)];
      assert bytes + [x] == ReplyBytes(es') + [];
    } else {
      es' := es;
    }
  }

  lemma {:induction false} BytesExplained(m: Memory<Endpoint>, s: Ftp, c: Link<Endpoint, seq<byte>>, es: seq<Event>,
                                          others: seq<Event>,
                                          bytes: seq<byte>, data: seq<byte>)
    returns (es': seq<Event>)
    requires Explains(s, c, es, others, bytes)
    ensures Explains(s, Feed(Engine(m), c, data), es', others, bytes + data)
    decreases |data|
  {
    if data == [] {
      es' := es;
      assert bytes + data == bytes;
    } else {
      var n := |data| - 1;
      es' := BytesExplained(m, s, c, es, others, bytes, data[..n]);
      es' := ByteExplained(m, s, Feed(Engine(m), c, data[..n]), es', others, bytes + data[..n], data[n]);
      Regroup(bytes, data[..n], [data[n]]);
      SplitLast(data);
    }
  }

  lemma EventExplained(s: Ftp, c: Link<Endpoint, seq<byte>>, es: seq<Event>, others: seq<Event>, bytes: seq<byte>,
                       e: Event)
    requires Explains(s, c, es, others, bytes) && !e.Reply?
    ensures Explains(s, c.(protocol := c.protocol.(ftp := Step(c.protocol.ftp, e))), es + [e], others + [e], bytes + [])
  {
    OneMore(s, es, e);
    assert bytes + [] == bytes;
  }

  /** One read, or one other event. */
  lemma InputExplained(m: Memory<Endpoint>, s: Ftp, c: Link<Endpoint, seq<byte>>, es: seq<Event>, others: seq<Event>,
                       bytes: seq<byte>,
                       i: Input)
    returns (es': seq<Event>)
    requires Explains(s, c, es, others, bytes) && (i.Happens? ==> !i.event.Reply?)
    ensures Explains(s, Take(m, c, i), es', others + if i.Happens? then [i.event] else [],
                     bytes + if i.Read? then i.data else [])
  {
    match i
    case Read(data) =>
      es' := BytesExplained(m, s, c, es, others, bytes, data);
      assert others + [] == others;
    case Happens(e) =>
      EventExplained(s, c, es, others, bytes, e);
      es' := es + [e];
  }

  lemma SessionGrows(m: Memory<Endpoint>, c: Link<Endpoint, seq<byte>>, inputs: seq<Input>, i: Input)
    ensures TakeAll(m, c, inputs + [i]) == Take(m, TakeAll(m, c, inputs), i)
    ensures Happenings(inputs + [i]) == Happenings(inputs) + if i.Happens? then [i.event] else []
    ensures Received(inputs + [i]) == Received(inputs) + if i.Read? then i.data else []
  {
    assert (inputs + [i])[..|inputs|] == inputs;
  }

  /**
   For every interleaving of reads of any size with other events, the engine has been through a run of those other
   events, in their order, and of complete replies whose bytes, with what is still in the buffer, are all bytes
   received.
   */
  lemma {:induction false} SessionIsRun(m: Memory<Endpoint>, s: Ftp, inputs: seq<Input>) returns (es: seq<Event>)
    requires forall i <- inputs :: i.Happens? ==> !i.event.Reply?
    ensures Explains(s, TakeAll(m, Start(s), inputs), es, Happenings(inputs), Received(inputs))
    decreases |inputs|
  {
    if inputs == [] {
      es := [];
    } else {
      var before, last := inputs[..|inputs| - 1], inputs[|inputs| - 1];
      assert forall i <- before :: i in inputs;
      es := SessionIsRun(m, s, before);
      assert last in inputs;
      es := InputExplained(m, s, TakeAll(m, Start(s), before), es, Happenings(before), Received(before), last);
      SplitLast(inputs);
      SessionGrows(m, Start(s), before, last);
    }
  }

  /**
   A whole reply dialogue, read in any chunks: the engine ends as if the replies had been handed to it one by one.
   */
  lemma DialogueDrivesEngine(m: Memory<Endpoint>, s: Ftp, rs: seq<Reply>, chunks: seq<seq<byte>>)
    requires (forall r <- rs :: WellFormed(r)) && NoneEarly(rs) && Flatten(chunks) == Flatten(EncodeAll(rs))
    ensures var end := FeedAll(Engine(m), Start(s), chunks);
            end.protocol.ftp == Run(s, Replies(EncodeAll(rs))) && end.buffer == []
  {
    RepliesFramed(Hand, m, Endpoint(s, 0), rs, chunks);
    HandlingIsRunning(s, 0, [], EncodeAll(rs));
    assert [] + Replies(EncodeAll(rs)) == Replies(EncodeAll(rs));
  }

  /** What the engine goes by is the first digit of the reply's code, in a single-line and in a multi-line reply. */
  lemma ClassIsFirstDigit(r: Reply)
    requires WellFormed(r)
    ensures Code(Encode(r)) == r.code[0] as int as char
  {
    EncodeShape(r);
    assert Encode(r)[0] == Terminator(Encode(r))[0] == r.code[0];
  }

  function Replies(ms: seq<seq<byte>>): (es: seq<Event>)
    ensures |es| == |ms|
  {
    seq(|ms|, i requires 0 <= i < |ms| => Event.Reply(ms[i]))
  }

  lemma HandRuns(s: Ftp, n: nat, before: seq<Event>, msg: seq<byte>)
    ensures Hand(Endpoint(Run(s, before), n), msg) == Endpoint(Run(s, before + [Event.Reply(msg)]), n + 1)
  {
    OneMore(s, before, Event.Reply(msg));
  }

  lemma RepliesFirst(ms: seq<seq<byte>>, before: seq<Event>)
    requires ms != []
    ensures before + [Event.Reply(ms[0])] + Replies(ms[1..]) == before + Replies(ms)
  {
  }

  lemma {:induction false} HandlingIsRunning(s: Ftp, n: nat, before: seq<Event>, ms: seq<seq<byte>>)
    ensures HandleAll(Hand, Endpoint(Run(s, before), n), ms).ftp == Run(s, before + Replies(ms))
    decreases |ms|
  {
    if ms == [] {
      assert before + Replies(ms) == before;
    } else {
      HandRuns(s, n, before, ms[0]);
      HandlingIsRunning(s, n + 1, before + [Event.Reply(ms[0])], ms[1..]);
      RepliesFirst(ms, before);
    }
  }
}
