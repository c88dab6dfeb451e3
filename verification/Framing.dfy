/**
 The byte-driven receive loop shared by every protocol (CProtocol::OnRead), over an arbitrary
 completeness test and state machine. `Feed` is what the loop computes; the theorems are about
 every way of cutting the input into reads.
 */
module Framing {
  import opened Wrappers
  import opened Bytes

  /** The two virtual functions the loop calls: IsMessageComplete and StateMachine. */
  datatype Framer<!P, !M> = Framer(complete: (P, seq<byte>) -> Option<M>, handle: (P, M) -> P)

  /** A protocol endpoint: its own state, iBuffer, iMessages, and the raw frames passed to its observers. */
  datatype Link<P, M> = Link(protocol: P, buffer: seq<byte>, messages: seq<M>, notified: seq<seq<byte>>)

  function FeedByte<P, M>(f: Framer<P, M>, c: Link<P, M>, x: byte): Link<P, M> {
    var b := c.buffer + [x];
    match f.complete(c.protocol, b)
    case None => c.(buffer := b)
    case Some(m) => Link(f.handle(c.protocol, m), [], c.messages + [m], c.notified + [b])
  }

  /** One call of OnRead. */
  function Feed<P, M>(f: Framer<P, M>, c: Link<P, M>, bytes: seq<byte>): Link<P, M>
    decreases |bytes|
  {
    if bytes == [] then c else FeedByte(f, Feed(f, c, bytes[..|bytes| - 1]), bytes[|bytes| - 1])
  }

  /** A series of calls of OnRead. */
  function FeedAll<P, M>(f: Framer<P, M>, c: Link<P, M>, chunks: seq<seq<byte>>): Link<P, M>
    decreases |chunks|
  {
    if chunks == [] then c else FeedAll(f, Feed(f, c, chunks[0]), chunks[1..])
  }

  class CProtocol<P, M> {
    const framer: Framer<P, M>
    var iProtocol: P
    var iBuffer: seq<byte>
    var iMessages: seq<M>
    var notified: seq<seq<byte>>

    constructor (framer: Framer<P, M>, protocol: P)
      ensures this.framer == framer
      ensures Contents() == Link(protocol, [], [], [])
    {
      this.framer := framer;
      iProtocol, iBuffer, iMessages, notified := protocol, [], [], [];
    }

    ghost function Contents(): Link<P, M>
      reads this
    {
      Link(iProtocol, iBuffer, iMessages, notified)
    }

    method OnRead(b: array<byte>, n: nat)
      requires n <= b.Length
      modifies this
      ensures Contents() == Feed(framer, old(Contents()), b[..n])
    {
      for i := 0 to n
        invariant Contents() == Feed(framer, old(Contents()), b[..i])
      {
        assert b[..i + 1][..i] == b[..i];
        iBuffer := iBuffer + [b[i]];
        var message := framer.complete(iProtocol, iBuffer);
        if message.Some? {
          iMessages := iMessages + [message.value];
          iProtocol := framer.handle(iProtocol, message.value);
          notified := notified + [iBuffer];
          iBuffer := [];
        }
      }
    }
  }

  // -------- Every cut of the input gives the same result --------

  lemma {:induction false} FeedConcat<P, M>(f: Framer<P, M>, c: Link<P, M>, x: seq<byte>, y: seq<byte>)
    ensures Feed(f, c, x + y) == Feed(f, Feed(f, c, x), y)
    decreases |y|
  {
    if y == [] {
      assert x + y == x;
    } else {
      var y' := y[..|y| - 1];
      assert (x + y)[..|x + y| - 1] == x + y';
      FeedConcat(f, c, x, y');
    }
  }

  /** However the input is cut into chunks, the endpoint ends up as if it had come in one read. */
  lemma {:induction false} ChunkIndependence<P, M>(f: Framer<P, M>, c: Link<P, M>, chunks: seq<seq<byte>>)
    ensures FeedAll(f, c, chunks) == Feed(f, c, Flatten(chunks))
    decreases |chunks|
  {
    if chunks != [] {
      ChunkIndependence(f, Feed(f, c, chunks[0]), chunks[1..]);
      FeedConcat(f, c, chunks[0], Flatten(chunks[1..]));
    }
  }

  // -------- What the frames are --------

  /** No non-empty prefix of `b` (itself included) is complete in state `p`. */
  ghost predicate Quiet<P, M>(f: Framer<P, M>, p: P, b: seq<byte>) {
    forall k: nat :: 0 < k <= |b| ==> f.complete(p, b[..k]).None?
  }

  /** `b` is the shortest complete message in state `p`, and reads as `m`. */
  ghost predicate Exact<P, M>(f: Framer<P, M>, p: P, b: seq<byte>, m: M) {
    |b| > 0 && f.complete(p, b) == Some(m) && Quiet(f, p, b[..|b| - 1])
  }

  /** From state `p` the frames are exact one after the other, read as `ms`, and lead to state `p'`. */
  ghost predicate Framed<P, M>(f: Framer<P, M>, p: P, frames: seq<seq<byte>>, ms: seq<M>, p': P)
    decreases |frames|
  {
    if frames == [] then ms == [] && p' == p
    else ms != [] && Exact(f, p, frames[0], ms[0]) && Framed(f, f.handle(p, ms[0]), frames[1..], ms[1..], p')
  }

  lemma {:induction false} FramedAppend<P, M>(f: Framer<P, M>, p: P, frames: seq<seq<byte>>, ms: seq<M>, p': P,
                                              b: seq<byte>, m: M)
    requires Framed(f, p, frames, ms, p') && Exact(f, p', b, m)
    ensures Framed(f, p, frames + [b], ms + [m], f.handle(p', m))
    decreases |frames|
  {
    if frames == [] {
      assert Framed(f, f.handle(p, m), [b][1..], [m][1..], f.handle(p, m));
      assert frames + [b] == [b] && ms + [m] == [m];
    } else {
      FramedAppend(f, f.handle(p, ms[0]), frames[1..], ms[1..], p', b, m);
      assert (frames + [b])[1..] == frames[1..] + [b];
      assert (ms + [m])[1..] == ms[1..] + [m];
    }
  }

  /** One more byte that completes nothing leaves the buffer quiet. */
  lemma QuietExtend<P, M>(f: Framer<P, M>, p: P, b: seq<byte>, x: byte)
    requires Quiet(f, p, b) && f.complete(p, b + [x]).None?
    ensures Quiet(f, p, b + [x])
  {
    var b' := b + [x];
    forall k: nat | 0 < k <= |b'| ensures f.complete(p, b'[..k]).None? {
      if k < |b'| {
        assert b'[..k] == b[..k];
      } else {
        assert b'[..k] == b';
      }
    }
  }

  /**
   For every input, the notified frames and the buffer cut up the bytes received: nothing is lost or
   repeated, each frame is the shortest complete message at its start, and the buffer holds no message.
   */
  lemma {:induction false} FeedSound<P, M>(f: Framer<P, M>, p: P, bytes: seq<byte>)
    ensures var r := Feed(f, Link(p, [], [], []), bytes);
            && bytes == Flatten(r.notified) + r.buffer
            && Framed(f, p, r.notified, r.messages, r.protocol)
            && Quiet(f, r.protocol, r.buffer)
    decreases |bytes|
  {
    if bytes != [] {
      var n := |bytes| - 1;
      FeedSound(f, p, bytes[..n]);
      var r := Feed(f, Link(p, [], [], []), bytes[..n]);
      var b := r.buffer + [bytes[n]];
      SplitLast(bytes);
      Regroup(Flatten(r.notified), r.buffer, [bytes[n]]);
      match f.complete(r.protocol, b)
      case None => QuietExtend(f, r.protocol, r.buffer, bytes[n]);
      case Some(m) => FeedEmits(f, p, r, b, m);
    }
  }

  lemma FeedEmits<P, M>(f: Framer<P, M>, p: P, r: Link<P, M>, b: seq<byte>, m: M)
    requires |b| > 0 && b[..|b| - 1] == r.buffer && f.complete(r.protocol, b) == Some(m)
    requires Framed(f, p, r.notified, r.messages, r.protocol) && Quiet(f, r.protocol, r.buffer)
    ensures Framed(f, p, r.notified + [b], r.messages + [m], f.handle(r.protocol, m))
    ensures Flatten(r.notified + [b]) + [] == Flatten(r.notified) + b
  {
    FramedAppend(f, p, r.notified, r.messages, r.protocol, b, m);
    FlattenConcat(r.notified, [b]);
    FlattenOne(b);
  }

  lemma QuietPrefix<P, M>(f: Framer<P, M>, p: P, b: seq<byte>, n: nat)
    requires n <= |b| && Quiet(f, p, b)
    ensures Quiet(f, p, b[..n])
  {
    forall k: nat | 0 < k <= n ensures f.complete(p, b[..n][..k]).None? {
      assert b[..n][..k] == b[..k];
    }
  }

  /** A byte that completes nothing is kept. */
  lemma FeedKeeps<P, M>(f: Framer<P, M>, c: Link<P, M>, b: seq<byte>)
    requires b != [] && f.complete(c.protocol, b).None?
    ensures FeedByte(f, c.(buffer := b[..|b| - 1]), b[|b| - 1]) == c.(buffer := b)
  {
    SplitLast(b);
  }

  lemma {:induction false} FeedQuiet<P, M>(f: Framer<P, M>, c: Link<P, M>, b: seq<byte>)
    requires c.buffer == [] && Quiet(f, c.protocol, b)
    ensures Feed(f, c, b) == c.(buffer := b)
    decreases |b|
  {
    if b != [] {
      var n := |b| - 1;
      QuietPrefix(f, c.protocol, b, n);
      FeedQuiet(f, c, b[..n]);
      assert f.complete(c.protocol, b[..|b|]).None? && b[..|b|] == b;
      FeedKeeps(f, c, b);
    }
  }

  lemma {:induction false} FeedExact<P, M>(f: Framer<P, M>, c: Link<P, M>, b: seq<byte>, m: M)
    requires c.buffer == [] && Exact(f, c.protocol, b, m)
    ensures Feed(f, c, b) == Link(f.handle(c.protocol, m), [], c.messages + [m], c.notified + [b])
  {
    var n := |b| - 1;
    FeedQuiet(f, c, b[..n]);
    assert Feed(f, c, b) == FeedByte(f, c.(buffer := b[..n]), b[n]);
    SplitLast(b);
  }

  /**
   Conversely, if the input is a series of exact frames and a rest that completes nothing, the endpoint
   emits exactly those frames and keeps exactly that rest. With FeedSound: the decomposition is unique.
   */
  lemma {:induction false} FeedComplete<P, M>(f: Framer<P, M>, c: Link<P, M>, frames: seq<seq<byte>>, ms: seq<M>, p': P,
                                              rest: seq<byte>)
    requires c.buffer == [] && Framed(f, c.protocol, frames, ms, p') && Quiet(f, p', rest)
    ensures Feed(f, c, Flatten(frames) + rest) == Link(p', rest, c.messages + ms, c.notified + frames)
    decreases |frames|
  {
    if frames == [] {
      FeedQuiet(f, c, rest);
      assert Flatten(frames) + rest == rest;
      assert c.messages + [] == c.messages && c.notified + [] == c.notified;
    } else {
      var head, tail := frames[0], Flatten(frames[1..]) + rest;
      FeedExact(f, c, head, ms[0]);
      FeedConcat(f, c, head, tail);
      FeedComplete(f, Feed(f, c, head), frames[1..], ms[1..], p', rest);
      Regroup(head, Flatten(frames[1..]), rest);
      Regroup(c.messages, [ms[0]], ms[1..]);
      Regroup(c.notified, [head], frames[1..]);
      assert [ms[0]] + ms[1..] == ms;
      assert [head] + frames[1..] == frames;
    }
  }

  /** The input splits into the given exact frames and a rest that completes nothing. */
  ghost predicate Decomposes<P, M(!new)>(f: Framer<P, M>, p: P, frames: seq<seq<byte>>, rest: seq<byte>)
    decreases |frames|
  {
    if frames == [] then Quiet(f, p, rest)
    else exists m :: Exact(f, p, frames[0], m) && Decomposes(f, f.handle(p, m), frames[1..], rest)
  }

  lemma {:induction false} DecomposesFramed<P, M(!new)>(f: Framer<P, M>, p: P, frames: seq<seq<byte>>, rest: seq<byte>)
    returns (ms: seq<M>, p': P)
    requires Decomposes(f, p, frames, rest)
    ensures Framed(f, p, frames, ms, p') && Quiet(f, p', rest)
    decreases |frames|
  {
    if frames == [] {
      ms, p' := [], p;
    } else {
      var m :| Exact(f, p, frames[0], m) && Decomposes(f, f.handle(p, m), frames[1..], rest);
      ms, p' := DecomposesFramed(f, f.handle(p, m), frames[1..], rest);
      ms := [m] + ms;
    }
  }

  lemma {:induction false} FramedDecomposes<P, M(!new)>(f: Framer<P, M>, p: P, frames: seq<seq<byte>>,
                                                  ms: seq<M>, p': P,
                                                  rest: seq<byte>)
    requires Framed(f, p, frames, ms, p') && Quiet(f, p', rest)
    ensures Decomposes(f, p, frames, rest)
    decreases |frames|
  {
    if frames != [] {
      FramedDecomposes(f, f.handle(p, ms[0]), frames[1..], ms[1..], p', rest);
    }
  }

  /**
   For every cut of the input: the endpoint emits the given frames and keeps the given rest iff the input decomposes
   so.
   */
  lemma EmitsIffDecomposes<P, M(!new)>(f: Framer<P, M>, p: P, chunks: seq<seq<byte>>,
                              frames: seq<seq<byte>>, rest: seq<byte>)
    requires Flatten(chunks) == Flatten(frames) + rest
    ensures var r := FeedAll(f, Link(p, [], [], []), chunks);
            (r.notified == frames && r.buffer == rest) <==> Decomposes(f, p, frames, rest)
  {
    var c: Link<P, M> := Link(p, [], [], []);
    ChunkIndependence(f, c, chunks);
    FeedSound(f, p, Flatten(chunks));
    var r := Feed(f, c, Flatten(chunks));
    if r.notified == frames && r.buffer == rest {
      FramedDecomposes(f, p, frames, r.messages, r.protocol, rest);
    }
    if Decomposes(f, p, frames, rest) {
      var ms, p' := DecomposesFramed(f, p, frames, rest);
      FeedComplete(f, c, frames, ms, p', rest);
      assert c.notified + frames == frames;
    }
  }
}
