/**
 The dispatcher's loopback: contexts queued by QueuePendingContext travel as bytes over a socket to itself and are put
 together again by a function that compares the size of what it has gathered with the size of a context.
 */
module Dispatcher {
  import opened Bytes

  datatype Loopback = Loopback(m: seq<byte>, processed: seq<seq<byte>>)

  /** One read on the loopback connection; `size` is sizeof(Context). */
  function Absorb(size: nat, l: Loopback, b: seq<byte>): Loopback {
    var m := l.m + b;
    if |m| == size then Loopback([], l.processed + [m]) else l.(m := m)
  }

  function AbsorbAll(size: nat, l: Loopback, chunks: seq<seq<byte>>): Loopback
    decreases |chunks|
  {
    if chunks == [] then l else AbsorbAll(size, Absorb(size, l, chunks[0]), chunks[1..])
  }

  class CLoopback {
    const size: nat
    var m: seq<byte>
    var processed: seq<seq<byte>>

    constructor (size: nat)
      ensures this.size == size && State() == Loopback([], [])
    {
      this.size, m, processed := size, [], [];
    }

    ghost function State(): Loopback
      reads this
    {
      Loopback(m, processed)
    }

    method OnRead(b: array<byte>, n: nat)
      requires n <= b.Length
      modifies this
      ensures State() == Absorb(size, old(State()), b[..n])
    {
      m := m + b[..n];
      if |m| == size {
        processed := processed + [m];
        m := [];
      }
    }
  }

  /** No read crosses the end of a context; `room` bytes of the current one are still to come. */
  predicate Aligned(size: nat, room: nat, chunks: seq<seq<byte>>)
    decreases |chunks|
  {
    chunks != [] ==>
      && |chunks[0]| <= room
      && Aligned(size, if |chunks[0]| == room then size else room - |chunks[0]|, chunks[1..])
  }

  predicate Contexts(size: nat, cs: seq<seq<byte>>) {
    forall c <- cs :: |c| == size
  }

  predicate NonEmpty(chunks: seq<seq<byte>>) {
    forall b <- chunks :: b != []
  }

  /** Once more has been gathered than a context holds, nothing is ever processed again. */
  lemma {:induction false} OvershootStalls(size: nat, l: Loopback, chunks: seq<seq<byte>>)
    requires |l.m| > size
    ensures var r := AbsorbAll(size, l, chunks);
            r.processed == l.processed && |r.m| > size
    decreases |chunks|
  {
    if chunks != [] {
      OvershootStalls(size, Absorb(size, l, chunks[0]), chunks[1..]);
    }
  }

  /** The first context is the first `size` bytes of the stream. */
  lemma FirstContext(size: nat, cs: seq<seq<byte>>)
    requires Contexts(size, cs)
    ensures cs != [] ==>
              && |Flatten(cs)| >= size && Flatten(cs)[..size] == cs[0] && Flatten(cs)[size..] == Flatten(cs[1..])
              && Contexts(size, cs[1..])
  {
    if cs != [] {
      assert cs[0] in cs;
      assert forall c <- cs[1..] :: c in cs;
    }
  }

  /** The read that completes a context. */
  lemma CompletesContext(size: nat, m: seq<byte>, b: seq<byte>, rest: seq<byte>, cs: seq<seq<byte>>)
    requires size > 0 && |m| + |b| == size && Contexts(size, cs) && m + b + rest == Flatten(cs)
    ensures cs != [] && m + b == cs[0] && rest == Flatten(cs[1..])
  {
    FirstContext(size, cs);
    assert (m + b + rest)[..size] == m + b && (m + b + rest)[size..] == rest;
  }

  /** From the middle of a context on: reads that cross no boundary process exactly the contexts sent. */
  lemma {:induction false} AlignedProcesses(size: nat, l: Loopback, chunks: seq<seq<byte>>, cs: seq<seq<byte>>)
    requires size > 0 && |l.m| < size && NonEmpty(chunks) && Contexts(size, cs)
    requires l.m + Flatten(chunks) == Flatten(cs) && Aligned(size, size - |l.m|, chunks)
    ensures AbsorbAll(size, l, chunks) == Loopback([], l.processed + cs)
    decreases |chunks|
  {
    FirstContext(size, cs);
    if chunks == [] {
      assert cs == [] && l.processed + cs == l.processed && l.m == [];
    } else {
      var b, rest := chunks[0], chunks[1..];
      assert forall x <- rest :: x in chunks;
      Regroup(l.m, b, Flatten(rest));
      if |b| == size - |l.m| {
        CompletesContext(size, l.m, b, Flatten(rest), cs);
        assert [] + Flatten(rest) == Flatten(cs[1..]);
        AlignedProcesses(size, Absorb(size, l, b), rest, cs[1..]);
        Regroup(l.processed, [cs[0]], cs[1..]);
        assert [cs[0]] + cs[1..] == cs;
      } else {
        AlignedProcesses(size, Absorb(size, l, b), rest, cs);
      }
    }
  }

  lemma {:induction false} MisalignedStalls(size: nat, l: Loopback, chunks: seq<seq<byte>>)
    requires size > 0 && |l.m| < size && NonEmpty(chunks) && !Aligned(size, size - |l.m|, chunks)
    ensures |AbsorbAll(size, l, chunks).m| > size
    decreases |chunks|
  {
    var b, rest := chunks[0], chunks[1..];
    assert forall x <- rest :: x in chunks;
    var l' := Absorb(size, l, b);
    if |b| > size - |l.m| {
      OvershootStalls(size, l', rest);
    } else {
      MisalignedStalls(size, l', rest);
    }
  }

  /**
   Every context sent is processed once, in order, and nothing is left over, if and only if no read crosses a
   boundary.
   */
  lemma ProcessedIffAligned(size: nat, chunks: seq<seq<byte>>, cs: seq<seq<byte>>)
    requires size > 0 && NonEmpty(chunks) && Contexts(size, cs) && Flatten(chunks) == Flatten(cs)
    ensures AbsorbAll(size, Loopback([], []), chunks) == Loopback([], cs) <==> Aligned(size, size, chunks)
  {
    assert [] + Flatten(chunks) == Flatten(cs);
    if Aligned(size, size, chunks) {
      AlignedProcesses(size, Loopback([], []), chunks, cs);
      assert [] + cs == cs;
    } else {
      MisalignedStalls(size, Loopback([], []), chunks);
    }
  }

  /** Reads of one context at a time: `parts[i]` are the reads that carry `cs[i]`, all before the next is queued. */
  predicate OneAtATime(parts: seq<seq<seq<byte>>>, cs: seq<seq<byte>>) {
    |parts| == |cs| && forall i :: 0 <= i < |cs| ==> Flatten(parts[i]) == cs[i] && NonEmpty(parts[i])
  }

  lemma OneContext(size: nat, l: Loopback, part: seq<seq<byte>>, c: seq<byte>)
    requires size > 0 && l.m == [] && |c| == size && Flatten(part) == c && NonEmpty(part)
    ensures AbsorbAll(size, l, part) == Loopback([], l.processed + [c])
  {
    PartsAligned(size, size, part);
    FlattenOne(c);
    assert l.m + Flatten(part) == Flatten([c]);
    AlignedProcesses(size, l, part, [c]);
  }

  /**
   However each context is cut into reads, one that is queued only after the last was processed is processed itself.
   */
  lemma {:induction false} OneAtATimeProcesses(size: nat, l: Loopback, parts: seq<seq<seq<byte>>>, cs: seq<seq<byte>>)
    requires size > 0 && l.m == [] && Contexts(size, cs) && OneAtATime(parts, cs)
    ensures AbsorbAll(size, l, Flatten(parts)) == Loopback([], l.processed + cs)
    decreases |cs|
  {
    if cs == [] {
      assert l.processed + cs == l.processed;
    } else {
      FirstContext(size, cs);
      assert cs[0] in cs;
      OneContext(size, l, parts[0], cs[0]);
      AbsorbConcat(size, l, parts[0], Flatten(parts[1..]));
      OneAtATimeProcesses(size, Loopback([], l.processed + [cs[0]]), parts[1..], cs[1..]);
      Regroup(l.processed, [cs[0]], cs[1..]);
      assert [cs[0]] + cs[1..] == cs;
    }
  }

  lemma {:induction false} PartsAligned(size: nat, room: nat, chunks: seq<seq<byte>>)
    requires NonEmpty(chunks) && |Flatten(chunks)| <= room && size > 0
    ensures Aligned(size, room, chunks)
    decreases |chunks|
  {
    if chunks != [] {
      assert forall x <- chunks[1..] :: x in chunks;
      if |chunks[0]| < room {
        PartsAligned(size, room - |chunks[0]|, chunks[1..]);
      } else {
        SomethingLeft(chunks[1..]);
      }
    }
  }

  lemma SomethingLeft(chunks: seq<seq<byte>>)
    requires NonEmpty(chunks)
    ensures Flatten(chunks) == [] <==> chunks == []
  {
    if chunks != [] {
      assert chunks[0] in chunks;
    }
  }

  lemma {:induction false} AbsorbConcat(size: nat, l: Loopback, a: seq<seq<byte>>, b: seq<seq<byte>>)
    ensures AbsorbAll(size, l, a + b) == AbsorbAll(size, AbsorbAll(size, l, a), b)
    decreases |a|
  {
    if a == [] {
      assert a + b == b;
    } else {
      assert (a + b)[1..] == a[1..] + b;
      AbsorbConcat(size, Absorb(size, l, a[0]), a[1..], b);
    }
  }
}
