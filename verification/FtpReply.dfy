/**
 Where an FTP reply ends (CProtocolFTP::IsMessageComplete), against the single- and multi-line
 replies of section 4.2 of RFC 959.
 */
module FtpReply {
  import opened Wrappers
  import opened Bytes
  import opened Framing

  const CRLF: seq<byte> := [CR, LF]

  ghost predicate EndsWithCrLf(b: seq<byte>) {
    |b| >= 2 && b[|b| - 2] == CR && b[|b| - 1] == LF
  }

  /** The three bytes that open the message, followed by a space. */
  function Terminator(b: seq<byte>): (t: seq<byte>)
    requires |b| >= 3
    ensures |t| == 4
  {
    b[..3] + [SP]
  }

  /** The buffer ends a line, and "code space" occurs in it. */
  predicate IsComplete(b: seq<byte>) {
    |b| >= 4 && b[|b| - 2] == CR && b[|b| - 1] == LF && Occurs(b, Terminator(b))
  }

  /** The bytes in memory behind a buffer. */
  type Margin = x: seq<byte> | |x| == 3 witness [0, 0, 0]

  /** What lies behind a buffer when it is tested, which may depend on where the protocol has come to. */
  type Memory<!P> = (P, seq<byte>) -> Margin

  /** The scan as written: it compares four bytes at every start, so it looks up to three bytes past the end. */
  predicate ScanFinds(b: seq<byte>, beyond: Margin) {
    && |b| >= 4 && b[|b| - 2] == CR && b[|b| - 1] == LF
    && exists i: nat :: i < |b| && OccursAt(b + beyond, Terminator(b), i)
  }

  /** IsMessageComplete over the memory that follows the buffer. */
  method IsMessageComplete(b: seq<byte>, beyond: Margin) returns (complete: bool)
    ensures complete <==> ScanFinds(b, beyond)
  {
    var l := |b|;
    if l >= 4 {
      if b[l - 2] == CR && b[l - 1] == LF {
        var code := b[..3] + [SP];
        for i := 0 to l
          invariant forall j: nat :: j < i ==> !OccursAt(b + beyond, code, j)
        {
          if (b + beyond)[i..i + 4] == code {
            assert OccursAt(b + beyond, Terminator(b), i);
            return true;
          }
        }
      }
    }
    return false;
  }

  /** If the code holds no line-end bytes, what lies past the buffer never matters. */
  lemma ScanStaysInside(b: seq<byte>, beyond: Margin)
    requires |b| >= 2 ==> b[0] != CR && b[0] != LF && b[1] != CR
    ensures ScanFinds(b, beyond) <==> IsComplete(b)
  {
    if |b| >= 4 && EndsWithCrLf(b) {
      var t, m := Terminator(b), b + beyond;
      forall i: nat | i < |b| ensures OccursAt(m, t, i) <==> OccursAt(b, t, i) {
        if i + 4 <= |b| {
          assert m[i..i + 4] == b[i..i + 4];
        } else {
          assert m[i..i + 4][0] == b[i] && t[0] == b[0] && t[1] == b[1];
          if i == |b| - 3 { assert m[i..i + 4][1] == b[i + 1] == CR; }
        }
      }
      if IsComplete(b) {
        var i: nat :| i <= |b| && OccursAt(b, t, i);
        assert OccursAt(m, t, i);
      }
      if ScanFinds(b, beyond) {
        var i: nat :| i < |b| && OccursAt(m, t, i);
        assert OccursAt(b, t, i);
      }
    }
  }

  // -------- Replies --------

  /** A reply: its code, the lines before the last one (none in a single-line reply), and the last line's text. */
  datatype Reply = Reply(code: seq<byte>, before: seq<seq<byte>>, last: seq<byte>)

  predicate IsLineText(s: seq<byte>) {
    forall i :: 0 <= i < |s| - 1 ==> !(s[i] == CR && s[i + 1] == LF)
  }

  predicate WellFormed(r: Reply) {
    && |r.code| == 3 && (forall d <- r.code :: IsDigit(d))
    && (forall line <- r.before :: IsLineText(line)) && IsLineText(r.last)
  }

  function Lines(texts: seq<seq<byte>>): (b: seq<byte>)
    ensures texts != [] ==> |b| >= 2 && b[|b| - 2..] == CRLF
  {
    if texts == [] then [] else Lines(texts[..|texts| - 1]) + texts[|texts| - 1] + CRLF
  }

  /** Everything before the last line: "code-" and the lines, each ended by CRLF. */
  function Head(r: Reply): seq<byte> {
    if r.before == [] then [] else r.code + [DASH] + Lines(r.before)
  }

  function LastLine(r: Reply): seq<byte> {
    r.code + [SP] + r.last + CRLF
  }

  function Encode(r: Reply): seq<byte> {
    Head(r) + LastLine(r)
  }

  /** "code space" turns up before the last line. */
  ghost predicate EndsEarly(r: Reply) {
    Occurs(Head(r), r.code + [SP])
  }

  /** `beyond` is what memory holds behind each buffer. */
  function FtpFramer<P>(handle: (P, seq<byte>) -> P, beyond: Memory<P>): Framer<P, seq<byte>> {
    Framer((p: P, b: seq<byte>) => if ScanFinds(b, beyond(p, b)) then Some(b) else None, handle)
  }

  lemma EncodeShape(r: Reply)
    requires WellFormed(r)
    ensures var m := Encode(r);
            && |m| >= 6 && Terminator(m) == r.code + [SP] && EndsWithCrLf(m)
            && OccursAt(m, r.code + [SP], |Head(r)|)
            && (Head(r) != [] ==> |Head(r)| >= 6 && EndsWithCrLf(Head(r)) && Head(r)[..3] == r.code)
  {
    var m := Encode(r);
    assert LastLine(r)[..4] == r.code + [SP];
    assert m[|Head(r)|..] == LastLine(r);
    assert m[|Head(r)|..|Head(r)| + 4] == LastLine(r)[..4];
    if Head(r) != [] {
      assert Head(r)[..3] == r.code;
      assert Head(r)[|Head(r)| - 2..] == Lines(r.before)[|Lines(r.before)| - 2..];
      assert m[..3] == r.code;
    }
  }

  /** No proper prefix of the last line ends a line. */
  lemma LastLineEndsOnce(r: Reply, k: nat)
    requires WellFormed(r) && 0 < k < |LastLine(r)|
    ensures LastLine(r)[k - 1] == LF ==> k >= 2 && LastLine(r)[k - 2] != CR
  {
    var l := LastLine(r);
    assert l == r.code + [SP] + r.last + CRLF;
    if k <= 3 {
      assert IsDigit(r.code[k - 1]);
    } else if k >= 6 && k < |l| - 1 {
      assert l[k - 1] == r.last[k - 5] && l[k - 2] == r.last[k - 6];
    }
  }

  /** A prefix that ends inside the last line does not end in CRLF. */
  lemma InLastLine(r: Reply, k: nat)
    requires WellFormed(r) && |Head(r)| < k < |Encode(r)|
    ensures !EndsWithCrLf(Encode(r)[..k])
  {
    var m, h, l := Encode(r), |Head(r)|, LastLine(r);
    assert m == Head(r) + l;
    LastLineEndsOnce(r, k - h);
    assert m[..k][k - 1] == l[k - h - 1];
    if k - h >= 2 {
      assert m[..k][k - 2] == l[k - h - 2];
    }
  }

  lemma PrefixIsIncomplete(r: Reply, k: nat)
    requires WellFormed(r) && !EndsEarly(r) && k < |Encode(r)|
    ensures !IsComplete(Encode(r)[..k])
  {
    var m, h := Encode(r), |Head(r)|;
    var b := m[..k];
    EncodeShape(r);
    if k > h {
      InLastLine(r, k);
    } else if IsComplete(b) {
      assert Terminator(b) == r.code + [SP];
      assert b == Head(r)[..k];
      OccursInPrefix(Head(r), r.code + [SP], k);
      assert false;
    }
  }

  /** On the beginning of a reply the scan finds what the search inside the buffer finds. */
  lemma ScanOfPrefix(r: Reply, k: nat, beyond: Margin)
    requires WellFormed(r) && k <= |Encode(r)|
    ensures ScanFinds(Encode(r)[..k], beyond) <==> IsComplete(Encode(r)[..k])
  {
    var m := Encode(r);
    EncodeShape(r);
    assert m[0] == Terminator(m)[0] == r.code[0] && m[1] == Terminator(m)[1] == r.code[1];
    assert IsDigit(r.code[0]) && IsDigit(r.code[1]);
    ScanStaysInside(m[..k], beyond);
  }

  /** A reply is framed exactly if and only if "code space" does not occur before its last line. */
  lemma ExactIffNotEarly<P>(handle: (P, seq<byte>) -> P, beyond: Memory<P>, p: P, r: Reply)
    requires WellFormed(r)
    ensures Exact(FtpFramer(handle, beyond), p, Encode(r), Encode(r)) <==> !EndsEarly(r)
  {
    var f, m := FtpFramer(handle, beyond), Encode(r);
    EncodeShape(r);
    assert m[..|m|] == m && IsComplete(m);
    ScanOfPrefix(r, |m|, beyond(p, m));
    var m' := m[..|m| - 1];
    if EndsEarly(r) {
      var h := Head(r);
      assert m'[..|h|] == h && m[..|h|] == h && IsComplete(h);
      ScanOfPrefix(r, |h|, beyond(p, h));
      assert f.complete(p, m'[..|h|]).Some?;
    } else {
      forall k: nat | 0 < k <= |m'| ensures f.complete(p, m'[..k]).None? {
        PrefixIsIncomplete(r, k);
        assert m'[..k] == m[..k];
        ScanOfPrefix(r, k, beyond(p, m[..k]));
      }
    }
  }

  function EncodeAll(rs: seq<Reply>): seq<seq<byte>> {
    if rs == [] then [] else [Encode(rs[0])] + EncodeAll(rs[1..])
  }

  function HandleAll<P>(handle: (P, seq<byte>) -> P, p: P, ms: seq<seq<byte>>): P
    decreases |ms|
  {
    if ms == [] then p else HandleAll(handle, handle(p, ms[0]), ms[1..])
  }

  ghost predicate NoneEarly(rs: seq<Reply>) {
    forall r <- rs :: !EndsEarly(r)
  }

  lemma NoneEarlyFirst(rs: seq<Reply>)
    requires rs != []
    ensures NoneEarly(rs) <==> !EndsEarly(rs[0]) && NoneEarly(rs[1..])
  {
    assert rs == [rs[0]] + rs[1..];
  }

  lemma DecomposesFirst<P>(handle: (P, seq<byte>) -> P, beyond: Memory<P>, p: P, ms: seq<seq<byte>>)
    requires ms != []
    ensures var f := FtpFramer(handle, beyond);
            Decomposes(f, p, ms, [])
            <==> Exact(f, p, ms[0], ms[0]) && Decomposes(f, handle(p, ms[0]), ms[1..], [])
  {
    var f := FtpFramer(handle, beyond);
    if Decomposes(f, p, ms, []) {
      var m :| Exact(f, p, ms[0], m) && Decomposes(f, f.handle(p, m), ms[1..], []);
      assert m == ms[0];
    }
  }

  lemma {:induction false} DecomposesIffNoneEarly<P>(handle: (P, seq<byte>) -> P, beyond: Memory<P>,
                                                    p: P, rs: seq<Reply>)
    requires forall r <- rs :: WellFormed(r)
    ensures Decomposes(FtpFramer(handle, beyond), p, EncodeAll(rs), []) <==> NoneEarly(rs)
    decreases |rs|
  {
    if rs != [] {
      var ms := EncodeAll(rs);
      assert ms[1..] == EncodeAll(rs[1..]);
      DecomposesIffNoneEarly(handle, beyond, handle(p, ms[0]), rs[1..]);
      DecomposesFirst(handle, beyond, p, ms);
      NoneEarlyFirst(rs);
      ExactIffNotEarly(handle, beyond, p, rs[0]);
    }
  }

  lemma {:induction false} DecomposesHandled<P>(handle: (P, seq<byte>) -> P, beyond: Memory<P>,
                                               p: P, ms: seq<seq<byte>>)
    requires Decomposes(FtpFramer(handle, beyond), p, ms, [])
    ensures Framed(FtpFramer(handle, beyond), p, ms, ms, HandleAll(handle, p, ms))
    decreases |ms|
  {
    if ms != [] {
      DecomposesHandled(handle, beyond, handle(p, ms[0]), ms[1..]);
    }
  }

  /**
   For every series of replies and every cut of its bytes into reads: the replies come out one by one, leaving
   nothing behind, if and only if no reply has "code space" before its last line. Then the state machine has
   been run on exactly those replies, in order.
   */
  lemma RepliesFramed<P>(handle: (P, seq<byte>) -> P, beyond: Memory<P>, p: P, rs: seq<Reply>, chunks: seq<seq<byte>>)
    requires forall r <- rs :: WellFormed(r)
    requires Flatten(chunks) == Flatten(EncodeAll(rs))
    ensures var end := FeedAll(FtpFramer(handle, beyond), Link(p, [], [], []), chunks);
            && ((end.notified == EncodeAll(rs) && end.buffer == []) <==> NoneEarly(rs))
            && (NoneEarly(rs) ==>
                  end.messages == EncodeAll(rs) && end.protocol == HandleAll(handle, p, EncodeAll(rs)))
  {
    var f, ms := FtpFramer(handle, beyond), EncodeAll(rs);
    assert Flatten(ms) + [] == Flatten(ms);
    EmitsIffDecomposes(f, p, chunks, ms, []);
    DecomposesIffNoneEarly(handle, beyond, p, rs);
    if NoneEarly(rs) {
      DecomposesHandled(handle, beyond, p, ms);
      var c: Link<P, seq<byte>> := Link(p, [], [], []);
      FeedComplete(f, c, ms, ms, HandleAll(handle, p, ms), []);
      ChunkIndependence(f, c, chunks);
      assert [] + ms == ms;
    }
  }

  /** A legal reply that is cut short: "211-a", "x 211 b", "211 end". */
  lemma EarlyEndExists()
    ensures var r := Reply([50, 49, 49], [[97], [120, 32, 50, 49, 49, 32, 98]], []);
            WellFormed(r) && EndsEarly(r)
  {
    var r := Reply([50, 49, 49], [[97], [120, 32, 50, 49, 49, 32, 98]], []);
    assert Lines([[97]]) == [97] + CRLF by {
      assert Lines([[97]][..0]) == [];
    }
    assert r.before[..1] == [[97]];
    assert Head(r) == [50, 49, 49, DASH, 97, CR, LF, 120, 32, 50, 49, 49, 32, 98, CR, LF];
    assert OccursAt(Head(r), r.code + [SP], 9);
  }
}
