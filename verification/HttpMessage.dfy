/**
 The header part of CHTTPMessage::ParseMessage and CProtocolHTTP::IsMessageComplete. What the source computes
 from a "Content-Length" text is left open: it is the parameter `bodyLength`, and nothing is claimed about it.
 */
module HttpMessage {
  import opened Bytes

  type Headers = map<seq<byte>, seq<byte>>

  const LINE_END: seq<byte> := [CR, LF]
  const HEAD_END: seq<byte> := [CR, LF, CR, LF]
  const SEPARATOR: seq<byte> := [COLON, SP]

  const CONTENT_LENGTH := Ascii("Content-Length")

  /** std::string::find: the first position at which `pattern` occurs, or |b|. */
  function Find(b: seq<byte>, pattern: seq<byte>): (r: nat)
    requires pattern != []
    ensures r <= |b|
    ensures r < |b| ==> OccursAt(b, pattern, r)
    ensures forall i: nat :: i < r ==> !OccursAt(b, pattern, i)
  {
    FindFrom(b, pattern, 0)
  }

  function FindFrom(b: seq<byte>, pattern: seq<byte>, start: nat): (r: nat)
    requires pattern != [] && start <= |b|
    requires forall i: nat :: i < start ==> !OccursAt(b, pattern, i)
    ensures r <= |b|
    ensures r < |b| ==> OccursAt(b, pattern, r)
    ensures forall i: nat :: i < r ==> !OccursAt(b, pattern, i)
    decreases |b| - start
  {
    if start == |b| || OccursAt(b, pattern, start) then start else FindFrom(b, pattern, start + 1)
  }

  function DropLast(line: seq<byte>): seq<byte> {
    if line == [] then [] else line[..|line| - 1]
  }

  /** A line that holds ": " sets a header; a later one of the same name replaces it. */
  function AddHeader(h: Headers, line: seq<byte>): Headers {
    var index := Find(line, SEPARATOR);
    if index < |line| then h[line[..index] := line[index + 2..]] else h
  }

  /** The first line, without its LF and the byte before that (the CR). */
  function FirstLine(b: seq<byte>): seq<byte> {
    DropLast(b[..Find(b, [LF])])
  }

  /** What follows the first LF. */
  function AfterLine(b: seq<byte>): (r: seq<byte>)
    requires b != []
    ensures |r| < |b|
  {
    var end := Find(b, [LF]);
    if end < |b| then b[end + 1..] else []
  }

  function ReadLines(b: seq<byte>, h: Headers): Headers
    decreases |b|
  {
    if b == [] then h else ReadLines(AfterLine(b), AddHeader(h, FirstLine(b)))
  }

  /** The header section has arrived, and the body too if one is announced. */
  predicate HasHead(b: seq<byte>, bodyLength: seq<byte> -> nat) {
    && Find(b, LINE_END) < |b| && Find(b, HEAD_END) < |b|
    && (Find(b, CONTENT_LENGTH) < |b| && bodyLength(b) != 0 ==> |b| == Find(b, HEAD_END) + 4 + bodyLength(b))
  }

  function HeadersOf(b: seq<byte>, bodyLength: seq<byte> -> nat): Headers {
    if HasHead(b, bodyLength) then ReadLines(b, map[]) else map[]
  }

  method ParseMessage(message: seq<byte>, bodyLength: seq<byte> -> nat) returns (iHeaders: Headers)
    ensures iHeaders == HeadersOf(message, bodyLength)
  {
    iHeaders := map[];
    var firstLineReceived, headersReceived, bodyReceived, length := false, false, false, 0;
    if Find(message, LINE_END) < |message| {
      firstLineReceived := true;
      var endOfHeaders := Find(message, HEAD_END);
      if endOfHeaders < |message| {
        headersReceived := true;
        if Find(message, CONTENT_LENGTH) < |message| {
          length := bodyLength(message);
          if length != 0 {
            bodyReceived := |message| == endOfHeaders + 4 + length;
          }
        }
      }
    }
    if firstLineReceived && headersReceived && (length != 0 ==> bodyReceived) {
      iHeaders := ParseLines(message);
    }
  }

  /** The loop over the lines of the message. */
  method ParseLines(message: seq<byte>) returns (iHeaders: Headers)
    ensures iHeaders == ReadLines(message, map[])
  {
    iHeaders := map[];
    var rest := message;
    while rest != []
      invariant ReadLines(message, map[]) == ReadLines(rest, iHeaders)
      decreases |rest|
    {
      iHeaders := ParseLine(FirstLine(rest), iHeaders);
      rest := AfterLine(rest);
    }
  }

  method ParseLine(line: seq<byte>, headers: Headers) returns (iHeaders: Headers)
    ensures iHeaders == AddHeader(headers, line)
  {
    iHeaders := headers;
    var index := Find(line, SEPARATOR);
    if index < |line| {
      var key, value := line[..index], line[index + 2..];
      iHeaders := iHeaders[key := value];
    }
  }

  // -------- Requests --------

  /** A request without a body: its first line and its header fields. */
  datatype Request = Request(line: seq<byte>, fields: seq<(seq<byte>, seq<byte>)>)

  predicate NoLineBreak(s: seq<byte>) {
    forall x <- s :: x != CR && x != LF
  }

  predicate WellFormed(r: Request) {
    && NoLineBreak(r.line) && !Occurs(r.line, SEPARATOR)
    && (forall f <- r.fields :: NoLineBreak(f.0) && NoLineBreak(f.1) && COLON !in f.0)
  }

  /** Announces no body. */
  predicate ValidRequest(r: Request) {
    WellFormed(r) && !Occurs(Encode(r), CONTENT_LENGTH)
  }

  function FieldLine(f: (seq<byte>, seq<byte>)): seq<byte> {
    f.0 + SEPARATOR + f.1
  }

  function FieldLines(fields: seq<(seq<byte>, seq<byte>)>): seq<byte> {
    if fields == [] then [] else FieldLine(fields[0]) + LINE_END + FieldLines(fields[1..])
  }

  function Encode(r: Request): seq<byte> {
    r.line + LINE_END + FieldLines(r.fields) + LINE_END
  }

  /** The fields as a map, later ones winning. */
  function FieldMap(fields: seq<(seq<byte>, seq<byte>)>, h: Headers): Headers {
    if fields == [] then h else FieldMap(fields[1..], h[fields[0].0 := fields[0].1])
  }

  lemma {:induction false} FieldMapKeys(fields: seq<(seq<byte>, seq<byte>)>, h: Headers)
    ensures h.Keys <= FieldMap(fields, h).Keys
    ensures fields != [] ==> FieldMap(fields, h) != map[]
  {
    if fields != [] {
      var h' := h[fields[0].0 := fields[0].1];
      assert fields[0].0 in h'.Keys;
      FieldMapKeys(fields[1..], h');
    }
  }

  // -------- Where the head ends --------

  /** A line without breaks, its CRLF, and a rest that neither starts with CRLF nor holds CRLFCRLF: no CRLFCRLF. */
  lemma NoHeadEndAcross(text: seq<byte>, rest: seq<byte>)
    requires NoLineBreak(text) && !Occurs(rest, HEAD_END)
    requires |rest| >= 2 ==> rest[0] != CR
    ensures !Occurs(text + LINE_END + rest, HEAD_END)
  {
    var b := text + LINE_END + rest;
    forall i: nat | i <= |b| ensures !OccursAt(b, HEAD_END, i) {
      if i + 4 <= |b| {
        var w := b[i..i + 4];
        assert w[0] == b[i] && w[2] == b[i + 2];
        if i < |text| {
          assert text[i] in text;
        } else if i >= |text| + 2 {
          var j := i - |text| - 2;
          assert rest[j..j + 4] == w;
          assert !OccursAt(rest, HEAD_END, j);
        }
      }
    }
  }

  lemma {:induction false} NoHeadEndInFields(fields: seq<(seq<byte>, seq<byte>)>)
    requires forall f <- fields :: NoLineBreak(f.0) && NoLineBreak(f.1)
    ensures var b := FieldLines(fields) + [CR];
            !Occurs(b, HEAD_END) && (|b| >= 2 ==> b[0] != CR)
  {
    if fields != [] {
      var f := fields[0];
      NoHeadEndInFields(fields[1..]);
      var rest := FieldLines(fields[1..]) + [CR];
      forall x <- FieldLine(f) ensures x != CR && x != LF {
        assert x in f.0 || x in SEPARATOR || x in f.1;
      }
      NoHeadEndAcross(FieldLine(f), rest);
      assert FieldLines(fields) + [CR] == FieldLine(f) + LINE_END + rest;
      assert (FieldLines(fields) + [CR])[0] == FieldLine(f)[0];
      assert FieldLine(f)[0] in FieldLine(f);
    }
  }

  lemma NotFound(b: seq<byte>, pattern: seq<byte>, k: nat)
    requires pattern != [] && k <= |b| && !Occurs(b, pattern)
    ensures Find(b[..k], pattern) == k
  {
    var r := Find(b[..k], pattern);
    if r < k {
      assert OccursAt(b[..k], pattern, r);
      OccursInPrefix(b, pattern, k);
    }
  }

  lemma {:induction false} FieldLinesEnd(fields: seq<(seq<byte>, seq<byte>)>)
    ensures var b := LINE_END + FieldLines(fields);
            b[|b| - 2..] == LINE_END
  {
    if fields != [] {
      var tail := LINE_END + FieldLines(fields[1..]);
      FieldLinesEnd(fields[1..]);
      var b := LINE_END + FieldLines(fields);
      assert b == LINE_END + FieldLine(fields[0]) + tail;
      assert b[|b| - 2..] == tail[|tail| - 2..];
    }
  }

  lemma NoEarlierHeadEnd(r: Request)
    requires WellFormed(r)
    ensures var m := Encode(r);
            |m| >= 4 && !Occurs(m[..|m| - 1], HEAD_END)
  {
    var m := Encode(r);
    NoHeadEndInFields(r.fields);
    NoHeadEndAcross(r.line, FieldLines(r.fields) + [CR]);
    assert m[..|m| - 1] == r.line + LINE_END + (FieldLines(r.fields) + [CR]);
  }

  lemma EndsWith(a: seq<byte>, b: seq<byte>)
    ensures OccursAt(a + b, b, |a|) && |a| <= |a + b|
  {
    assert (a + b)[|a|..|a| + |b|] == b;
  }

  /** The blank line that ends the head is the last thing in the request, and occurs nowhere earlier. */
  lemma HeadEndsAtEnd(r: Request)
    requires WellFormed(r)
    ensures var m := Encode(r);
            |m| >= 4 && !Occurs(m[..|m| - 1], HEAD_END) && OccursAt(m, HEAD_END, |m| - 4) && Occurs(m, LINE_END)
  {
    NoEarlierHeadEnd(r);
    FieldLinesEnd(r.fields);
    var b := LINE_END + FieldLines(r.fields);
    var start := r.line + b[..|b| - 2];
    assert b == b[..|b| - 2] + LINE_END;
    assert LINE_END + LINE_END == HEAD_END;
    assert Encode(r) == start + HEAD_END;
    EndsWith(start, HEAD_END);
    EndsWith(start + LINE_END, LINE_END);
    assert Encode(r) == start + LINE_END + LINE_END;
  }

  lemma PrefixHasNoHead(r: Request, k: nat, bodyLength: seq<byte> -> nat)
    requires WellFormed(r) && k < |Encode(r)|
    ensures !HasHead(Encode(r)[..k], bodyLength) && HeadersOf(Encode(r)[..k], bodyLength) == map[]
  {
    var m := Encode(r);
    HeadEndsAtEnd(r);
    var m' := m[..|m| - 1];
    assert m'[..k] == m[..k];
    NotFound(m', HEAD_END, k);
  }

  lemma FoundAt(b: seq<byte>, pattern: seq<byte>, i: nat)
    requires pattern != [] && OccursAt(b, pattern, i)
    ensures Find(b, pattern) <= i && Find(b, pattern) < |b|
  {
  }

  lemma FoundInside(b: seq<byte>, pattern: seq<byte>, k: nat)
    requires pattern != [] && k <= |b| && Occurs(b[..k], pattern)
    ensures Find(b, pattern) < |b|
  {
    OccursInPrefix(b, pattern, k);
    var i: nat :| i <= |b| && OccursAt(b, pattern, i);
    FoundAt(b, pattern, i);
  }

  /** In what follows a head its blank line is still the first. */
  lemma HeadFound(r: Request, m: seq<byte>)
    requires WellFormed(r) && Encode(r) <= m
    ensures |Encode(r)| >= 4 && Find(m, HEAD_END) == |Encode(r)| - 4 < |m| && Find(m, LINE_END) < |m|
  {
    var head := Encode(r);
    var n := |head| - 4;
    HeadEndsAtEnd(r);
    assert m[..|head|] == head;
    FoundInside(m, LINE_END, |head|);
    assert m[n..n + 4] == head[n..n + 4];
    FoundAt(m, HEAD_END, n);
    var i := Find(m, HEAD_END);
    if i < n {
      assert head[..|head| - 1][i..i + 4] == m[i..i + 4];
      assert OccursAt(head[..|head| - 1], HEAD_END, i);
    }
  }

  /**
   A request that announces its body: of all its beginnings only the whole, head and body, counts as arrived, if the
   number read is the body's length.
   */
  lemma BodyCompletes(r: Request, body: seq<byte>, k: nat, bodyLength: seq<byte> -> nat)
    requires WellFormed(r) && Occurs(Encode(r), Ascii("Content-Length")) && body != [] && k <= |Encode(r) + body|
    requires bodyLength((Encode(r) + body)[..k]) == |body|
    ensures HasHead((Encode(r) + body)[..k], bodyLength) <==> k == |Encode(r) + body|
  {
    var head := Encode(r);
    var b := (head + body)[..k];
    if k < |head| {
      PrefixHasNoHead(r, k, bodyLength);
      assert b == head[..k];
    } else {
      assert b[..|head|] == head;
      HeadFound(r, b);
      FoundInside(b, CONTENT_LENGTH, |head|);
    }
  }

  // -------- What the lines say --------

  lemma FindHere(b: seq<byte>, pattern: seq<byte>, i: nat)
    requires pattern != [] && i < |b| && OccursAt(b, pattern, i)
    requires forall j: nat :: j < i ==> !OccursAt(b, pattern, j)
    ensures Find(b, pattern) == i
  {
  }

  lemma ReadOneLine(text: seq<byte>, rest: seq<byte>, h: Headers)
    requires NoLineBreak(text)
    ensures ReadLines(text + LINE_END + rest, h) == ReadLines(rest, AddHeader(h, text))
  {
    var b, end := text + LINE_END + rest, |text| + 1;
    forall j: nat | j < end ensures !OccursAt(b, [LF], j) {
      assert j < |text| ==> text[j] in text;
      assert b[j..j + 1][0] == b[j];
    }
    assert b[end..end + 1] == [LF];
    FindHere(b, [LF], end);
    assert DropLast(b[..end]) == text;
    assert b[end + 1..] == rest;
  }

  lemma AddField(h: Headers, f: (seq<byte>, seq<byte>))
    requires COLON !in f.0
    ensures AddHeader(h, FieldLine(f)) == h[f.0 := f.1]
  {
    var l, n := FieldLine(f), |f.0|;
    forall j: nat | j < n ensures !OccursAt(l, SEPARATOR, j) {
      assert l[j] == f.0[j] && f.0[j] in f.0;
      assert l[j..j + 2][0] == l[j];
    }
    assert l[n..n + 2] == SEPARATOR;
    FindHere(l, SEPARATOR, n);
    assert l[..n] == f.0 && l[n + 2..] == f.1;
  }

  lemma AddNothing(h: Headers, line: seq<byte>)
    requires !Occurs(line, SEPARATOR)
    ensures AddHeader(h, line) == h
  {
    assert line[..|line|] == line;
    NotFound(line, SEPARATOR, |line|);
  }

  lemma {:induction false} ReadFields(fields: seq<(seq<byte>, seq<byte>)>, h: Headers)
    requires forall f <- fields :: NoLineBreak(f.0) && NoLineBreak(f.1) && COLON !in f.0
    ensures ReadLines(FieldLines(fields) + LINE_END, h) == FieldMap(fields, h)
    decreases |fields|
  {
    if fields == [] {
      assert FieldLines(fields) + LINE_END == [] + LINE_END + [];
      ReadOneLine([], [], h);
      forall i: nat | i <= 0 ensures !OccursAt([], SEPARATOR, i) {}
      AddNothing(h, []);
    } else {
      var f, rest := fields[0], FieldLines(fields[1..]) + LINE_END;
      forall x <- FieldLine(f) ensures x != CR && x != LF {
        assert x in f.0 || x in SEPARATOR || x in f.1;
      }
      assert FieldLines(fields) + LINE_END == FieldLine(f) + LINE_END + rest;
      ReadOneLine(FieldLine(f), rest, h);
      AddField(h, f);
      ReadFields(fields[1..], h[f.0 := f.1]);
    }
  }

  /** Printing a request and parsing it gives back its header fields. */
  lemma RequestRoundTrip(r: Request, bodyLength: seq<byte> -> nat)
    requires ValidRequest(r)
    ensures HeadersOf(Encode(r), bodyLength) == FieldMap(r.fields, map[])
  {
    var m := Encode(r);
    HeadEndsAtEnd(r);
    assert m[..|m|] == m;
    NotFound(m, CONTENT_LENGTH, |m|);
    assert HasHead(m, bodyLength);
    var rest := FieldLines(r.fields) + LINE_END;
    assert m == r.line + LINE_END + rest;
    ReadOneLine(r.line, rest, map[]);
    AddNothing(map[], r.line);
    ReadFields(r.fields, map[]);
  }
}
