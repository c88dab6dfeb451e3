/**
 What the server reads. Command lines are read back by the rules of section 5.3 of RFC 959, with a table of words of
 its own: the lines of the session are exactly the commands counted as sent, one line each, in order; and those
 commands are what the API calls asked for, each with the argument, the local file and the callback of its own call.
 */
module FtpWire {
  import opened Wrappers
  import opened Bytes
  import opened FtpModel
  import opened FtpInvariant
  import opened FtpHistory

  // -------- Reading a command line --------

  /** A command line: its word, and the argument behind one space. */
  datatype Request = Request(word: string, arg: string)

  /** The position of the first space, or the length. */
  function FirstSpace(s: string): (n: nat)
    ensures n <= |s| && (n < |s| ==> s[n] == ' ') && forall i :: 0 <= i < n ==> s[i] != ' '
  {
    if s == "" || s[0] == ' ' then 0 else 1 + FirstSpace(s[1..])
  }

  function ReadLine(line: string): Option<Request> {
    if |line| < 2 || line[|line| - 2..] != "\r\n" then None
    else
      var text := line[..|line| - 2];
      var n := FirstSpace(text);
      Some(Request(text[..n], if n < |text| then text[n + 1..] else ""))
  }

  function VerbOf(word: string): Option<Verb> {
    if word == "STOR" then Some(STOR)
    else if word == "RETR" then Some(RETR)
    else if word == "LIST" then Some(LIST)
    else if word == "PASV" then Some(PASV)
    else if word == "TYPE" then Some(TYPE)
    else if word == "PBSZ" then Some(PBSZ)
    else if word == "PROT" then Some(PROT)
    else if word == "PWD" then Some(PWD)
    else if word == "CWD" then Some(CWD)
    else if word == "MKD" then Some(MKD)
    else if word == "RMD" then Some(RMD)
    else if word == "QUIT" then Some(QUIT)
    else None
  }

  predicate LoginWord(word: string) {
    word == "AUTH" || word == "USER" || word == "PASS" || word == "ACCT"
  }

  /** The line is one of the login's. */
  predicate OfLogin(line: string) {
    ReadLine(line).Some? && LoginWord(ReadLine(line).value.word)
  }

  /** The line reads as the command: its verb and its argument. */
  predicate Reads(line: string, c: Cmd) {
    match ReadLine(line)
    case None => false
    case Some(r) => VerbOf(r.word) == Some(c.verb) && r.arg == c.remote
  }

  /** The lines that are not of the login. */
  function SessionLines(wire: seq<string>): seq<string> {
    if wire == [] then []
    else
      var last := wire[|wire| - 1];
      SessionLines(wire[..|wire| - 1]) + if OfLogin(last) then [] else [last]
  }

  /** The lines of the login, read. */
  function LoginLines(wire: seq<string>): seq<Request> {
    if wire == [] then []
    else
      var last := wire[|wire| - 1];
      LoginLines(wire[..|wire| - 1]) + if OfLogin(last) then [ReadLine(last).value] else []
  }

  ghost predicate ReadsAll(lines: seq<string>, cmds: seq<Cmd>) {
    |lines| == |cmds| && forall i :: 0 <= i < |lines| ==> Reads(lines[i], cmds[i])
  }

  lemma {:induction false} SpaceAfter(word: string, rest: string)
    requires ' ' !in word
    ensures FirstSpace(word + " " + rest) == |word|
  {
    if word == "" {
      assert word + " " + rest == " " + rest;
    } else {
      assert (word + " " + rest)[1..] == word[1..] + " " + rest;
      SpaceAfter(word[1..], rest);
    }
  }

  lemma LineReads(word: string, arg: string)
    requires ' ' !in word
    ensures ReadLine(Line(word, arg)) == Some(Request(word, arg))
  {
    var line := Line(word, arg);
    assert line == (word + " " + arg) + "\r\n";
    assert line[|line| - 2..] == "\r\n" && line[..|line| - 2] == word + " " + arg;
    SpaceAfter(word, arg);
    assert (word + " " + arg)[..|word|] == word && (word + " " + arg)[|word| + 1..] == arg;
  }

  lemma WordReads(v: Verb)
    ensures ' ' !in VerbText(v) && VerbOf(VerbText(v)) == Some(v)
    ensures !LoginWord(VerbText(v))
  {
  }

  lemma OneMoreLine(wire: seq<string>, line: string)
    ensures SessionLines(wire + [line]) == SessionLines(wire) + if OfLogin(line) then [] else [line]
    ensures LoginLines(wire + [line]) == LoginLines(wire) + if OfLogin(line) then [ReadLine(line).value] else []
  {
    assert (wire + [line])[..|wire|] == wire;
  }

  // -------- What one step writes --------

  /** Nothing is written, or one command is sent and written. */
  predicate Sends(s: Ftp, r: Ftp) {
    || (r.talk.wire == s.talk.wire && r.log.sent == s.log.sent)
    || (var n := |s.log.sent|;
        && |r.log.sent| == n + 1 && r.log.sent == s.log.sent + [r.log.sent[n]]
        && r.talk.wire == s.talk.wire + [Line(VerbText(r.log.sent[n].verb), r.log.sent[n].remote)])
  }

  /** The lines of the session are the commands sent. */
  ghost predicate Spelled(s: Ftp) {
    ReadsAll(SessionLines(s.talk.wire), s.log.sent)
  }

  lemma SentIsSpelled(s: Ftp, r: Ftp)
    requires Spelled(s) && Sends(s, r)
    ensures Spelled(r) && LoginLines(r.talk.wire) == LoginLines(s.talk.wire)
  {
    if r.log.sent != s.log.sent {
      var c := r.log.sent[|s.log.sent|];
      WordReads(c.verb);
      LineReads(VerbText(c.verb), c.remote);
      OneMoreLine(s.talk.wire, Line(VerbText(c.verb), c.remote));
    }
  }

  lemma LoginLineReads(wire: seq<string>, word: string, arg: string)
    requires LoginWord(word) && ' ' !in word
    ensures LoginLines(wire + [Line(word, arg)]) == LoginLines(wire) + [Request(word, arg)]
  {
    LineReads(word, arg);
    OneMoreLine(wire, Line(word, arg));
  }

  lemma LoginIsSpelled(s: Ftp, r: Ftp, word: string, arg: string)
    requires Spelled(s) && r.log.sent == s.log.sent && LoginWord(word) && ' ' !in word
    requires r.talk.wire == s.talk.wire + [Line(word, arg)]
    ensures Spelled(r) && LoginLines(r.talk.wire) == LoginLines(s.talk.wire) + [Request(word, arg)]
  {
    LineReads(word, arg);
    OneMoreLine(s.talk.wire, Line(word, arg));
  }

  lemma SkipSends(s: Ftp, count: nat)
    ensures Sends(s, SkipCommand(s, count))
  {
  }

  lemma DataResponseSends(s: Ftp, code: char)
    ensures Sends(s, ProcessDataCmdResponse(s, code))
  {
    if code == '1' {
      var s1 := InitializeFileDevice(s);
      assert s1.talk == s.talk && s1.log == s.log;
    } else {
      SkipSends(s, 1);
      SkipSends(ResetDevices(s), 1);
    }
  }

  lemma ResponseSends(s: Ftp, msg: seq<byte>)
    ensures Sends(s, ProcessGenCmdEvent(s, msg))
  {
    if s.ctl.q != [] {
      var s1 := NoteAnswer(RunResponse(s, s.ctl.q[0], msg), msg);
      assert s1.talk.wire == s.talk.wire && s1.log == s.log;
      SkipSends(s1, 1);
    }
  }

  /** The actions of the login that write a line. */
  predicate WritesLogin(a: Action) {
    a.CheckExplicitFTPS? || a.SendUser? || a.SendPass? || a.SendAcct?
  }

  lemma ActSends(s: Ftp, a: Action, msg: seq<byte>)
    requires !WritesLogin(a)
    ensures Sends(s, Act(s, a, msg))
  {
    match a
    case Login(ok) =>
    case SkipTwo => SkipSends(s, 2);
    case PasvResponse => SkipSends(s, 1);
    case DataResponse(code) => DataResponseSends(s, code);
    case GenResponse => ResponseSends(s, msg);
    case _ =>
  }

  lemma CallSends(s: Ftp, call: Call)
    ensures Sends(s, OnCall(s, call))
  {
    var s1 := Append(s, call);
    assert s1.talk == s.talk && s1.log.sent == s.log.sent;
  }

  /** Of the events that are not replies only the control channel's handshake writes a line of the login. */
  lemma OtherSends(s: Ftp, e: Event)
    requires !e.Reply? && !e.ControlHandshake?
    ensures Sends(s, Step(s, e))
  {
    match e
    case Api(call) => CallSends(s, call);
    case DataClosed =>
      if s.ctl.q != [] {
        DataResponseSends(NotifyEnd(s, s.ctl.q[0]), '0');
      }
    case _ =>
  }

  lemma ReplySpelled(s: Ftp, msg: seq<byte>)
    requires Spelled(s)
    ensures Spelled(OnReply(s, msg))
  {
    if !s.fault && Rule(s.ctl.state, Code(msg)).Some? {
      var (to, action) := Rule(s.ctl.state, Code(msg)).value;
      var s1 := To(s, to);
      match action
      case CheckExplicitFTPS =>
        if s.config.tls == Yes {
          LoginIsSpelled(s1, OnReply(s, msg), "AUTH", "TLS");
        } else {
          LoginIsSpelled(s1, OnReply(s, msg), "USER", s.config.user);
        }
      case SendUser => LoginIsSpelled(s1, OnReply(s, msg), "USER", s.config.user);
      case SendPass => LoginIsSpelled(s1, OnReply(s, msg), "PASS", s.config.pass);
      case SendAcct => LoginIsSpelled(s1, OnReply(s, msg), "ACCT", "");
      case _ =>
        ActSends(s1, action, msg);
        SentIsSpelled(s1, OnReply(s, msg));
    }
  }

  lemma StepSpelled(s: Ftp, e: Event)
    requires Spelled(s)
    ensures Spelled(Step(s, e))
  {
    match e
    case Reply(msg) => ReplySpelled(s, msg);
    case ControlHandshake =>
      if !s.fault && s.config.tls == Yes {
        LoginIsSpelled(s, Step(s, e), "USER", s.config.user);
      }
    case _ =>
      OtherSends(s, e);
      SentIsSpelled(s, Step(s, e));
  }

  /**
   At every moment of every run the lines on the wire that are not of the login read as the commands counted as sent:
   one line for each, in order, with the same verb and argument.
   */
  lemma {:induction false} WireIsSent(config: Config, disk: map<string, seq<byte>>, es: seq<Event>)
    ensures Spelled(Run(Init(config, disk), es))
    decreases |es|
  {
    if es != [] {
      WireIsSent(config, disk, es[..|es| - 1]);
      StepSpelled(Run(Init(config, disk), es[..|es| - 1]), es[|es| - 1]);
    }
  }

  // -------- The bytes of all lines --------

  predicate CrLfAt(s: string, i: nat) {
    i + 2 <= |s| && s[i] == '\r' && s[i + 1] == '\n'
  }

  predicate HasCrLf(s: string) {
    exists i: nat :: i < |s| && CrLfAt(s, i)
  }

  /** Where the first line ends: behind the first CRLF, or with the text. */
  function LineEnd(s: string): (n: nat)
    ensures n <= |s| && (s != "" ==> n > 0)
    ensures forall i: nat :: i + 2 < n ==> !CrLfAt(s, i)
    ensures n < |s| ==> n >= 2 && CrLfAt(s, n - 2)
  {
    if |s| < 2 then |s| else if CrLfAt(s, 0) then 2
    else
      var n := LineEnd(s[1..]);
      assert forall i: nat :: 0 < i && i + 2 < 1 + n && CrLfAt(s, i) ==> CrLfAt(s[1..], i - 1);
      1 + n
  }

  /** The stream as a server takes it apart, each line with its CRLF. */
  function SplitLines(s: string): seq<string> {
    if s == "" then [] else [s[..LineEnd(s)]] + SplitLines(s[LineEnd(s)..])
  }

  predicate Terminated(line: string) {
    |line| >= 2 && CrLfAt(line, |line| - 2)
  }

  lemma LineEndInside(line: string, rest: string)
    requires Terminated(line)
    ensures LineEnd(line + rest) == LineEnd(line)
  {
    var n, m := LineEnd(line + rest), LineEnd(line);
    assert CrLfAt(line + rest, |line| - 2);
    assert m < |line| ==> CrLfAt(line + rest, m - 2);
    assert n < m ==> CrLfAt(line, n - 2);
  }

  /** Taken apart, the lines come out if and only if none has a CRLF before its end. */
  lemma {:induction false} SplitsBackIff(lines: seq<string>)
    requires forall line <- lines :: Terminated(line)
    ensures SplitLines(Flatten(lines)) == lines <==> forall line <- lines :: LineEnd(line) == |line|
  {
    if lines != [] {
      var line, rest := lines[0], Flatten(lines[1..]);
      var n := LineEnd(line);
      assert Terminated(line);
      LineEndInside(line, rest);
      assert (line + rest)[..n] == line[..n];
      assert lines == [line] + lines[1..];
      SplitsBackIff(lines[1..]);
      if n == |line| {
        assert (line + rest)[n..] == rest;
      } else {
        assert SplitLines(line + rest)[0] == line[..n] != line;
      }
    }
  }

  /** A line that can be read is its word, a space unless the argument is missing, the argument and CRLF. */
  lemma LineShape(line: string, r: Request) returns (head: string)
    requires ReadLine(line) == Some(r) && '\r' !in r.word
    ensures line == head + r.arg + "\r\n" && '\r' !in head
  {
    var text := line[..|line| - 2];
    assert line == text + "\r\n";
    var n := FirstSpace(text);
    if n < |text| {
      head := r.word + " ";
      assert text == text[..n] + [text[n]] + text[n + 1..];
    } else {
      head := r.word;
      assert text == head + r.arg;
    }
  }

  /** Where no CRLF can begin before the argument, the line is taken whole if and only if none is in the argument. */
  lemma TailHasBreakIff(line: string, head: string, arg: string)
    requires '\r' !in head && line == head + arg + "\r\n"
    ensures Terminated(line)
    ensures LineEnd(line) == |line| <==> !HasCrLf(arg)
  {
    var k, n := |head|, LineEnd(line);
    assert forall i :: 0 <= i < |arg| ==> line[k + i] == arg[i];
    assert forall i :: 0 <= i < k ==> line[i] != '\r' by {
      forall i | 0 <= i < k ensures line[i] != '\r' {
        assert line[i] == head[i] && head[i] in head;
      }
    }
    if n < |line| {
      assert CrLfAt(line, n - 2);
      assert CrLfAt(arg, n - 2 - k);
    }
    if HasCrLf(arg) {
      var i: nat :| i < |arg| && CrLfAt(arg, i);
      assert CrLfAt(line, k + i);
    }
  }

  /** A line is taken whole if and only if its argument holds no CRLF. */
  lemma OneLineIff(line: string, r: Request)
    requires ReadLine(line) == Some(r) && '\r' !in r.word
    ensures Terminated(line)
    ensures LineEnd(line) == |line| <==> !HasCrLf(r.arg)
  {
    var head := LineShape(line, r);
    TailHasBreakIff(line, head, r.arg);
  }

  lemma {:induction false} EachLineReads(wire: seq<string>, i: nat)
    requires i < |wire|
    ensures OfLogin(wire[i]) || wire[i] in SessionLines(wire)
  {
    if i < |wire| - 1 {
      EachLineReads(wire[..|wire| - 1], i);
    }
  }

  lemma VerbsHaveNoBreak(word: string)
    requires LoginWord(word) || VerbOf(word).Some?
    ensures '\r' !in word
  {
  }

  /**
   At every moment of every run: taken apart at each CRLF, what was written comes out as the lines written if and only
   if no argument, that of a call, the name or the password, holds a CRLF.
   */
  lemma StreamReadsIff(config: Config, disk: map<string, seq<byte>>, es: seq<Event>)
    ensures var wire := Run(Init(config, disk), es).talk.wire;
            && (forall line <- wire :: ReadLine(line).Some?)
            && (SplitLines(Flatten(wire)) == wire
                <==> forall line <- wire :: !HasCrLf(ReadLine(line).value.arg))
  {
    var s := Run(Init(config, disk), es);
    var wire := s.talk.wire;
    WireIsSent(config, disk, es);
    forall line <- wire
      ensures ReadLine(line).Some? && Terminated(line)
      ensures LineEnd(line) == |line| <==> !HasCrLf(ReadLine(line).value.arg)
    {
      var k :| 0 <= k < |wire| && wire[k] == line;
      EachLineReads(wire, k);
      if !OfLogin(line) {
        var j :| 0 <= j < |SessionLines(wire)| && SessionLines(wire)[j] == line;
        assert Reads(line, s.log.sent[j]);
      }
      VerbsHaveNoBreak(ReadLine(line).value.word);
      OneLineIff(line, ReadLine(line).value);
    }
    SplitsBackIff(wire);
  }
}
